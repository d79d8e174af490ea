/** Repointing the wikilinks of a body: `[[ID]]`, `[[ID|text]]` and `[[ID#anchor]]`. */
module Wikilinks {
  import opened Text

  /** The characters that end the target part of a wikilink. */
  predicate EndsTarget(c: char) {
    c == '[' || c == ']' || c == '\n' || c == '|' || c == '#'
  }

  /** The length of the longest run of target characters at the start of a text. */
  function Run(s: string): (n: nat)
    ensures n <= |s|
    ensures n < |s| ==> EndsTarget(s[n])
    ensures forall i :: 0 <= i < n ==> !EndsTarget(s[i])
  {
    if s == "" || EndsTarget(s[0]) then 0 else 1 + Run(s[1..])
  }

  lemma RunIs(s: string, n: nat)
    requires n <= |s| && (n < |s| ==> EndsTarget(s[n]))
    requires forall i :: 0 <= i < n ==> !EndsTarget(s[i])
    ensures Run(s) == n
  {
  }

  /** A link opens here: two brackets and at least one target character. */
  predicate Opens(s: string) {
    |s| >= 2 && s[0] == '[' && s[1] == '[' && Run(s[2..]) > 0
  }

  /** The wikilink targets of a body, in order, without their surrounding blanks. */
  function Targets(s: string): seq<string>
    decreases |s|
  {
    if s == "" then []
    else if Opens(s) then
      var k := Run(s[2..]);
      [TrimSpace(s[2..2 + k])] + Targets(s[2 + k..])
    else Targets(s[1..])
  }

  /** A body with every link target cut out. */
  function Skeleton(s: string): string
    decreases |s|
  {
    if s == "" then ""
    else if Opens(s) then "[[" + Skeleton(s[2 + Run(s[2..])..])
    else [s[0]] + Skeleton(s[1..])
  }

  function Retarget(id: string, mapping: map<string, string>): string {
    if id in mapping then mapping[id] else id
  }

  /** A link whose target is renumbered gets the new id; any other link keeps its text. */
  function NewTarget(raw: string, mapping: map<string, string>): string {
    if TrimSpace(raw) in mapping then mapping[TrimSpace(raw)] else raw
  }

  function Rewrite(s: string, mapping: map<string, string>): (r: string)
    ensures r == "" <==> s == ""
    ensures s != "" ==> r[0] == s[0]
    decreases |s|
  {
    if s == "" then ""
    else if Opens(s) then
      var k := Run(s[2..]);
      "[[" + NewTarget(s[2..2 + k], mapping) + Rewrite(s[2 + k..], mapping)
    else [s[0]] + Rewrite(s[1..], mapping)
  }

  /** New ids that may stand in a link: not empty, no blanks around them, no character that ends a target. */
  predicate CleanTarget(id: string) {
    id != "" && TrimSpace(id) == id && forall i :: 0 <= i < |id| ==> !EndsTarget(id[i])
  }

  predicate CleanMapping(mapping: map<string, string>) {
    forall id :: id in mapping ==> CleanTarget(mapping[id])
  }

  function RetargetAll(ids: seq<string>, mapping: map<string, string>): seq<string> {
    if ids == [] then [] else [Retarget(ids[0], mapping)] + RetargetAll(ids[1..], mapping)
  }

  /** A link followed by text that cannot extend its target. */
  lemma LinkReads(target: string, rest: string)
    requires target != "" && (forall i :: 0 <= i < |target| ==> !EndsTarget(target[i]))
    requires rest == "" || EndsTarget(rest[0])
    ensures var s := "[[" + target + rest;
            Opens(s) && Run(s[2..]) == |target| && s[2..2 + |target|] == target && s[2 + |target|..] == rest
  {
    var s := "[[" + target + rest;
    assert s[2..] == target + rest;
    RunIs(s[2..], |target|);
  }

  lemma LinkInFront(target: string, rest: string)
    requires target != "" && (forall i :: 0 <= i < |target| ==> !EndsTarget(target[i]))
    requires rest == "" || EndsTarget(rest[0])
    ensures Targets("[[" + target + rest) == [TrimSpace(target)] + Targets(rest)
    ensures Skeleton("[[" + target + rest) == "[[" + Skeleton(rest)
  {
    LinkReads(target, rest);
    LinkUnfolds("[[" + target + rest, target, rest);
  }

  lemma LinkUnfolds(s: string, target: string, rest: string)
    requires Opens(s) && s[2..2 + Run(s[2..])] == target && s[2 + Run(s[2..])..] == rest
    ensures Targets(s) == [TrimSpace(target)] + Targets(rest)
    ensures Skeleton(s) == "[[" + Skeleton(rest)
  {
  }

  lemma TextInFront(c: char, rest: string)
    requires !Opens([c] + rest)
    ensures Targets([c] + rest) == Targets(rest)
    ensures Skeleton([c] + rest) == [c] + Skeleton(rest)
  {
    assert ([c] + rest)[1..] == rest;
  }

  /** The target of an open link and what follows it. */
  lemma OpenLink(s: string) returns (raw: string, rest: string)
    requires Opens(s)
    ensures raw == s[2..2 + Run(s[2..])] && rest == s[2 + Run(s[2..])..]
    ensures s == "[[" + raw + rest && |rest| < |s|
    ensures raw != "" && (forall i :: 0 <= i < |raw| ==> !EndsTarget(raw[i]))
    ensures rest == "" || EndsTarget(rest[0])
  {
    var k := Run(s[2..]);
    raw, rest := s[2..2 + k], s[2 + k..];
    assert raw == s[2..][..k] && rest == s[2..][k..];
  }

  /** No link opens in the rewritten text where none did before. */
  lemma StaysClosed(s: string, mapping: map<string, string>)
    requires s != "" && !Opens(s)
    ensures !Opens([s[0]] + Rewrite(s[1..], mapping))
  {
    var t := Rewrite(s[1..], mapping);
    var r := [s[0]] + t;
    if |r| >= 2 && r[0] == '[' && r[1] == '[' {
      assert t[0] == s[1];
      assert r[2..] == t[1..];
      if Opens(s[1..]) {
        assert t[1] == '[';
        assert r[2..][0] == '[';
      } else {
        assert t == [s[1]] + Rewrite(s[1..][1..], mapping);
        assert s[1..][1..] == s[2..];
        assert t[1..] == Rewrite(s[2..], mapping);
      }
    }
  }

  /** Reading the links of a rewritten body gives the old links, each repointed. */
  lemma {:induction false} RewriteRetargets(s: string, mapping: map<string, string>)
    requires CleanMapping(mapping)
    ensures Targets(Rewrite(s, mapping)) == RetargetAll(Targets(s), mapping)
    ensures Skeleton(Rewrite(s, mapping)) == Skeleton(s)
    decreases |s|
  {
    if s == "" {
    } else if Opens(s) {
      var raw, rest := OpenLink(s);
      RewriteRetargets(rest, mapping);
      LinkInFront(NewTarget(raw, mapping), Rewrite(rest, mapping));
      LinkRetargets(raw, Targets(rest), mapping);
    } else {
      RewriteRetargets(s[1..], mapping);
      StaysClosed(s, mapping);
      TextInFront(s[0], Rewrite(s[1..], mapping));
    }
  }

  lemma LinkRetargets(raw: string, ids: seq<string>, mapping: map<string, string>)
    requires CleanMapping(mapping)
    ensures RetargetAll([TrimSpace(raw)] + ids, mapping) == [TrimSpace(NewTarget(raw, mapping))] + RetargetAll(ids, mapping)
  {
    assert TrimSpace(NewTarget(raw, mapping)) == Retarget(TrimSpace(raw), mapping);
    RetargetFirst(TrimSpace(raw), ids, mapping);
  }

  lemma RetargetFirst(id: string, ids: seq<string>, mapping: map<string, string>)
    ensures RetargetAll([id] + ids, mapping) == [Retarget(id, mapping)] + RetargetAll(ids, mapping)
  {
    assert ([id] + ids)[1..] == ids;
  }

  lemma FixedLink(s: string, raw: string, rest: string, mapping: map<string, string>)
    requires Targets(s) == [TrimSpace(raw)] + Targets(rest) && forall t :: t in Targets(s) ==> t !in mapping
    ensures TrimSpace(raw) !in mapping && forall t :: t in Targets(rest) ==> t !in mapping
  {
    assert Targets(s)[0] == TrimSpace(raw);
    assert Targets(s)[1..] == Targets(rest);
  }

  /** A body none of whose links is renumbered comes back as it was. */
  lemma {:induction false} RewriteFixes(s: string, mapping: map<string, string>)
    requires forall t :: t in Targets(s) ==> t !in mapping
    ensures Rewrite(s, mapping) == s
    decreases |s|
  {
    if s == "" {
    } else if Opens(s) {
      var raw, rest := OpenLink(s);
      LinkInFront(raw, rest);
      FixedLink(s, raw, rest, mapping);
      RewriteFixes(rest, mapping);
    } else {
      RewriteFixes(s[1..], mapping);
      assert s == [s[0]] + s[1..];
    }
  }

  /** A character that can end a target. */
  predicate Stops(c: char) {
    c == '[' || c == ']' || c == '|' || c == '#' || c == '\n'
  }

  /** A link to a replaced id leads to the new one, whatever closes its target: the brackets, a text or an anchor. */
  lemma LinkRewritten(raw: string, stop: char, rest: string, mapping: map<string, string>)
    requires raw != "" && (forall i :: 0 <= i < |raw| ==> !Stops(raw[i])) && Stops(stop)
    ensures Rewrite("[[" + raw + ([stop] + rest), mapping)
            == "[[" + (if TrimSpace(raw) in mapping then mapping[TrimSpace(raw)] else raw) + Rewrite([stop] + rest, mapping)
  {
    LinkReads(raw, [stop] + rest);
  }

  ghost function Renumbered(ids: seq<string>, mapping: map<string, string>): set<string> {
    set t | t in ids && t in mapping
  }

  /** One pass over the body, copying text and repointing links; `changed` collects the ids it met. */
  method RewriteWikilinks(body: string, mapping: map<string, string>) returns (out: string, changed: set<string>)
    ensures out == Rewrite(body, mapping)
    ensures changed == Renumbered(Targets(body), mapping)
  {
    out, changed := "", {};
    var s := body;
    while s != ""
      invariant Rewrite(body, mapping) == out + Rewrite(s, mapping)
      invariant Renumbered(Targets(body), mapping) == changed + Renumbered(Targets(s), mapping)
      decreases |s|
    {
      var piece, met, rest := NextPiece(s, mapping);
      Regroup(out, piece, Rewrite(rest, mapping));
      out, changed, s := out + piece, changed + met, rest;
    }
  }

  /** The next stretch of the body, rewritten: one link, or one character. */
  method NextPiece(s: string, mapping: map<string, string>) returns (piece: string, met: set<string>, rest: string)
    requires s != ""
    ensures Rewrite(s, mapping) == piece + Rewrite(rest, mapping) && |rest| < |s|
    ensures Renumbered(Targets(s), mapping) == met + Renumbered(Targets(rest), mapping)
  {
    if Opens(s) {
      LinkStep(s, mapping);
      var k := RunLength(s[2..]);
      var raw := s[2..2 + k];
      var target := TrimSpace(raw);
      if target in mapping {
        return "[[" + mapping[target], {target}, s[2 + k..];
      }
      return "[[" + raw, {}, s[2 + k..];
    }
    return [s[0]], {}, s[1..];
  }

  lemma LinkStep(s: string, mapping: map<string, string>)
    requires Opens(s)
    ensures var k := Run(s[2..]);
            var raw, rest := s[2..2 + k], s[2 + k..];
            && Rewrite(s, mapping) == ("[[" + NewTarget(raw, mapping)) + Rewrite(rest, mapping)
            && Renumbered(Targets(s), mapping)
               == (if TrimSpace(raw) in mapping then {TrimSpace(raw)} else {}) + Renumbered(Targets(rest), mapping)
  {
    var raw, rest := OpenLink(s);
    RenumberedFirst(TrimSpace(raw), Targets(rest), mapping);
  }

  lemma RenumberedFirst(id: string, ids: seq<string>, mapping: map<string, string>)
    ensures Renumbered([id] + ids, mapping) == (if id in mapping then {id} else {}) + Renumbered(ids, mapping)
  {
    assert forall t :: t in [id] + ids <==> t == id || t in ids;
  }

  method RunLength(s: string) returns (n: nat)
    ensures n == Run(s)
  {
    n := 0;
    while n < |s| && !EndsTarget(s[n])
      invariant n <= |s| && forall i :: 0 <= i < n ==> !EndsTarget(s[i])
    {
      n := n + 1;
    }
    RunIs(s, n);
  }
}
