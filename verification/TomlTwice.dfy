/** The merged tables are read back settled, so merging a file twice is merging it once exactly when the tables that
    replace the owned ones are told apart from the one below them. */
module TomlTwice {
  import opened Text
  import opened TomlText
  import opened TomlKeys
  import opened TomlKeep
  import opened TomlShape
  import opened TomlMerge
  import opened TomlStable
  import opened TomlSettle

  // ---------------------------------------------------------------- the kept tables

  lemma {:induction false} FreeFollows(above: Section, s: Section)
    requires Free(s) && !EndingOf(above.body).Blanked?
    ensures Junction(above.body, s.lead)
  {
    JunctionIff(above.body, s.lead);
  }

  lemma {:induction false} JunctionLead(above: Section, s: Section)
    requires Junction(above.body, s.lead)
    ensures LeadCut(s.lead) == 0
  {
    JunctionIff(above.body, s.lead);
  }

  /** A table as reading a file leaves it: headed, with a lead that begins where the body above was cut. */
  predicate CutOff(s: Section) {
    Headed(s) && LeadCut(s.lead) == 0
  }

  /** A root and tables that were cut off the one above. */
  ghost predicate Tables(ss: seq<Section>) {
    && ss != [] && ss[0].name == "" && ss[0].header.None? && ss[0].lead == []
    && (forall i :: 1 <= i < |ss| ==> CutOff(ss[i])) && Plain(ss)
  }

  lemma {:induction false} WellMadeTables(ss: seq<Section>)
    requires WellMade(ss) && Plain(ss)
    ensures Tables(ss)
  {
    forall i | 1 <= i < |ss|
      ensures CutOff(ss[i])
    {
      assert Junction(ss[i - 1].body, ss[i].lead);
      JunctionLead(ss[i - 1], ss[i]);
    }
  }

  lemma {:induction false} KeptTables(have: seq<Section>, r: Rules)
    requires Tables(have) && !r.owned("")
    ensures var kept := Unowned(have, r.owned); Tables(kept) && kept[0] == have[0]
    decreases |have|
  {
    var n := |have| - 1;
    if n > 0 {
      assert forall i :: 0 <= i < n ==> have[..n][i] == have[i];
      KeptTables(have[..n], r);
    } else {
      assert have[..n] == [];
    }
  }

  /** The first owned table stands below the root. */
  lemma {:induction false} AnchorBelowRoot(have: seq<Section>, r: Rules)
    requires have != [] && !r.owned(have[0].name)
    ensures Anchor(have, r.owned).Some? ==> Anchor(have, r.owned).value >= 1
    ensures |Unowned(have, r.owned)| >= 1
    decreases |have|
  {
    if |have| > 1 {
      AnchorBelowRoot(have[..|have| - 1], r);
    } else {
      assert have[..0] == [];
    }
  }

  // ---------------------------------------------------------------- the merged tables

  lemma {:induction false} FoldTables(kept: seq<Section>, want: seq<Section>, r: Rules)
    requires Tables(kept) && forall i :: 0 <= i < |want| ==> Tidy(want[i].body)
    ensures Tables(Fold(kept, want, r).kept)
  {
    if want != [] {
      var n := |want| - 1;
      FoldTables(kept, want[..n], r);
      FoldKeepsNames(kept, want[..n], r);
      var f := Fold(kept, want[..n], r);
      var at := FirstNamed(f.kept, want[n].name);
      if at.Some? {
        var into := f.kept[at.value];
        MergeKeysTidy(into.body, want[n].body, r.keysOf(into.name), r.values(into.name));
        MergeKeysEnd(into.body, want[n].body, r.keysOf(into.name), r.values(into.name));
      }
    }
  }

  /** Tables that can follow anything. */
  ghost predicate AllFree(ss: seq<Section>) {
    Plain(ss) && forall i :: 0 <= i < |ss| ==> Headed(ss[i]) && Free(ss[i])
  }

  /** Replacement and appended tables come from the template, whose tables can follow anything. */
  lemma {:induction false} TemplateFree(want: seq<Section>, r: Rules, some: seq<Section>)
    requires GoodTemplate(want, r) && forall i :: 0 <= i < |some| ==> some[i] in want && some[i].name != ""
    ensures AllFree(some)
  {
    WellMadeTables(want);
    forall i | 0 <= i < |some|
      ensures Headed(some[i]) && Free(some[i]) && Tidy(some[i].body) && !EndingOf(some[i].body).Blanked?
    {
      var k :| 0 <= k < |want| && want[k] == some[i];
    }
  }

  /** Which table of the merge stands where. */
  function PlaceAt(f: Folded, at: nat, i: nat): Section
    requires at <= |f.kept| && i < |f.kept| + |f.replacement| + |f.appended|
  {
    if i < at then f.kept[i]
    else if i < at + |f.replacement| then f.replacement[i - at]
    else if i < |f.kept| + |f.replacement| then f.kept[i - |f.replacement|]
    else f.appended[i - |f.kept| - |f.replacement|]
  }

  ghost predicate Placed(f: Folded, at: nat, ss: seq<Section>)
    requires at <= |f.kept|
  {
    |ss| == |f.kept| + |f.replacement| + |f.appended| && forall i :: 0 <= i < |ss| ==> ss[i] == PlaceAt(f, at, i)
  }

  /** What the second merge starts from: the fold of the first, and where its owned tables went. */
  ghost predicate Merged1(f: Folded, at: nat, ss: seq<Section>) {
    1 <= at <= |f.kept| && Tables(f.kept) && AllFree(f.replacement) && AllFree(f.appended) && Placed(f, at, ss)
  }

  lemma {:induction false} AssembledAt(f: Folded, at: nat)
    requires at <= |f.kept|
    ensures Placed(f, at, Assemble(Some(at), f))
  {
  }

  lemma {:induction false} MergedOnce(have: seq<Section>, want: seq<Section>, r: Rules) returns (f: Folded, at: nat)
    requires Tables(have) && GoodTemplate(want, r)
    ensures f == Fold(Unowned(have, r.owned), want, r)
    ensures at == if Anchor(have, r.owned).Some? then Anchor(have, r.owned).value else |f.kept|
    ensures at <= |f.kept| && MergeSections(have, want, r).0 == Assemble(Some(at), f)
    ensures Merged1(f, at, MergeSections(have, want, r).0)
  {
    var kept, anchor := Unowned(have, r.owned), Anchor(have, r.owned);
    f := Fold(kept, want, r);
    KeptTables(have, r);
    FoldTables(kept, want, r);
    FoldKeepsNames(kept, want, r);
    FoldSorts(kept, want, r);
    TemplateFree(want, r, f.replacement);
    TemplateFree(want, r, f.appended);
    AnchorBelowRoot(have, r);
    at := if anchor.Some? then anchor.value else |f.kept|;
    AssembledAt(f, at);
  }

  lemma {:induction false} MergedTables(f: Folded, at: nat, ss: seq<Section>)
    requires Merged1(f, at, ss)
    ensures Tables(ss)
  {
    forall i | 0 <= i < |ss|
      ensures (i > 0 ==> CutOff(ss[i])) && Tidy(ss[i].body) && !EndingOf(ss[i].body).Blanked?
    {
      assert ss[i] == PlaceAt(f, at, i);
    }
    assert ss[0] == f.kept[0];
  }

  // ---------------------------------------------------------------- the second merge

  /** The tables that replace the owned ones are told apart from the kept table below them, if there are both. */
  ghost predicate SetOff(f: Folded, at: nat)
    requires at <= |f.kept|
  {
    f.replacement == [] || at == |f.kept| || Junction(f.replacement[|f.replacement| - 1].body, f.kept[at].lead)
  }

  /** What the second merge puts around the replacement. */
  lemma {:induction false} SecondMerge(f: Folded, at: nat, ss: seq<Section>, kept: seq<Section>, want: seq<Section>, r: Rules,
                                       s: seq<Section>, n: nat)
    requires Merged1(f, at, ss) && ss == Assemble(Some(at), f) && GoodTemplate(want, r) && f == Fold(kept, want, r)
    requires forall i :: 0 <= i < |kept| ==> Tidy(kept[i].body) && !r.owned(kept[i].name)
    requires s == Settle(ss) && n == at + |f.replacement|
    ensures n <= |s| && MergeSections(s, want, r) == (s[..at] + f.replacement + s[n..], f.reports)
  {
    SettledSheds(f, at, ss, s);
    FoldSorts(kept, want, r);
    FoldKeepsNames(kept, want, r);
    var u := SecondParts(f, at, ss, s, n, r.owned);
    SecondFold(f, kept, u, want, r);
    SecondResult(s, at, n, u, f, want, r);
  }

  lemma {:induction false} SettledSheds(f: Folded, at: nat, ss: seq<Section>, s: seq<Section>)
    requires Merged1(f, at, ss) && s == Settle(ss)
    ensures |s| == |ss| && forall i :: 0 <= i < |ss| ==> Sheds(ss[i], s[i])
  {
    MergedTables(f, at, ss);
    forall i | 0 <= i < |ss|
      ensures Sheds(ss[i], s[i])
    {
      SettleSheds(ss, i);
    }
  }

  /** What is kept among the settled tables, and where the owned ones stood. */
  lemma {:induction false} SecondParts(f: Folded, at: nat, ss: seq<Section>, s: seq<Section>, n: nat, owned: string -> bool)
    returns (u: seq<Section>)
    requires at <= |f.kept| && ss == Assemble(Some(at), f) && n == at + |f.replacement|
    requires |s| == |ss| && forall i :: 0 <= i < |ss| ==> Sheds(ss[i], s[i])
    requires (forall i :: 0 <= i < |f.kept| ==> !owned(f.kept[i].name)) && (forall i :: 0 <= i < |f.appended| ==> !owned(f.appended[i].name))
    requires forall i :: 0 <= i < |f.replacement| ==> owned(f.replacement[i].name)
    ensures u == Unowned(s, owned) && n <= |s| && u == s[..at] + s[n..]
    ensures Anchor(s, owned) == if f.replacement == [] then None else Some(at)
    ensures |u| == |f.kept + f.appended| && forall i :: 0 <= i < |u| ==> Sheds((f.kept + f.appended)[i], u[i])
  {
    u := Unowned(s, owned);
    AssembledAt(f, at);
    AssembledParts(Some(at), f, owned);
    UnownedAlike(ss, s, owned);
    AroundOwned(f, at, ss, s, owned);
  }

  lemma {:induction false} SecondResult(s: seq<Section>, at: nat, n: nat, u: seq<Section>, f: Folded, want: seq<Section>, r: Rules)
    requires n == at + |f.replacement| <= |s| && u == Unowned(s, r.owned) && u == s[..at] + s[n..]
    requires Anchor(s, r.owned) == if f.replacement == [] then None else Some(at)
    requires Fold(u, want, r) == Folded(u, f.replacement, [], f.reports)
    ensures MergeSections(s, want, r) == (s[..at] + f.replacement + s[n..], f.reports)
  {
    SecondAssembled(s, at, n, f.replacement, f.reports);
  }

  lemma {:induction false} SecondFold(f: Folded, kept: seq<Section>, other: seq<Section>, want: seq<Section>, r: Rules)
    requires GoodTemplate(want, r) && f == Fold(kept, want, r) && forall i :: 0 <= i < |kept| ==> Tidy(kept[i].body)
    requires (forall i :: 0 <= i < |f.kept| ==> Tidy(f.kept[i].body)) && (forall i :: 0 <= i < |f.appended| ==> Tidy(f.appended[i].body))
    requires |other| == |f.kept + f.appended| && forall i :: 0 <= i < |other| ==> Sheds((f.kept + f.appended)[i], other[i])
    ensures Fold(other, want, r) == Folded(other, f.replacement, [], f.reports)
  {
    FoldAgain(kept, want, r, |want|);
    assert want[..|want|] == want;
    FoldStill(f.kept + f.appended, other, want, r);
  }

  /** The owned ones among the settled tables stand where the replacement stood. */
  lemma {:induction false} AroundOwned(f: Folded, at: nat, ss: seq<Section>, s: seq<Section>, owned: string -> bool)
    requires at <= |f.kept| && Placed(f, at, ss)
    requires |s| == |ss| && forall i :: 0 <= i < |ss| ==> s[i].name == ss[i].name
    requires (forall i :: 0 <= i < |f.kept| ==> !owned(f.kept[i].name)) && (forall i :: 0 <= i < |f.appended| ==> !owned(f.appended[i].name))
    requires forall i :: 0 <= i < |f.replacement| ==> owned(f.replacement[i].name)
    ensures var n := at + |f.replacement|; n <= |s| && Unowned(s, owned) == s[..at] + s[n..]
  {
    var n := at + |f.replacement|;
    forall i | 0 <= i < |s|
      ensures owned(s[i].name) <==> at <= i < n
    {
      assert ss[i] == PlaceAt(f, at, i);
    }
    OwnedBetween(s, at, n, owned);
  }

  lemma {:induction false} OwnedBetween(s: seq<Section>, at: nat, n: nat, owned: string -> bool)
    requires at <= n <= |s| && forall i :: 0 <= i < |s| ==> (owned(s[i].name) <==> at <= i < n)
    ensures Unowned(s, owned) == s[..at] + s[n..]
  {
    SliceOwned(s, at, n, owned);
    ThreeSlices(s, at, n);
    UnownedAll(s[..at], owned);
    UnownedAll(s[n..], owned);
    UnownedNone(s[at..n], owned);
    UnownedJoin(s[..at] + s[at..n], s[n..], owned);
    UnownedJoin(s[..at], s[at..n], owned);
    assert s[..at] + [] == s[..at];
  }

  lemma {:induction false} ThreeSlices<T>(s: seq<T>, at: nat, n: nat)
    requires at <= n <= |s|
    ensures s[..at] + s[at..n] + s[n..] == s
  {
  }

  lemma {:induction false} SliceOwned(s: seq<Section>, at: nat, n: nat, owned: string -> bool)
    requires at <= n <= |s| && forall i :: 0 <= i < |s| ==> (owned(s[i].name) <==> at <= i < n)
    ensures forall i :: 0 <= i < at ==> !owned(s[..at][i].name)
    ensures forall i :: 0 <= i < n - at ==> owned(s[at..n][i].name)
    ensures forall i :: 0 <= i < |s| - n ==> !owned(s[n..][i].name)
  {
  }

  lemma {:induction false} SecondAssembled(s: seq<Section>, at: nat, n: nat, ours: seq<Section>, reports: seq<Report>)
    requires at <= n <= |s| && n == at + |ours|
    ensures var g := Folded(s[..at] + s[n..], ours, [], reports);
            Assemble(if ours == [] then None else Some(at), g) == s[..at] + ours + s[n..]
  {
    var rest := s[..at] + s[n..];
    assert rest[..at] == s[..at] && rest[at..] == s[n..] && rest[..|rest|] == rest && rest[|rest|..] == [];
    assert s[..at] + [] + s[n..] == rest;
  }

  /** Above a replacement table nothing moves. */
  lemma {:induction false} LeadStays(f: Folded, at: nat, ss: seq<Section>, j: nat)
    requires Merged1(f, at, ss) && Tables(ss) && j < |f.replacement|
    ensures at + j < |ss| && ss[at + j] == f.replacement[j] && SettledAt(ss, at + j).lead == f.replacement[j].lead
  {
    assert ss[at + j] == PlaceAt(f, at, at + j);
    LeadKept(ss, at + j);
  }

  lemma {:induction false} LeadKept(ss: seq<Section>, i: nat)
    requires Tables(ss) && 0 < i < |ss| && Free(ss[i])
    ensures SettledAt(ss, i).lead == ss[i].lead
  {
    FreeFollows(ss[i - 1], ss[i]);
    StayIff(ss[i - 1].body, ss[i].lead);
  }

  /** Below a replacement table nothing moves, unless it is the last one and not set off. */
  lemma {:induction false} BodyStays(f: Folded, at: nat, ss: seq<Section>, j: nat)
    requires Merged1(f, at, ss) && j < |f.replacement|
    ensures at + j < |ss| && ss[at + j] == f.replacement[j]
    ensures at + j < |ss| - 1 ==> (Junction(ss[at + j].body, ss[at + j + 1].lead) <==> j < |f.replacement| - 1 || SetOff(f, at))
    ensures at + j == |ss| - 1 ==> j == |f.replacement| - 1 && SetOff(f, at)
  {
    assert ss[at + j] == PlaceAt(f, at, at + j);
    if at + j < |ss| - 1 {
      NextBelow(f, at, ss, j, ss[at + j + 1]);
    }
  }

  /** The table below a replacement table: another that can follow anything, or the kept one. */
  lemma {:induction false} NextBelow(f: Folded, at: nat, ss: seq<Section>, j: nat, next: Section)
    requires Merged1(f, at, ss) && j < |f.replacement| && at + j < |ss| - 1 && next == ss[at + j + 1]
    ensures Junction(f.replacement[j].body, next.lead) <==> j < |f.replacement| - 1 || SetOff(f, at)
  {
    var above := f.replacement[j];
    assert next == PlaceAt(f, at, at + j + 1);
    if j < |f.replacement| - 1 {
      assert next == f.replacement[j + 1];
      FreeFollows(above, next);
    } else if at == |f.kept| {
      assert next == f.appended[0];
      FreeFollows(above, next);
    } else {
      assert next == f.kept[at];
    }
  }

  /** Among the settled tables the replacement is itself but for the end of its last table. */
  lemma {:induction false} SettledOwned(f: Folded, at: nat, ss: seq<Section>, j: nat)
    requires Merged1(f, at, ss) && j < |f.replacement|
    ensures at + j < |ss|
    ensures var y := SettledAt(ss, at + j);
            && y.lead == f.replacement[j].lead && y.header == f.replacement[j].header
            && (y == f.replacement[j] <==> j < |f.replacement| - 1 || SetOff(f, at))
            && (y != f.replacement[j] ==> |y.body| < |f.replacement[j].body|)
  {
    MergedTables(f, at, ss);
    LeadStays(f, at, ss, j);
    BodyStays(f, at, ss, j);
    SettleSheds(ss, at + j);
    if at + j < |ss| - 1 {
      StayIff(ss[at + j].body, ss[at + j + 1].lead);
    }
  }

  /** The second merge changes the lines exactly when the replacement is not set off: then it makes them more. */
  lemma {:induction false} SecondLines(f: Folded, at: nat, ss: seq<Section>, s: seq<Section>, n: nat)
    requires Merged1(f, at, ss) && s == Settle(ss) && n == at + |f.replacement|
    ensures n <= |s|
    ensures SetOff(f, at) ==> s[..at] + f.replacement + s[n..] == s
    ensures !SetOff(f, at) ==> n < |s| && |Flatten(s[..at] + f.replacement + s[n..])| > |Flatten(s)|
  {
    var off := SetOff(f, at);
    OwnedSettled(f, at, ss, s, off);
    if f.replacement != [] {
      BodyStays(f, at, ss, |f.replacement| - 1);
    }
    OwnedLines(s, f.replacement, at, n, off);
  }

  lemma {:induction false} OwnedSettled(f: Folded, at: nat, ss: seq<Section>, s: seq<Section>, off: bool)
    requires Merged1(f, at, ss) && s == Settle(ss) && off == SetOff(f, at)
    ensures |s| == |ss| && forall j :: 0 <= j < |f.replacement| ==> OwnedAs(s, f.replacement, at, j, off)
  {
    forall j | 0 <= j < |f.replacement|
      ensures OwnedAs(s, f.replacement, at, j, off)
    {
      SettledOwned(f, at, ss, j);
    }
  }

  ghost predicate OwnedAs(s: seq<Section>, ours: seq<Section>, at: nat, j: nat, off: bool)
    requires j < |ours|
  {
    && at + j < |s| && s[at + j].lead == ours[j].lead && s[at + j].header == ours[j].header
    && (s[at + j] == ours[j] <==> j < |ours| - 1 || off)
    && (s[at + j] != ours[j] ==> |s[at + j].body| < |ours[j].body|)
  }

  lemma {:induction false} OwnedLines(s: seq<Section>, ours: seq<Section>, at: nat, n: nat, off: bool)
    requires n == at + |ours| <= |s| && forall j :: 0 <= j < |ours| ==> OwnedAs(s, ours, at, j, off)
    requires (ours == [] ==> off) && (!off ==> n < |s|)
    ensures off ==> s[..at] + ours + s[n..] == s
    ensures !off ==> |Flatten(s[..at] + ours + s[n..])| > |Flatten(s)|
  {
    if off {
      forall j | 0 <= j < |ours|
        ensures s[at..n][j] == ours[j]
      {
        assert OwnedAs(s, ours, at, j, off);
      }
      assert s[at..n] == ours;
      assert s == s[..at] + s[at..n] + s[n..];
    } else {
      forall j | 0 <= j < |ours| - 1
        ensures s[at + j] == ours[j]
      {
        assert OwnedAs(s, ours, at, j, off);
      }
      assert OwnedAs(s, ours, at, |ours| - 1, off);
      MoreLines(s, at, n, ours);
    }
  }

  lemma {:induction false} MoreLines(s: seq<Section>, at: nat, n: nat, ours: seq<Section>)
    requires at < n <= |s| && n == at + |ours|
    requires forall j :: 0 <= j < |ours| - 1 ==> s[at + j] == ours[j]
    requires s[n - 1].lead == ours[|ours| - 1].lead && s[n - 1].header == ours[|ours| - 1].header
    requires |s[n - 1].body| < |ours[|ours| - 1].body|
    ensures |Flatten(s[..at] + ours + s[n..])| > |Flatten(s)|
  {
    var x, y := ours[|ours| - 1], s[n - 1];
    var top := s[..n - 1];
    assert ours == ours[..|ours| - 1] + [x];
    assert s[..at] + ours + s[n..] == top + [x] + s[n..] by {
      assert top == s[..at] + ours[..|ours| - 1];
    }
    assert s == top + [y] + s[n..];
    FlattenThree(top, x, s[n..]);
    FlattenThree(top, y, s[n..]);
  }

  lemma {:induction false} FlattenThree(a: seq<Section>, x: Section, b: seq<Section>)
    ensures |Flatten(a + [x] + b)| == |Flatten(a)| + |x.lead| + (if x.header.Some? then 1 else 0) + |x.body| + |Flatten(b)|
  {
    FlattenJoin(a + [x], b);
    FlattenJoin(a, [x]);
    assert [x][1..] == [];
    assert Flatten([x]) == x.Lines() + Flatten([]);
  }

  // ---------------------------------------------------------------- the file

  lemma {:induction false} FlattenLast(ss: seq<Section>)
    requires ss != []
    ensures Flatten(ss) == Flatten(ss[..|ss| - 1]) + ss[|ss| - 1].Lines()
  {
    var n := |ss| - 1;
    if n == 0 {
      assert ss[1..] == [] && ss[..0] == [];
    } else {
      FlattenLast(ss[1..]);
      assert ss[1..][..n - 1] == ss[..n][1..] && ss[..n][0] == ss[0] && ss[1..][n - 1] == ss[n];
    }
  }

  /** Nothing is trimmed off the end of tables whose last one has a header or a line, and ends in no blank one. */
  lemma {:induction false} NothingTrimmed(ss: seq<Section>)
    requires ss != [] && ss[|ss| - 1].Lines() != [] && !EndingOf(ss[|ss| - 1].body).Blanked?
    requires ss[|ss| - 1].body == [] ==> ss[|ss| - 1].header.Some? && ss[|ss| - 1].header.value.shape.Opens?
    ensures TrimEnd(Flatten(ss)) == Flatten(ss) != []
  {
    FlattenLast(ss);
    var last, s := ss[|ss| - 1].Lines(), ss[|ss| - 1];
    assert Flatten(ss)[|Flatten(ss)| - 1] == last[|last| - 1];
    if s.body != [] {
      assert last[|last| - 1] == s.body[|s.body| - 1];
    } else {
      assert last[|last| - 1] == s.header.value;
    }
  }

  lemma {:induction false} TablesTrimmed(ss: seq<Section>)
    requires Tables(ss)
    ensures TrimEnd(Flatten(ss)) == Flatten(ss) && (Flatten(ss) == [] ==> ss == [ROOT])
  {
    if ss[|ss| - 1].Lines() == [] {
      assert |ss| == 1 && ss == [ROOT] && ROOT.Lines() == [] && ss[1..] == [];
    } else {
      NothingTrimmed(ss);
    }
  }

  lemma {:induction false} LastHeaded(ss: seq<Section>, k: nat)
    requires Tables(ss) && 0 < k < |ss|
    ensures !EndingOf(ss[k].body).Blanked? && ss[k].header.Some? && ss[k].header.value.shape.Opens?
  {
    assert CutOff(ss[k]);
  }

  /** Where the file and the template have no table at all, the result is one empty line both times. */
  lemma {:induction false} EmptyTwice(have: seq<Section>, want: seq<Section>, r: Rules)
    requires Tables(have) && GoodTemplate(want, r) && MergeSections(have, want, r).0 == [ROOT]
    ensures MergeSections(have, want, r).1 == []
    ensures Parse([EMPTY_LINE]) == Some([ROOT.(body := [EMPTY_LINE])])
    ensures MergeSections([ROOT.(body := [EMPTY_LINE])], want, r) == ([ROOT.(body := [EMPTY_LINE])], [])
  {
    var kept := Unowned(have, r.owned);
    KeptTables(have, r);
    FoldKeepsNames(kept, want, r);
    OneTable(kept, Anchor(have, r.owned), want, r);
    OnlyRoot(kept, want, r);
    var empty := [ROOT.(body := [EMPTY_LINE])];
    ParseEmpty();
    UnownedAll(empty, r.owned);
    OnlyRoot(empty, want, r);
    assert Assemble(None, Folded(empty, [], [], [])) == empty;
  }

  lemma {:induction false} ParseEmpty()
    ensures Parse([EMPTY_LINE]) == Some([ROOT.(body := [EMPTY_LINE])])
  {
    assert [EMPTY_LINE][1..] == [];
    assert ROOT.body + [EMPTY_LINE] == [EMPTY_LINE];
    assert ParseFrom([], ROOT.(body := [EMPTY_LINE]), 0) == Some([ROOT.(body := [EMPTY_LINE])]);
    assert ParseFrom([EMPTY_LINE], ROOT, 0) == ParseFrom([EMPTY_LINE][1..], ROOT.(body := ROOT.body + [EMPTY_LINE]), Floor(0 + EMPTY_LINE.delta));
  }

  /** A merge that leaves only a root had nothing but roots. */
  lemma {:induction false} OneTable(kept: seq<Section>, anchor: Option<nat>, want: seq<Section>, r: Rules)
    requires kept != [] && kept[0].name == "" && (anchor.Some? ==> anchor.value <= |kept|)
    requires |Fold(kept, want, r).kept| == |kept| && Assemble(anchor, Fold(kept, want, r)) == [ROOT]
    ensures |kept| == 1 && forall i :: 0 <= i < |want| ==> want[i].name == ""
  {
    var f := Fold(kept, want, r);
    FoldSorts(kept, want, r);
    FoldReplaces(kept, want, r);
    var at := if anchor.Some? then anchor.value else |f.kept|;
    assert |f.kept[..at]| + |f.kept[at..]| == |kept|;
    assert |Assemble(anchor, f)| == |kept| + |f.replacement| + |f.appended| == 1;
    assert forall i :: 0 <= i < |want| && want[i].name != "" ==> FirstNamed(kept, want[i].name).None?;
  }

  /** A template without owned tables and without tables to append has only a root, when only a root is there. */
  lemma {:induction false} OnlyRoot(kept: seq<Section>, want: seq<Section>, r: Rules)
    requires |kept| == 1 && kept[0].name == ""
    requires forall i :: 0 <= i < |want| ==> want[i].name == ""
    ensures Fold(kept, want, r) == Folded(kept, [], [], [])
  {
    if want != [] {
      OnlyRoot(kept, want[..|want| - 1], r);
    }
  }

  /** The tables of a template that replace owned ones. */
  function Ours(want: seq<Section>, owned: string -> bool): seq<Section> {
    if want == [] then []
    else
      var n := |want| - 1;
      Ours(want[..n], owned) + if want[n].name != "" && owned(want[n].name) then [want[n]] else []
  }

  lemma {:induction false} OursReplace(kept: seq<Section>, want: seq<Section>, r: Rules)
    ensures Fold(kept, want, r).replacement == Ours(want, r.owned)
  {
    if want != [] {
      OursReplace(kept, want[..|want| - 1], r);
    }
  }

  /** The last owned table of the template, where there is one, is told apart from the table that stands below the
      first owned one of the file, where there is one. */
  ghost predicate Settles(have: seq<Section>, want: seq<Section>, r: Rules) {
    var ours, anchor, kept := Ours(want, r.owned), Anchor(have, r.owned), Unowned(have, r.owned);
    ours == [] || anchor.None? || anchor.value == |kept| || Junction(ours[|ours| - 1].body, kept[anchor.value].lead)
  }

  lemma {:induction false} SettlesIff(have: seq<Section>, want: seq<Section>, r: Rules, f: Folded, at: nat)
    requires f == Fold(Unowned(have, r.owned), want, r) && at <= |f.kept|
    requires at == if Anchor(have, r.owned).Some? then Anchor(have, r.owned).value else |f.kept|
    ensures Settles(have, want, r) <==> SetOff(f, at)
  {
    FoldKeepsNames(Unowned(have, r.owned), want, r);
    OursReplace(Unowned(have, r.owned), want, r);
  }

  /** A second merge that makes the file longer than the first one did. */
  ghost predicate Grows(existing: seq<Line>, rendered: seq<Line>, r: Rules) {
    var once := MergeFiles(existing, rendered, r);
    && once.Accepted? && MergeFiles(once.lines, rendered, r).Accepted?
    && |MergeFiles(once.lines, rendered, r).lines| > |once.lines|
  }

  /** Merging the same template into the result of a merge gives that result and the same reports exactly when the
      file settles, and otherwise makes the file longer: for bare-key, bracket-balanced files without a blank line
      at the end of a table, and templates whose tables are set off by blank lines. */
  lemma {:induction false} MergeTwice(existing: seq<Line>, rendered: seq<Line>, r: Rules)
    requires Parse(existing).Some? && Parse(rendered).Some?
    requires Plain(Parse(existing).value) && WellSet(Parse(rendered).value, r)
    ensures MergeFiles(existing, rendered, r).Accepted?
    ensures MergeFiles(MergeFiles(existing, rendered, r).lines, rendered, r) == MergeFiles(existing, rendered, r)
            <==> Settles(Parse(existing).value, Parse(rendered).value, r)
    ensures !Settles(Parse(existing).value, Parse(rendered).value, r) ==> Grows(existing, rendered, r)
  {
    var have, want := Parse(existing).value, Parse(rendered).value;
    ParsedIsWellMade(existing);
    ParsedIsWellMade(rendered);
    WellMadeTables(have);
    var ss := MergeSections(have, want, r).0;
    var f, at := MergedOnce(have, want, r);
    MergedTables(f, at, ss);
    SettlesIff(have, want, r, f, at);
    TablesTrimmed(ss);
    if Flatten(ss) == [] {
      EmptyFile(existing, rendered, r, f, at);
    } else {
      FullFile(existing, rendered, r, f, at);
    }
  }

  lemma {:induction false} EmptyFile(existing: seq<Line>, rendered: seq<Line>, r: Rules, f: Folded, at: nat)
    requires Parse(existing).Some? && Parse(rendered).Some?
    requires Tables(Parse(existing).value) && GoodTemplate(Parse(rendered).value, r)
    requires var ss := MergeSections(Parse(existing).value, Parse(rendered).value, r).0; Merged1(f, at, ss) && ss == [ROOT]
    ensures MergeFiles(MergeFiles(existing, rendered, r).lines, rendered, r) == MergeFiles(existing, rendered, r) && SetOff(f, at)
  {
    var have, want := Parse(existing).value, Parse(rendered).value;
    EmptyTwice(have, want, r);
    var empty := [ROOT.(body := [EMPTY_LINE])];
    assert Flatten(empty) == [EMPTY_LINE] by {
      assert empty[1..] == [];
    }
    assert [ROOT][1..] == [] && Flatten([ROOT]) == [];
    assert [EMPTY_LINE][..0] == [];
    assert |f.kept[..at]| + |f.replacement| <= 1;
  }

  lemma {:induction false} FullFile(existing: seq<Line>, rendered: seq<Line>, r: Rules, f: Folded, at: nat)
    requires Parse(existing).Some? && Parse(rendered).Some?
    requires Tables(Parse(existing).value) && GoodTemplate(Parse(rendered).value, r)
    requires f == Fold(Unowned(Parse(existing).value, r.owned), Parse(rendered).value, r)
    requires var ss := MergeSections(Parse(existing).value, Parse(rendered).value, r).0;
             Merged1(f, at, ss) && ss == Assemble(Some(at), f) && Tables(ss) && TrimEnd(Flatten(ss)) == Flatten(ss) != []
    ensures MergeFiles(MergeFiles(existing, rendered, r).lines, rendered, r) == MergeFiles(existing, rendered, r) <==> SetOff(f, at)
    ensures !SetOff(f, at) ==> Grows(existing, rendered, r)
  {
    var have, want := Parse(existing).value, Parse(rendered).value;
    var ss := MergeSections(have, want, r).0;
    KeptTables(have, r);
    UnownedTidy(have, r.owned);
    ReadSettled(ss);
    SettleKeepsLines(ss);
    var s, n := Settle(ss), at + |f.replacement|;
    SecondMerge(f, at, ss, Unowned(have, r.owned), want, r, s, n);
    SecondLines(f, at, ss, s, n);
    SecondTrimmed(f, at, ss, s, n);
  }

  /** The lines of the second result are trimmed as little as those of the first. */
  lemma {:induction false} SecondTrimmed(f: Folded, at: nat, ss: seq<Section>, s: seq<Section>, n: nat)
    requires Merged1(f, at, ss) && s == Settle(ss) && n == at + |f.replacement|
    ensures n <= |s|
    ensures n < |s| ==> TrimEnd(Flatten(s[..at] + f.replacement + s[n..])) == Flatten(s[..at] + f.replacement + s[n..]) != []
  {
    if n < |ss| {
      var k := |ss| - 1;
      MergedTables(f, at, ss);
      LastHeaded(ss, k);
      assert s[k] == SettledAt(ss, k);
      LastTrimmed(s, at, n, f.replacement);
    }
  }

  lemma {:induction false} LastTrimmed(s: seq<Section>, at: nat, n: nat, ours: seq<Section>)
    requires at <= n < |s| && !EndingOf(s[|s| - 1].body).Blanked? && s[|s| - 1].header.Some? && s[|s| - 1].header.value.shape.Opens?
    ensures TrimEnd(Flatten(s[..at] + ours + s[n..])) == Flatten(s[..at] + ours + s[n..]) != []
  {
    var again := s[..at] + ours + s[n..];
    assert again[|again| - 1] == s[|s| - 1];
    NothingTrimmed(again);
  }

}
