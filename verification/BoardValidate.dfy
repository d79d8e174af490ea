/** The part of the board validator that finds statuses two columns claim. */
module BoardValidate {
  import opened Text
  import opened Boards
  import opened BoardSound

  /** The statuses of all columns, one after the other. */
  function AllStatuses(columns: seq<Column>, key: string, cfg: Option<Workflow>): (r: seq<string>)
    ensures forall s :: s in r <==> exists i :: 0 <= i < |columns| && columns[i].Shows(key, cfg, s)
  {
    if columns == [] then []
    else
      var n := |columns| - 1;
      assert forall i :: 0 <= i < n ==> columns[..n][i] == columns[i];
      AllStatuses(columns[..n], key, cfg) + columns[n].StatusesFor(key, cfg)
  }

  lemma AllStep(columns: seq<Column>, key: string, cfg: Option<Workflow>, i: nat)
    requires i < |columns|
    ensures AllStatuses(columns[..i + 1], key, cfg) == AllStatuses(columns[..i], key, cfg) + columns[i].StatusesFor(key, cfg)
  {
    assert columns[..i + 1][..i] == columns[..i];
  }

  /** The statuses claimed so far, and whether one was claimed twice. */
  ghost predicate Claimed(owner: map<string, string>, found: seq<string>, seen: seq<string>) {
    && (forall s :: s in owner <==> s in seen)
    && (found == [] <==> Unrepeated(seen))
    && (forall s :: s in found <==> Repeats(seen, s))
  }

  /** The status is listed twice. */
  ghost predicate Repeats(list: seq<string>, s: string) {
    exists i, j :: 0 <= i < j < |list| && list[i] == s && list[j] == s
  }

  lemma RepeatsAppend(list: seq<string>, x: string, s: string)
    ensures Repeats(list + [x], s) <==> Repeats(list, s) || (s == x && x in list)
  {
    var more := list + [x];
    assert forall i :: 0 <= i < |list| ==> more[i] == list[i];
    assert more[|list|] == x;
    if Repeats(list, s) {
      var i, j :| 0 <= i < j < |list| && list[i] == s && list[j] == s;
      assert more[i] == s && more[j] == s;
    }
    if s == x && x in list {
      var i :| 0 <= i < |list| && list[i] == x;
      assert more[i] == s && more[|list|] == s;
    }
  }

  /** Walks the columns and their statuses; a status that already has an owner is a finding. */
  method AmbiguousStatuses(columns: seq<Column>, key: string, cfg: Option<Workflow>) returns (found: seq<string>)
    ensures found == [] <==> Unrepeated(AllStatuses(columns, key, cfg))
    ensures forall s :: s in found <==> Repeats(AllStatuses(columns, key, cfg), s)
  {
    var owner: map<string, string> := map[];
    found := [];
    ghost var seen: seq<string> := [];
    for i := 0 to |columns|
      invariant Claimed(owner, found, seen) && seen == AllStatuses(columns[..i], key, cfg)
    {
      AllStep(columns, key, cfg, i);
      owner, found := ClaimColumn(columns[i].id, columns[i].StatusesFor(key, cfg), owner, found, seen);
      seen := seen + columns[i].StatusesFor(key, cfg);
    }
    assert columns[..|columns|] == columns;
  }

  method ClaimColumn(id: string, list: seq<string>, owner: map<string, string>, found: seq<string>, ghost seen: seq<string>)
    returns (owner': map<string, string>, found': seq<string>)
    requires Claimed(owner, found, seen)
    ensures Claimed(owner', found', seen + list)
  {
    owner', found' := owner, found;
    assert seen + list[..0] == seen;
    for k := 0 to |list|
      invariant Claimed(owner', found', seen + list[..k])
    {
      assert seen + list[..k + 1] == (seen + list[..k]) + [list[k]];
      UnrepeatedAppend(seen + list[..k], list[k]);
      forall s
        ensures Repeats((seen + list[..k]) + [list[k]], s) <==> Repeats(seen + list[..k], s) || (s == list[k] && list[k] in seen + list[..k])
      {
        RepeatsAppend(seen + list[..k], list[k], s);
      }
      if list[k] in owner' {
        found' := found' + [list[k]];
      } else {
        owner' := owner'[list[k] := id];
      }
    }
    assert list[..|list|] == list;
  }

  lemma UnrepeatedAppend(s: seq<string>, x: string)
    ensures Unrepeated(s + [x]) <==> Unrepeated(s) && x !in s
  {
    if Unrepeated(s + [x]) {
      assert forall i, j :: 0 <= i < j < |s| ==> s[i] == (s + [x])[i] && s[j] == (s + [x])[j];
      forall i | 0 <= i < |s|
        ensures s[i] != x
      {
        assert (s + [x])[i] != (s + [x])[|s|];
      }
    }
  }

  lemma UnrepeatedParts(a: seq<string>, b: seq<string>)
    requires Unrepeated(a + b)
    ensures Unrepeated(a) && forall s :: s in a ==> s !in b
  {
    assert forall k :: 0 <= k < |a| ==> (a + b)[k] == a[k];
    assert forall l :: 0 <= l < |b| ==> (a + b)[|a| + l] == b[l];
  }

  /** A board without a finding is unambiguous. */
  lemma {:induction false} NoFindingUnambiguous(columns: seq<Column>, key: string, cfg: Option<Workflow>, i: nat, j: nat, status: string)
    requires Unrepeated(AllStatuses(columns, key, cfg)) && i < j < |columns|
    requires columns[i].Shows(key, cfg, status)
    ensures !columns[j].Shows(key, cfg, status)
    decreases |columns|
  {
    var n := |columns| - 1;
    var before, last := AllStatuses(columns[..n], key, cfg), columns[n].StatusesFor(key, cfg);
    if j < n {
      UnrepeatedParts(before, last);
      NoFindingUnambiguous(columns[..n], key, cfg, i, j, status);
    } else {
      assert columns[..n][i].Shows(key, cfg, status);
      UnrepeatedParts(before, last);
      assert status in before;
    }
  }

  /** What the validator is for: the boards it passes satisfy the planner's condition. */
  lemma ValidatedIsUnambiguous(b: Board, key: string, cfg: Option<Workflow>)
    requires Unrepeated(AllStatuses(b.columns, key, cfg))
    ensures Unambiguous(b, key, cfg)
  {
    forall i, j, status | 0 <= i < |b.columns| && 0 <= j < |b.columns| && b.columns[i].Shows(key, cfg, status) && b.columns[j].Shows(key, cfg, status)
      ensures i == j
    {
      if i < j {
        NoFindingUnambiguous(b.columns, key, cfg, i, j, status);
      } else if j < i {
        NoFindingUnambiguous(b.columns, key, cfg, j, i, status);
      }
    }
  }
}
