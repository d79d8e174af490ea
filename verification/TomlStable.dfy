/** Merging the same template twice is merging it once. */
module TomlStable {
  import opened Text
  import opened TomlText
  import opened TomlKeys
  import opened TomlKeep
  import opened TomlShape
  import opened TomlMerge

  // ---------------------------------------------------------------- conditions

  /** A lead that can follow any body that does not end in a blank line. */
  predicate Free(s: Section) {
    StartsBlank(s.lead) && LeadCut(s.lead) == 0
  }

  /** Bare-key, bracket-balanced tables whose bodies do not end in a blank line. */
  ghost predicate Plain(ss: seq<Section>) {
    forall i :: 0 <= i < |ss| ==> Tidy(ss[i].body) && !EndingOf(ss[i].body).Blanked?
  }

  /** A template names a table that has owned keys once, and every lead in it starts with a blank line. */
  ghost predicate WellSet(want: seq<Section>, r: Rules) {
    && Plain(want)
    && (forall i :: 1 <= i < |want| ==> StartsBlank(want[i].lead))
    && (forall i, j :: 0 <= i < j < |want| && want[i].name == want[j].name ==> r.owned(want[i].name) || r.keysOf(want[i].name) == [])
    && !r.owned("") && forall name :: KeysApart(r.keysOf(name))
  }

  ghost predicate GoodTemplate(want: seq<Section>, r: Rules) {
    WellMade(want) && WellSet(want, r)
  }

  // ---------------------------------------------------------------- lifting

  lemma {:induction false} UnownedJoin(a: seq<Section>, b: seq<Section>, owned: string -> bool)
    ensures Unowned(a + b, owned) == Unowned(a, owned) + Unowned(b, owned)
  {
    if b == [] {
      assert a + b == a;
    } else {
      var n := |b| - 1;
      assert (a + b)[..|a| + n] == a + b[..n];
      UnownedJoin(a, b[..n], owned);
    }
  }

  lemma {:induction false} UnownedAll(a: seq<Section>, owned: string -> bool)
    requires forall i :: 0 <= i < |a| ==> !owned(a[i].name)
    ensures Unowned(a, owned) == a && Anchor(a, owned) == None
  {
    if a != [] {
      UnownedAll(a[..|a| - 1], owned);
      assert a == a[..|a| - 1] + [a[|a| - 1]];
    }
  }

  lemma {:induction false} UnownedNone(a: seq<Section>, owned: string -> bool)
    requires forall i :: 0 <= i < |a| ==> owned(a[i].name)
    ensures Unowned(a, owned) == []
  {
    if a != [] {
      UnownedNone(a[..|a| - 1], owned);
    }
  }

  lemma {:induction false} AnchorJoin(a: seq<Section>, b: seq<Section>, owned: string -> bool)
    ensures Anchor(a + b, owned)
            == if Anchor(a, owned).Some? then Anchor(a, owned)
               else if Anchor(b, owned).Some? then Some(|Unowned(a, owned)| + Anchor(b, owned).value) else None
    decreases |b|
  {
    if b == [] {
      assert a + b == a;
    } else {
      var n := |b| - 1;
      InitOfJoin(a, b);
      assert a + b != [];
      AnchorJoin(a, b[..n], owned);
      UnownedJoin(a, b[..n], owned);
    }
  }

  lemma {:induction false} AnchorFirst(a: seq<Section>, owned: string -> bool)
    requires a != [] && owned(a[0].name)
    ensures Anchor(a, owned) == Some(0)
  {
    if |a| > 1 {
      AnchorFirst(a[..|a| - 1], owned);
    }
  }

  // ---------------------------------------------------------------- folding

  /** The tables to be appended are the template's own, not owned and not in the file; the replacement is owned. */
  lemma {:induction false} FoldSorts(kept: seq<Section>, want: seq<Section>, r: Rules)
    ensures Sorts(Fold(kept, want, r), kept, want, r)
  {
    if want != [] {
      var n := |want| - 1;
      FoldSorts(kept, want[..n], r);
      FoldKeepsNames(kept, want[..n], r);
      SameNames(Fold(kept, want[..n], r).kept, kept, want[n].name);
      SortsOne(Fold(kept, want[..n], r), kept, want[..n], want[n], r);
      assert want == want[..n] + [want[n]];
    }
  }

  ghost predicate Sorts(f: Folded, kept: seq<Section>, want: seq<Section>, r: Rules) {
    && (forall i :: 0 <= i < |f.replacement| ==> r.owned(f.replacement[i].name) && f.replacement[i] in want && f.replacement[i].name != "")
    && (forall i :: 0 <= i < |f.appended| ==>
          !r.owned(f.appended[i].name) && f.appended[i] in want && FirstNamed(kept, f.appended[i].name).None? && f.appended[i].name != "")
    && (forall i :: 0 <= i < |want| && want[i].name != "" && !r.owned(want[i].name) && FirstNamed(kept, want[i].name).None? ==> want[i] in f.appended)
  }

  lemma {:induction false} SortsOne(f: Folded, kept: seq<Section>, want: seq<Section>, s: Section, r: Rules)
    requires Sorts(f, kept, want, r) && FirstNamed(f.kept, s.name) == FirstNamed(kept, s.name)
    ensures Sorts(FoldOne(f, s, r), kept, want + [s], r)
  {
    var g := FoldOne(f, s, r);
    forall i | 0 <= i < |want + [s]| && (want + [s])[i].name != "" && !r.owned((want + [s])[i].name) && FirstNamed(kept, (want + [s])[i].name).None?
      ensures (want + [s])[i] in g.appended
    {
      if i < |want| {
        assert want[i] in f.appended;
      } else {
        assert s in f.appended + [s];
      }
    }
  }

  lemma {:induction false} FoldReplaces(kept: seq<Section>, want: seq<Section>, r: Rules)
    ensures forall i :: 0 <= i < |want| && want[i].name != "" && r.owned(want[i].name) ==> want[i] in Fold(kept, want, r).replacement
  {
    if want != [] {
      FoldReplaces(kept, want[..|want| - 1], r);
    }
  }

  /** A kept table the template names once is merged with that table, and only with it. */
  lemma {:induction false} FoldAt(kept: seq<Section>, want: seq<Section>, r: Rules, i: nat)
    requires i < |kept| && kept[i].name != "" && !r.owned(kept[i].name)
    requires forall k, l :: 0 <= k < l < |want| ==> !(want[k].name == want[l].name == kept[i].name)
    ensures var m := FirstNamed(want, kept[i].name);
            i < |Fold(kept, want, r).kept|
            && Fold(kept, want, r).kept[i]
               == if m.Some? && FirstNamed(kept, kept[i].name) == Some(i) then MergeInto(kept[i], want[m.value], r).0 else kept[i]
  {
    FoldKeepsNames(kept, want, r);
    if want != [] {
      var n := |want| - 1;
      var before := want[..n];
      FoldKeepsNames(kept, before, r);
      FoldAt(kept, before, r, i);
      SameNames(Fold(kept, before, r).kept, kept, want[n].name);
      assert want == before + [want[n]];
      FirstNamedLast(before, want[n], kept[i].name);
      FoldOneAt(Fold(kept, before, r), want[n], r, i);
      assert forall k :: 0 <= k < n ==> before[k] == want[k];
    }
  }

  lemma {:induction false} FoldOneAt(f: Folded, s: Section, r: Rules, i: nat)
    requires i < |f.kept| && f.kept[i].name != "" && !r.owned(f.kept[i].name)
    ensures i < |FoldOne(f, s, r).kept|
    ensures FoldOne(f, s, r).kept[i]
            == if s.name == f.kept[i].name && FirstNamed(f.kept, s.name) == Some(i) then MergeInto(f.kept[i], s, r).0 else f.kept[i]
  {
  }

  lemma {:induction false} FirstNamedLast(ss: seq<Section>, s: Section, name: string)
    ensures FirstNamed(ss + [s], name)
            == if FirstNamed(ss, name).Some? then FirstNamed(ss, name) else if s.name == name then Some(|ss|) else None
  {
    var r := FirstNamed(ss + [s], name);
    assert forall i :: 0 <= i < |ss| ==> (ss + [s])[i] == ss[i];
    assert (ss + [s])[|ss|] == s;
  }

  lemma {:induction false} FirstNamedJoin(a: seq<Section>, b: seq<Section>, name: string)
    ensures FirstNamed(a + b, name)
            == if FirstNamed(a, name).Some? then FirstNamed(a, name)
               else match FirstNamed(b, name) case None => None case Some(i) => Some(|a| + i)
  {
    var r := FirstNamed(a + b, name);
    assert forall i :: 0 <= i < |a| ==> (a + b)[i] == a[i];
    assert forall i :: 0 <= i < |b| ==> (a + b)[|a| + i] == b[i];
    if FirstNamed(a, name).None? && FirstNamed(b, name).Some? {
      assert (a + b)[|a| + FirstNamed(b, name).value].name == name;
    }
  }

  /** The template folded again into what the first fold kept and appended: the same replacement, nothing to
      append, the same reports, and no table changes. */
  ghost predicate Again(f: Folded, whole: Folded, part: Folded) {
    f == Folded(whole.kept + whole.appended, part.replacement, [], part.reports)
  }

  lemma {:induction false} IntoTwice(into: Section, from: Section, r: Rules)
    requires Tidy(into.body) && Tidy(from.body) && KeysApart(r.keysOf(into.name))
    ensures MergeInto(MergeInto(into, from, r).0, from, r) == MergeInto(into, from, r)
  {
    MergeKeysTwice(into.body, from.body, r.keysOf(into.name), r.values(into.name));
  }

  lemma {:induction false} IntoUnkeyed(into: Section, from: Section, r: Rules)
    requires r.keysOf(into.name) == []
    ensures MergeInto(into, from, r) == (into, [])
  {
    assert MergeKeys(into.body, from.body, [], r.values(into.name)) == Merged(into.body, []);
    assert Tagged(into.name, []) == [];
  }

  lemma {:induction false} NamedOnce(want: seq<Section>, r: Rules, n: nat)
    requires GoodTemplate(want, r) && n < |want| && !r.owned(want[n].name) && r.keysOf(want[n].name) != []
    ensures forall k, l :: 0 <= k < l < |want| ==> !(want[k].name == want[l].name == want[n].name)
    ensures FirstNamed(want, want[n].name) == Some(n) && FirstNamed(want[..n], want[n].name).None?
  {
    forall k, l | 0 <= k < l < |want|
      ensures !(want[k].name == want[l].name == want[n].name)
    {
      assert want[k].name == want[l].name ==> r.owned(want[k].name) || r.keysOf(want[k].name) == [];
    }
    assert forall k :: 0 <= k < n ==> want[..n][k] == want[k];
  }

  /** Where a table with owned keys stands before and after its one merge. */
  lemma {:induction false} KeyedAt(kept: seq<Section>, want: seq<Section>, r: Rules, n: nat, at: nat)
    requires GoodTemplate(want, r) && n < |want| && want[n].name != "" && !r.owned(want[n].name) && r.keysOf(want[n].name) != []
    requires FirstNamed(kept, want[n].name) == Some(at)
    ensures at < |Fold(kept, want, r).kept| && at < |Fold(kept, want[..n], r).kept|
    ensures Fold(kept, want[..n], r).kept[at] == kept[at] && Fold(kept, want, r).kept[at] == MergeInto(kept[at], want[n], r).0
  {
    NamedOnce(want, r, n);
    FoldAt(kept, want, r, at);
    assert forall k :: 0 <= k < n ==> want[..n][k] == want[k];
    FoldAt(kept, want[..n], r, at);
  }

  lemma {:induction false} MergedAgain(kept: seq<Section>, want: seq<Section>, r: Rules, n: nat, at: nat)
    requires GoodTemplate(want, r) && n < |want| && want[n].name != "" && !r.owned(want[n].name)
    requires FirstNamed(kept, want[n].name) == Some(at) && Tidy(kept[at].body)
    ensures at < |Fold(kept, want, r).kept| && at < |Fold(kept, want[..n], r).kept|
    ensures MergeInto(Fold(kept, want, r).kept[at], want[n], r)
            == (Fold(kept, want, r).kept[at], MergeInto(Fold(kept, want[..n], r).kept[at], want[n], r).1)
  {
    FoldKeepsNames(kept, want, r);
    FoldKeepsNames(kept, want[..n], r);
    if r.keysOf(want[n].name) == [] {
      IntoUnkeyed(Fold(kept, want, r).kept[at], want[n], r);
      IntoUnkeyed(Fold(kept, want[..n], r).kept[at], want[n], r);
    } else {
      KeyedAt(kept, want, r, n, at);
      IntoTwice(kept[at], want[n], r);
    }
  }

  lemma {:induction false} AppendedAgain(kept: seq<Section>, want: seq<Section>, r: Rules, n: nat) returns (at: nat)
    requires GoodTemplate(want, r) && n < |want| && want[n].name != "" && !r.owned(want[n].name)
    requires FirstNamed(kept, want[n].name).None?
    ensures var f := Fold(kept, want, r);
            FirstNamed(f.appended, want[n].name) == Some(at) && MergeInto(f.appended[at], want[n], r) == (f.appended[at], [])
  {
    var s, f := want[n], Fold(kept, want, r);
    FoldSorts(kept, want, r);
    var i :| 0 <= i < |f.appended| && f.appended[i] == s;
    at := FirstNamed(f.appended, s.name).value;
    var other := f.appended[at];
    var keys, v := r.keysOf(s.name), r.values(s.name);
    if keys == [] {
      assert MergeKeys(other.body, s.body, keys, v) == Merged(other.body, []);
    } else {
      var m :| 0 <= m < |want| && want[m] == other;
      assert m == n;
      MergeWithItself(s.body, keys, v);
    }
    assert Tagged(other.name, []) == [];
  }

  lemma {:induction false} FoldAgain(kept: seq<Section>, want: seq<Section>, r: Rules, n: nat)
    requires GoodTemplate(want, r) && n <= |want| && forall i :: 0 <= i < |kept| ==> Tidy(kept[i].body)
    ensures var whole := Fold(kept, want, r);
            Again(Fold(whole.kept + whole.appended, want[..n], r), whole, Fold(kept, want[..n], r))
    decreases n
  {
    var whole := Fold(kept, want, r);
    var all := whole.kept + whole.appended;
    if n == 0 {
      assert want[..n] == [];
    } else {
      FoldAgain(kept, want, r, n - 1);
      FoldPrefix(all, want, r, n - 1);
      FoldPrefix(kept, want, r, n - 1);
      StepAgain(kept, want, r, n - 1);
    }
  }

  lemma {:induction false} FoldPrefix(kept: seq<Section>, want: seq<Section>, r: Rules, n: nat)
    requires n < |want|
    ensures Fold(kept, want[..n + 1], r) == FoldOne(Fold(kept, want[..n], r), want[n], r)
  {
    assert want[..n + 1][..n] == want[..n];
  }

  lemma {:induction false} StepAgain(kept: seq<Section>, want: seq<Section>, r: Rules, n: nat)
    requires GoodTemplate(want, r) && n < |want| && forall i :: 0 <= i < |kept| ==> Tidy(kept[i].body)
    ensures var whole, part := Fold(kept, want, r), Fold(kept, want[..n], r);
            Again(FoldOne(Folded(whole.kept + whole.appended, part.replacement, [], part.reports), want[n], r), whole, FoldOne(part, want[n], r))
  {
    var s := want[n];
    if s.name != "" && !r.owned(s.name) {
      if FirstNamed(kept, s.name).Some? {
        StepMerged(kept, want, r, n);
      } else {
        StepAppended(kept, want, r, n, Fold(kept, want, r), Fold(kept, want[..n], r));
      }
    }
  }

  lemma {:induction false} PlaceAgain(kept: seq<Section>, want: seq<Section>, r: Rules, n: nat, name: string)
    requires n <= |want|
    ensures var whole, part := Fold(kept, want, r), Fold(kept, want[..n], r);
            && FirstNamed(part.kept, name) == FirstNamed(kept, name) && |whole.kept| == |kept|
            && FirstNamed(whole.kept + whole.appended, name)
               == if FirstNamed(kept, name).Some? then FirstNamed(kept, name)
                  else match FirstNamed(whole.appended, name) case None => None case Some(i) => Some(|kept| + i)
  {
    var whole, part := Fold(kept, want, r), Fold(kept, want[..n], r);
    FoldKeepsNames(kept, want, r);
    FoldKeepsNames(kept, want[..n], r);
    SameNames(whole.kept, kept, name);
    SameNames(part.kept, kept, name);
    FirstNamedJoin(whole.kept, whole.appended, name);
  }

  lemma {:induction false} StepMerged(kept: seq<Section>, want: seq<Section>, r: Rules, n: nat)
    requires GoodTemplate(want, r) && n < |want| && forall i :: 0 <= i < |kept| ==> Tidy(kept[i].body)
    requires want[n].name != "" && !r.owned(want[n].name) && FirstNamed(kept, want[n].name).Some?
    ensures var whole, part := Fold(kept, want, r), Fold(kept, want[..n], r);
            Again(FoldOne(Folded(whole.kept + whole.appended, part.replacement, [], part.reports), want[n], r), whole, FoldOne(part, want[n], r))
  {
    var whole := Fold(kept, want, r);
    var all := whole.kept + whole.appended;
    var at := FirstNamed(kept, want[n].name).value;
    PlaceAgain(kept, want, r, n, want[n].name);
    MergedAgain(kept, want, r, n, at);
    var part := Fold(kept, want[..n], r);
    FoldOneStill(Folded(all, part.replacement, [], part.reports), want[n], r, at);
  }

  /** A merge that leaves its table as it is only reports. */
  lemma {:induction false} FoldOneStill(f: Folded, s: Section, r: Rules, at: nat)
    requires s.name != "" && !r.owned(s.name) && FirstNamed(f.kept, s.name) == Some(at)
    requires MergeInto(f.kept[at], s, r).0 == f.kept[at]
    ensures FoldOne(f, s, r) == f.(reports := f.reports + MergeInto(f.kept[at], s, r).1)
  {
    assert f.kept[at := f.kept[at]] == f.kept;
  }

  lemma {:induction false} StepAppended(kept: seq<Section>, want: seq<Section>, r: Rules, n: nat, whole: Folded, part: Folded)
    requires GoodTemplate(want, r) && n < |want| && whole == Fold(kept, want, r) && part == Fold(kept, want[..n], r)
    requires want[n].name != "" && !r.owned(want[n].name) && FirstNamed(kept, want[n].name).None?
    ensures Again(FoldOne(Folded(whole.kept + whole.appended, part.replacement, [], part.reports), want[n], r), whole, FoldOne(part, want[n], r))
  {
    NoneKept(kept, want, r, want[n].name);
    NoneKept(kept, want[..n], r, want[n].name);
    var i := AppendedAgain(kept, want, r, n);
    StepStill(whole, part, want[n], r, i);
  }

  lemma {:induction false} NoneKept(kept: seq<Section>, want: seq<Section>, r: Rules, name: string)
    requires FirstNamed(kept, name).None?
    ensures FirstNamed(Fold(kept, want, r).kept, name).None?
  {
    FoldKeepsNames(kept, want, r);
    SameNames(Fold(kept, want, r).kept, kept, name);
  }

  lemma {:induction false} AtInJoin<T>(a: seq<T>, b: seq<T>, i: nat)
    requires i < |b|
    ensures (a + b)[|a| + i] == b[i]
  {
  }

  /** A table appended by the first fold is there for the second, and takes nothing new. */
  lemma {:induction false} StepStill(whole: Folded, part: Folded, s: Section, r: Rules, i: nat)
    requires s.name != "" && !r.owned(s.name)
    requires FirstNamed(part.kept, s.name).None? && FirstNamed(whole.kept, s.name).None? && FirstNamed(whole.appended, s.name) == Some(i)
    requires MergeInto(whole.appended[i], s, r) == (whole.appended[i], [])
    ensures Again(FoldOne(Folded(whole.kept + whole.appended, part.replacement, [], part.reports), s, r), whole, FoldOne(part, s, r))
  {
    FirstNamedJoin(whole.kept, whole.appended, s.name);
    AtInJoin(whole.kept, whole.appended, i);
    FoldOneStill(Folded(whole.kept + whole.appended, part.replacement, [], part.reports), s, r, |whole.kept| + i);
    assert part.reports + [] == part.reports;
  }

  /** Merging the tables of the result again gives the same tables and the same reports. */
  lemma {:induction false} SectionsTwice(have: seq<Section>, want: seq<Section>, r: Rules)
    requires (forall i :: 0 <= i < |have| ==> Tidy(have[i].body)) && GoodTemplate(want, r)
    ensures MergeSections(MergeSections(have, want, r).0, want, r) == MergeSections(have, want, r)
  {
    var kept, anchor := Unowned(have, r.owned), Anchor(have, r.owned);
    var f := Fold(kept, want, r);
    FoldKeepsNames(kept, want, r);
    UnownedTidy(have, r.owned);
    FoldSorts(kept, want, r);
    AssembledParts(anchor, f, r.owned);
    FoldAgain(kept, want, r, |want|);
    assert want[..|want|] == want;
    AssembleAgain(f, if anchor.Some? then anchor.value else |f.kept|);
  }

  /** The kept tables and the place of the owned ones can be read off the assembled ones. */
  lemma {:induction false} AssembledParts(anchor: Option<nat>, f: Folded, owned: string -> bool)
    requires anchor.Some? ==> anchor.value <= |f.kept|
    requires (forall i :: 0 <= i < |f.kept| ==> !owned(f.kept[i].name)) && (forall i :: 0 <= i < |f.appended| ==> !owned(f.appended[i].name))
    requires forall i :: 0 <= i < |f.replacement| ==> owned(f.replacement[i].name)
    ensures Unowned(Assemble(anchor, f), owned) == f.kept + f.appended
    ensures Anchor(Assemble(anchor, f), owned)
            == if f.replacement == [] then None else Some(if anchor.Some? then anchor.value else |f.kept|)
  {
    var at := if anchor.Some? then anchor.value else |f.kept|;
    LiftAgain(f.kept[..at], f.replacement, f.kept[at..], f.appended, owned);
    assert f.kept[..at] + f.kept[at..] == f.kept;
  }

  lemma {:induction false} LiftAgain(a: seq<Section>, ours: seq<Section>, b: seq<Section>, c: seq<Section>, owned: string -> bool)
    requires (forall i :: 0 <= i < |a| ==> !owned(a[i].name)) && (forall i :: 0 <= i < |b| ==> !owned(b[i].name))
    requires (forall i :: 0 <= i < |c| ==> !owned(c[i].name)) && (forall i :: 0 <= i < |ours| ==> owned(ours[i].name))
    ensures Unowned(a + ours + b + c, owned) == a + b + c
    ensures Anchor(a + ours + b + c, owned) == if ours == [] then None else Some(|a|)
  {
    UnownedAll(a, owned);
    UnownedAll(b, owned);
    UnownedAll(c, owned);
    UnownedNone(ours, owned);
    UnownedJoin(a + ours + b, c, owned);
    UnownedJoin(a + ours, b, owned);
    UnownedJoin(a, ours, owned);
    assert a + [] == a;
    AnchorJoin(a + ours + b, c, owned);
    AnchorJoin(a + ours, b, owned);
    AnchorJoin(a, ours, owned);
    if ours != [] {
      AnchorFirst(ours, owned);
    }
  }

  lemma {:induction false} AssembleAgain(f: Folded, at: nat)
    requires at <= |f.kept|
    ensures var again := Folded(f.kept + f.appended, f.replacement, [], f.reports);
            Assemble(if f.replacement == [] then None else Some(at), again) == f.kept[..at] + f.replacement + f.kept[at..] + f.appended
  {
    var all := f.kept + f.appended;
    assert all[..at] == f.kept[..at] && all[at..] == f.kept[at..] + f.appended;
    assert f.kept[..at] + f.kept[at..] == f.kept;
  }
}
