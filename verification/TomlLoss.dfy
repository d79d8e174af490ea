/** A merge loses no line of the user's tables. */
module TomlLoss {
  import opened Text
  import opened TomlText
  import opened TomlKeys
  import opened TomlKeep
  import opened TomlShape
  import opened TomlMerge

  function DropIn(name: string, r: Rules): Seg -> bool {
    (s: Seg) => Droppable(r.keysOf(name), r.values(name), s)
  }

  /** The table without its owned keys that count as unset. */
  function SetPart(s: Section, r: Rules): Section {
    s.(body := SetLines(s.body, r.keysOf(s.name), r.values(s.name)))
  }

  function SetParts(ss: seq<Section>, r: Rules): (t: seq<Section>)
    ensures |t| == |ss| && forall i :: 0 <= i < |ss| ==> t[i] == SetPart(ss[i], r)
  {
    seq(|ss|, i requires 0 <= i < |ss| => SetPart(ss[i], r))
  }

  /** What is left of a table's segments after any number of merges. */
  ghost predicate Survives(before: Section, after: Section, r: Rules) {
    && after.name == before.name && after.lead == before.lead && after.header == before.header
    && Tidy(after.body)
    && Keeps(Kept(Segments(before.body), DropIn(before.name, r)), Kept(Segments(after.body), DropIn(before.name, r)))
  }

  lemma {:induction false} MergeIntoKeeps(before: Section, now: Section, from: Section, r: Rules)
    requires Survives(before, now, r) && Tidy(from.body)
    ensures Survives(before, MergeInto(now, from, r).0, r)
  {
    var keys, v, drop := r.keysOf(now.name), r.values(now.name), DropIn(before.name, r);
    var after := MergeInto(now, from, r).0;
    MergeKeysTidy(now.body, from.body, keys, v);
    forall k, lines: seq<Line> | k in keys && v.unset(v.of(lines))
      ensures drop(Entry(k, lines))
    {
      assert Droppable(keys, v, Entry(k, lines));
    }
    MergeKeysKeep(now.body, from.body, keys, v, drop);
    KeepsTrans(Kept(Segments(before.body), drop), Kept(Segments(now.body), drop), Kept(Segments(after.body), drop));
  }

  lemma {:induction false} FoldKeepsLines(kept: seq<Section>, want: seq<Section>, r: Rules)
    requires (forall i :: 0 <= i < |kept| ==> Tidy(kept[i].body)) && forall i :: 0 <= i < |want| ==> Tidy(want[i].body)
    ensures |Fold(kept, want, r).kept| == |kept|
    ensures forall i :: 0 <= i < |kept| ==> Survives(kept[i], Fold(kept, want, r).kept[i], r)
  {
    if want == [] {
      forall i | 0 <= i < |kept|
        ensures Survives(kept[i], kept[i], r)
      {
        KeepsAll(Kept(Segments(kept[i].body), DropIn(kept[i].name, r)));
      }
    } else {
      var n := |want| - 1;
      FoldKeepsLines(kept, want[..n], r);
      var f := Fold(kept, want[..n], r);
      var at := FirstNamed(f.kept, want[n].name);
      if want[n].name != "" && !r.owned(want[n].name) && at.Some? {
        MergeIntoKeeps(kept[at.value], f.kept[at.value], want[n], r);
      }
    }
  }

  lemma {:induction false} SurvivorLines(before: Section, after: Section, r: Rules)
    requires Survives(before, after, r)
    ensures Keeps(SetPart(before, r).Lines(), after.Lines())
  {
    var drop := DropIn(before.name, r);
    FlatKeeps(Kept(Segments(before.body), drop), Kept(Segments(after.body), drop));
    KeptLines(Segments(after.body), drop);
    FlatSegments(after.body);
    KeepsTrans(Flat(Kept(Segments(before.body), drop)), Flat(Kept(Segments(after.body), drop)), after.body);
    var top := before.lead + if before.header.Some? then [before.header.value] else [];
    KeepsAll(top);
    KeepsJoin(top, top, SetPart(before, r).body, after.body);
  }

  lemma {:induction false} TablesKeep(kept: seq<Section>, after: seq<Section>, r: Rules)
    requires |kept| == |after| && forall i :: 0 <= i < |kept| ==> Survives(kept[i], after[i], r)
    ensures Keeps(Flatten(SetParts(kept, r)), Flatten(after))
  {
    if kept != [] {
      TablesKeep(kept[1..], after[1..], r);
      SurvivorLines(kept[0], after[0], r);
      assert SetParts(kept, r)[1..] == SetParts(kept[1..], r);
      KeepsJoin(SetPart(kept[0], r).Lines(), after[0].Lines(), Flatten(SetParts(kept[1..], r)), Flatten(after[1..]));
    }
  }

  lemma {:induction false} KeepsWithMore<T>(x: seq<T>, a: seq<T>, b: seq<T>)
    requires Keeps(x, a)
    ensures Keeps(x, a + b)
  {
    KeepsNothing(b);
    KeepsJoin(x, a, [], b);
    assert x + [] == x;
  }

  lemma {:induction false} FlattenFour(a: seq<Section>, m: seq<Section>, b: seq<Section>, n: seq<Section>)
    ensures Flatten(a + m + b + n) == Flatten(a) + Flatten(m) + Flatten(b) + Flatten(n)
  {
    FlattenJoin(a + m + b, n);
    FlattenJoin(a + m, b);
    FlattenJoin(a, m);
  }

  lemma {:induction false} SetPartsJoin(k: seq<Section>, l: seq<Section>, r: Rules)
    ensures Flatten(SetParts(k + l, r)) == Flatten(SetParts(k, r)) + Flatten(SetParts(l, r))
  {
    assert SetParts(k + l, r) == SetParts(k, r) + SetParts(l, r);
    FlattenJoin(SetParts(k, r), SetParts(l, r));
  }

  /** The kept tables survive in the result, in order, whatever is put between and after them. */
  lemma {:induction false} SectionsKeep(k: seq<Section>, l: seq<Section>, a: seq<Section>, m: seq<Section>, b: seq<Section>, n: seq<Section>, r: Rules)
    requires |a| == |k| && forall i :: 0 <= i < |k| ==> Survives(k[i], a[i], r)
    requires |b| == |l| && forall i :: 0 <= i < |l| ==> Survives(l[i], b[i], r)
    ensures Keeps(Flatten(SetParts(k + l, r)), Flatten(a + m + b + n))
  {
    TablesKeep(k, a, r);
    TablesKeep(l, b, r);
    FlattenFour(a, m, b, n);
    SetPartsJoin(k, l, r);
    LinesBetween(Flatten(SetParts(k, r)), Flatten(a), Flatten(m), Flatten(SetParts(l, r)), Flatten(b), Flatten(n));
  }

  lemma {:induction false} LinesBetween(x: seq<Line>, a: seq<Line>, m: seq<Line>, y: seq<Line>, b: seq<Line>, n: seq<Line>)
    requires Keeps(x, a) && Keeps(y, b)
    ensures Keeps(x + y, a + m + b + n)
  {
    KeepsWithMore(x, a, m);
    KeepsJoin(x, a + m, y, b);
    KeepsWithMore(x + y, a + m + b, n);
  }

  // ---------------------------------------------------------------- the end of the file

  lemma {:induction false} KeepsOne(a: seq<Line>, l: Line)
    requires Keeps(a, [l])
    ensures a == [] || a == [l]
  {
    assert [l][1..] == [];
    if a != [] {
      assert Keeps(a[1..], []);
      assert a == [a[0]] + a[1..];
    }
  }

  lemma {:induction false} KeepsBeforeLast(a: seq<Line>, b: seq<Line>, l: Line)
    requires Keeps(a, b + [l]) && (a == [] || a[|a| - 1] != l)
    ensures Keeps(a, b)
  {
    if a != [] {
      if b == [] {
        assert b + [l] == [l];
        KeepsOne(a, l);
      } else {
        assert (b + [l])[0] == b[0] && (b + [l])[1..] == b[1..] + [l];
        if a[0] == b[0] && Keeps(a[1..], b[1..] + [l]) {
          assert |a| > 1 ==> a[1..][|a[1..]| - 1] == a[|a| - 1];
          KeepsBeforeLast(a[1..], b[1..], l);
        } else {
          KeepsBeforeLast(a, b[1..], l);
        }
      }
    }
  }

  lemma {:induction false} TrimmedPrefix(a: seq<Line>)
    ensures Keeps(TrimEnd(a), a)
    ensures TrimEnd(a) != [] ==> TrimEnd(a)[|TrimEnd(a)| - 1].text != ""
  {
    if a != [] && a[|a| - 1].text == "" {
      TrimmedPrefix(a[..|a| - 1]);
      KeepsWithMore(TrimEnd(a), a[..|a| - 1], [a[|a| - 1]]);
      assert a == a[..|a| - 1] + [a[|a| - 1]];
    } else {
      KeepsAll(a);
    }
  }

  lemma {:induction false} TrimKeeps(a: seq<Line>, b: seq<Line>)
    requires Keeps(a, b) && (a == [] || a[|a| - 1].text != "")
    ensures Keeps(a, TrimEnd(b))
  {
    if b != [] && b[|b| - 1].text == "" {
      assert b == b[..|b| - 1] + [b[|b| - 1]];
      KeepsBeforeLast(a, b[..|b| - 1], b[|b| - 1]);
      TrimKeeps(a, b[..|b| - 1]);
    }
  }

  lemma {:induction false} AssembledKeeps(kept: seq<Section>, anchor: Option<nat>, f: Folded, r: Rules)
    requires |f.kept| == |kept| && forall i :: 0 <= i < |kept| ==> Survives(kept[i], f.kept[i], r)
    requires anchor.Some? ==> anchor.value <= |f.kept|
    ensures Keeps(Flatten(SetParts(kept, r)), Flatten(Assemble(anchor, f)))
  {
    var at := if anchor.Some? then anchor.value else |f.kept|;
    assert kept[..at] + kept[at..] == kept;
    SectionsKeep(kept[..at], kept[at..], f.kept[..at], f.replacement, f.kept[at..], f.appended, r);
  }

  lemma {:induction false} TrimmedKeeps(lines: seq<Line>, after: seq<Line>)
    requires Keeps(lines, after)
    ensures Keeps(TrimEnd(lines), TrimEnd(after))
  {
    TrimmedPrefix(lines);
    KeepsTrans(TrimEnd(lines), lines, after);
    TrimKeeps(TrimEnd(lines), after);
  }

  /** Every line of the tables that are not owned outright is in the result, in order, besides the owned keys
      that count as unset and empty lines at the end of the file. */
  lemma {:induction false} FileLosesNothing(existing: seq<Line>, rendered: seq<Line>, r: Rules)
    requires Parse(existing).Some? && Parse(rendered).Some?
    requires forall i :: 0 <= i < |Parse(existing).value| ==> Tidy(Parse(existing).value[i].body)
    requires forall i :: 0 <= i < |Parse(rendered).value| ==> Tidy(Parse(rendered).value[i].body)
    ensures MergeFiles(existing, rendered, r).Accepted?
    ensures Keeps(TrimEnd(Flatten(SetParts(Unowned(Parse(existing).value, r.owned), r))), MergeFiles(existing, rendered, r).lines)
  {
    var have, want := Parse(existing).value, Parse(rendered).value;
    var kept := Unowned(have, r.owned);
    UnownedTidy(have, r.owned);
    FoldKeepsLines(kept, want, r);
    AssembledKeeps(kept, Anchor(have, r.owned), Fold(kept, want, r), r);
    var lines, after := Flatten(SetParts(kept, r)), Flatten(MergeSections(have, want, r).0);
    TrimmedKeeps(lines, after);
    if TrimEnd(after) == [] {
      assert TrimEnd(lines) == [];
    }
  }
}
