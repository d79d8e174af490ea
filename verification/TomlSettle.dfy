/** What reading laid-out tables makes of them: the lines that end a table go to the next one where the two are not
    told apart, and nothing else changes. */
module TomlSettle {
  import opened Text
  import opened TomlText
  import opened TomlKeys
  import opened TomlKeep
  import opened TomlShape
  import opened TomlMerge
  import opened TomlStable

  // ---------------------------------------------------------------- reading any tables

  /** What stays in a body above a lead, and what goes to the table below. */
  function Stay(body: seq<Line>, lead: seq<Line>): seq<Line> {
    (body + lead)[..LeadCut(body + lead)]
  }

  function Spill(body: seq<Line>, lead: seq<Line>): seq<Line> {
    (body + lead)[LeadCut(body + lead)..]
  }

  function SettledAt(ss: seq<Section>, i: nat): Section
    requires i < |ss|
  {
    ss[i].(lead := if i == 0 then ss[0].lead else Spill(ss[i - 1].body, ss[i].lead),
           body := if i == |ss| - 1 then ss[i].body else Stay(ss[i].body, ss[i + 1].lead))
  }

  /** The tables as they are read back. */
  function Settle(ss: seq<Section>): (r: seq<Section>)
    ensures |r| == |ss| && forall i :: 0 <= i < |ss| ==> r[i] == SettledAt(ss, i)
  {
    seq(|ss|, i requires 0 <= i < |ss| => SettledAt(ss, i))
  }

  /** Tables below the first one have a readable header and are introduced by quiet lines. */
  ghost predicate Readable(ss: seq<Section>) {
    && ss != [] && ss[0].name == "" && ss[0].header.None? && ss[0].lead == []
    && (forall i :: 1 <= i < |ss| ==> Headed(ss[i])) && (forall i :: 0 <= i < |ss| ==> Tidy(ss[i].body))
  }

  lemma {:induction false} SettleStep(ss: seq<Section>)
    requires |ss| > 1
    ensures Settle(ss) == [ss[0].(body := Stay(ss[0].body, ss[1].lead))] + Settle([ss[1].(lead := Spill(ss[0].body, ss[1].lead))] + ss[2..])
  {
    var tail := [ss[1].(lead := Spill(ss[0].body, ss[1].lead))] + ss[2..];
    forall i | 1 <= i < |ss|
      ensures Settle(ss)[i] == Settle(tail)[i - 1]
    {
      assert tail[i - 1].body == ss[i].body && (i > 1 ==> tail[i - 1] == ss[i]);
      assert i > 1 ==> tail[i - 2].body == ss[i - 1].body;
      assert i < |ss| - 1 ==> tail[i] == ss[i + 1];
    }
  }

  lemma {:induction false} ReadTables(ss: seq<Section>)
    requires ss != [] && forall i :: 1 <= i < |ss| ==> Headed(ss[i]) && Tidy(ss[i].body)
    ensures ParseFrom(Flatten(ss[1..]), ss[0], 0) == Some(Settle(ss))
    decreases |ss|
  {
    if |ss| == 1 {
      assert ss[1..] == [] && Settle(ss) == [ss[0]];
    } else {
      var tail := [ss[1].(lead := Spill(ss[0].body, ss[1].lead))] + ss[2..];
      forall i | 1 <= i < |tail|
        ensures Headed(tail[i]) && Tidy(tail[i].body)
      {
        assert tail[i] == ss[i + 1];
      }
      ReadTables(tail);
      assert tail[1..] == ss[2..] && ss[1..][0] == ss[1] && ss[1..][1..] == ss[2..];
      ReadSection(ss[0], ss[1], Flatten(ss[2..]));
      SettleStep(ss);
    }
  }

  /** Laid-out tables are read back settled. */
  lemma {:induction false} ReadSettled(ss: seq<Section>)
    requires Readable(ss)
    ensures Parse(Flatten(ss)) == Some(Settle(ss))
  {
    var rest := Flatten(ss[1..]);
    assert ss[0].Lines() == ss[0].body;
    ReadBody(ss[0].body, rest, ROOT);
    assert ROOT.(body := ROOT.body + ss[0].body) == ss[0];
    ReadTables(ss);
  }

  /** Settling moves lines from table to table and loses none. */
  lemma {:induction false} SettleKeepsLines(ss: seq<Section>)
    requires Readable(ss)
    ensures Flatten(Settle(ss)) == Flatten(ss)
  {
    ReadSettled(ss);
    ParseKeepsLines(Flatten(ss));
  }

  /** At a junction, and only there, nothing moves. */
  lemma {:induction false} StayIff(body: seq<Line>, lead: seq<Line>)
    ensures Junction(body, lead) <==> Stay(body, lead) == body && Spill(body, lead) == lead
  {
    assert Junction(body, lead) ==> (body + lead)[..|body|] == body && (body + lead)[|body|..] == lead;
  }

  /** Laid-out tables are read back as the very same tables exactly when every two neighbours are told apart. */
  lemma {:induction false} ReadBack(ss: seq<Section>)
    requires Readable(ss)
    ensures Parse(Flatten(ss)) == Some(ss) <==> Told(ss)
  {
    ReadSettled(ss);
    if Told(ss) {
      forall i | 0 <= i < |ss|
        ensures SettledAt(ss, i) == ss[i]
      {
        if i > 0 {
          StayIff(ss[i - 1].body, ss[i].lead);
        }
        if i < |ss| - 1 {
          StayIff(ss[i].body, ss[i + 1].lead);
        }
      }
      assert Settle(ss) == ss;
    }
    if Settle(ss) == ss {
      forall i, j | 0 <= i < |ss| && 0 <= j < |ss| && j == i + 1
        ensures Junction(ss[i].body, ss[j].lead)
      {
        assert SettledAt(ss, i) == ss[i] && SettledAt(ss, j) == ss[j];
        StayIff(ss[i].body, ss[j].lead);
      }
    }
  }

  // ---------------------------------------------------------------- what moves

  /** Lines that were cut off a body before give nothing back, and take nothing but quiet lines. */
  lemma {:induction false} CutWithin(body: seq<Line>, lead: seq<Line>)
    requires LeadCut(lead) == 0
    ensures LeadCut(body + lead) <= |body|
    ensures forall i :: LeadCut(body + lead) <= i < |body| ==> Quiet(body[i])
  {
    CutAbove(body, lead);
    QuietPart(body, lead, LeadCut(body + lead));
  }

  lemma {:induction false} CutAbove(body: seq<Line>, lead: seq<Line>)
    requires LeadCut(lead) == 0
    ensures LeadCut(body + lead) <= |body|
  {
    var m := CommentCut(lead);
    CommentCutJoin(body, lead);
    if m > 0 {
      PrefixOfJoin(body, lead, m);
      BlankCutJoin(body, lead[..m]);
    } else {
      PrefixOfJoin(body, lead, CommentCut(body));
    }
  }

  lemma {:induction false} QuietPart(body: seq<Line>, lead: seq<Line>, cut: nat)
    requires forall i :: cut <= i < |body + lead| ==> Quiet((body + lead)[i])
    ensures forall i :: cut <= i < |body| ==> Quiet(body[i])
  {
    assert forall i :: 0 <= i < |body| ==> (body + lead)[i] == body[i];
  }

  /** A table without some quiet lines at its end, under whatever lead. */
  ghost predicate Sheds(x: Section, y: Section) {
    && y.name == x.name && y.header == x.header && |y.body| <= |x.body| && y.body == x.body[..|y.body|]
    && forall i :: |y.body| <= i < |x.body| ==> Quiet(x.body[i])
  }

  function Shed(x: Section, y: Section): seq<Line>
    requires |y.body| <= |x.body|
  {
    x.body[|y.body|..]
  }

  lemma {:induction false} SettleSheds(ss: seq<Section>, i: nat)
    requires i < |ss| && forall k :: 1 <= k < |ss| ==> LeadCut(ss[k].lead) == 0
    ensures Sheds(ss[i], SettledAt(ss, i))
    ensures i < |ss| - 1 && !Junction(ss[i].body, ss[i + 1].lead) ==> |SettledAt(ss, i).body| < |ss[i].body|
  {
    if i < |ss| - 1 {
      CutWithin(ss[i].body, ss[i + 1].lead);
      var cut := LeadCut(ss[i].body + ss[i + 1].lead);
      assert (ss[i].body + ss[i + 1].lead)[..cut] == ss[i].body[..cut];
    } else {
      assert ss[i].body[..|ss[i].body|] == ss[i].body;
    }
  }

  // ---------------------------------------------------------------- keys above quiet lines

  ghost predicate AllQuiet(q: seq<Line>) {
    forall i :: 0 <= i < |q| ==> Quiet(q[i])
  }

  lemma {:induction false} QuietSegments(q: seq<Line>)
    requires AllQuiet(q)
    ensures Segments(q) == Fillers(q)
  {
    if q != [] {
      assert Quiet(q[0]) && forall i :: 0 <= i < |q| - 1 ==> q[1..][i] == q[i + 1];
      QuietSegments(q[1..]);
    }
  }

  lemma {:induction false} SegmentsAbove(body: seq<Line>, q: seq<Line>)
    requires Tidy(body) && AllQuiet(q)
    ensures Segments(body + q) == Segments(body) + Fillers(q)
  {
    FlatSegments(body);
    SegmentsOfFlat(Segments(body), q);
    QuietSegments(q);
  }

  /** Without its quiet last line a tidy body is tidy. */
  lemma {:induction false} TidyInit(body: seq<Line>, l: Line)
    requires Tidy(body + [l]) && Quiet(l)
    ensures Tidy(body)
  {
    var segs := Segments(body + [l]);
    FlatSegments(body + [l]);
    var n := |segs| - 1;
    assert segs != [] by {
      assert segs == [] ==> Flat(segs) == [];
    }
    var init, last := segs[..n], segs[n];
    assert last in segs;
    FlatLast(segs);
    TidyPart(segs, n);
    LastIsFiller(init, last, body, l);
    TidyFlat(init);
  }

  lemma {:induction false} LastIsFiller(init: seq<Seg>, last: Seg, body: seq<Line>, l: Line)
    requires TidySeg(last) && Quiet(l) && Flat(init) + last.Lines() == body + [l] && last.Lines() != []
    ensures Flat(init) == body
  {
    var all := body + [l];
    assert all[|all| - 1] == l && last.Lines()[|last.Lines()| - 1] == (Flat(init) + last.Lines())[|all| - 1];
    if last.Entry? {
      ClosedEndsLoud(last);
    }
    assert Flat(init) == all[..|all| - 1] == body;
  }

  lemma {:induction false} TidyAbove(body: seq<Line>, q: seq<Line>)
    requires Tidy(body + q) && AllQuiet(q)
    ensures Tidy(body)
    decreases |q|
  {
    if q == [] {
      assert body + q == body;
    } else {
      var n := |q| - 1;
      assert body + q == (body + q[..n]) + [q[n]];
      TidyInit(body + q[..n], q[n]);
      TidyAbove(body, q[..n]);
    }
  }

  lemma {:induction false} FindAbove(segs: seq<Seg>, q: seq<Line>, key: string)
    ensures FindSeg(segs + Fillers(q), key) == FindSeg(segs, key)
  {
    FillersFlat(q);
    var all := segs + Fillers(q);
    var r, s := FindSeg(all, key), FindSeg(segs, key);
    assert forall i :: 0 <= i < |segs| ==> all[i] == segs[i];
    assert forall i :: |segs| <= i < |all| ==> all[i] in Fillers(q) && all[i].Filler?;
  }

  lemma {:induction false} CommentSame(body: seq<Line>, q: seq<Line>, start: nat)
    requires start <= |body|
    ensures CommentAbove(body + q, start) == CommentAbove(body, start)
    decreases start
  {
    if start > 0 && body[start - 1].shape.Comment? {
      CommentSame(body, q, start - 1);
    }
  }

  lemma {:induction false} TailAbove(body: seq<Line>, q: seq<Line>)
    requires AllQuiet(q)
    ensures Tail(body + q) == Tail(body)
    decreases |q|
  {
    if q == [] {
      assert body + q == body;
    } else {
      var n := |q| - 1;
      assert body + q == (body + q[..n]) + [q[n]];
      QuietEnd(body + q[..n], q[n]);
      TailAbove(body, q[..n]);
    }
  }

  /** A key is found at the same place above quiet lines. */
  lemma {:induction false} FoundAbove(body: seq<Line>, q: seq<Line>, key: string)
    requires Tidy(body) && AllQuiet(q)
    ensures FindKey(body + q, key) == FindKey(body, key)
  {
    SegmentsAbove(body, q);
    FindAbove(Segments(body), q, key);
    var found := FindSeg(Segments(body), key);
    if found.Some? {
      var segs, j := Segments(body), found.value;
      JoinedPlace(segs, Fillers(q), j);
      FoundHere(body, segs, key, j, segs[..j], segs[j]);
      FoundHere(body + q, segs + Fillers(q), key, j, segs[..j], segs[j]);
      CommentSame(body, q, |Flat(segs[..j])|);
    }
  }

  lemma {:induction false} FoundHere(body: seq<Line>, segs: seq<Seg>, key: string, j: nat, a: seq<Seg>, seg: Seg)
    requires Segments(body) == segs && FindSeg(segs, key) == Some(j) && segs[..j] == a && segs[j] == seg
    ensures var start := |Flat(a)|;
            start <= |body| && FindKey(body, key) == Some(Found(start, start + |seg.Lines()|, CommentAbove(body, start)))
  {
    FoundAt(body, key, j);
  }

  lemma {:induction false} JoinedPlace<T>(a: seq<T>, b: seq<T>, j: nat)
    requires j < |a|
    ensures (a + b)[..j] == a[..j] && (a + b)[j] == a[j]
  {
  }

  lemma {:induction false} SliceAbove(body: seq<Line>, q: seq<Line>, i: nat, j: nat)
    requires i <= j <= |body|
    ensures (body + q)[i..j] == body[i..j] && (body + q)[..i] == body[..i] && (body + q)[j..] == body[j..] + q
  {
  }

  /** A merge of a key leaves quiet lines below the body alone. */
  lemma {:induction false} MergeKeyAbove(body: seq<Line>, q: seq<Line>, from: seq<Line>, key: string, v: Values)
    requires Tidy(body) && AllQuiet(q)
    ensures MergeKey(body + q, from, key, v) == Merged(MergeKey(body, from, key, v).body + q, MergeKey(body, from, key, v).divergences)
  {
    FoundAbove(body, q, key);
    if FindKey(from, key).Some? {
      var w := FindKey(from, key).value;
      if FindKey(body, key).None? {
        TailAbove(body, q);
        SliceAbove(body, q, Tail(body), Tail(body));
        Regroup(body[..Tail(body)] + from[w.comment..w.end], body[Tail(body)..], q);
      } else {
        var h := FindKey(body, key).value;
        SliceAbove(body, q, h.start, h.end);
        Regroup(body[..h.start] + Replacement(h, from, w), body[h.end..], q);
      }
    }
  }

  lemma {:induction false} MergeKeysAbove(body: seq<Line>, q: seq<Line>, from: seq<Line>, keys: seq<string>, v: Values)
    requires Tidy(body) && AllQuiet(q) && Tidy(from)
    ensures MergeKeys(body + q, from, keys, v) == Merged(MergeKeys(body, from, keys, v).body + q, MergeKeys(body, from, keys, v).divergences)
  {
    if keys != [] {
      var n := |keys| - 1;
      MergeKeysAbove(body, q, from, keys[..n], v);
      MergeKeysTidy(body, from, keys[..n], v);
      MergeKeyAbove(MergeKeys(body, from, keys[..n], v).body, q, from, keys[n], v);
    }
  }

  // ---------------------------------------------------------------- tables that shed lines

  lemma {:induction false} ShedAt(x: Section, y: Section)
    requires Sheds(x, y)
    ensures x.body == y.body + Shed(x, y) && AllQuiet(Shed(x, y))
  {
  }

  ghost predicate AllShed(a: seq<Section>, b: seq<Section>) {
    |a| == |b| && forall i :: 0 <= i < |a| ==> Sheds(a[i], b[i])
  }

  lemma {:induction false} ShedJoin(a: seq<Section>, b: seq<Section>, x: seq<Section>, y: seq<Section>)
    requires AllShed(a, b) && AllShed(x, y)
    ensures AllShed(a + x, b + y)
  {
    forall i | 0 <= i < |a + x|
      ensures Sheds((a + x)[i], (b + y)[i])
    {
      JoinAt(a, x, i);
      JoinAt(b, y, i);
    }
  }

  /** The kept tables and the place of the owned ones depend on the names only. */
  lemma {:induction false} UnownedAlike(a: seq<Section>, b: seq<Section>, owned: string -> bool)
    requires AllShed(a, b)
    ensures AllShed(Unowned(a, owned), Unowned(b, owned)) && Anchor(a, owned) == Anchor(b, owned)
  {
    if a != [] {
      var n := |a| - 1;
      assert forall i :: 0 <= i < n ==> a[..n][i] == a[i] && b[..n][i] == b[i];
      UnownedAlike(a[..n], b[..n], owned);
      var x, y := if owned(a[n].name) then [] else [a[n]], if owned(a[n].name) then [] else [b[n]];
      assert Sheds(a[n], b[n]);
      ShedJoin(Unowned(a[..n], owned), Unowned(b[..n], owned), x, y);
    }
  }

  /** A fold into tables and into what they shed: the same replacement, the same appended tables, the same
      reports, and every table changes alike above the lines it has shed. */
  ghost predicate FoldsAlike(f: Folded, g: Folded, kept: seq<Section>, other: seq<Section>) {
    && g.replacement == f.replacement && g.appended == f.appended && g.reports == f.reports
    && |f.kept| == |g.kept| == |kept| == |other|
    && forall i :: 0 <= i < |kept| ==> ShedsAlike(f.kept[i], g.kept[i], kept[i], other[i])
  }

  ghost predicate ShedsAlike(x: Section, y: Section, before: Section, other: Section) {
    && x.name == y.name == other.name && y.header == other.header && y.lead == other.lead && Tidy(x.body)
    && Sheds(before, other) && x.body == y.body + Shed(before, other)
  }

  lemma {:induction false} FoldOneAlike(f: Folded, g: Folded, kept: seq<Section>, other: seq<Section>, s: Section, r: Rules)
    requires FoldsAlike(f, g, kept, other) && Tidy(s.body)
    ensures FoldsAlike(FoldOne(f, s, r), FoldOne(g, s, r), kept, other)
  {
    SameNames(f.kept, g.kept, s.name);
    var at := FirstNamed(f.kept, s.name);
    if s.name != "" && !r.owned(s.name) && at.Some? {
      var i := at.value;
      assert ShedsAlike(f.kept[i], g.kept[i], kept[i], other[i]);
      IntoAlike(f.kept[i], g.kept[i], kept[i], other[i], s, r);
    }
  }

  lemma {:induction false} IntoAlike(x: Section, y: Section, before: Section, other: Section, s: Section, r: Rules)
    requires ShedsAlike(x, y, before, other) && Tidy(s.body)
    ensures ShedsAlike(MergeInto(x, s, r).0, MergeInto(y, s, r).0, before, other) && MergeInto(x, s, r).1 == MergeInto(y, s, r).1
  {
    var q := Shed(before, other);
    ShedAt(before, other);
    TidyAbove(y.body, q);
    MergeKeysAbove(y.body, q, s.body, r.keysOf(x.name), r.values(x.name));
    MergeKeysTidy(x.body, s.body, r.keysOf(x.name), r.values(x.name));
  }

  lemma {:induction false} FoldAlike(kept: seq<Section>, other: seq<Section>, want: seq<Section>, r: Rules)
    requires |kept| == |other| && forall i :: 0 <= i < |kept| ==> Sheds(kept[i], other[i]) && Tidy(kept[i].body)
    requires forall i :: 0 <= i < |want| ==> Tidy(want[i].body)
    ensures FoldsAlike(Fold(kept, want, r), Fold(other, want, r), kept, other)
  {
    if want == [] {
      forall i | 0 <= i < |kept|
        ensures ShedsAlike(kept[i], other[i], kept[i], other[i])
      {
        ShedAt(kept[i], other[i]);
      }
    } else {
      var n := |want| - 1;
      FoldAlike(kept, other, want[..n], r);
      FoldOneAlike(Fold(kept, want[..n], r), Fold(other, want[..n], r), kept, other, want[n], r);
    }
  }

  /** Where a fold changes no table, it changes none that has shed lines. */
  lemma {:induction false} FoldStill(kept: seq<Section>, other: seq<Section>, want: seq<Section>, r: Rules)
    requires |kept| == |other| && forall i :: 0 <= i < |kept| ==> Sheds(kept[i], other[i]) && Tidy(kept[i].body)
    requires forall i :: 0 <= i < |want| ==> Tidy(want[i].body)
    requires Fold(kept, want, r).kept == kept
    ensures Fold(other, want, r) == Fold(kept, want, r).(kept := other)
  {
    FoldAlike(kept, other, want, r);
    var g := Fold(other, want, r).kept;
    forall i | 0 <= i < |other|
      ensures g[i] == other[i]
    {
      assert ShedsAlike(kept[i], g[i], kept[i], other[i]);
      ShedAt(kept[i], other[i]);
      SameAbove(g[i].body, other[i].body, Shed(kept[i], other[i]));
    }
    assert g == other;
  }

  lemma {:induction false} SameAbove(a: seq<Line>, b: seq<Line>, q: seq<Line>)
    requires a + q == b + q
    ensures a == b
  {
    assert |a + q| == |b + q|;
    assert a == (a + q)[..|a|] && b == (b + q)[..|b|];
  }
}
