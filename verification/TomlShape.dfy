/** When a list of tables, laid out as lines, is read back as the very same tables. */
module TomlShape {
  import opened Text
  import opened TomlText
  import opened TomlKeys
  import opened TomlKeep

  /** How a body ends. */
  datatype Ending = Empty | Loud | Blanked | Commented

  function EndingOf(body: seq<Line>): Ending {
    if body == [] then Empty
    else
      match body[|body| - 1].shape
      case Blank => Blanked
      case Comment => Commented
      case _ => Loud
  }

  /** A body that ends as another one does, or has got a first key. */
  predicate EndsAlike(x: seq<Line>, y: seq<Line>) {
    EndingOf(y) == EndingOf(x) || (EndingOf(x).Empty? && EndingOf(y).Loud?)
  }

  lemma {:induction false} KeyEndsLoud(from: seq<Line>, key: string)
    requires Tidy(from) && FindKey(from, key).Some?
    ensures var w := FindKey(from, key).value; w.start < w.end && !Quiet(from[w.end - 1])
  {
    var w := FindKey(from, key).value;
    var a, b := SplitAtKey(from, key);
    ClosedEndsLoud(Entry(key, from[w.start..w.end]));
    LastOfSlice(from, w.start, w.end);
  }

  lemma {:induction false} LastOfSlice<T>(s: seq<T>, i: nat, j: nat)
    requires i <= j <= |s| && s[i..j] != []
    ensures i < j && |s[i..j]| == j - i && s[i..j][j - i - 1] == s[j - 1]
  {
  }

  lemma {:induction false} SpliceEnds(body: seq<Line>, start: nat, end: nat, mid: seq<Line>)
    requires start <= end <= |body| && (end == |body| ==> EndingOf(body).Empty? || EndingOf(body).Loud?)
    requires mid != [] && !Quiet(mid[|mid| - 1])
    ensures EndsAlike(body, body[..start] + mid + body[end..])
  {
  }

  lemma {:induction false} BlockEndsLoud(from: seq<Line>, key: string)
    requires Tidy(from) && FindKey(from, key).Some?
    ensures var w := FindKey(from, key).value;
            && from[w.comment..w.end] != [] && !Quiet(from[w.comment..w.end][w.end - w.comment - 1])
            && from[w.start..w.end] != [] && !Quiet(from[w.start..w.end][w.end - w.start - 1])
  {
    KeyEndsLoud(from, key);
    var w := FindKey(from, key).value;
    LastOfSlice(from, w.start, w.end);
    assert |from[w.comment..w.end]| == w.end - w.comment > 0;
    LastOfSlice(from, w.comment, w.end);
  }

  lemma {:induction false} MergeKeyEnds(body: seq<Line>, from: seq<Line>, key: string, v: Values)
    requires Tidy(body) && Tidy(from)
    ensures EndsAlike(body, MergeKey(body, from, key, v).body)
  {
    if FindKey(from, key).Some? {
      BlockEndsLoud(from, key);
      if FindKey(body, key).Some? {
        ReplaceEnds(body, from, key, v);
      } else {
        var w := FindKey(from, key).value;
        SpliceEnds(body, Tail(body), Tail(body), from[w.comment..w.end]);
      }
    }
  }

  lemma {:induction false} ReplaceEnds(body: seq<Line>, from: seq<Line>, key: string, v: Values)
    requires Tidy(body) && Tidy(from) && FindKey(from, key).Some? && FindKey(body, key).Some?
    ensures EndsAlike(body, MergeKey(body, from, key, v).body)
  {
    var h, w := FindKey(body, key).value, FindKey(from, key).value;
    BlockEndsLoud(from, key);
    KeyEndsLoud(body, key);
    SpliceEnds(body, h.start, h.end, Replacement(h, from, w));
    ReplacedBody(body, from, key, v);
  }

  lemma {:induction false} ReplacedBody(body: seq<Line>, from: seq<Line>, key: string, v: Values)
    requires FindKey(from, key).Some? && FindKey(body, key).Some?
    ensures var h, w := FindKey(body, key).value, FindKey(from, key).value;
            var after := MergeKey(body, from, key, v).body;
            after == body || after == body[..h.start] + Replacement(h, from, w) + body[h.end..]
  {
  }

  lemma {:induction false} MergeKeysEnd(body: seq<Line>, from: seq<Line>, keys: seq<string>, v: Values)
    requires Tidy(body) && Tidy(from)
    ensures EndsAlike(body, MergeKeys(body, from, keys, v).body)
  {
    if keys != [] {
      var n := |keys| - 1;
      MergeKeysEnd(body, from, keys[..n], v);
      MergeKeysTidy(body, from, keys[..n], v);
      MergeKeyEnds(MergeKeys(body, from, keys[..n], v).body, from, keys[n], v);
    }
  }

  // ---------------------------------------------------------------- junctions

  /** The lines between two tables belong to the second one. */
  predicate Junction(body: seq<Line>, lead: seq<Line>) {
    LeadCut(body + lead) == |body|
  }

  predicate StartsBlank(lead: seq<Line>) {
    lead != [] && lead[0].shape.Blank?
  }

  lemma {:induction false} InitOfJoin<T>(x: seq<T>, y: seq<T>)
    requires y != []
    ensures (x + y)[|x + y| - 1] == y[|y| - 1] && (x + y)[..|x + y| - 1] == x + y[..|y| - 1]
  {
  }

  lemma {:induction false} CommentCutJoin(x: seq<Line>, y: seq<Line>)
    ensures CommentCut(x + y) == if CommentCut(y) > 0 then |x| + CommentCut(y) else CommentCut(x)
    decreases |y|
  {
    if y == [] {
      assert x + y == x;
    } else {
      InitOfJoin(x, y);
      if y[|y| - 1].shape.Comment? {
        CommentCutJoin(x, y[..|y| - 1]);
      }
    }
  }

  lemma {:induction false} BlankCutJoin(x: seq<Line>, y: seq<Line>)
    ensures BlankCut(x + y) == if BlankCut(y) > 0 then |x| + BlankCut(y) else BlankCut(x)
    decreases |y|
  {
    if y == [] {
      assert x + y == x;
    } else {
      InitOfJoin(x, y);
      if y[|y| - 1].shape.Blank? {
        BlankCutJoin(x, y[..|y| - 1]);
      }
    }
  }

  lemma {:induction false} PrefixOfJoin<T>(x: seq<T>, y: seq<T>, m: nat)
    ensures m <= |y| ==> (x + y)[..|x| + m] == x + y[..m]
    ensures m <= |x| ==> (x + y)[..m] == x[..m]
  {
  }

  /** A body that does not end in a blank line has no blank lines to give away, and likewise for comments. */
  lemma {:induction false} WholeBody(body: seq<Line>)
    ensures BlankCut(body) == |body| <==> !EndingOf(body).Blanked?
    ensures CommentCut(body) == |body| <==> !EndingOf(body).Commented?
  {
  }

  /** Exactly when the lines of a lead are told apart from the body above it. */
  lemma {:induction false} JunctionIff(body: seq<Line>, lead: seq<Line>)
    ensures Junction(body, lead)
            <==> LeadCut(lead) == 0 && !EndingOf(body).Blanked? && (EndingOf(body).Commented? ==> StartsBlank(lead))
  {
    var m := CommentCut(lead);
    CommentCutJoin(body, lead);
    WholeBody(body);
    if m > 0 {
      PrefixOfJoin(body, lead, m);
      BlankCutJoin(body, lead[..m]);
      LeadStarts(lead);
    } else {
      PrefixOfJoin(body, lead, CommentCut(body));
      CutWhole(body);
      AllComments(lead);
    }
  }

  /** A lead with more than comments, all of it cut off, starts with a blank line. */
  lemma {:induction false} LeadStarts(lead: seq<Line>)
    requires CommentCut(lead) > 0
    ensures LeadCut(lead) == 0 ==> StartsBlank(lead)
  {
    var top := lead[..CommentCut(lead)];
    assert top[0] == lead[0];
  }

  lemma {:induction false} CutWhole(body: seq<Line>)
    ensures BlankCut(body[..CommentCut(body)]) == |body| <==> !EndingOf(body).Blanked? && !EndingOf(body).Commented?
  {
    WholeBody(body);
    if CommentCut(body) == |body| {
      assert body[..|body|] == body;
    }
  }

  lemma {:induction false} AllComments(lead: seq<Line>)
    requires CommentCut(lead) == 0
    ensures LeadCut(lead) == 0 && !StartsBlank(lead)
  {
  }

  // ---------------------------------------------------------------- sections as read

  /** A section with a header line of its own name, introduced by quiet lines. */
  predicate Headed(s: Section) {
    && s.header.Some? && s.header.value.shape == Opens(Some(s.name)) && s.name != ""
    && forall i :: 0 <= i < |s.lead| ==> Quiet(s.lead[i])
  }

  /** Every two tables one below the other are told apart. */
  predicate Told(ss: seq<Section>) {
    forall i, j :: 0 <= i < |ss| && 0 <= j < |ss| && j == i + 1 ==> Junction(ss[i].body, ss[j].lead)
  }

  /** What reading a file makes: a root, headed tables, and junctions between them. */
  predicate WellMade(ss: seq<Section>) {
    && ss != [] && ss[0].name == "" && ss[0].header.None? && ss[0].lead == []
    && (forall i :: 1 <= i < |ss| ==> Headed(ss[i]))
    && Told(ss)
  }

  lemma {:induction false} ToldJoin(a: seq<Section>, b: seq<Section>)
    requires Told(a) && Told(b) && (a != [] && b != [] ==> Junction(a[|a| - 1].body, b[0].lead))
    ensures Told(a + b)
  {
    forall i, j | 0 <= i < |a + b| && 0 <= j < |a + b| && j == i + 1
      ensures Junction((a + b)[i].body, (a + b)[j].lead)
    {
      JoinAt(a, b, i);
      JoinAt(a, b, j);
    }
  }

  lemma {:induction false} JoinAt<T>(a: seq<T>, b: seq<T>, i: nat)
    requires i < |a + b|
    ensures (a + b)[i] == if i < |a| then a[i] else b[i - |a|]
  {
  }

  /** What reading from a table on makes: that table, and below it tables that are headed and told apart. */
  predicate ReadOn(current: Section, ss: seq<Section>) {
    && ss != [] && ss[0].name == current.name && ss[0].lead == current.lead && ss[0].header == current.header
    && (forall i :: 1 <= i < |ss| ==> Headed(ss[i]))
    && Told(ss)
  }

  lemma {:induction false} ParsedFrom(lines: seq<Line>, current: Section, depth: nat)
    requires ParseFrom(lines, current, depth).Some?
    ensures ReadOn(current, ParseFrom(lines, current, depth).value)
    decreases |lines|
  {
    if lines != [] {
      if depth == 0 && lines[0].shape.Opens? {
        var cut := LeadCut(current.body);
        var next := Section(lines[0].shape.table.value, current.body[cut..], Some(lines[0]), []);
        ParsedFrom(lines[1..], next, 0);
        ReadOnBelow(current, cut, next, ParseFrom(lines[1..], next, 0).value);
      } else {
        ParsedFrom(lines[1..], current.(body := current.body + [lines[0]]), Floor(depth + lines[0].delta));
      }
    }
  }

  lemma {:induction false} ReadOnBelow(current: Section, cut: nat, next: Section, rest: seq<Section>)
    requires cut == LeadCut(current.body) && next.lead == current.body[cut..]
    requires Headed(next) && ReadOn(next, rest)
    ensures ReadOn(current, [current.(body := current.body[..cut])] + rest)
  {
    assert current.body == current.body[..cut] + next.lead;
    ToldJoin([current.(body := current.body[..cut])], rest);
  }

  lemma {:induction false} ParsedIsWellMade(lines: seq<Line>)
    requires Parse(lines).Some?
    ensures WellMade(Parse(lines).value)
  {
    ParsedFrom(lines, ROOT, 0);
  }

  // ---------------------------------------------------------------- reading back

  lemma {:induction false} Regroup3(current: Section, a: seq<Line>, b: seq<Line>)
    ensures current.(body := current.body + a).(body := current.(body := current.body + a).body + b) == current.(body := current.body + (a + b))
  {
    assert current.body + a + b == current.body + (a + b);
  }

  /** The continuation lines of a closed entry are read into the current table. */
  lemma {:induction false} ReadEntry(lines: seq<Line>, rest: seq<Line>, current: Section, depth: int)
    requires EntryDepth(lines, depth) <= 0 && EntryLen(lines, depth) == |lines|
    ensures ParseFrom(lines + rest, current, Floor(depth)) == ParseFrom(rest, current.(body := current.body + lines), 0)
    decreases |lines|
  {
    if lines == [] {
      assert lines + rest == rest && current.body + lines == current.body;
    } else {
      assert depth > 0;
      assert (lines + rest)[0] == lines[0] && (lines + rest)[1..] == lines[1..] + rest;
      var next := current.(body := current.body + [lines[0]]);
      assert EntryDepth(lines[1..], depth + lines[0].delta) <= 0;
      ReadEntry(lines[1..], rest, next, depth + lines[0].delta);
      Regroup3(current, [lines[0]], lines[1..]);
      assert lines == [lines[0]] + lines[1..];
    }
  }

  lemma {:induction false} ReadSeg(s: Seg, rest: seq<Line>, current: Section)
    requires TidySeg(s)
    ensures ParseFrom(s.Lines() + rest, current, 0) == ParseFrom(rest, current.(body := current.body + s.Lines()), 0)
  {
    var all := s.Lines() + rest;
    match s {
      case Filler(line) =>
        assert all[0] == line && all[1..] == rest;
      case Entry(_, lines) =>
        assert all[0] == lines[0] && all[1..] == lines[1..] + rest;
        var next := current.(body := current.body + [lines[0]]);
        ReadEntry(lines[1..], rest, next, lines[0].delta);
        Regroup3(current, [lines[0]], lines[1..]);
        assert lines == [lines[0]] + lines[1..];
    }
  }

  /** A tidy body is read into the current table as it stands. */
  lemma {:induction false} ReadSegs(segs: seq<Seg>, rest: seq<Line>, current: Section)
    requires TidySegs(segs)
    ensures ParseFrom(Flat(segs) + rest, current, 0) == ParseFrom(rest, current.(body := current.body + Flat(segs)), 0)
    decreases |segs|
  {
    if segs == [] {
      assert Flat(segs) + rest == rest && current.body + Flat(segs) == current.body;
    } else {
      assert segs[0] in segs && forall s :: s in segs[1..] ==> s in segs;
      var tail := Flat(segs[1..]);
      Regroup(segs[0].Lines(), tail, rest);
      ReadSeg(segs[0], tail + rest, current);
      ReadSegs(segs[1..], rest, current.(body := current.body + segs[0].Lines()));
      Regroup3(current, segs[0].Lines(), tail);
    }
  }

  lemma {:induction false} ReadBody(body: seq<Line>, rest: seq<Line>, current: Section)
    requires Tidy(body)
    ensures ParseFrom(body + rest, current, 0) == ParseFrom(rest, current.(body := current.body + body), 0)
  {
    FlatSegments(body);
    ReadSegs(Segments(body), rest, current);
  }

  lemma {:induction false} ReadQuiet(lead: seq<Line>, rest: seq<Line>, current: Section)
    requires forall i :: 0 <= i < |lead| ==> Quiet(lead[i])
    ensures ParseFrom(lead + rest, current, 0) == ParseFrom(rest, current.(body := current.body + lead), 0)
  {
    if lead == [] {
      assert lead + rest == rest && current.body + lead == current.body;
    } else {
      assert (lead + rest)[0] == lead[0] && (lead + rest)[1..] == lead[1..] + rest;
      ReadQuiet(lead[1..], rest, current.(body := current.body + [lead[0]]));
      Regroup3(current, [lead[0]], lead[1..]);
      assert lead == [lead[0]] + lead[1..];
    }
  }

  /** The lines between two tables go to the second one from the cut on. */
  lemma {:induction false} ReadSection(current: Section, next: Section, rest: seq<Line>)
    requires Headed(next) && Tidy(next.body)
    ensures var all := current.body + next.lead;
            var cut := LeadCut(all);
            ParseFrom(next.Lines() + rest, current, 0)
            == match ParseFrom(rest, next.(lead := all[cut..]), 0) case None => None case Some(ss) => Some([current.(body := all[..cut])] + ss)
  {
    var h := next.header.value;
    var after := [h] + (next.body + rest);
    assert next.Lines() + rest == next.lead + after;
    ReadQuiet(next.lead, after, current);
    var led := current.(body := current.body + next.lead);
    assert after[0] == h && after[1..] == next.body + rest;
    var open := Section(next.name, led.body[LeadCut(led.body)..], Some(h), []);
    ReadBody(next.body, rest, open);
    assert open.(body := open.body + next.body) == next.(lead := open.lead);
  }
}
