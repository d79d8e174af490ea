/** Where a merge of keys puts the template's lines, and with which comments: read off the lines before and after. */
module TomlWhere {
  import opened Text
  import opened TomlText
  import opened TomlKeys
  import opened TomlKeep

  // ---------------------------------------------------------------- places

  /** The lines from `start` to `end` are the first entry of the key. */
  ghost predicate KeyAt(body: seq<Line>, key: string, start: nat, end: nat) {
    && start <= end <= |body|
    && exists a, b :: Segments(body) == a + [Entry(key, body[start..end])] + b && |Flat(a)| == start && NoEntry(a, key)
  }

  ghost predicate NoEntry(segs: seq<Seg>, key: string) {
    forall i :: 0 <= i < |segs| && segs[i].Entry? ==> segs[i].name != key
  }

  ghost predicate HasNoKey(body: seq<Line>, key: string) {
    NoEntry(Segments(body), key)
  }

  /** The comment lines directly above a place, all of them, begin at `c`. */
  predicate CommentRun(body: seq<Line>, c: nat, start: nat) {
    && c <= start <= |body|
    && (forall i :: c <= i < start ==> body[i].shape.Comment?)
    && (c > 0 ==> !body[c - 1].shape.Comment?)
  }

  /** Past the last line that is neither blank nor a comment. */
  predicate PastLoud(body: seq<Line>, at: nat) {
    at <= |body| && (at > 0 ==> !Quiet(body[at - 1])) && forall i :: at <= i < |body| ==> Quiet(body[i])
  }

  lemma {:induction false} RunBegins(body: seq<Line>, start: nat)
    requires start <= |body|
    ensures CommentRun(body, CommentAbove(body, start), start)
    decreases start
  {
    if start > 0 && body[start - 1].shape.Comment? {
      RunBegins(body, start - 1);
    }
  }

  lemma {:induction false} OneRun(body: seq<Line>, c: nat, d: nat, start: nat)
    requires CommentRun(body, c, start) && CommentRun(body, d, start)
    ensures c == d
  {
  }

  lemma {:induction false} FoundThere(body: seq<Line>, key: string)
    ensures match FindKey(body, key)
            case Some(h) => KeyAt(body, key, h.start, h.end) && CommentRun(body, h.comment, h.start)
            case None => HasNoKey(body, key)
  {
    var found := FindSeg(Segments(body), key);
    if found.Some? {
      EntryPlace(body, key, Segments(body), found.value);
    }
  }

  lemma {:induction false} EntryPlace(body: seq<Line>, key: string, segs: seq<Seg>, j: nat)
    requires segs == Segments(body) && FindSeg(segs, key) == Some(j)
    ensures FindKey(body, key).Some?
    ensures var h := FindKey(body, key).value; KeyAt(body, key, h.start, h.end) && CommentRun(body, h.comment, h.start)
  {
    PlaceOfKey(body, key, j);
    FoundAt(body, key, j);
    var h := FindKey(body, key).value;
    SegsAround(segs, j);
    assert segs == segs[..j] + [Entry(key, body[h.start..h.end])] + segs[j + 1..];
    assert NoEntry(segs[..j], key);
    RunBegins(body, h.start);
  }

  lemma SegsAround(segs: seq<Seg>, j: nat)
    requires j < |segs|
    ensures segs == segs[..j] + [segs[j]] + segs[j + 1..]
  {
  }

  lemma {:induction false} FirstEntry(a: seq<Seg>, lines: seq<Line>, b: seq<Seg>, key: string)
    requires NoEntry(a, key)
    ensures FindSeg(a + [Entry(key, lines)] + b, key) == Some(|a|)
  {
    var segs := a + [Entry(key, lines)] + b;
    assert segs[|a|] == Entry(key, lines);
    assert forall i :: 0 <= i < |a| ==> segs[i] == a[i];
  }

  /** A key has one place. */
  lemma {:induction false} OnePlace(body: seq<Line>, key: string, start: nat, end: nat, c: nat)
    requires KeyAt(body, key, start, end) && CommentRun(body, c, start)
    ensures FindKey(body, key) == Some(Found(start, end, c))
  {
    var a, b :| Segments(body) == a + [Entry(key, body[start..end])] + b && |Flat(a)| == start && NoEntry(a, key);
    PlaceHere(body, key, Segments(body), a, body[start..end], b);
    RunIs(body, c, start);
  }

  lemma {:induction false} RunIs(body: seq<Line>, c: nat, start: nat)
    requires CommentRun(body, c, start)
    ensures CommentAbove(body, start) == c
  {
    RunBegins(body, start);
    OneRun(body, c, CommentAbove(body, start), start);
  }

  lemma {:induction false} PlaceHere(body: seq<Line>, key: string, segs: seq<Seg>, a: seq<Seg>, lines: seq<Line>, b: seq<Seg>)
    requires segs == Segments(body) && segs == a + [Entry(key, lines)] + b && NoEntry(a, key)
    ensures var start := |Flat(a)|;
            start <= |body| && FindKey(body, key) == Some(Found(start, start + |lines|, CommentAbove(body, start)))
  {
    FirstEntry(a, lines, b, key);
    FoundAt(body, key, |a|);
    assert segs[..|a|] == a && segs[|a|] == Entry(key, lines);
  }

  // ---------------------------------------------------------------- one key

  /** The lines go in past the last loud line, between the user's own. */
  ghost predicate Inserted(body: seq<Line>, block: seq<Line>, after: seq<Line>) {
    exists at: nat :: PastLoud(body, at) && after == body[..at] + block + body[at..]
  }

  /** What a merge of one key makes of the lines. A key the table lacks goes in past its last loud line, under all
      the comment lines the template has directly above it. A key whose value counts as unset is overwritten in its
      place, and brings those comment lines along exactly when the user has none directly above it. Any other key
      leaves the lines alone, and is reported if the values differ. */
  ghost predicate KeyMerged(body: seq<Line>, from: seq<Line>, key: string, v: Values, after: Merged) {
    && (HasNoKey(from, key) ==> after == Merged(body, []))
    && (forall start: nat, end: nat, c: nat :: KeyAt(from, key, start, end) && CommentRun(from, c, start) && HasNoKey(body, key) ==>
          Inserted(body, from[c..end], after.body) && after.divergences == [])
    && (forall start: nat, end: nat, c: nat, s: nat, e: nat ::
          KeyAt(from, key, start, end) && CommentRun(from, c, start) && KeyAt(body, key, s, e) ==>
            after == Overwritten(body, s, e, from, c, start, end, key, v))
  }

  function Overwritten(body: seq<Line>, s: nat, e: nat, from: seq<Line>, c: nat, start: nat, end: nat, key: string, v: Values): Merged
    requires s <= e <= |body| && c <= start <= end <= |from|
  {
    var have, want := body[s..e], from[start..end];
    if v.of(have) == v.of(want) then Merged(body, [])
    else if !v.unset(v.of(have)) then Merged(body, [Divergence(key, have, want)])
    else
      var commented := s > 0 && body[s - 1].shape.Comment?;
      Merged(body[..s] + (if commented then want else from[c..end]) + body[e..], [])
  }

  lemma {:induction false} MergedThere(body: seq<Line>, from: seq<Line>, key: string, v: Values)
    ensures KeyMerged(body, from, key, v, MergeKey(body, from, key, v))
  {
    var after := MergeKey(body, from, key, v);
    FoundThere(body, key);
    FoundThere(from, key);
    if HasNoKey(from, key) {
      NowhereFound(from, key);
    }
    forall start: nat, end: nat, c: nat | KeyAt(from, key, start, end) && CommentRun(from, c, start) && HasNoKey(body, key)
      ensures Inserted(body, from[c..end], after.body) && after.divergences == []
    {
      OnePlace(from, key, start, end, c);
      NowhereFound(body, key);
      assert PastLoud(body, Tail(body));
    }
    forall start: nat, end: nat, c: nat, s: nat, e: nat | KeyAt(from, key, start, end) && CommentRun(from, c, start) && KeyAt(body, key, s, e)
      ensures after == Overwritten(body, s, e, from, c, start, end, key, v)
    {
      OnePlace(from, key, start, end, c);
      RunBegins(body, s);
      OnePlace(body, key, s, e, CommentAbove(body, s));
    }
  }

  lemma {:induction false} NowhereFound(body: seq<Line>, key: string)
    requires HasNoKey(body, key)
    ensures FindKey(body, key).None?
  {
  }

  // ---------------------------------------------------------------- all owned keys

  /** From the p-th segment on stand the comment lines and then the first entry of the key, and no comment line
      stands right above them. */
  ghost predicate HeadsAt(segs: seq<Seg>, p: nat, comments: seq<Line>, key: string, lines: seq<Line>) {
    var q := p + |comments|;
    && q < |segs| && segs[q] == Entry(key, lines)
    && (forall i :: 0 <= i < |comments| ==> segs[p + i] == Filler(comments[i]))
    && (p > 0 ==> segs[p - 1].Entry? || !segs[p - 1].line.shape.Comment?)
    && forall i :: 0 <= i < q && segs[i].Entry? ==> segs[i].name != key
  }

  /** Replacing segments that are not among them moves the heads at most. */
  lemma {:induction false} HeadsBelow(a: seq<Seg>, was: seq<Seg>, mid: seq<Seg>, b: seq<Seg>, p: nat, comments: seq<Line>, key: string, lines: seq<Line>)
    requires HeadsAt(a + was + b, p, comments, key, lines) && p >= |a + was|
    requires mid != [] && mid[|mid| - 1].Entry? && NoEntry(mid, key)
    ensures HeadsAt(a + mid + b, p - |was| + |mid|, comments, key, lines)
  {
    var before, after, shift := a + was + b, a + mid + b, |mid| - |was|;
    forall i | |a + mid| <= i < |after|
      ensures after[i] == before[i - shift]
    {
      assert after[i] == b[i - |a + mid|];
      assert before[i - shift] == b[i - shift - |a + was|];
    }
    assert forall i :: 0 <= i < |a| ==> after[i] == before[i];
    assert forall i :: |a| <= i < |a + mid| ==> after[i] == mid[i - |a|];
    var p', q' := p + shift, p + shift + |comments|;
    assert after[q'] == before[q' - shift];
    forall i | 0 <= i < |comments|
      ensures after[p' + i] == Filler(comments[i])
    {
      assert after[p' + i] == before[p + i];
    }
    forall i | 0 <= i < q' && after[i].Entry?
      ensures after[i].name != key
    {
      if i >= |a + mid| {
        assert after[i] == before[i - shift];
      }
    }
    assert p' - 1 >= |a + mid| ==> after[p' - 1] == before[p - 1];
  }

  lemma {:induction false} HeadsAbove(a: seq<Seg>, was: seq<Seg>, mid: seq<Seg>, b: seq<Seg>, p: nat, comments: seq<Line>, key: string, lines: seq<Line>)
    requires HeadsAt(a + was + b, p, comments, key, lines) && p + |comments| < |a|
    ensures HeadsAt(a + mid + b, p, comments, key, lines)
  {
    var before, after := a + was + b, a + mid + b;
    assert forall i :: 0 <= i < |a| ==> after[i] == before[i];
  }

  lemma {:induction false} QuietSegs(segs: seq<Seg>)
    requires TidySegs(segs) && forall i :: 0 <= i < |Flat(segs)| ==> Quiet(Flat(segs)[i])
    ensures forall i :: 0 <= i < |segs| ==> segs[i].Filler?
  {
    if segs != [] {
      var first, rest := segs[0].Lines(), Flat(segs[1..]);
      assert segs[0] in segs && forall s :: s in segs[1..] ==> s in segs;
      assert forall i :: 0 <= i < |rest| ==> rest[i] == Flat(segs)[|first| + i];
      QuietSegs(segs[1..]);
      if segs[0].Entry? {
        assert Flat(segs)[0] == segs[0].lines[0];
      }
    }
  }

  lemma {:induction false} LastLineLoud(segs: seq<Seg>)
    requires TidySegs(segs) && segs != []
    ensures Flat(segs) != []
    ensures segs[|segs| - 1].Entry? ==> !Quiet(Flat(segs)[|Flat(segs)| - 1])
    ensures segs[|segs| - 1].Filler? ==> Flat(segs)[|Flat(segs)| - 1] == segs[|segs| - 1].line
  {
    var last := segs[|segs| - 1];
    assert last in segs;
    FlatLast(segs);
    if last.Entry? {
      ClosedEndsLoud(last);
    }
  }

  /** Where an insertion splits a tidy body: past its last loud segment. */
  lemma {:induction false} InsertSplit(body: seq<Line>) returns (j: nat)
    requires Tidy(body)
    ensures j <= |Segments(body)| && body[..Tail(body)] == Flat(Segments(body)[..j]) && body[Tail(body)..] == Flat(Segments(body)[j..])
    ensures TidySegs(Segments(body)[..j]) && TidySegs(Segments(body)[j..])
    ensures forall i :: j <= i < |Segments(body)| ==> Segments(body)[i].Filler?
    ensures j > 0 ==> Segments(body)[j - 1].Entry? || !Segments(body)[j - 1].line.shape.Comment?
  {
    j := InsertPlace(body);
    SplitLoud(body, Tail(body), Segments(body)[..j], Segments(body)[j..]);
    SplitEnds(Segments(body), j);
  }

  lemma {:induction false} SplitEnds(segs: seq<Seg>, j: nat)
    requires j <= |segs|
    ensures forall i :: j <= i < |segs| ==> segs[i] == segs[j..][i - j]
    ensures j > 0 ==> segs[..j] != [] && segs[..j][j - 1] == segs[j - 1]
  {
  }

  lemma {:induction false} SplitLoud(body: seq<Line>, at: nat, a: seq<Seg>, b: seq<Seg>)
    requires PastLoud(body, at) && body[..at] == Flat(a) && body[at..] == Flat(b) && TidySegs(a) && TidySegs(b)
    ensures forall i :: 0 <= i < |b| ==> b[i].Filler?
    ensures a != [] ==> a[|a| - 1].Entry? || !a[|a| - 1].line.shape.Comment?
  {
    QuietSegs(b);
    if a != [] {
      LastLineLoud(a);
    }
  }

  /** An insertion leaves the heads of another key alone, and makes those of its own. */
  lemma {:induction false} InsertHeads(body: seq<Line>, from: seq<Line>, key: string, v: Values) returns (j: nat, comments: seq<Line>)
    requires Tidy(body) && Tidy(from) && FindKey(from, key).Some? && FindKey(body, key).None?
    ensures var w, segs := FindKey(from, key).value, Segments(body);
            && j <= |segs| && comments == from[w.comment..w.start]
            && Segments(MergeKey(body, from, key, v).body) == segs[..j] + KeySegs(comments, key, from[w.start..w.end]) + segs[j..]
            && (forall i :: j <= i < |segs| ==> segs[i].Filler?)
            && (j > 0 ==> segs[j - 1].Entry? || !segs[j - 1].line.shape.Comment?)
  {
    var w := FindKey(from, key).value;
    comments := from[w.comment..w.start];
    JoinSlices(from, w.comment, w.start, w.end);
    QuietSlice(from, w.comment, w.start);
    var other := KeyBlock(from, key);
    KeySegsTidy(comments, key, from[w.start..w.end]);
    j := InsertSplit(body);
    SplicedBody(Segments(body)[..j], KeySegs(comments, key, from[w.start..w.end]), Segments(body)[j..]);
  }

  lemma {:induction false} HeadsInsert(segs: seq<Seg>, j: nat, mid: seq<Seg>, p: nat, comments: seq<Line>, key: string, lines: seq<Line>)
    requires j <= |segs| && HeadsAt(segs, p, comments, key, lines) && forall i :: j <= i < |segs| ==> segs[i].Filler?
    ensures HeadsAt(segs[..j] + mid + segs[j..], p, comments, key, lines)
  {
    assert segs == segs[..j] + [] + segs[j..];
    HeadsAbove(segs[..j], [], mid, segs[j..], p, comments, key, lines);
  }

  /** The heads of a key stay together when another key is merged. */
  lemma {:induction false} HeadsStay(body: seq<Line>, from: seq<Line>, other: string, v: Values, p: nat, comments: seq<Line>, key: string, lines: seq<Line>)
    returns (p': nat)
    requires Tidy(body) && Tidy(from) && other != key && HeadsAt(Segments(body), p, comments, key, lines)
    ensures HeadsAt(Segments(MergeKey(body, from, other, v).body), p', comments, key, lines)
  {
    p' := p;
    if FindKey(from, other).Some? {
      if FindKey(body, other).None? {
        var j, more := InsertHeads(body, from, other, v);
        var w := FindKey(from, other).value;
        HeadsInsert(Segments(body), j, KeySegs(more, other, from[w.start..w.end]), p, comments, key, lines);
      } else {
        p' := HeadsReplaced(body, from, other, v, p, comments, key, lines);
      }
    }
  }

  lemma {:induction false} HeadsReplaced(body: seq<Line>, from: seq<Line>, other: string, v: Values, p: nat, comments: seq<Line>, key: string, lines: seq<Line>)
    returns (p': nat)
    requires Tidy(body) && Tidy(from) && other != key && HeadsAt(Segments(body), p, comments, key, lines)
    requires FindKey(from, other).Some? && FindKey(body, other).Some?
    ensures HeadsAt(Segments(MergeKey(body, from, other, v).body), p', comments, key, lines)
  {
    p' := p;
    var h, w := FindKey(body, other).value, FindKey(from, other).value;
    if v.of(body[h.start..h.end]) != v.of(from[w.start..w.end]) && v.unset(v.of(body[h.start..h.end])) {
      var more := ReplacementSegs(h, from, other);
      var a, b := SplitAtKey(body, other);
      var mid := KeySegs(more, other, from[w.start..w.end]);
      SplicedBody(a, mid, b);
      KeySegsEnd(more, other, from[w.start..w.end], key);
      p' := HeadsAround(a, Entry(other, body[h.start..h.end]), mid, b, p, comments, key, lines);
    }
  }

  lemma {:induction false} KeySegsEnd(comments: seq<Line>, other: string, want: seq<Line>, key: string)
    requires other != key
    ensures var mid := KeySegs(comments, other, want); mid != [] && mid[|mid| - 1].Entry? && NoEntry(mid, key)
  {
    FillersAt(comments);
  }

  lemma {:induction false} HeadsFill(segs: seq<Seg>, p: nat, comments: seq<Line>, key: string, lines: seq<Line>)
    requires HeadsAt(segs, p, comments, key, lines)
    ensures forall n :: p <= n < p + |comments| ==> segs[n].Filler?
  {
    forall n | p <= n < p + |comments|
      ensures segs[n].Filler?
    {
      assert segs[p + (n - p)] == Filler(comments[n - p]);
    }
  }

  lemma {:induction false} HeadsAround(a: seq<Seg>, was: Seg, mid: seq<Seg>, b: seq<Seg>, p: nat, comments: seq<Line>, key: string, lines: seq<Line>)
    returns (p': nat)
    requires HeadsAt(a + [was] + b, p, comments, key, lines) && was.Entry? && was.name != key
    requires mid != [] && mid[|mid| - 1].Entry? && NoEntry(mid, key)
    ensures HeadsAt(a + mid + b, p', comments, key, lines)
  {
    var before := a + [was] + b;
    assert before[|a|] == was;
    if p > |a| {
      HeadsBelow(a, [was], mid, b, p, comments, key, lines);
      p' := p - 1 + |mid|;
    } else {
      HeadsFill(before, p, comments, key, lines);
      HeadsAbove(a, [was], mid, b, p, comments, key, lines);
      p' := p;
    }
  }

  /** An inserted key and its comments are heads. */
  lemma {:induction false} HeadsMade(body: seq<Line>, from: seq<Line>, key: string, v: Values) returns (p: nat)
    requires Tidy(body) && Tidy(from) && FindKey(from, key).Some? && FindKey(body, key).None?
    ensures var w := FindKey(from, key).value;
            HeadsAt(Segments(MergeKey(body, from, key, v).body), p, from[w.comment..w.start], key, from[w.start..w.end])
  {
    var comments;
    p, comments := InsertHeads(body, from, key, v);
    var segs, w := Segments(body), FindKey(from, key).value;
    HeadsOf(segs[..p], comments, key, from[w.start..w.end], segs[p..]);
    NowhereSegs(body, key);
  }

  lemma {:induction false} NowhereSegs(body: seq<Line>, key: string)
    requires FindKey(body, key).None?
    ensures NoEntry(Segments(body), key)
  {
  }

  lemma {:induction false} HeadsOf(a: seq<Seg>, comments: seq<Line>, key: string, lines: seq<Line>, b: seq<Seg>)
    requires (a == [] || a[|a| - 1].Entry? || !a[|a| - 1].line.shape.Comment?) && NoEntry(a, key)
    ensures HeadsAt(a + KeySegs(comments, key, lines) + b, |a|, comments, key, lines)
  {
    var segs := a + KeySegs(comments, key, lines) + b;
    FillersAt(comments);
    assert forall i :: 0 <= i < |comments| ==> segs[|a| + i] == Fillers(comments)[i];
    assert segs[|a| + |comments|] == Entry(key, lines);
    assert forall i :: 0 <= i < |a| ==> segs[i] == a[i];
  }

  lemma {:induction false} FillersAt(lines: seq<Line>)
    ensures |Fillers(lines)| == |lines| && forall i :: 0 <= i < |lines| ==> Fillers(lines)[i] == Filler(lines[i])
  {
    if lines != [] {
      FillersAt(lines[1..]);
    }
  }

  /** The first entry of the key has these lines, and above it exactly these comment lines. */
  ghost predicate Headed(body: seq<Line>, comments: seq<Line>, key: string, lines: seq<Line>) {
    exists c: nat, start: nat, end: nat :: KeyAt(body, key, start, end) && CommentRun(body, c, start) && body[c..start] == comments && body[start..end] == lines
  }

  lemma {:induction false} HeadsRead(body: seq<Line>, p: nat, comments: seq<Line>, key: string, lines: seq<Line>)
    requires Tidy(body) && HeadsAt(Segments(body), p, comments, key, lines) && forall i :: 0 <= i < |comments| ==> comments[i].shape.Comment?
    ensures Headed(body, comments, key, lines)
  {
    var segs := Segments(body);
    var a, b := HeadsSplit(segs, p, comments, key, lines);
    FlatSegments(body);
    HeadsLines(body, segs, a, comments, key, lines, b);
  }

  lemma {:induction false} HeadsSplit(segs: seq<Seg>, p: nat, comments: seq<Line>, key: string, lines: seq<Line>) returns (a: seq<Seg>, b: seq<Seg>)
    requires TidySegs(segs) && HeadsAt(segs, p, comments, key, lines)
    ensures segs == a + Fillers(comments) + [Entry(key, lines)] + b && NoEntry(a, key)
    ensures Flat(a) != [] ==> !Flat(a)[|Flat(a)| - 1].shape.Comment?
  {
    a, b := segs[..p], segs[p + |comments| + 1..];
    FillersAt(comments);
    SegsSplit(segs, p, Fillers(comments), Entry(key, lines));
    TidyPart(segs, p);
    if a != [] {
      assert a[|a| - 1] == segs[p - 1];
      LastLineLoud(a);
    }
  }

  lemma {:induction false} SegsSplit(segs: seq<Seg>, p: nat, mid: seq<Seg>, s: Seg)
    requires p + |mid| < |segs| && segs[p + |mid|] == s && forall i :: 0 <= i < |mid| ==> segs[p + i] == mid[i]
    ensures segs == segs[..p] + mid + [s] + segs[p + |mid| + 1..]
  {
  }

  lemma {:induction false} HeadsFlat(a: seq<Seg>, comments: seq<Line>, key: string, lines: seq<Line>, b: seq<Seg>)
    ensures Flat(a + Fillers(comments) + [Entry(key, lines)] + b) == Flat(a) + comments + lines + Flat(b)
    ensures |Flat(a + Fillers(comments))| == |Flat(a)| + |comments|
  {
    FillersFlat(comments);
    FlatJoin(a + Fillers(comments) + [Entry(key, lines)], b);
    FlatJoin(a + Fillers(comments), [Entry(key, lines)]);
    FlatJoin(a, Fillers(comments));
    assert Flat([Entry(key, lines)]) == lines;
  }

  lemma {:induction false} NoEntryAbove(a: seq<Seg>, comments: seq<Line>, key: string)
    requires NoEntry(a, key)
    ensures NoEntry(a + Fillers(comments), key)
  {
    FillersAt(comments);
  }

  lemma {:induction false} HeadsLines(body: seq<Line>, segs: seq<Seg>, a: seq<Seg>, comments: seq<Line>, key: string, lines: seq<Line>, b: seq<Seg>)
    requires segs == Segments(body) && body == Flat(segs) && segs == a + Fillers(comments) + [Entry(key, lines)] + b && NoEntry(a, key)
    requires forall i :: 0 <= i < |comments| ==> comments[i].shape.Comment?
    requires Flat(a) != [] ==> !Flat(a)[|Flat(a)| - 1].shape.Comment?
    ensures Headed(body, comments, key, lines)
  {
    HeadsFlat(a, comments, key, lines, b);
    var c, start := |Flat(a)|, |Flat(a)| + |comments|;
    FourParts(body, Flat(a), comments, lines, Flat(b));
    NoEntryAbove(a, comments, key);
    KeyHere(body, segs, key, start, start + |lines|, a + Fillers(comments), b);
    assert CommentRun(body, c, start);
  }

  lemma {:induction false} KeyHere(body: seq<Line>, segs: seq<Seg>, key: string, start: nat, end: nat, a: seq<Seg>, b: seq<Seg>)
    requires segs == Segments(body) && start <= end <= |body| && segs == a + [Entry(key, body[start..end])] + b && |Flat(a)| == start && NoEntry(a, key)
    ensures KeyAt(body, key, start, end)
  {
  }

  lemma {:induction false} FourParts(body: seq<Line>, a: seq<Line>, comments: seq<Line>, lines: seq<Line>, b: seq<Line>)
    requires body == a + comments + lines + b
    ensures var c, start, end := |a|, |a| + |comments|, |a| + |comments| + |lines|;
            end <= |body| && body[c..start] == comments && body[start..end] == lines
            && (forall i :: 0 <= i < c ==> body[i] == a[i]) && (forall i :: c <= i < start ==> body[i] == comments[i - c])
  {
  }

  lemma {:induction false} InsertedHeads(body: seq<Line>, from: seq<Line>, keys: seq<string>, v: Values, n: nat, w: Found) returns (p: nat)
    requires Tidy(body) && Tidy(from) && KeysApart(keys) && n < |keys| && FindKey(from, keys[n]) == Some(w) && FindKey(body, keys[n]).None?
    ensures HeadsAt(Segments(MergeKeys(body, from, keys, v).body), p, from[w.comment..w.start], keys[n], from[w.start..w.end])
    decreases |keys|
  {
    var m := |keys| - 1;
    var before := MergeKeys(body, from, keys[..m], v).body;
    MergeKeysTidy(body, from, keys[..m], v);
    if n == m {
      StillMissing(body, from, keys[..m], v, keys[n]);
      p := HeadsMade(before, from, keys[n], v);
    } else {
      p := InsertedHeads(body, from, keys[..m], v, n, w);
      p := HeadsStay(before, from, keys[m], v, p, from[w.comment..w.start], keys[n], from[w.start..w.end]);
    }
  }

  lemma {:induction false} StillMissing(body: seq<Line>, from: seq<Line>, keys: seq<string>, v: Values, key: string)
    requires Tidy(body) && Tidy(from) && KeysApart(keys) && key !in keys && FindKey(body, key).None?
    ensures FindKey(MergeKeys(body, from, keys, v).body, key).None?
  {
    KeyOutcomes(body, from, keys, v, key);
    LookupFound(body, key);
    LookupFound(MergeKeys(body, from, keys, v).body, key);
  }

  /** After all owned keys are merged, each one that went in stands under the comment lines the template has directly
      above it: all of them, and no other. */
  lemma {:induction false} InsertedUnderComments(body: seq<Line>, from: seq<Line>, keys: seq<string>, v: Values, n: nat, c: nat, start: nat, end: nat)
    requires Tidy(body) && Tidy(from) && KeysApart(keys) && n < |keys|
    requires KeyAt(from, keys[n], start, end) && CommentRun(from, c, start) && HasNoKey(body, keys[n])
    ensures Headed(MergeKeys(body, from, keys, v).body, from[c..start], keys[n], from[start..end])
  {
    OnePlace(from, keys[n], start, end, c);
    NowhereFound(body, keys[n]);
    var p := InsertedHeads(body, from, keys, v, n, Found(start, end, c));
    MergeKeysTidy(body, from, keys, v);
    HeadsRead(MergeKeys(body, from, keys, v).body, p, from[c..start], keys[n], from[start..end]);
  }
}
