/** The keys of one table: where a key's lines are, and what merging the owned keys of a template into the
    table keeps, adds, overwrites and reports. */
module TomlKeys {
  import opened Text
  import opened TomlText

  // ---------------------------------------------------------------- segments

  /** A body as a scan for keys sees it: single lines, and key entries with their continuation lines. */
  datatype Seg = Filler(line: Line) | Entry(name: string, lines: seq<Line>) {
    function Lines(): seq<Line> {
      match this
      case Filler(line) => [line]
      case Entry(_, lines) => lines
    }
  }

  /** How many further lines an entry takes while brackets are open. */
  function EntryLen(lines: seq<Line>, depth: int): (n: nat)
    ensures n <= |lines|
  {
    if depth <= 0 || lines == [] then 0 else 1 + EntryLen(lines[1..], depth + lines[0].delta)
  }

  /** The brackets still open after those lines. */
  function EntryDepth(lines: seq<Line>, depth: int): int {
    if depth <= 0 || lines == [] then depth else EntryDepth(lines[1..], depth + lines[0].delta)
  }

  function Segments(body: seq<Line>): seq<Seg>
    decreases |body|
  {
    if body == [] then []
    else if body[0].shape.Key? then
      var n := 1 + EntryLen(body[1..], body[0].delta);
      [Entry(body[0].shape.name, body[..n])] + Segments(body[n..])
    else [Filler(body[0])] + Segments(body[1..])
  }

  function Flat(segs: seq<Seg>): seq<Line> {
    if segs == [] then [] else segs[0].Lines() + Flat(segs[1..])
  }

  /** An entry whose brackets are closed by its last line. */
  predicate Closed(s: Seg) {
    s.Entry? ==> s.lines != [] && s.lines[0].shape == Key(s.name) && EntryLen(s.lines[1..], s.lines[0].delta) == |s.lines| - 1
                 && EntryDepth(s.lines[1..], s.lines[0].delta) <= 0
  }

  /** A line outside every entry neither opens a table nor a bracket, and every entry is closed. */
  predicate TidySeg(s: Seg) {
    match s
    case Filler(line) => !line.shape.Opens? && !line.shape.Key? && line.delta <= 0
    case Entry(_, _) => Closed(s)
  }

  ghost predicate TidySegs(segs: seq<Seg>) {
    forall s :: s in segs ==> TidySeg(s)
  }

  /** Bare keys and balanced brackets. */
  ghost predicate Tidy(body: seq<Line>) {
    TidySegs(Segments(body))
  }

  lemma {:induction false} FlatSegments(body: seq<Line>)
    ensures Flat(Segments(body)) == body
    decreases |body|
  {
    if body != [] {
      if body[0].shape.Key? {
        var n := 1 + EntryLen(body[1..], body[0].delta);
        FlatSegments(body[n..]);
        assert ([Entry(body[0].shape.name, body[..n])] + Segments(body[n..]))[1..] == Segments(body[n..]);
        assert body == body[..n] + body[n..];
      } else {
        FlatSegments(body[1..]);
        assert ([Filler(body[0])] + Segments(body[1..]))[1..] == Segments(body[1..]);
        assert body == [body[0]] + body[1..];
      }
    }
  }

  lemma {:induction false} EntryJoined(x: seq<Line>, y: seq<Line>, depth: int)
    requires EntryDepth(x, depth) <= 0
    ensures EntryLen(x + y, depth) == EntryLen(x, depth)
  {
    if depth > 0 {
      assert x != [];
      assert (x + y)[0] == x[0] && (x + y)[1..] == x[1..] + y;
      EntryJoined(x[1..], y, depth + x[0].delta);
    }
  }

  /** Tidy segments, laid out as lines and followed by anything, are scanned as themselves. */
  lemma {:induction false} SegmentsOfFlat(segs: seq<Seg>, y: seq<Line>)
    requires TidySegs(segs)
    ensures Segments(Flat(segs) + y) == segs + Segments(y)
    decreases |segs|
  {
    if segs == [] {
      assert Flat(segs) + y == y && segs + Segments(y) == Segments(y);
    } else {
      var head, tail := segs[0].Lines(), Flat(segs[1..]);
      assert segs[0] in segs && forall t :: t in segs[1..] ==> t in segs;
      SegmentsOfFlat(segs[1..], y);
      Regroup(head, tail, y);
      FirstSegment(segs[0], tail + y);
      Regroup([segs[0]], segs[1..], Segments(y));
      assert segs == [segs[0]] + segs[1..];
    }
  }

  lemma {:induction false} FirstSegment(s: Seg, rest: seq<Line>)
    requires TidySeg(s)
    ensures Segments(s.Lines() + rest) == [s] + Segments(rest)
  {
    var all := s.Lines() + rest;
    match s {
      case Filler(line) => assert all[0] == line && all[1..] == rest;
      case Entry(name, lines) =>
        assert all[0] == lines[0] && all[1..] == lines[1..] + rest;
        EntryJoined(lines[1..], rest, lines[0].delta);
        assert all[..|lines|] == lines && all[|lines|..] == rest;
    }
  }

  lemma {:induction false} FlatJoin(a: seq<Seg>, b: seq<Seg>)
    ensures Flat(a + b) == Flat(a) + Flat(b)
  {
    if a == [] {
      assert a + b == b;
    } else {
      assert (a + b)[0] == a[0] && (a + b)[1..] == a[1..] + b;
      FlatJoin(a[1..], b);
    }
  }

  lemma {:induction false} TidyFlat(segs: seq<Seg>)
    requires TidySegs(segs)
    ensures Segments(Flat(segs)) == segs && Tidy(Flat(segs))
  {
    SegmentsOfFlat(segs, []);
    assert Flat(segs) + [] == Flat(segs) && segs + Segments([]) == segs;
  }

  // ---------------------------------------------------------------- finding a key

  function FindSeg(segs: seq<Seg>, key: string): (r: Option<nat>)
    ensures r.Some? ==> r.value < |segs| && segs[r.value].Entry? && segs[r.value].name == key
    ensures r.Some? ==> forall i :: 0 <= i < r.value && segs[i].Entry? ==> segs[i].name != key
    ensures r.None? ==> forall i :: 0 <= i < |segs| && segs[i].Entry? ==> segs[i].name != key
  {
    if segs == [] then None
    else if segs[0].Entry? && segs[0].name == key then Some(0)
    else
      assert forall i :: 1 <= i < |segs| ==> segs[i] == segs[1..][i - 1];
      match FindSeg(segs[1..], key)
      case None => None
      case Some(i) => Some(i + 1)
  }

  /** Where the comment lines directly above a position begin. */
  function CommentAbove(body: seq<Line>, start: nat): (n: nat)
    requires start <= |body|
    ensures n <= start && forall i :: n <= i < start ==> body[i].shape.Comment?
  {
    if start > 0 && body[start - 1].shape.Comment? then CommentAbove(body, start - 1) else start
  }

  /** The lines a key occupies and where the comment above it begins. */
  datatype Found = Found(start: nat, end: nat, comment: nat)

  lemma {:induction false} SegPlace(body: seq<Line>, j: nat)
    requires j < |Segments(body)|
    ensures var start := |Flat(Segments(body)[..j])|;
            start + |Segments(body)[j].Lines()| <= |body| && body[start..start + |Segments(body)[j].Lines()|] == Segments(body)[j].Lines()
            && body[..start] == Flat(Segments(body)[..j])
            && body[start + |Segments(body)[j].Lines()|..] == Flat(Segments(body)[j + 1..])
  {
    var segs := Segments(body);
    FlatSegments(body);
    FlatAround(segs, j);
    ThreeParts(body, Flat(segs[..j]), segs[j].Lines(), Flat(segs[j + 1..]));
  }

  /** The lines of some segments are those before one of them, its own, and those after it. */
  lemma {:induction false} FlatAround(segs: seq<Seg>, j: nat)
    requires j < |segs|
    ensures Flat(segs) == Flat(segs[..j]) + (segs[j].Lines() + Flat(segs[j + 1..]))
  {
    assert segs == segs[..j] + ([segs[j]] + segs[j + 1..]);
    FlatJoin(segs[..j], [segs[j]] + segs[j + 1..]);
    assert ([segs[j]] + segs[j + 1..])[1..] == segs[j + 1..];
  }

  lemma {:induction false} ThreeParts<T>(s: seq<T>, a: seq<T>, b: seq<T>, c: seq<T>)
    requires s == a + (b + c)
    ensures |a| + |b| <= |s| && s[..|a|] == a && s[|a|..|a| + |b|] == b && s[|a| + |b|..] == c
  {
  }

  function FindKey(body: seq<Line>, key: string): (r: Option<Found>)
    ensures r.Some? ==> r.value.comment <= r.value.start <= r.value.end <= |body|
  {
    match FindSeg(Segments(body), key)
    case None => None
    case Some(j) =>
      SegPlace(body, j);
      var start := |Flat(Segments(body)[..j])|;
      Some(Found(start, start + |Segments(body)[j].Lines()|, CommentAbove(body, start)))
  }

  /** The lines of a key, when the table has it. */
  function Lookup(body: seq<Line>, key: string): Option<seq<Line>> {
    match FindSeg(Segments(body), key)
    case None => None
    case Some(j) => Some(Segments(body)[j].lines)
  }

  /** The segment at a position of the scan, and where the next one begins. */
  lemma {:induction false} ScanStep(body: seq<Line>, segs: seq<Seg>, i: nat, j: nat) returns (end: nat)
    requires i < |body| && j <= |segs| && Segments(body[i..]) == segs[j..] && i == |Flat(segs[..j])|
    ensures j < |segs| && i < end <= |body| && Segments(body[end..]) == segs[j + 1..] && end == |Flat(segs[..j + 1])|
    ensures |segs[j].Lines()| == end - i
    ensures body[i].shape.Key? ==> segs[j].Entry? && segs[j].name == body[i].shape.name
                                   && end == i + 1 + EntryLen(body[i + 1..], body[i].delta)
    ensures !body[i].shape.Key? ==> segs[j].Filler? && end == i + 1
  {
    var rest := body[i..];
    assert rest[0] == body[i] && rest[1..] == body[i + 1..];
    var n := if body[i].shape.Key? then 1 + EntryLen(rest[1..], body[i].delta) else 1;
    end := i + n;
    assert rest[n..] == body[end..];
    assert segs[j..][0] == segs[j] && segs[j..][1..] == segs[j + 1..];
    FlatJoin(segs[..j], [segs[j]]);
    assert segs[..j + 1] == segs[..j] + [segs[j]];
  }

  /** How far a scan for a key has come: the lines before `i` are the first `j` segments, none of them the key. */
  ghost predicate Scanning(body: seq<Line>, key: string, i: nat, j: nat) {
    var segs := Segments(body);
    && i <= |body| && j <= |segs| && Segments(body[i..]) == segs[j..] && i == |Flat(segs[..j])|
    && NoneNamed(segs, key, j)
  }

  lemma {:induction false} ScanStarts(body: seq<Line>, key: string)
    ensures Scanning(body, key, 0, 0)
  {
    assert body[0..] == body && Segments(body)[0..] == Segments(body) && Segments(body)[..0] == [];
  }

  function NextLine(body: seq<Line>, i: nat): (end: nat)
    requires i < |body|
    ensures i < end <= |body|
  {
    if body[i].shape.Key? then i + 1 + EntryLen(body[i + 1..], body[i].delta) else i + 1
  }

  /** One step of the scan: the line at `i` begins the j-th segment. */
  ghost predicate AtSegment(body: seq<Line>, segs: seq<Seg>, i: nat, j: nat) {
    && i < |body| && j < |segs| && i == |Flat(segs[..j])| && |segs[j].Lines()| == NextLine(body, i) - i
    && (if body[i].shape.Key? then segs[j].Entry? && segs[j].name == body[i].shape.name else segs[j].Filler?)
    && Segments(body[NextLine(body, i)..]) == segs[j + 1..] && NextLine(body, i) == |Flat(segs[..j + 1])|
  }

  lemma {:induction false} ScanAt(body: seq<Line>, segs: seq<Seg>, i: nat, j: nat)
    requires i < |body| && j <= |segs| && Segments(body[i..]) == segs[j..] && i == |Flat(segs[..j])|
    ensures AtSegment(body, segs, i, j)
  {
    var end := ScanStep(body, segs, i, j);
  }

  ghost predicate NoneNamed(segs: seq<Seg>, key: string, j: nat)
    requires j <= |segs|
  {
    forall k :: 0 <= k < j && segs[k].Entry? ==> segs[k].name != key
  }

  lemma {:induction false} ScanGoesOn(body: seq<Line>, key: string, i: nat, j: nat)
    requires Scanning(body, key, i, j) && i < |body| && !(body[i].shape.Key? && body[i].shape.name == key)
    ensures Scanning(body, key, NextLine(body, i), j + 1)
  {
    ScanAt(body, Segments(body), i, j);
    NamedGrows(Segments(body), key, j);
  }

  lemma {:induction false} NamedGrows(segs: seq<Seg>, key: string, j: nat)
    requires j < |segs| && NoneNamed(segs, key, j) && !(segs[j].Entry? && segs[j].name == key)
    ensures NoneNamed(segs, key, j + 1)
  {
  }

  lemma {:induction false} ScanFinds(body: seq<Line>, key: string, i: nat, j: nat)
    requires Scanning(body, key, i, j) && i < |body| && body[i].shape.Key? && body[i].shape.name == key
    ensures FindKey(body, key) == Some(Found(i, NextLine(body, i), CommentAbove(body, i)))
  {
    ScanAt(body, Segments(body), i, j);
    FoundFirst(Segments(body), j, key);
    FoundAt(body, key, j);
  }

  lemma {:induction false} FoundAt(body: seq<Line>, key: string, j: nat)
    requires FindSeg(Segments(body), key) == Some(j)
    ensures var start := |Flat(Segments(body)[..j])|;
            start <= |body| && FindKey(body, key) == Some(Found(start, start + |Segments(body)[j].Lines()|, CommentAbove(body, start)))
  {
    SegPlace(body, j);
  }

  lemma {:induction false} FoundFirst(segs: seq<Seg>, j: nat, key: string)
    requires j < |segs| && segs[j].Entry? && segs[j].name == key && NoneNamed(segs, key, j)
    ensures FindSeg(segs, key) == Some(j)
  {
  }

  lemma {:induction false} ScanEnds(body: seq<Line>, key: string, j: nat)
    requires Scanning(body, key, |body|, j)
    ensures FindKey(body, key).None?
  {
    var segs := Segments(body);
    assert body[|body|..] == [] && segs[j..] == [] && j == |segs|;
  }

  /** findTOMLKey: one pass over the lines, skipping the continuation lines of other keys. */
  method FindTomlKey(body: seq<Line>, key: string) returns (r: Option<Found>)
    ensures r == FindKey(body, key)
  {
    ghost var j := 0;
    var i := 0;
    ScanStarts(body, key);
    while i < |body|
      invariant Scanning(body, key, i, j)
      decreases |body| - i
    {
      var end := i + 1;
      if body[i].shape.Key? {
        end := EntryEnd(body, i);
        if body[i].shape.name == key {
          ScanFinds(body, key, i, j);
          var comment := FirstComment(body, i);
          return Some(Found(i, end, comment));
        }
      }
      ScanGoesOn(body, key, i, j);
      i, j := end, j + 1;
    }
    ScanEnds(body, key, j);
    r := None;
  }

  method FirstComment(body: seq<Line>, start: nat) returns (comment: nat)
    requires start <= |body|
    ensures comment == CommentAbove(body, start)
  {
    comment := start;
    while comment > 0 && body[comment - 1].shape.Comment?
      invariant 0 <= comment <= start && CommentAbove(body, comment) == CommentAbove(body, start)
    {
      comment := comment - 1;
    }
  }

  /** The end of the entry that starts at a line. */
  method EntryEnd(body: seq<Line>, start: nat) returns (end: nat)
    requires start < |body| && body[start].shape.Key?
    ensures end == NextLine(body, start)
  {
    var depth := body[start].delta;
    end := start + 1;
    while depth > 0 && end < |body|
      invariant start + 1 <= end <= |body|
      invariant end + EntryLen(body[end..], depth) == start + 1 + EntryLen(body[start + 1..], body[start].delta)
      decreases |body| - end
    {
      assert body[end..][0] == body[end] && body[end..][1..] == body[end + 1..];
      depth := depth + body[end].delta;
      end := end + 1;
    }
  }

  // ---------------------------------------------------------------- merging one key

  /** A key the merge left alone because its value differs. */
  datatype Divergence = Divergence(key: string, have: seq<Line>, want: seq<Line>)

  /** How values are compared, and which count as unset in the table. */
  datatype Values = Values(of: seq<Line> -> string, unset: string -> bool)

  /** isZeroTOMLValue. */
  predicate IsZeroValue(value: string) {
    value in ["\"\"", "0", "0.0", "false", "[]", "{}"]
  }

  /** Past the last line that is neither blank nor a comment. */
  function Tail(body: seq<Line>): (n: nat)
    ensures n <= |body| && (n > 0 ==> !Quiet(body[n - 1]))
    ensures forall i :: n <= i < |body| ==> Quiet(body[i])
  {
    if body != [] && Quiet(body[|body| - 1]) then Tail(body[..|body| - 1]) else |body|
  }

  datatype Merged = Merged(body: seq<Line>, divergences: seq<Divergence>)

  function MergeKey(body: seq<Line>, from: seq<Line>, key: string, v: Values): Merged {
    match FindKey(from, key)
    case None => Merged(body, [])
    case Some(w) =>
      var want := from[w.start..w.end];
      match FindKey(body, key)
      case None => Merged(body[..Tail(body)] + from[w.comment..w.end] + body[Tail(body)..], [])
      case Some(h) =>
        var have := body[h.start..h.end];
        if v.of(have) == v.of(want) then Merged(body, [])
        else if v.unset(v.of(have)) then
          Merged(body[..h.start] + (if h.comment == h.start then from[w.comment..w.end] else want) + body[h.end..], [])
        else Merged(body, [Divergence(key, have, want)])
  }

  function MergeKeys(body: seq<Line>, from: seq<Line>, keys: seq<string>, v: Values): Merged {
    if keys == [] then Merged(body, [])
    else
      var before := MergeKeys(body, from, keys[..|keys| - 1], v);
      var step := MergeKey(before.body, from, keys[|keys| - 1], v);
      Merged(step.body, before.divergences + step.divergences)
  }

  /** mergeSectionKeys: one owned key after the other, each spliced into the body. */
  method MergeSectionKeys(into: seq<Line>, from: seq<Line>, keys: seq<string>, v: Values) returns (body: seq<Line>, divergences: seq<Divergence>)
    ensures Merged(body, divergences) == MergeKeys(into, from, keys, v)
  {
    body, divergences := into, [];
    for i := 0 to |keys|
      invariant Merged(body, divergences) == MergeKeys(into, from, keys[..i], v)
    {
      assert keys[..i + 1][..i] == keys[..i];
      var more: seq<Divergence>;
      body, more := MergeOne(body, from, keys[i], v);
      divergences := divergences + more;
    }
    assert keys[..|keys|] == keys;
  }

  method MergeOne(into: seq<Line>, from: seq<Line>, key: string, v: Values) returns (body: seq<Line>, divergences: seq<Divergence>)
    ensures Merged(body, divergences) == MergeKey(into, from, key, v)
  {
    body, divergences := into, [];
    var w := FindTomlKey(from, key);
    if w.None? {
      return;
    }
    var want := from[w.value.start..w.value.end];
    var h := FindTomlKey(into, key);
    if h.Some? {
      var have := into[h.value.start..h.value.end];
      if v.of(have) == v.of(want) {
        return;
      }
      if v.unset(v.of(have)) {
        var replace := want;
        if h.value.comment == h.value.start {
          replace := from[w.value.comment..w.value.end];
        }
        body := into[..h.value.start] + replace + into[h.value.end..];
        return;
      }
      divergences := [Divergence(key, have, want)];
      return;
    }
    var at := |into|;
    assert into[..at] == into;
    while at > 0 && Quiet(into[at - 1])
      invariant 0 <= at <= |into| && Tail(into[..at]) == Tail(into)
    {
      assert into[..at][..at - 1] == into[..at - 1];
      at := at - 1;
    }
    body := into[..at] + from[w.value.comment..w.value.end] + into[at..];
  }
}
