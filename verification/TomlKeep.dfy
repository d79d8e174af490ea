/** Merging the owned keys into a tidy table: what each key becomes, that nothing else is lost, and that a
    second merge changes nothing and reports the same. */
module TomlKeep {
  import opened Text
  import opened TomlText
  import opened TomlKeys

  // ---------------------------------------------------------------- one key as a splice

  /** A merge of one key replaces `old` by `mid` between `a` and `b`. */
  datatype Splice = Splice(a: seq<Seg>, was: seq<Seg>, mid: seq<Seg>, b: seq<Seg>)

  function Fillers(lines: seq<Line>): seq<Seg> {
    if lines == [] then [] else [Filler(lines[0])] + Fillers(lines[1..])
  }

  lemma {:induction false} FillersFlat(lines: seq<Line>)
    ensures Flat(Fillers(lines)) == lines && |Fillers(lines)| == |lines|
    ensures forall s :: s in Fillers(lines) ==> s.Filler? && s.line in lines
  {
    if lines != [] {
      FillersFlat(lines[1..]);
      assert Fillers(lines)[1..] == Fillers(lines[1..]);
    }
  }

  /** The comment of a template key, if it is to be copied, and the key. */
  function KeySegs(comments: seq<Line>, key: string, want: seq<Line>): seq<Seg> {
    Fillers(comments) + [Entry(key, want)]
  }

  lemma {:induction false} KeySegsTidy(comments: seq<Line>, key: string, want: seq<Line>)
    requires (forall l :: l in comments ==> Quiet(l)) && Closed(Entry(key, want))
    ensures TidySegs(KeySegs(comments, key, want)) && Flat(KeySegs(comments, key, want)) == comments + want
  {
    FillersFlat(comments);
    FlatJoin(Fillers(comments), [Entry(key, want)]);
    assert Flat([Entry(key, want)]) == want;
  }

  /** The segments around a key, none of those before it the key. */
  lemma {:induction false} SplitSegs(segs: seq<Seg>, key: string, j: nat)
    requires TidySegs(segs) && FindSeg(segs, key) == Some(j)
    ensures segs == segs[..j] + [Entry(key, segs[j].lines)] + segs[j + 1..]
    ensures TidySegs(segs[..j]) && TidySegs(segs[j + 1..]) && Closed(segs[j]) && FindSeg(segs[..j], key).None?
  {
    assert segs[j] in segs;
    assert forall s :: s in segs[..j] || s in segs[j + 1..] ==> s in segs;
    assert forall i :: 0 <= i < j ==> segs[..j][i] == segs[i];
  }

  lemma {:induction false} PlaceOfKey(body: seq<Line>, key: string, j: nat)
    requires FindSeg(Segments(body), key) == Some(j)
    ensures FindKey(body, key).Some?
    ensures var h := FindKey(body, key).value;
            && body[h.start..h.end] == Segments(body)[j].lines
            && body[..h.start] == Flat(Segments(body)[..j]) && body[h.end..] == Flat(Segments(body)[j + 1..])
  {
    FoundAt(body, key, j);
    SegPlace(body, j);
    assert Segments(body)[j].Lines() == Segments(body)[j].lines;
  }

  /** A key of a tidy body: the segments before it, its own, and the ones after it. */
  lemma {:induction false} SplitAtKey(body: seq<Line>, key: string) returns (a: seq<Seg>, b: seq<Seg>)
    requires Tidy(body) && FindKey(body, key).Some?
    ensures var h := FindKey(body, key).value;
            && Segments(body) == a + [Entry(key, body[h.start..h.end])] + b
            && body[..h.start] == Flat(a) && body[h.end..] == Flat(b) && TidySegs(a) && TidySegs(b)
            && Closed(Entry(key, body[h.start..h.end])) && Lookup(body, key) == Some(body[h.start..h.end])
            && FindSeg(a, key).None?
  {
    var j := FindSeg(Segments(body), key).value;
    a, b := Segments(body)[..j], Segments(body)[j + 1..];
    SplitSegs(Segments(body), key, j);
    PlaceOfKey(body, key, j);
  }

  /** Template lines from a key's comment to its end. */
  lemma {:induction false} KeyBlock(from: seq<Line>, key: string) returns (comments: seq<Line>)
    requires Tidy(from) && FindKey(from, key).Some?
    ensures var w := FindKey(from, key).value;
            && from[w.comment..w.end] == comments + from[w.start..w.end]
            && (forall l :: l in comments ==> Quiet(l))
            && Closed(Entry(key, from[w.start..w.end])) && Lookup(from, key) == Some(from[w.start..w.end])
  {
    var w := FindKey(from, key).value;
    var a, b := SplitAtKey(from, key);
    comments := from[w.comment..w.start];
    JoinSlices(from, w.comment, w.start, w.end);
    QuietSlice(from, w.comment, w.start);
  }

  lemma {:induction false} JoinSlices<T>(s: seq<T>, i: nat, j: nat, k: nat)
    requires i <= j <= k <= |s|
    ensures s[i..k] == s[i..j] + s[j..k]
  {
  }

  lemma {:induction false} QuietSlice(lines: seq<Line>, i: nat, j: nat)
    requires i <= j <= |lines| && forall k :: i <= k < j ==> lines[k].shape.Comment?
    ensures forall l :: l in lines[i..j] ==> Quiet(l)
  {
  }

  /** The last line of a closed entry is neither blank nor a comment. */
  lemma {:induction false} EntryEndsLoud(lines: seq<Line>, depth: int)
    requires depth > 0 && EntryDepth(lines, depth) <= 0 && EntryLen(lines, depth) == |lines|
    ensures lines != [] && !Quiet(lines[|lines| - 1])
  {
    assert lines != [];
    if |lines| > 1 {
      assert EntryLen(lines[1..], depth + lines[0].delta) == |lines| - 1;
      EntryEndsLoud(lines[1..], depth + lines[0].delta);
      assert lines[1..][|lines| - 2] == lines[|lines| - 1];
    }
  }

  lemma {:induction false} ClosedEndsLoud(s: Seg)
    requires s.Entry? && Closed(s)
    ensures !Quiet(s.lines[|s.lines| - 1])
  {
    if |s.lines| > 1 {
      EntryEndsLoud(s.lines[1..], s.lines[0].delta);
      assert s.lines[1..][|s.lines| - 2] == s.lines[|s.lines| - 1];
    }
  }

  lemma {:induction false} QuietEnd(lines: seq<Line>, l: Line)
    requires Quiet(l)
    ensures Tail(lines + [l]) == Tail(lines)
  {
    assert (lines + [l])[..|lines|] == lines;
  }

  lemma {:induction false} FlatLast(segs: seq<Seg>)
    requires segs != []
    ensures Flat(segs) == Flat(segs[..|segs| - 1]) + segs[|segs| - 1].Lines()
  {
    var n := |segs| - 1;
    FlatJoin(segs[..n], [segs[n]]);
    assert segs == segs[..n] + [segs[n]];
    assert Flat([segs[n]]) == segs[n].Lines();
  }

  lemma {:induction false} LoudEnd(lines: seq<Line>)
    requires lines != [] && !Quiet(lines[|lines| - 1])
    ensures Tail(lines) == |lines|
  {
  }

  /** A tidy body whose last segment is no quiet line ends with a loud line. */
  lemma {:induction false} LastLoud(init: seq<Seg>, last: Seg)
    requires TidySeg(last) && !(last.Filler? && Quiet(last.line))
    ensures Tail(Flat(init) + last.Lines()) == |Flat(init) + last.Lines()|
  {
    if last.Entry? {
      ClosedEndsLoud(last);
    }
    LoudEnd(Flat(init) + last.Lines());
  }

  lemma {:induction false} TidyPart(segs: seq<Seg>, j: nat)
    requires TidySegs(segs) && j <= |segs|
    ensures TidySegs(segs[..j]) && TidySegs(segs[j..])
  {
    assert forall s :: s in segs[..j] || s in segs[j..] ==> s in segs;
  }

  lemma {:induction false} PrefixOfPrefix<T>(s: seq<T>, n: nat, j: nat)
    requires j <= n <= |s|
    ensures s[..n][..j] == s[..j] && s[..|s|] == s
  {
  }

  /** The trailing blank and comment lines of a tidy body are whole segments. */
  lemma {:induction false} TailBoundary(segs: seq<Seg>) returns (j: nat)
    requires TidySegs(segs)
    ensures j <= |segs| && Tail(Flat(segs)) == |Flat(segs[..j])|
  {
    var n := |segs|;
    j := n;
    PrefixOfPrefix(segs, n, n);
    if n > 0 {
      var init, last := segs[..n - 1], segs[n - 1];
      assert last in segs;
      FlatLast(segs);
      TidyPart(segs, n - 1);
      if last.Filler? && Quiet(last.line) {
        QuietEnd(Flat(init), last.line);
        j := TailBoundary(init);
        PrefixOfPrefix(segs, n - 1, j);
      } else {
        LastLoud(init, last);
      }
    }
  }

  lemma {:induction false} FlatSplit(segs: seq<Seg>, j: nat)
    requires j <= |segs|
    ensures Flat(segs) == Flat(segs[..j]) + Flat(segs[j..])
  {
    SplitRejoins(segs, j);
    FlatJoin(segs[..j], segs[j..]);
  }

  lemma {:induction false} SplitRejoins<T>(s: seq<T>, j: nat)
    requires j <= |s|
    ensures s[..j] + s[j..] == s
  {
  }

  lemma {:induction false} TwoParts<T>(s: seq<T>, a: seq<T>, b: seq<T>)
    requires s == a + b
    ensures s[..|a|] == a && s[|a|..] == b
  {
  }

  /** Where a key is inserted: at a place between segments. */
  lemma {:induction false} InsertPlace(body: seq<Line>) returns (j: nat)
    requires Tidy(body)
    ensures j <= |Segments(body)| && body[..Tail(body)] == Flat(Segments(body)[..j]) && body[Tail(body)..] == Flat(Segments(body)[j..])
    ensures TidySegs(Segments(body)[..j]) && TidySegs(Segments(body)[j..])
  {
    var segs := Segments(body);
    FlatSegments(body);
    j := TailBoundary(segs);
    FlatSplit(segs, j);
    TwoParts(body, Flat(segs[..j]), Flat(segs[j..]));
    TidyPart(segs, j);
  }

  lemma {:induction false} LookupFound(body: seq<Line>, key: string)
    ensures FindKey(body, key).Some? <==> Lookup(body, key).Some?
    ensures FindKey(body, key).Some? ==> Lookup(body, key) == Some(body[FindKey(body, key).value.start..FindKey(body, key).value.end])
  {
    if FindKey(body, key).Some? {
      PlaceOfKey(body, key, FindSeg(Segments(body), key).value);
    }
  }

  /** The key stays as it is: the template does not have it, or the table has it with the template's value or
      one that counts as set. */
  predicate Stays(have: Option<seq<Line>>, want: Option<seq<Line>>, v: Values) {
    want.None? || (have.Some? && (v.of(have.value) == v.of(want.value) || !v.unset(v.of(have.value))))
  }

  ghost predicate Spliced(body: seq<Line>, from: seq<Line>, key: string, v: Values, s: Splice) {
    && Segments(body) == s.a + s.was + s.b
    && Segments(MergeKey(body, from, key, v).body) == s.a + s.mid + s.b
    && TidySegs(s.a) && TidySegs(s.was) && TidySegs(s.mid) && TidySegs(s.b)
  }

  /** What a merge of one key may do: nothing, put the template's key where there was none, or in place of one
      that counts as unset. */
  ghost predicate Allowed(body: seq<Line>, from: seq<Line>, key: string, v: Values, s: Splice) {
    var have, want := Lookup(body, key), Lookup(from, key);
    || (s.was == s.mid == [] && MergeKey(body, from, key, v).body == body && Stays(have, want, v))
    || (want.Some? && exists comments ::
          && s.mid == KeySegs(comments, key, want.value) && (forall l :: l in comments ==> Quiet(l))
          && if have.None? then s.was == [] else s.was == [Entry(key, have.value)] && v.unset(v.of(have.value)) && FindSeg(s.a, key).None?)
  }

  lemma {:induction false} SplicedBody(a: seq<Seg>, mid: seq<Seg>, b: seq<Seg>)
    requires TidySegs(a) && TidySegs(mid) && TidySegs(b)
    ensures Segments(Flat(a) + Flat(mid) + Flat(b)) == a + mid + b
  {
    FlatJoin(a, mid);
    FlatJoin(a + mid, b);
    TidyFlat(a + mid + b);
  }

  lemma {:induction false} InsertSplices(body: seq<Line>, from: seq<Line>, key: string, v: Values) returns (s: Splice)
    requires Tidy(body) && Tidy(from) && FindKey(from, key).Some? && FindKey(body, key).None?
    ensures Spliced(body, from, key, v, s) && Allowed(body, from, key, v, s)
  {
    var w := FindKey(from, key).value;
    var comments := KeyBlock(from, key);
    KeySegsTidy(comments, key, from[w.start..w.end]);
    var j := InsertPlace(body);
    s := Splice(Segments(body)[..j], [], KeySegs(comments, key, from[w.start..w.end]), Segments(body)[j..]);
    assert Segments(body) == s.a + s.was + s.b;
    SplicedBody(s.a, s.mid, s.b);
  }

  /** The lines that replace a key: the template's key, under its comment unless the user wrote one. */
  function Replacement(h: Found, from: seq<Line>, w: Found): seq<Line>
    requires w.comment <= w.start <= w.end <= |from|
  {
    if h.comment == h.start then from[w.comment..w.end] else from[w.start..w.end]
  }

  lemma {:induction false} ReplacementSegs(h: Found, from: seq<Line>, key: string) returns (comments: seq<Line>)
    requires Tidy(from) && FindKey(from, key).Some?
    ensures var w := FindKey(from, key).value;
            var mid := KeySegs(comments, key, from[w.start..w.end]);
            && Lookup(from, key) == Some(from[w.start..w.end]) && TidySegs(mid) && Flat(mid) == Replacement(h, from, w)
            && (forall l :: l in comments ==> Quiet(l))
  {
    var w := FindKey(from, key).value;
    comments := KeyBlock(from, key);
    if h.comment != h.start {
      comments := [];
      assert [] + from[w.start..w.end] == from[w.start..w.end];
    }
    KeySegsTidy(comments, key, from[w.start..w.end]);
  }

  lemma {:induction false} ReplaceSplices(body: seq<Line>, from: seq<Line>, key: string, v: Values) returns (s: Splice)
    requires Tidy(body) && Tidy(from) && FindKey(from, key).Some? && FindKey(body, key).Some?
    requires var h, w := FindKey(body, key).value, FindKey(from, key).value;
             v.of(body[h.start..h.end]) != v.of(from[w.start..w.end]) && v.unset(v.of(body[h.start..h.end]))
    ensures Spliced(body, from, key, v, s) && Allowed(body, from, key, v, s)
  {
    var h, w := FindKey(body, key).value, FindKey(from, key).value;
    var comments := ReplacementSegs(h, from, key);
    var a, b := SplitAtKey(body, key);
    s := Splice(a, [Entry(key, body[h.start..h.end])], KeySegs(comments, key, from[w.start..w.end]), b);
    SplicedBody(a, s.mid, b);
  }

  /** Every merge of one key into a tidy body is such a splice. */
  lemma {:induction false} MergeSplices(body: seq<Line>, from: seq<Line>, key: string, v: Values) returns (s: Splice)
    requires Tidy(body) && Tidy(from)
    ensures Spliced(body, from, key, v, s) && Allowed(body, from, key, v, s)
  {
    s := Splice(Segments(body), [], [], []);
    assert s.a + s.was + s.b == Segments(body);
    LookupFound(body, key);
    LookupFound(from, key);
    if FindKey(from, key).Some? {
      if FindKey(body, key).None? {
        s := InsertSplices(body, from, key, v);
      } else {
        var h, w := FindKey(body, key).value, FindKey(from, key).value;
        if v.of(body[h.start..h.end]) != v.of(from[w.start..w.end]) && v.unset(v.of(body[h.start..h.end])) {
          s := ReplaceSplices(body, from, key, v);
        }
      }
    }
  }

  // ---------------------------------------------------------------- what becomes of each key

  function LookupSegs(segs: seq<Seg>, key: string): Option<seq<Line>> {
    match FindSeg(segs, key)
    case None => None
    case Some(j) => Some(segs[j].lines)
  }

  lemma {:induction false} LookupJoin(a: seq<Seg>, b: seq<Seg>, key: string)
    ensures LookupSegs(a + b, key) == if LookupSegs(a, key).Some? then LookupSegs(a, key) else LookupSegs(b, key)
  {
    if a == [] {
      assert a + b == b;
    } else {
      assert (a + b)[0] == a[0] && (a + b)[1..] == a[1..] + b;
      LookupJoin(a[1..], b, key);
    }
  }

  lemma {:induction false} LookupKeySegs(comments: seq<Line>, key: string, want: seq<Line>, k: string)
    ensures LookupSegs(KeySegs(comments, key, want), k) == if k == key then Some(want) else None
  {
    FillersFlat(comments);
    LookupJoin(Fillers(comments), [Entry(key, want)], k);
    assert forall i :: 0 <= i < |Fillers(comments)| ==> Fillers(comments)[i] in Fillers(comments);
  }

  lemma {:induction false} LookupEntry(key: string, lines: seq<Line>, k: string)
    ensures LookupSegs([Entry(key, lines)], k) == if k == key then Some(lines) else None
  {
  }

  /** The lines of a key after the merge. */
  function AfterKey(have: Option<seq<Line>>, want: Option<seq<Line>>, v: Values): Option<seq<Line>> {
    if want.None? then have
    else if have.None? then want
    else if v.of(have.value) != v.of(want.value) && v.unset(v.of(have.value)) then want
    else have
  }

  /** What is reported about a key. */
  function Reports(key: string, have: Option<seq<Line>>, want: Option<seq<Line>>, v: Values): seq<Divergence> {
    if want.Some? && have.Some? && v.of(have.value) != v.of(want.value) && !v.unset(v.of(have.value))
    then [Divergence(key, have.value, want.value)] else []
  }

  lemma {:induction false} MergeKeyReports(body: seq<Line>, from: seq<Line>, key: string, v: Values)
    ensures MergeKey(body, from, key, v).divergences == Reports(key, Lookup(body, key), Lookup(from, key), v)
    ensures Stays(Lookup(body, key), Lookup(from, key), v) ==> MergeKey(body, from, key, v).body == body
  {
    LookupFound(body, key);
    LookupFound(from, key);
  }

  lemma {:induction false} SplicedLookup(body: seq<Line>, from: seq<Line>, key: string, v: Values, s: Splice, k: string)
    requires Spliced(body, from, key, v, s)
    ensures Lookup(body, k) == LookupSegs(s.a + s.was + s.b, k)
    ensures Lookup(MergeKey(body, from, key, v).body, k) == LookupSegs(s.a + s.mid + s.b, k)
  {
  }

  lemma {:induction false} LookupAround(a: seq<Seg>, mid: seq<Seg>, b: seq<Seg>, k: string)
    ensures LookupSegs(a + mid + b, k)
            == if LookupSegs(a, k).Some? then LookupSegs(a, k) else if LookupSegs(mid, k).Some? then LookupSegs(mid, k) else LookupSegs(b, k)
  {
    LookupJoin(a + mid, b, k);
    LookupJoin(a, mid, k);
  }

  /** A merge of one key changes that key alone, as it should. */
  lemma {:induction false} MergeKeyLookup(body: seq<Line>, from: seq<Line>, key: string, v: Values, k: string)
    requires Tidy(body) && Tidy(from)
    ensures Tidy(MergeKey(body, from, key, v).body)
    ensures Lookup(MergeKey(body, from, key, v).body, k)
            == if k == key then AfterKey(Lookup(body, key), Lookup(from, key), v) else Lookup(body, k)
  {
    var s := MergeSplices(body, from, key, v);
    SplicedLookup(body, from, key, v, s, k);
    LookupAround(s.a, s.was, s.b, k);
    LookupAround(s.a, s.mid, s.b, k);
    LookupFound(body, key);
    LookupFound(from, key);
    if s.was != s.mid {
      var comments :| s.mid == KeySegs(comments, key, Lookup(from, key).value) && (forall l :: l in comments ==> Quiet(l))
        && if Lookup(body, key).None? then s.was == []
           else s.was == [Entry(key, Lookup(body, key).value)] && v.unset(v.of(Lookup(body, key).value)) && FindSeg(s.a, key).None?;
      LookupKeySegs(comments, key, Lookup(from, key).value, k);
      if Lookup(body, key).Some? {
        LookupEntry(key, Lookup(body, key).value, k);
      }
    }
  }

  // ---------------------------------------------------------------- all owned keys

  ghost predicate KeysApart(keys: seq<string>) {
    forall i, j :: 0 <= i < j < |keys| ==> keys[i] != keys[j]
  }

  /** What the merge reports, key by key. */
  function AllReports(body: seq<Line>, from: seq<Line>, keys: seq<string>, v: Values): seq<Divergence> {
    if keys == [] then []
    else
      var n := |keys| - 1;
      AllReports(body, from, keys[..n], v) + Reports(keys[n], Lookup(body, keys[n]), Lookup(from, keys[n]), v)
  }

  lemma {:induction false} MergeKeysTidy(body: seq<Line>, from: seq<Line>, keys: seq<string>, v: Values)
    requires Tidy(body) && Tidy(from)
    ensures Tidy(MergeKeys(body, from, keys, v).body)
  {
    if keys != [] {
      var n := |keys| - 1;
      MergeKeysTidy(body, from, keys[..n], v);
      MergeKeyLookup(MergeKeys(body, from, keys[..n], v).body, from, keys[n], v, keys[n]);
    }
  }

  /** Each owned key the template renders is agreed, inserted, overwritten where unset, or kept and reported;
      every other key is kept. */
  lemma {:induction false} KeyOutcomes(body: seq<Line>, from: seq<Line>, keys: seq<string>, v: Values, k: string)
    requires Tidy(body) && Tidy(from) && KeysApart(keys)
    ensures Lookup(MergeKeys(body, from, keys, v).body, k)
            == if k in keys then AfterKey(Lookup(body, k), Lookup(from, k), v) else Lookup(body, k)
  {
    if keys != [] {
      var n := |keys| - 1;
      var before := MergeKeys(body, from, keys[..n], v).body;
      assert keys == keys[..n] + [keys[n]];
      MergeKeysTidy(body, from, keys[..n], v);
      KeyOutcomes(body, from, keys[..n], v, k);
      MergeKeyLookup(before, from, keys[n], v, k);
      assert keys[n] !in keys[..n];
    }
  }

  /** The reports are those of the original table: no merge of a key disturbs another. */
  lemma {:induction false} KeyReports(body: seq<Line>, from: seq<Line>, keys: seq<string>, v: Values)
    requires Tidy(body) && Tidy(from) && KeysApart(keys)
    ensures MergeKeys(body, from, keys, v).divergences == AllReports(body, from, keys, v)
  {
    if keys != [] {
      var n := |keys| - 1;
      KeyReports(body, from, keys[..n], v);
      KeyOutcomes(body, from, keys[..n], v, keys[n]);
      assert keys[n] !in keys[..n];
      MergeKeyReports(MergeKeys(body, from, keys[..n], v).body, from, keys[n], v);
    }
  }

  /** A key that has been merged stays. */
  lemma {:induction false} MergedStays(have: Option<seq<Line>>, want: Option<seq<Line>>, v: Values, key: string)
    ensures Stays(AfterKey(have, want, v), want, v)
    ensures Reports(key, AfterKey(have, want, v), want, v) == Reports(key, have, want, v)
  {
  }

  lemma {:induction false} SettledKeys(body: seq<Line>, from: seq<Line>, keys: seq<string>, v: Values)
    requires forall k :: k in keys ==> Stays(Lookup(body, k), Lookup(from, k), v)
    ensures MergeKeys(body, from, keys, v) == Merged(body, AllReports(body, from, keys, v))
  {
    if keys != [] {
      var n := |keys| - 1;
      assert keys == keys[..n] + [keys[n]];
      SettledKeys(body, from, keys[..n], v);
      MergeKeyReports(body, from, keys[n], v);
    }
  }

  lemma {:induction false} SameReports(body: seq<Line>, other: seq<Line>, from: seq<Line>, keys: seq<string>, v: Values)
    requires forall k :: k in keys ==> Reports(k, Lookup(body, k), Lookup(from, k), v) == Reports(k, Lookup(other, k), Lookup(from, k), v)
    ensures AllReports(body, from, keys, v) == AllReports(other, from, keys, v)
  {
    if keys != [] {
      var n := |keys| - 1;
      assert keys == keys[..n] + [keys[n]];
      SameReports(body, other, from, keys[..n], v);
    }
  }

  /** Merging the same keys again changes nothing and reports the same. */
  lemma {:induction false} MergeKeysTwice(body: seq<Line>, from: seq<Line>, keys: seq<string>, v: Values)
    requires Tidy(body) && Tidy(from) && KeysApart(keys)
    ensures MergeKeys(MergeKeys(body, from, keys, v).body, from, keys, v) == MergeKeys(body, from, keys, v)
  {
    var once := MergeKeys(body, from, keys, v);
    forall k | k in keys
      ensures Stays(Lookup(once.body, k), Lookup(from, k), v)
      ensures Reports(k, Lookup(once.body, k), Lookup(from, k), v) == Reports(k, Lookup(body, k), Lookup(from, k), v)
    {
      KeyOutcomes(body, from, keys, v, k);
      MergedStays(Lookup(body, k), Lookup(from, k), v, k);
    }
    SettledKeys(once.body, from, keys, v);
    SameReports(once.body, body, from, keys, v);
    KeyReports(body, from, keys, v);
  }

  /** A table merged with itself stays as it is, without a report. */
  lemma {:induction false} MergeWithItself(from: seq<Line>, keys: seq<string>, v: Values)
    ensures MergeKeys(from, from, keys, v) == Merged(from, [])
  {
    if keys != [] {
      var n := |keys| - 1;
      MergeWithItself(from, keys[..n], v);
      MergeKeyReports(from, from, keys[n], v);
    }
  }

  // ---------------------------------------------------------------- nothing else is lost

  /** `a` can be had from `b` by leaving elements out. */
  ghost predicate Keeps<T>(a: seq<T>, b: seq<T>) {
    if a == [] then true
    else if b == [] then false
    else (a[0] == b[0] && Keeps(a[1..], b[1..])) || Keeps(a, b[1..])
  }

  lemma {:induction false} KeepsAll<T>(a: seq<T>)
    ensures Keeps(a, a)
  {
    if a != [] {
      KeepsAll(a[1..]);
    }
  }

  lemma {:induction false} KeepsMore<T>(a: seq<T>, x: seq<T>, b: seq<T>)
    requires Keeps(a, b)
    ensures Keeps(a, x + b)
  {
    if x == [] {
      assert x + b == b;
    } else {
      assert (x + b)[1..] == x[1..] + b;
      KeepsMore(a, x[1..], b);
    }
  }

  lemma {:induction false} KeepsJoin<T>(a: seq<T>, b: seq<T>, c: seq<T>, d: seq<T>)
    requires Keeps(a, b) && Keeps(c, d)
    ensures Keeps(a + c, b + d)
  {
    if a == [] {
      assert a + c == c;
      KeepsMore(c, b, d);
    } else {
      assert (b + d)[0] == b[0] && (b + d)[1..] == b[1..] + d && (a + c)[0] == a[0] && (a + c)[1..] == a[1..] + c;
      if a[0] == b[0] && Keeps(a[1..], b[1..]) {
        KeepsJoin(a[1..], b[1..], c, d);
      } else {
        KeepsJoin(a, b[1..], c, d);
      }
    }
  }

  /** The segments that are not dropped. */
  function Kept(segs: seq<Seg>, drop: Seg -> bool): seq<Seg> {
    if segs == [] then []
    else (if drop(segs[0]) then [] else [segs[0]]) + Kept(segs[1..], drop)
  }

  lemma {:induction false} KeptJoin(a: seq<Seg>, b: seq<Seg>, drop: Seg -> bool)
    ensures Kept(a + b, drop) == Kept(a, drop) + Kept(b, drop)
  {
    if a == [] {
      assert a + b == b;
    } else {
      assert (a + b)[0] == a[0] && (a + b)[1..] == a[1..] + b;
      KeptJoin(a[1..], b, drop);
    }
  }

  lemma {:induction false} KeepsTrans<T>(a: seq<T>, b: seq<T>, c: seq<T>)
    requires Keeps(a, b) && Keeps(b, c)
    ensures Keeps(a, c)
    decreases |c|
  {
    if a != [] {
      assert b != [] && c != [];
      if b[0] == c[0] && Keeps(b[1..], c[1..]) {
        if a[0] == b[0] && Keeps(a[1..], b[1..]) {
          KeepsTrans(a[1..], b[1..], c[1..]);
        } else {
          KeepsTrans(a, b[1..], c[1..]);
        }
      } else {
        KeepsTrans(a, b, c[1..]);
      }
    }
  }

  lemma {:induction false} KeepsNothing<T>(b: seq<T>)
    ensures Keeps([], b)
  {
  }

  /** Owned keys whose value counts as unset: the only lines a merge may drop. */
  predicate Droppable(keys: seq<string>, v: Values, s: Seg) {
    s.Entry? && s.name in keys && v.unset(v.of(s.lines))
  }

  lemma {:induction false} SpliceKeeps(s: Splice, drop: Seg -> bool)
    requires Kept(s.was, drop) == []
    ensures Keeps(Kept(s.a + s.was + s.b, drop), Kept(s.a + s.mid + s.b, drop))
  {
    KeptJoin(s.a + s.was, s.b, drop);
    KeptJoin(s.a, s.was, drop);
    KeptJoin(s.a + s.mid, s.b, drop);
    KeptJoin(s.a, s.mid, drop);
    KeepsAll(Kept(s.a, drop));
    KeepsNothing(Kept(s.mid, drop));
    KeepsAll(Kept(s.b, drop));
    KeepsJoin(Kept(s.a, drop), Kept(s.a, drop), [], Kept(s.mid, drop));
    assert Kept(s.a, drop) + [] == Kept(s.a, drop);
    KeepsJoin(Kept(s.a, drop), Kept(s.a, drop) + Kept(s.mid, drop), Kept(s.b, drop), Kept(s.b, drop));
  }

  lemma {:induction false} MergeKeyKeeps(body: seq<Line>, from: seq<Line>, key: string, v: Values, drop: Seg -> bool)
    requires Tidy(body) && Tidy(from) && forall lines :: v.unset(v.of(lines)) ==> drop(Entry(key, lines))
    ensures Keeps(Kept(Segments(body), drop), Kept(Segments(MergeKey(body, from, key, v).body), drop))
  {
    var s := MergeSplices(body, from, key, v);
    if s.was != [] {
      assert s.was == [Entry(key, Lookup(body, key).value)];
      assert Kept(s.was, drop) == [] + Kept([], drop);
    }
    SpliceKeeps(s, drop);
  }

  lemma {:induction false} MergeKeysKeep(body: seq<Line>, from: seq<Line>, keys: seq<string>, v: Values, drop: Seg -> bool)
    requires Tidy(body) && Tidy(from) && forall k, lines :: k in keys && v.unset(v.of(lines)) ==> drop(Entry(k, lines))
    ensures Keeps(Kept(Segments(body), drop), Kept(Segments(MergeKeys(body, from, keys, v).body), drop))
  {
    if keys == [] {
      KeepsAll(Kept(Segments(body), drop));
    } else {
      var n := |keys| - 1;
      assert keys == keys[..n] + [keys[n]];
      var before := MergeKeys(body, from, keys[..n], v).body;
      MergeKeysKeep(body, from, keys[..n], v, drop);
      MergeKeysTidy(body, from, keys[..n], v);
      MergeKeyKeeps(before, from, keys[n], v, drop);
      KeepsTrans(Kept(Segments(body), drop), Kept(Segments(before), drop), Kept(Segments(MergeKeys(body, from, keys, v).body), drop));
    }
  }

  lemma {:induction false} KeptLines(segs: seq<Seg>, drop: Seg -> bool)
    ensures Keeps(Flat(Kept(segs, drop)), Flat(segs))
  {
    if segs != [] {
      KeptLines(segs[1..], drop);
      var first := if drop(segs[0]) then [] else [segs[0]];
      FlatJoin(first, Kept(segs[1..], drop));
      assert Flat([segs[0]]) == segs[0].Lines();
      KeepsAll(segs[0].Lines());
      KeepsNothing(segs[0].Lines());
      KeepsJoin(Flat(first), segs[0].Lines(), Flat(Kept(segs[1..], drop)), Flat(segs[1..]));
    }
  }

  lemma {:induction false} FlatKeeps(a: seq<Seg>, b: seq<Seg>)
    requires Keeps(a, b)
    ensures Keeps(Flat(a), Flat(b))
    decreases |b|
  {
    if a != [] {
      assert b != [];
      if a[0] == b[0] && Keeps(a[1..], b[1..]) {
        FlatKeeps(a[1..], b[1..]);
        KeepsAll(a[0].Lines());
        KeepsJoin(a[0].Lines(), b[0].Lines(), Flat(a[1..]), Flat(b[1..]));
      } else {
        FlatKeeps(a, b[1..]);
        KeepsMore(Flat(a), b[0].Lines(), Flat(b[1..]));
      }
    }
  }

  /** The lines of a table without its unset owned keys. */
  function SetLines(body: seq<Line>, keys: seq<string>, v: Values): seq<Line> {
    Flat(Kept(Segments(body), (s: Seg) => Droppable(keys, v, s)))
  }

  /** Every line of the table survives, in order, besides the owned keys whose value counts as unset. */
  lemma {:induction false} NothingLost(body: seq<Line>, from: seq<Line>, keys: seq<string>, v: Values)
    requires Tidy(body) && Tidy(from)
    ensures Keeps(SetLines(body, keys, v), MergeKeys(body, from, keys, v).body)
  {
    var drop := (s: Seg) => Droppable(keys, v, s);
    var after := MergeKeys(body, from, keys, v).body;
    MergeKeysKeep(body, from, keys, v, drop);
    FlatKeeps(Kept(Segments(body), drop), Kept(Segments(after), drop));
    KeptLines(Segments(after), drop);
    FlatSegments(after);
    KeepsTrans(SetLines(body, keys, v), Flat(Kept(Segments(after), drop)), after);
  }

  lemma {:induction false} KeptWhole(segs: seq<Seg>, drop: Seg -> bool)
    requires forall s :: s in segs ==> !drop(s)
    ensures Kept(segs, drop) == segs
  {
    if segs != [] {
      KeptWhole(segs[1..], drop);
    }
  }

  /** Where no value counts as unset, every line survives. */
  lemma {:induction false} AllLinesKept(body: seq<Line>, keys: seq<string>, v: Values)
    requires forall x :: !v.unset(x)
    ensures SetLines(body, keys, v) == body
  {
    KeptWhole(Segments(body), (s: Seg) => Droppable(keys, v, s));
    FlatSegments(body);
  }
}
