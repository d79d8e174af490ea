/** Which files split, and into what, read off their lines. */
module FrontMatterExact {
  import opened Text
  import opened FrontMatter

  // ---------------------------------------------------------------- lines

  /** A fence line: three dashes and nothing but blanks and tabs behind them. */
  predicate Dashes(line: string) {
    |line| >= 3 && line[..3] == "---" && forall i :: 3 <= i < |line| ==> line[i] == ' ' || line[i] == '\t'
  }

  lemma {:induction false} FenceLine(line: string)
    ensures TrimBlanks(line) == FENCE <==> Dashes(line)
    decreases |line|
  {
    if line != "" && (line[|line| - 1] == ' ' || line[|line| - 1] == '\t') {
      var init := line[..|line| - 1];
      FenceLine(init);
      assert |line| > 3 ==> init[..3] == line[..3];
      assert Dashes(line) ==> |line| != 3 by {
        assert |line| == 3 ==> line == line[..3];
      }
    } else if Dashes(line) {
      assert line == line[..3];
    }
  }

  /** A line of the text, without its line feed. */
  predicate IsLine(s: string, from: nat, end: nat) {
    && from <= end <= |s| && (from == 0 || s[from - 1] == '\n') && (end == |s| || s[end] == '\n')
    && forall i :: from <= i < end ==> s[i] != '\n'
  }

  /** A fence line begins here. */
  ghost predicate FenceStarts(s: string, from: nat) {
    from < |s| && exists end: nat :: IsLine(s, from, end) && Dashes(s[from..end])
  }

  lemma OneEnd(s: string, from: nat, end: nat)
    requires from <= |s| && IsLine(s, from, end)
    ensures LineEnd(s, from) == end
  {
  }

  lemma StartsHere(s: string, from: nat)
    requires from < |s| && (from == 0 || s[from - 1] == '\n')
    ensures FenceStarts(s, from) <==> TrimBlanks(s[from..LineEnd(s, from)]) == FENCE
  {
    var end := LineEnd(s, from);
    FenceLine(s[from..end]);
    assert IsLine(s, from, end);
    if FenceStarts(s, from) {
      var other: nat :| IsLine(s, from, other) && Dashes(s[from..other]);
      OneEnd(s, from, other);
    }
  }

  /** The search finds the first fence line. */
  lemma {:induction false} FirstFence(s: string, from: nat)
    requires from <= |s| && (from == 0 || from == |s| || s[from - 1] == '\n')
    ensures match FenceFrom(s, from)
            case Some(n) => from <= n && FenceStarts(s, n) && forall i :: from <= i < n ==> !FenceStarts(s, i)
            case None => forall i :: from <= i < |s| ==> !FenceStarts(s, i)
    decreases |s| - from
  {
    if from < |s| {
      var end := LineEnd(s, from);
      StartsHere(s, from);
      NoneInside(s, from, end);
      if !FenceStarts(s, from) && end < |s| {
        FenceStep(s, from, end, s[from..end]);
        FirstFence(s, end + 1);
      }
    }
  }

  lemma NoneInside(s: string, from: nat, end: nat)
    requires from < |s| && end == LineEnd(s, from)
    ensures forall i :: from < i <= end ==> !FenceStarts(s, i)
  {
    forall i | from < i <= end
      ensures !FenceStarts(s, i)
    {
      assert s[i - 1] != '\n';
    }
  }

  // ---------------------------------------------------------------- the split

  /** A CR LF becomes a LF, whatever stands around it; text without one stays as it is. */
  lemma CrLfIsLf(a: string, b: string)
    ensures Unix(a + "\r\n" + b) == Unix(a) + "\n" + Unix(b)
    ensures !HasCrLf(a) ==> Unix(a) == a
  {
    var pair := "\r\n" + b;
    assert a + "\r\n" + b == a + pair;
    assert pair[0] == '\r' && pair[1] == '\n' && pair[2..] == b;
    UnixJoin(a, pair);
    UnixShortens(a);
    assert Unix(a) + ("\n" + Unix(b)) == Unix(a) + "\n" + Unix(b);
  }

  /** The text a split looks at: without a byte order mark, with plain line feeds. */
  ghost predicate Reads(data: string, t: string) {
    t == Unix(if |data| > 0 && data[0] == '\U{FEFF}' then data[1..] else data)
  }

  lemma CleanReads(data: string)
    ensures Reads(data, Clean(data))
  {
    if |data| > 0 && data[0] == '\U{FEFF}' {
      assert data[..1] == BOM;
    }
  }

  /** The body of the text below a fence: the text without the line feeds at its ends. */
  ghost predicate Trims(after: string, body: string) {
    && (body == "" || (body[0] != '\n' && body[|body| - 1] != '\n'))
    && exists n: nat :: Between(after, body, n)
  }

  /** The body stands behind `n` line feeds, with nothing but line feeds below it. */
  predicate Between(after: string, body: string, n: nat) {
    && n + |body| <= |after| && after[n..n + |body|] == body
    && (forall i :: 0 <= i < n ==> after[i] == '\n') && forall i :: n + |body| <= i < |after| ==> after[i] == '\n'
  }

  lemma TrimMeans(after: string)
    ensures Trims(after, TrimFeeds(after))
  {
    var n := LeadingFeeds(after);
    var rest := after[n..];
    var r := TrimRightFeeds(rest);
    assert rest[..|r|] == r;
    assert forall i :: |r| <= i < |rest| ==> rest[i] == after[n + i];
    assert after[n..n + |r|] == r;
    forall i | n + |r| <= i < |after|
      ensures after[i] == '\n'
    {
      assert rest[i - n] == '\n';
    }
    assert Between(after, r, n);
  }

  /** The line from `n` to `end` is the first fence line, and `after` is the text below it. */
  ghost predicate FirstFenceLine(rest: string, n: nat, end: nat, after: string) {
    && n < |rest| && IsLine(rest, n, end) && Dashes(rest[n..end]) && (forall i :: 0 <= i < n ==> !FenceStarts(rest, i))
    && after == if end < |rest| then rest[end + 1..] else ""
  }

  lemma {:induction false} RestSplits(rest: string, r: Split) returns (n: nat)
    requires r == SplitRest(rest) && r.Closed?
    ensures n < |rest| && FenceStarts(rest, n) && forall i :: 0 <= i < n ==> !FenceStarts(rest, i)
    ensures r.block == rest[..n] && r.body == TrimFeeds(BelowLine(rest[n..]))
  {
    FirstFence(rest, 0);
    n := FenceFrom(rest, 0).value;
    SplitWith(rest, n);
  }

  lemma {:induction false} ThereAt(rest: string, n: nat) returns (end: nat, after: string)
    requires n < |rest| && FenceStarts(rest, n) && forall i :: 0 <= i < n ==> !FenceStarts(rest, i)
    ensures FirstFenceLine(rest, n, end, after) && after == BelowLine(rest[n..])
  {
    StartsAt(rest, n);
    BelowEnd(rest, n);
    end := LineEnd(rest, n);
    after := if end < |rest| then rest[end + 1..] else "";
  }

  lemma StartsAt(s: string, n: nat)
    requires n < |s| && FenceStarts(s, n)
    ensures IsLine(s, n, LineEnd(s, n)) && Dashes(s[n..LineEnd(s, n)])
  {
    var end: nat :| IsLine(s, n, end) && Dashes(s[n..end]);
    OneEnd(s, n, end);
  }

  lemma BelowEnd(s: string, n: nat)
    requires n <= |s|
    ensures BelowLine(s[n..]) == if LineEnd(s, n) < |s| then s[LineEnd(s, n) + 1..] else ""
  {
    var end := LineEnd(s, n);
    assert forall i :: 0 <= i < |s| - n ==> s[n..][i] == s[n + i];
    EndsAlike(s, n);
  }

  lemma {:induction false} EndsAlike(s: string, n: nat)
    requires n <= |s|
    ensures LineEnd(s[n..], 0) == LineEnd(s, n) - n
  {
    var k := LineEnd(s, n) - n;
    assert forall i :: 0 <= i < |s| - n ==> s[n..][i] == s[n + i];
    OneEnd(s[n..], 0, k);
  }

  /** A file is split exactly when it opens with a fence and a fence line follows; it is not closed exactly when none
      follows, or when it is the opening fence alone; any other file is not opened. */
  lemma SplitMeans(data: string, t: string)
    requires Reads(data, t)
    ensures var r, starts := SplitFrontMatter(data), |t| >= 4 && t[..4] == "---\n";
            && (r.Closed? <==> starts && exists i :: 0 <= i < |t[4..]| && FenceStarts(t[4..], i))
            && (r.NotClosed? <==> (starts && forall i :: 0 <= i < |t[4..]| ==> !FenceStarts(t[4..], i)) || t == "---")
            && (r.Closed? ==> r == SplitRest(t[4..]))
  {
    CleanReads(data);
    if HasPrefix(t, OPENING) {
      FirstFence(t[4..], 0);
    } else {
      OnlyFence(t);
    }
  }

  /** A split is made at the first fence line below the opening one: the block is what stands above it, and the body
      what stands below it without the line feeds at the ends. */
  lemma {:induction false} SplitsAtFirst(data: string, t: string, rest: string) returns (n: nat, end: nat, after: string)
    requires Reads(data, t) && SplitFrontMatter(data).Closed? && |t| >= 4 && rest == t[4..]
    ensures FirstFenceLine(rest, n, end, after)
    ensures SplitFrontMatter(data).block == rest[..n] && Trims(after, SplitFrontMatter(data).body)
  {
    SplitMeans(data, t);
    n := RestSplits(rest, SplitFrontMatter(data));
    end, after := ThereAt(rest, n);
    TrimMeans(after);
  }

  lemma OnlyFence(t: string)
    requires !HasPrefix(t, OPENING)
    ensures TrimRightFeeds(t) == FENCE <==> t == "---"
  {
    assert |t| > 3 ==> t[..4] == t[..3] + [t[3]];
  }

  /** What a file is assembled to: the block between two fence lines, and the body, if there is one, behind an empty
      line and with a line feed at its end. */
  lemma AssembledAs(block: string, body: string) returns (t: string)
    ensures Trims(body, t)
    ensures Assemble(block, body) == "---\n" + block + "---\n" + if t == "" then "" else "\n" + t + "\n"
  {
    t := TrimFeeds(body);
    TrimMeans(body);
  }
}
