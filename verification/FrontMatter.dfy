/** Splitting a Markdown file into its front-matter block and its body, and putting the two together. */
module FrontMatter {
  import opened Text

  const FENCE := "---"
  const OPENING := "---\n"
  const BOM := "\U{FEFF}"

  // ---------------------------------------------------------------- line endings

  /** Every CR LF as LF. */
  function Unix(s: string): (r: string)
    ensures |r| <= |s|
  {
    if s == "" then ""
    else if |s| >= 2 && s[0] == '\r' && s[1] == '\n' then "\n" + Unix(s[2..])
    else [s[0]] + Unix(s[1..])
  }

  /** Somewhere a CR is directly followed by a LF. */
  predicate HasCrLf(s: string) {
    exists i :: 0 <= i < |s| - 1 && s[i] == '\r' && s[i + 1] == '\n'
  }

  /** Text changes, and gets shorter, exactly when it contains a CR LF. */
  lemma {:induction false} UnixShortens(s: string)
    ensures HasCrLf(s) ==> |Unix(s)| < |s|
    ensures !HasCrLf(s) ==> Unix(s) == s
  {
    if s != "" {
      if |s| >= 2 && s[0] == '\r' && s[1] == '\n' {
        assert s[0] == '\r' && s[0 + 1] == '\n';
      } else {
        UnixShortens(s[1..]);
        if HasCrLf(s) {
          var i :| 0 <= i < |s| - 1 && s[i] == '\r' && s[i + 1] == '\n';
          assert s[1..][i - 1] == '\r' && s[1..][i - 1 + 1] == '\n';
        } else {
          forall i | 0 <= i < |s[1..]| - 1
            ensures !(s[1..][i] == '\r' && s[1..][i + 1] == '\n')
          {
            assert !(s[i + 1] == '\r' && s[i + 1 + 1] == '\n');
          }
        }
      }
    }
  }

  /** Text cut anywhere but inside a CR LF is normalised part by part. */
  lemma {:induction false} UnixJoin(a: string, b: string)
    requires a == "" || b == "" || a[|a| - 1] != '\r' || b[0] != '\n'
    ensures Unix(a + b) == Unix(a) + Unix(b)
    decreases |a|
  {
    if a == "" {
      assert a + b == b;
    } else if |a| >= 2 && a[0] == '\r' && a[1] == '\n' {
      UnixJoin(a[2..], b);
      PairJoin(a, b);
    } else {
      UnixJoin(a[1..], b);
      PlainJoin(a, b);
    }
  }

  lemma {:induction false} PairJoin(a: string, b: string)
    requires |a| >= 2 && a[0] == '\r' && a[1] == '\n' && Unix(a[2..] + b) == Unix(a[2..]) + Unix(b)
    ensures Unix(a + b) == Unix(a) + Unix(b)
  {
    JoinTail(a, b, 2);
    Regroup("\n", Unix(a[2..]), Unix(b));
  }

  lemma {:induction false} PlainJoin(a: string, b: string)
    requires a != "" && !(|a| >= 2 && a[0] == '\r' && a[1] == '\n') && (|a| > 1 || b == "" || a[0] != '\r' || b[0] != '\n')
    requires Unix(a[1..] + b) == Unix(a[1..]) + Unix(b)
    ensures Unix(a + b) == Unix(a) + Unix(b)
  {
    JoinTail(a, b, 1);
    UnixPlain(a);
    UnixPlain(a + b);
    Regroup([a[0]], Unix(a[1..]), Unix(b));
  }

  lemma {:induction false} UnixPlain(s: string)
    requires s != "" && !(|s| >= 2 && s[0] == '\r' && s[1] == '\n')
    ensures Unix(s) == [s[0]] + Unix(s[1..])
  {
  }

  lemma JoinTail(a: string, b: string, n: nat)
    requires n <= |a|
    ensures (a + b)[n..] == a[n..] + b && forall i :: 0 <= i < |a| ==> (a + b)[i] == a[i]
  {
  }

  /** Text that is a prefix of something and of what that becomes holds no CR LF. */
  lemma {:induction false} SharedPrefix(s: string, p: string)
    requires p <= s && p <= Unix(s)
    ensures !HasCrLf(p)
  {
    if |p| >= 2 {
      assert p[0] == s[0] && p[0] == Unix(s)[0];
      if !(s[0] == '\r' && s[1] == '\n') {
        assert p[1..] <= s[1..] && p[1..] <= Unix(s[1..]);
        SharedPrefix(s[1..], p[1..]);
        forall i | 0 <= i < |p| - 1
          ensures !(p[i] == '\r' && p[i + 1] == '\n')
        {
          if i > 0 {
            assert !(p[1..][i - 1] == '\r' && p[1..][i - 1 + 1] == '\n');
          }
        }
      }
    }
  }

  // ---------------------------------------------------------------- lines and fences

  /** The end of the line that starts at an offset: the next line feed, or the end of the text. */
  function LineEnd(s: string, from: nat): (n: nat)
    requires from <= |s|
    ensures from <= n <= |s| && (n < |s| ==> s[n] == '\n')
    ensures forall i :: from <= i < n ==> s[i] != '\n'
    decreases |s| - from
  {
    if from == |s| || s[from] == '\n' then from else LineEnd(s, from + 1)
  }

  function TrimBlanks(s: string): string {
    if s != "" && (s[|s| - 1] == ' ' || s[|s| - 1] == '\t') then TrimBlanks(s[..|s| - 1]) else s
  }

  /** The first line from an offset on that is a fence. */
  function FenceFrom(s: string, from: nat): (r: Option<nat>)
    requires from <= |s|
    ensures r.Some? ==> from <= r.value < |s|
    decreases |s| - from
  {
    if from == |s| then None
    else
      var end := LineEnd(s, from);
      if TrimBlanks(s[from..end]) == FENCE then Some(from)
      else if end == |s| then None
      else FenceFrom(s, end + 1)
  }

  /** indexClosingFence. */
  method IndexClosingFence(s: string) returns (r: Option<nat>)
    ensures r == FenceFrom(s, 0)
  {
    var offset := 0;
    while offset < |s|
      invariant offset <= |s| && FenceFrom(s, offset) == FenceFrom(s, 0)
      decreases |s| - offset
    {
      var end := IndexLineFeed(s, offset);
      if TrimBlanks(s[offset..end]) == FENCE {
        return Some(offset);
      }
      if end == |s| {
        return None;
      }
      offset := end + 1;
    }
    r := None;
  }

  method IndexLineFeed(s: string, from: nat) returns (n: nat)
    requires from <= |s|
    ensures n == LineEnd(s, from)
  {
    n := from;
    while n < |s| && s[n] != '\n'
      invariant from <= n <= |s| && LineEnd(s, n) == LineEnd(s, from)
    {
      n := n + 1;
    }
  }

  /** Empty, or ending in a line feed. */
  predicate Terminated(s: string) {
    s == "" || s[|s| - 1] == '\n'
  }

  predicate HasFence(s: string) {
    FenceFrom(s, 0).Some?
  }

  lemma {:induction false} LineEndJoined(a: string, b: string, from: nat)
    requires from < |a| && Terminated(a)
    ensures LineEnd(a + b, from) == LineEnd(a, from) < |a|
    decreases |a| - from
  {
    if a[from] != '\n' {
      assert from + 1 < |a|;
      LineEndJoined(a, b, from + 1);
    }
  }

  /** The lines of a terminated text are the first lines of anything it begins. */
  lemma {:induction false} FenceJoined(a: string, b: string, from: nat)
    requires from <= |a| && Terminated(a)
    ensures FenceFrom(a + b, from) == if FenceFrom(a, from).Some? then FenceFrom(a, from) else FenceFrom(a + b, |a|)
    decreases |a| - from
  {
    if from < |a| {
      LineEndJoined(a, b, from);
      var end := LineEnd(a, from);
      var text := a[from..end];
      assert (a + b)[from..end] == text;
      FenceStep(a, from, end, text);
      FenceStep(a + b, from, end, text);
      if TrimBlanks(text) != FENCE {
        FenceJoined(a, b, end + 1);
      }
    }
  }

  /** A line that ends is a fence, or the fence is below it. */
  lemma {:induction false} FenceStep(s: string, from: nat, line: nat, text: string)
    requires from <= line < |s| && line == LineEnd(s, from) && text == s[from..line]
    ensures FenceFrom(s, from) == if TrimBlanks(text) == FENCE then Some(from) else FenceFrom(s, line + 1)
  {
  }

  /** Above the first fence the text is terminated and holds no fence. */
  lemma {:induction false} AboveFence(s: string, from: nat, end: nat)
    requires from <= |s| && FenceFrom(s, from) == Some(end) && (from == 0 || s[from - 1] == '\n')
    ensures end <= |s| && Terminated(s[..end]) && from <= end && FenceFrom(s[..end], from).None?
    decreases |s| - from
  {
    if end != from {
      var line := NoFenceHere(s, from, end);
      AboveFence(s, line + 1, end);
      PrefixLine(s, from, end);
      assert s[..end][from..line] == s[from..line];
      FenceStep(s[..end], from, line, s[from..line]);
    }
  }

  /** The first fence is further down: this line is none, and it ends. */
  lemma {:induction false} NoFenceHere(s: string, from: nat, end: nat) returns (line: nat)
    requires from <= |s| && FenceFrom(s, from) == Some(end) && from != end
    ensures from <= line < |s| && line == LineEnd(s, from) && line + 1 <= end && s[line] == '\n'
    ensures TrimBlanks(s[from..line]) != FENCE && FenceFrom(s, line + 1) == Some(end)
  {
    line := LineEnd(s, from);
  }

  lemma {:induction false} PrefixLine(s: string, from: nat, end: nat)
    requires from <= |s| && LineEnd(s, from) < end <= |s|
    ensures LineEnd(s[..end], from) == LineEnd(s, from)
    decreases |s| - from
  {
    if s[from] != '\n' {
      PrefixLine(s, from + 1, end);
    }
  }

  // ---------------------------------------------------------------- trimming

  function LeadingFeeds(s: string): (n: nat)
    ensures n <= |s| && (forall i :: 0 <= i < n ==> s[i] == '\n') && (n < |s| ==> s[n] != '\n')
  {
    if s != "" && s[0] == '\n' then
      var n := LeadingFeeds(s[1..]);
      assert forall i :: 1 <= i < |s| ==> s[i] == s[1..][i - 1];
      1 + n
    else 0
  }

  function TrimRightFeeds(s: string): (r: string)
    ensures r <= s && (r == "" || r[|r| - 1] != '\n')
    ensures forall i :: |r| <= i < |s| ==> s[i] == '\n'
  {
    if s != "" && s[|s| - 1] == '\n' then TrimRightFeeds(s[..|s| - 1]) else s
  }

  /** strings.Trim of line feeds. */
  function TrimFeeds(s: string): (r: string)
    ensures r == "" || (r[0] != '\n' && r[|r| - 1] != '\n')
    ensures LeadingFeeds(s) + |r| <= |s| && s[LeadingFeeds(s)..LeadingFeeds(s) + |r|] == r
  {
    TrimRightFeeds(s[LeadingFeeds(s)..])
  }

  lemma {:induction false} TrimmedStays(s: string)
    requires s == "" || (s[0] != '\n' && s[|s| - 1] != '\n')
    ensures TrimFeeds(s) == s && TrimFeeds("\n" + s + "\n") == s
  {
    var t := "\n" + s + "\n";
    if s == "" {
      assert t == "\n\n" && t[1..] == "\n" && t[1..][1..] == "";
      assert LeadingFeeds("\n") == 1;
      assert LeadingFeeds(t) == 2 && t[2..] == "";
    } else {
      assert t[1..] == s + "\n";
      assert (s + "\n")[0] == s[0];
      assert LeadingFeeds(s + "\n") == 0;
      assert (s + "\n")[..|s|] == s && (s + "\n")[0..] == s + "\n" && s[0..] == s;
    }
  }

  // ---------------------------------------------------------------- splitting and assembling

  datatype Split = Closed(block: string, body: string, line: nat) | NotOpened | NotClosed

  function Count(s: string): nat {
    if s == "" then 0 else (if s[0] == '\n' then 1 else 0) + Count(s[1..])
  }

  function Clean(data: string): string {
    Unix(TrimPrefix(data, BOM))
  }

  /** What follows the line at the start of a text. */
  function BelowLine(s: string): string {
    var n := LineEnd(s, 0);
    if n < |s| then s[n + 1..] else ""
  }

  function SplitRest(rest: string): Split {
    match FenceFrom(rest, 0)
    case None => NotClosed
    case Some(end) =>
      SplitAs(rest[..end], BelowLine(rest[end..]))
  }

  /** The block, the trimmed text below the closing fence, and the line it begins on. */
  function SplitAs(block: string, after: string): Split {
    Closed(block, TrimFeeds(after), 1 + Count(block) + 1 + LeadingFeeds(after) + 1)
  }

  function SplitFrontMatter(data: string): Split {
    var clean := Clean(data);
    if HasPrefix(clean, OPENING) then SplitRest(clean[4..])
    else if TrimRightFeeds(clean) == FENCE then NotClosed
    else NotOpened
  }

  /** splitFrontMatter. */
  method SplitFile(data: string) returns (r: Split)
    ensures r == SplitFrontMatter(data)
  {
    var clean := Clean(data);
    if !HasPrefix(clean, OPENING) {
      return if TrimRightFeeds(clean) == FENCE then NotClosed else NotOpened;
    }
    r := SplitAtFence(clean[4..]);
  }

  method SplitAtFence(rest: string) returns (r: Split)
    ensures r == SplitRest(rest)
  {
    var end := IndexClosingFence(rest);
    if end.None? {
      return NotClosed;
    }
    var below := rest[end.value..];
    var after := DropLine(below);
    r := SplitAs(rest[..end.value], after);
  }

  method DropLine(s: string) returns (after: string)
    ensures after == BelowLine(s)
  {
    var i := IndexLineFeed(s, 0);
    after := if i < |s| then s[i + 1..] else "";
  }

  function Assemble(block: string, body: string): string {
    var t := TrimFeeds(body);
    OPENING + block + OPENING + if t == "" then "" else "\n" + t + "\n"
  }

  // ---------------------------------------------------------------- the round trip

  /** What an assembled file holds below its opening fence. */
  function Tail(t: string): string {
    if t == "" then "" else "\n" + t + "\n"
  }

  /** Block and body survive: the block is empty or ends its last line, holds no fence line and no CR LF, and
      the trimmed body holds no CR LF and does not end in a CR. */
  ghost predicate Survives(block: string, t: string) {
    Terminated(block) && !HasFence(block) && !HasCrLf(block) && !HasCrLf(Tail(t))
  }

  lemma {:induction false} FenceAt(block: string, x: string)
    requires Terminated(block) && !HasFence(block)
    ensures FenceFrom(block + OPENING + x, 0) == Some(|block|)
  {
    assert block + OPENING + x == block + (OPENING + x);
    FenceJoined(block, OPENING + x, 0);
    FenceHere(block, x);
  }

  lemma {:induction false} FenceHere(block: string, x: string)
    ensures FenceFrom(block + (OPENING + x), |block|) == Some(|block|)
  {
    var rest, n := block + (OPENING + x), |block|;
    assert rest[n] == '-' && rest[n + 1] == '-' && rest[n + 2] == '-' && rest[n + 3] == '\n';
    assert LineEnd(rest, n + 3) == n + 3;
    assert LineEnd(rest, n) == n + 3;
    assert rest[n..n + 3] == FENCE;
    TrimmedFence();
  }

  lemma {:induction false} TrimmedFence()
    ensures TrimBlanks(FENCE) == FENCE
  {
  }

  lemma {:induction false} BelowFence(x: string)
    ensures BelowLine(OPENING + x) == x
  {
    var s := OPENING + x;
    assert s[0] == '-' && s[1] == '-' && s[2] == '-' && s[3] == '\n';
    assert LineEnd(s, 3) == 3;
    assert LineEnd(s, 0) == 3;
    assert s[4..] == x;
  }

  /** Splitting the text below the opening fence at a block that can be told apart. */
  lemma {:induction false} SplitsAt(block: string, x: string)
    requires Terminated(block) && !HasFence(block)
    ensures SplitRest(block + OPENING + x) == SplitAs(block, x)
  {
    FenceAt(block, x);
    BelowFence(x);
    SplitOf(block + OPENING + x, block, OPENING + x, x);
  }

  lemma {:induction false} SplitOf(rest: string, block: string, below: string, after: string)
    requires rest == block + below && FenceFrom(rest, 0) == Some(|block|) && after == BelowLine(below)
    ensures SplitRest(rest) == SplitAs(block, after)
  {
    assert rest[..|block|] == block && rest[|block|..] == below;
    SplitWith(rest, |block|);
  }

  lemma {:induction false} SplitWith(rest: string, end: nat)
    requires FenceFrom(rest, 0) == Some(end)
    ensures end <= |rest|
    ensures SplitRest(rest) == SplitAs(rest[..end], BelowLine(rest[end..]))
  {
  }

  lemma {:induction false} OpeningStays(s: string)
    ensures Unix(OPENING + s) == OPENING + Unix(s)
  {
    UnixJoin(OPENING, s);
    UnixShortens(OPENING);
  }

  lemma {:induction false} OpenedClean(s: string)
    ensures Clean(OPENING + s) == OPENING + Unix(s)
  {
    assert (OPENING + s)[0] == '-' && BOM[0] != '-';
    assert !HasPrefix(OPENING + s, BOM) by {
      assert (OPENING + s)[..1][0] == '-';
    }
    OpeningStays(s);
  }

  lemma {:induction false} CutOpening(u: string)
    ensures HasPrefix(OPENING + u, OPENING) && (OPENING + u)[4..] == u
  {
    assert (OPENING + u)[..4] == OPENING;
  }

  lemma {:induction false} SplitOpened(s: string)
    ensures SplitFrontMatter(OPENING + s) == SplitRest(Unix(s))
  {
    OpenedClean(s);
    CutOpening(Unix(s));
  }

  lemma {:induction false} UnixParts(block: string, x: string)
    requires Terminated(block)
    ensures Unix(block + OPENING + x) == Unix(block) + OPENING + Unix(x)
  {
    assert block + OPENING + x == block + (OPENING + x);
    UnixJoin(block, OPENING + x);
    OpeningStays(x);
  }

  /** What a split hands out could be split out again: its block is told apart. */
  lemma {:induction false} SplitBlock(rest: string)
    requires SplitRest(rest).Closed?
    ensures var block := SplitRest(rest).block; block <= rest && Terminated(block) && !HasFence(block)
  {
    AboveFence(rest, 0, FenceFrom(rest, 0).value);
  }

  lemma {:induction false} AssembledSplit(block: string, body: string)
    ensures SplitFrontMatter(Assemble(block, body)) == SplitRest(Unix(block + OPENING + Tail(TrimFeeds(body))))
  {
    var x := Tail(TrimFeeds(body));
    assert Assemble(block, body) == OPENING + (block + OPENING + x);
    SplitOpened(block + OPENING + x);
  }

  /** What survives comes back. */
  lemma {:induction false} ComesBack(block: string, t: string)
    requires (t == "" || (t[0] != '\n' && t[|t| - 1] != '\n')) && Survives(block, t)
    ensures var r := SplitRest(Unix(block + OPENING + Tail(t))); r.Closed? && r.block == block && r.body == t
  {
    UnixParts(block, Tail(t));
    UnixShortens(block);
    UnixShortens(Tail(t));
    SplitsAt(block, Tail(t));
    TrimmedStays(t);
  }

  /** What comes back survives. */
  lemma {:induction false} CameBack(block: string, t: string)
    requires t == "" || (t[0] != '\n' && t[|t| - 1] != '\n')
    requires var r := SplitRest(Unix(block + OPENING + Tail(t))); r.Closed? && r.block == block && r.body == t
    ensures Survives(block, t)
  {
    var whole := block + OPENING + Tail(t);
    SplitBlock(Unix(whole));
    assert block <= whole;
    SharedPrefix(whole, block);
    UnixParts(block, Tail(t));
    UnixShortens(block);
    SplitsAt(block, Unix(Tail(t)));
    BodyKept(t);
  }

  /** Splitting an assembled file gives back the block and the trimmed body exactly when both survive. */
  lemma {:induction false} RoundTripExactly(block: string, body: string)
    ensures var r := SplitFrontMatter(Assemble(block, body));
            (r.Closed? && r.block == block && r.body == TrimFeeds(body)) <==> Survives(block, TrimFeeds(body))
  {
    AssembledSplit(block, body);
    var t := TrimFeeds(body);
    var r := SplitFrontMatter(Assemble(block, body));
    if Survives(block, t) {
      ComesBack(block, t);
    }
    if r.Closed? && r.block == block && r.body == t {
      CameBack(block, t);
    }
  }

  /** A body that comes back holds no CR LF: otherwise it would come back shorter. */
  lemma {:induction false} BodyKept(t: string)
    requires (t == "" || (t[0] != '\n' && t[|t| - 1] != '\n')) && TrimFeeds(Unix(Tail(t))) == t
    ensures !HasCrLf(Tail(t))
  {
    UnixShortens(Tail(t));
    if t != "" {
      BetweenFeeds(t);
      TrimmedShorter(Unix(Tail(t)));
    }
  }

  lemma {:induction false} BetweenFeeds(t: string)
    requires t != ""
    ensures var after := Unix(Tail(t)); |after| >= 2 && after[0] == '\n' && after[|after| - 1] == '\n'
  {
    assert Tail(t) == "\n" + (t + "\n");
    UnixJoin("\n", t + "\n");
    EndsInFeed(t + "\n");
    assert Unix("\n") == "\n";
  }

  lemma {:induction false} EndsInFeed(s: string)
    requires s != "" && s[|s| - 1] == '\n'
    ensures Unix(s) != "" && Unix(s)[|Unix(s)| - 1] == '\n'
    decreases |s|
  {
    if |s| >= 2 && s[0] == '\r' && s[1] == '\n' {
      if |s| > 2 {
        EndsInFeed(s[2..]);
      }
    } else if |s| > 1 {
      EndsInFeed(s[1..]);
    }
  }

  lemma {:induction false} TrimmedShorter(s: string)
    requires |s| >= 2 && s[0] == '\n' && s[|s| - 1] == '\n'
    ensures |TrimFeeds(s)| <= |s| - 2
  {
    var n, r := LeadingFeeds(s), TrimFeeds(s);
    assert n >= 1;
    if r != "" {
      assert s[n..n + |r|] == r && r[|r| - 1] == s[n + |r| - 1];
    }
  }

  /** A body that ends in a CR does not come back, although neither part holds a CR LF. */
  lemma {:induction false} TrailingCrIsLost()
    ensures !HasCrLf("x\r") && TrimFeeds("x\r") == "x\r" && !Survives("", "x\r")
    ensures var r := SplitFrontMatter(Assemble("", "x\r")); !(r.Closed? && r.block == "" && r.body == "x\r")
  {
    TrimmedStays("x\r");
    assert Tail("x\r")[2] == '\r' && Tail("x\r")[2 + 1] == '\n';
    RoundTripExactly("", "x\r");
  }

  // ---------------------------------------------------------------- the line of the body

  lemma {:induction false} CountJoin(a: string, b: string)
    ensures Count(a + b) == Count(a) + Count(b)
  {
    if a == "" {
      assert a + b == b;
    } else {
      assert (a + b)[0] == a[0] && (a + b)[1..] == a[1..] + b;
      CountJoin(a[1..], b);
    }
  }

  lemma {:induction false} CountUnix(s: string)
    ensures Count(Unix(s)) == Count(s)
  {
    if s != "" {
      if |s| >= 2 && s[0] == '\r' && s[1] == '\n' {
        CountUnix(s[2..]);
        assert ("\n" + Unix(s[2..]))[1..] == Unix(s[2..]);
        assert s[1..][0] == '\n' && s[1..][1..] == s[2..];
      } else {
        CountUnix(s[1..]);
        assert ([s[0]] + Unix(s[1..]))[1..] == Unix(s[1..]);
      }
    }
  }

  lemma {:induction false} CountFeeds(s: string)
    requires forall i :: 0 <= i < |s| ==> s[i] == '\n'
    ensures Count(s) == |s|
  {
    if s != "" {
      CountFeeds(s[1..]);
    }
  }

  lemma {:induction false} CountNone(s: string)
    requires forall i :: 0 <= i < |s| ==> s[i] != '\n'
    ensures Count(s) == 0
  {
    if s != "" {
      CountNone(s[1..]);
    }
  }

  /** How many characters the first normalised one stands for. */
  function Unit(s: string): (w: nat)
    requires s != ""
    ensures 1 <= w <= |s|
  {
    if |s| >= 2 && s[0] == '\r' && s[1] == '\n' then 2 else 1
  }

  lemma {:induction false} UnitUnix(s: string)
    requires s != ""
    ensures Unix(s) == Unix(s[..Unit(s)]) + Unix(s[Unit(s)..]) && |Unix(s[..Unit(s)])| == 1
    ensures Unix(s[..Unit(s)])[0] == '\n' ==> s[Unit(s) - 1] == '\n'
  {
    var w := Unit(s);
    assert s[..w][w..] == "";
    assert |s[..w]| == w && s[..w][0] == s[0] && (w == 2 ==> s[..w][1] == s[1]);
    assert w == 1 ==> s[..w][1..] == "";
    assert w == 2 ==> s[..w][2..] == "";
  }

  lemma {:induction false} UnitJoins(s: string, i: nat)
    requires s != "" && Unit(s) <= i <= |s|
    ensures Unix(s[..i]) == Unix(s[..Unit(s)]) + Unix(s[Unit(s)..i])
  {
    var w := Unit(s);
    assert s[..i] == s[..w] + s[w..i];
    assert w < i ==> s[w..i][0] == s[w];
    UnixJoin(s[..w], s[w..i]);
  }

  lemma {:induction false} ShiftSlices(a: string, b: string, pos: nat)
    requires |a| == 1 && 0 < pos <= 1 + |b|
    ensures (a + b)[..pos] == a + b[..pos - 1] && (a + b)[pos..] == b[pos - 1..]
    ensures (a + b)[pos - 1] == if pos == 1 then a[0] else b[pos - 2]
  {
  }

  lemma {:induction false} TailSlices(s: string, w: nat, k: nat)
    requires w + k <= |s|
    ensures s[w..w + k] == s[w..][..k] && s[w + k..] == s[w..][k..] && (k > 0 ==> s[w + k - 1] == s[w..][k - 1])
  {
  }

  /** A line start of the normalised text is a line start of the text. */
  lemma {:induction false} LineStart(s: string, pos: nat) returns (i: nat)
    requires 0 < pos <= |Unix(s)| && Unix(s)[pos - 1] == '\n'
    ensures 0 < i <= |s| && s[i - 1] == '\n' && Unix(s[..i]) == Unix(s)[..pos] && Unix(s[i..]) == Unix(s)[pos..]
    decreases |s|
  {
    var w := Unit(s);
    UnitUnix(s);
    ShiftSlices(Unix(s[..w]), Unix(s[w..]), pos);
    if pos == 1 {
      i := w;
    } else {
      var tail := s[w..];
      var k := LineStart(tail, pos - 1);
      i := k + w;
      UnitJoins(s, i);
      TailSlices(s, w, k);
    }
  }

  /** Where the body begins below the opening fence, and how many lines come before it. */
  predicate BodyStarts(rest: string, r: Split, pos: nat)
    requires r.Closed?
  {
    && 0 < pos && pos + |r.body| <= |rest| && rest[pos..pos + |r.body|] == r.body && rest[pos - 1] == '\n'
    && r.line == 2 + Count(rest[..pos])
  }

  lemma {:induction false} BodyInRest(rest: string, r: Split) returns (pos: nat)
    requires r == SplitRest(rest) && r.Closed? && r.body != ""
    ensures BodyStarts(rest, r, pos)
  {
    var end, after := SplitParts(rest, r);
    pos := BodyBetween(rest, r, end, after);
  }

  lemma {:induction false} SplitParts(rest: string, r: Split) returns (end: nat, after: string)
    requires r == SplitRest(rest) && r.Closed?
    ensures end <= |rest| && after == BelowLine(rest[end..])
    ensures r.body == TrimFeeds(after) && r.line == 1 + Count(rest[..end]) + 1 + LeadingFeeds(after) + 1
  {
    end := FenceFrom(rest, 0).value;
    after := BelowLine(rest[end..]);
  }

  lemma {:induction false} BodyBetween(rest: string, r: Split, end: nat, after: string) returns (pos: nat)
    requires r.Closed? && r.body != "" && end <= |rest| && after == BelowLine(rest[end..])
    requires r.body == TrimFeeds(after) && r.line == 1 + Count(rest[..end]) + 1 + LeadingFeeds(after) + 1
    ensures BodyStarts(rest, r, pos)
  {
    pos := BodyAfter(rest, end, after, r.body);
  }

  lemma {:induction false} BodyAfter(rest: string, end: nat, after: string, body: string) returns (pos: nat)
    requires end <= |rest| && after == BelowLine(rest[end..]) && body == TrimFeeds(after) && body != ""
    ensures 0 < pos && pos + |body| <= |rest| && rest[pos..pos + |body|] == body && rest[pos - 1] == '\n'
    ensures Count(rest[..pos]) == Count(rest[..end]) + 1 + LeadingFeeds(after)
  {
    assert after != "";
    var n := AfterFence(rest, end);
    assert after == rest[end + n + 1..];
    LeadingIn(rest, end + n + 1);
    pos := BodyBelow(rest, end, n, LeadingFeeds(after), body);
  }

  lemma {:induction false} BodyBelow(rest: string, end: nat, n: nat, leading: nat, body: string) returns (pos: nat)
    requires end + n + 1 + leading + |body| <= |rest| && rest[end + n] == '\n' && (forall i :: end <= i < end + n ==> rest[i] != '\n')
    requires forall i :: end + n + 1 <= i < end + n + 1 + leading ==> rest[i] == '\n'
    requires rest[end + n + 1..][leading..leading + |body|] == body
    ensures 0 < pos && pos + |body| <= |rest| && rest[pos..pos + |body|] == body && rest[pos - 1] == '\n'
    ensures Count(rest[..pos]) == Count(rest[..end]) + 1 + leading
  {
    var start := end + n + 1;
    pos := start + leading;
    BodyAt(rest, rest[start..], start, leading, body);
    LinesAbove(rest, end, n, leading);
  }

  lemma {:induction false} AfterFence(rest: string, end: nat) returns (n: nat)
    requires end <= |rest| && BelowLine(rest[end..]) != ""
    ensures end + n < |rest| && rest[end + n] == '\n' && (forall i :: end <= i < end + n ==> rest[i] != '\n')
    ensures BelowLine(rest[end..]) == rest[end + n + 1..]
  {
    var fence := rest[end..];
    n := LineEnd(fence, 0);
    assert forall i :: end <= i < |rest| ==> rest[i] == fence[i - end];
  }

  lemma {:induction false} LeadingIn(rest: string, start: nat)
    requires start <= |rest|
    ensures forall i :: start <= i < start + LeadingFeeds(rest[start..]) ==> rest[i] == '\n'
  {
    assert forall i :: start <= i < |rest| ==> rest[i] == rest[start..][i - start];
  }

  lemma {:induction false} LinesAbove(rest: string, end: nat, n: nat, leading: nat)
    requires end + n + 1 + leading <= |rest| && rest[end + n] == '\n' && (forall i :: end <= i < end + n ==> rest[i] != '\n')
    requires forall i :: end + n + 1 <= i < end + n + 1 + leading ==> rest[i] == '\n'
    ensures Count(rest[..end + n + 1 + leading]) == Count(rest[..end]) + 1 + leading
    ensures rest[end + n + leading] == '\n'
  {
    var block, fence, feeds := rest[..end], rest[end..end + n], rest[end + n + 1..end + n + 1 + leading];
    assert rest[..end + n + 1 + leading] == block + (fence + "\n") + feeds;
    CountBefore(block, fence, feeds);
    assert leading > 0 ==> rest[end + n + leading] == rest[end + n + 1 + (leading - 1)];
  }

  lemma {:induction false} BodyAt(rest: string, after: string, start: nat, leading: nat, body: string)
    requires start <= |rest| && after == rest[start..] && leading + |body| <= |after| && after[leading..leading + |body|] == body
    ensures start + leading + |body| <= |rest| && rest[start + leading..start + leading + |body|] == body
  {
  }

  lemma {:induction false} CountBefore(block: string, fence: string, leading: string)
    requires (forall i :: 0 <= i < |fence| ==> fence[i] != '\n') && forall i :: 0 <= i < |leading| ==> leading[i] == '\n'
    ensures Count(block + (fence + "\n") + leading) == Count(block) + 1 + |leading|
  {
    CountJoin(block + (fence + "\n"), leading);
    CountJoin(block, fence + "\n");
    CountJoin(fence, "\n");
    CountNone(fence);
    CountFeeds(leading);
    assert Count("\n") == 1;
  }

  /** For every file that splits with a body, the reported line is the one its first character is on: it starts
      a line of the file, with that many line feeds but one before it. */
  lemma {:induction false} BodyLineIsTrue(data: string) returns (i: nat)
    requires SplitFrontMatter(data).Closed? && SplitFrontMatter(data).body != ""
    ensures var r := SplitFrontMatter(data);
            && 0 < i <= |data| && data[i - 1] == '\n' && r.body <= Unix(data[i..]) && r.line == 1 + Count(data[..i])
  {
    var bare := TrimPrefix(data, BOM);
    CleanSplit(data);
    var j := BodyLineOf(bare);
    i := j + |data| - |bare|;
    BomCounts(data, j);
  }

  lemma {:induction false} CleanSplit(data: string)
    requires SplitFrontMatter(data).Closed?
    ensures HasPrefix(Clean(data), OPENING) && SplitFrontMatter(data) == SplitRest(Clean(data)[4..])
  {
  }

  lemma {:induction false} BodyLineOf(bare: string) returns (j: nat)
    requires HasPrefix(Unix(bare), OPENING) && SplitRest(Unix(bare)[4..]).Closed? && SplitRest(Unix(bare)[4..]).body != ""
    ensures var r := SplitRest(Unix(bare)[4..]);
            0 < j <= |bare| && bare[j - 1] == '\n' && r.body <= Unix(bare[j..]) && r.line == 1 + Count(bare[..j])
  {
    var rest := Unix(bare)[4..];
    var body := SplitRest(rest).body;
    var pos := BodyInRest(rest, SplitRest(rest));
    BelowOpening(Unix(bare), pos);
    j := LineStart(bare, pos + 4);
    CountUnix(bare[..j]);
    assert Unix(bare)[pos + 4..] == rest[pos..];
    assert rest[pos..][..|body|] == body;
  }

  lemma {:induction false} BelowOpening(clean: string, pos: nat)
    requires HasPrefix(clean, OPENING) && 0 < pos <= |clean| - 4
    ensures Count(clean[..pos + 4]) == 1 + Count(clean[4..][..pos]) && clean[pos + 4 - 1] == clean[4..][pos - 1]
  {
    assert clean[..pos + 4] == OPENING + clean[4..][..pos];
    CountJoin(OPENING, clean[4..][..pos]);
    CountJoin("---", "\n");
    CountNone("---");
    assert Count("\n") == 1;
    assert OPENING == "---" + "\n";
  }

  lemma {:induction false} BomCounts(data: string, j: nat)
    requires j <= |TrimPrefix(data, BOM)| && j > 0
    ensures var skip := |data| - |TrimPrefix(data, BOM)|;
            && skip + j <= |data| && data[skip + j - 1] == TrimPrefix(data, BOM)[j - 1]
            && data[skip + j..] == TrimPrefix(data, BOM)[j..] && Count(data[..skip + j]) == Count(TrimPrefix(data, BOM)[..j])
  {
    var bare := TrimPrefix(data, BOM);
    if HasPrefix(data, BOM) {
      assert data[..1 + j] == BOM + bare[..j];
      CountJoin(BOM, bare[..j]);
      CountNone(BOM);
    }
  }
}
