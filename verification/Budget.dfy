/** Token-budgeted reports: the largest page that fits, the size that counts its own digits, and the walk that
    a cursor resumes. */
module Budget {
  import opened Text

  // ---------------------------------------------------------------- the largest page

  /** The cost grows with the page, the last page aside: it carries no continuation, so it may be cheaper. */
  ghost predicate Grows(n: nat, cost: nat -> int) {
    forall i, j :: 1 <= i <= j < n ==> cost(i) <= cost(j)
  }

  /** The largest page within the budget, or one entry when no page fits. */
  ghost predicate Largest(n: nat, budget: int, cost: nat -> int, k: nat) {
    1 <= k <= n
    && (forall j :: k < j <= n ==> cost(j) > budget)
    && (k > 1 ==> cost(k) <= budget)
  }

  /** At most one page size is the largest. */
  lemma LargestIsUnique(n: nat, budget: int, cost: nat -> int, k: nat, l: nat)
    requires Largest(n, budget, cost, k) && Largest(n, budget, cost, l)
    ensures k == l
  {
  }

  /** fitBudget: the whole rest if it fits, else a binary search among the shorter pages. */
  method FitBudget(n: nat, budget: int, cost: nat -> int) returns (k: nat)
    ensures n == 0 ==> k == 0
    ensures n > 0 ==> 1 <= k <= n
    ensures n > 0 && Grows(n, cost) ==> Largest(n, budget, cost, k)
  {
    if n == 0 {
      return 0;
    }
    if cost(n) <= budget {
      return n;
    }
    k := 1;
    var lo, hi := 2, n - 1;
    while lo <= hi
      invariant 1 <= k < lo && k <= n && hi <= n - 1 && lo <= hi + 2
      invariant lo == 2 || k == lo - 1
      invariant lo == 2 ==> k == 1
      invariant k > 1 ==> cost(k) <= budget
      invariant Grows(n, cost) ==> forall j :: hi < j <= n && j > k ==> cost(j) > budget
      decreases hi - lo + 1
    {
      var mid := (lo + hi) / 2;
      if cost(mid) <= budget {
        k, lo := mid, mid + 1;
      } else {
        hi := mid - 1;
      }
    }
  }

  // ---------------------------------------------------------------- the size

  /** EstimateTokens of a text of some length. */
  function EstimateTokens(length: nat): nat {
    (length + 2) / 3
  }

  /** A token stands for three characters or fewer, and no token more is counted than that takes. */
  lemma EstimateCovers(length: nat)
    ensures var n := EstimateTokens(length); length <= 3 * n && (n > 0 ==> 3 * (n - 1) < length)
  {
  }

  /** The cost of a page whose token field shows a number: the page's other bytes and the number's digits. */
  function CostShowing(rest: nat, tokens: nat): nat {
    EstimateTokens(rest + |Decimal(tokens)|)
  }

  lemma {:induction false} DigitsGrow(m: nat, n: nat)
    requires m <= n
    ensures |Decimal(m)| <= |Decimal(n)|
    decreases n
  {
    if n >= 10 && m >= 10 {
      DigitsGrow(m / 10, n / 10);
    }
  }

  lemma {:induction false} FewDigits(n: nat)
    ensures |Decimal(n)| <= n + 1
    decreases n
  {
    if n >= 10 {
      FewDigits(n / 10);
    }
  }

  lemma CostGrows(rest: nat, m: nat, n: nat)
    requires m <= n
    ensures CostShowing(rest, m) <= CostShowing(rest, n)
  {
    DigitsGrow(m, n);
  }

  /** A number as large as the rest of the page and two covers the page and its own digits. */
  lemma CostBounded(rest: nat, m: nat)
    requires m <= rest + 2
    ensures CostShowing(rest, m) <= rest + 2
  {
    FewDigits(m);
  }

  /** settleTokens: raises the number until it covers the page that shows it. It never reports less than the
      page costs, and from zero it finds the least number that does not. */
  method SettleTokens(rest: nat, start: nat) returns (tokens: nat)
    ensures tokens >= start && CostShowing(rest, tokens) <= tokens
    ensures start == 0 ==> forall u: nat :: CostShowing(rest, u) <= u ==> tokens <= u
  {
    tokens := start;
    while CostShowing(rest, tokens) > tokens
      invariant tokens >= start && (tokens == start || tokens <= rest + 2)
      invariant start == 0 ==> forall u: nat :: CostShowing(rest, u) <= u ==> tokens <= u
      decreases rest + 2 - tokens
    {
      SettlesBelow(rest, tokens);
      CostBounded(rest, tokens);
      forall u: nat | start == 0 && CostShowing(rest, u) <= u
        ensures CostShowing(rest, tokens) <= u
      {
        CostGrows(rest, tokens, u);
      }
      tokens := CostShowing(rest, tokens);
    }
  }

  /** A number that does not cover the page yet is below the bound. */
  lemma SettlesBelow(rest: nat, tokens: nat)
    requires CostShowing(rest, tokens) > tokens
    ensures tokens < rest + 2
  {
    FewDigits(tokens);
  }

  // ---------------------------------------------------------------- cursors

  /** A cursor token: none, one this package issued, or anything else. */
  datatype Token = Start | Issued(offset: int, filter: string) | Foreign(text: string)

  datatype Decoded = Offset(value: nat) | NotACursor | OtherResult | OutOfRange

  /** decodeReportCursor: a cursor of another result, or outside this one, is refused. */
  function Decode(token: Token, filter: string, total: nat): Decoded {
    match token
    case Start => Offset(0)
    case Foreign(_) => NotACursor
    case Issued(offset, f) =>
      if f != filter then OtherResult
      else if offset < 0 || offset > total then OutOfRange
      else Offset(offset)
  }

  // ---------------------------------------------------------------- the walk

  /** One page: its entries, and the cursor of the next one when entries are left. */
  datatype Page<+E> = Page(entries: seq<E>, next: Option<Token>)

  datatype Rendered<+E> = Shown(page: Page<E>) | Refused(why: Decoded)

  /** A page of the ranked entries: the run that starts where the cursor says, never empty while entries remain,
      and a cursor for the entry after it exactly when there is one. */
  ghost predicate PageAt<E>(ranked: seq<E>, filter: string, offset: nat, p: Page<E>) {
    var n := |p.entries|;
    && offset + n <= |ranked| && p.entries == ranked[offset..offset + n] && (n > 0 || offset == |ranked|)
    && p.next == if offset + n < |ranked| then Some(Issued(offset + n, filter)) else None
  }

  /** RenderImpactReport: decodes the cursor and fits a page of what remains. The cost may depend on the offset
      and the budget besides the page. */
  method RenderPage<E>(ranked: seq<E>, filter: string, token: Token, budget: int, cost: (nat, int, nat) -> int) returns (r: Rendered<E>)
    ensures token.Foreign? ==> r == Refused(NotACursor)
    ensures token.Issued? && token.filter != filter ==> r == Refused(OtherResult)
    ensures token.Issued? && token.filter == filter && !(0 <= token.offset <= |ranked|) ==> r == Refused(OutOfRange)
    ensures token.Start? ==> r.Shown? && PageAt(ranked, filter, 0, r.page)
    ensures token.Issued? && token.filter == filter && 0 <= token.offset <= |ranked| ==> r.Shown? && PageAt(ranked, filter, token.offset, r.page)
    ensures Decode(token, filter, |ranked|).Offset? <==> r.Shown?
    ensures r.Refused? ==> r.why == Decode(token, filter, |ranked|)
    ensures r.Shown? ==>
              var offset, n := Decode(token, filter, |ranked|).value, |r.page.entries|;
              && PageAt(ranked, filter, offset, r.page)
              && (n > 0 && Grows(|ranked| - offset, (k: nat) => cost(offset, budget, k)) ==>
                    Largest(|ranked| - offset, budget, (k: nat) => cost(offset, budget, k), n))
  {
    var decoded := Decode(token, filter, |ranked|);
    if !decoded.Offset? {
      return Refused(decoded);
    }
    var offset := decoded.value;
    var rest := ranked[offset..];
    var k := FitBudget(|rest|, budget, (k: nat) => cost(offset, budget, k));
    assert rest[..k] == ranked[offset..offset + k];
    r := Shown(Page(rest[..k], if k < |rest| then Some(Issued(offset + k, filter)) else None));
  }

  /** A page's cursor opens the next page of the same entries and of no others: the two pages are one run of them,
      and with another fingerprint, or with fewer entries than have been shown, the cursor is refused. */
  lemma CursorResumes<E>(ranked: seq<E>, filter: string, offset: nat, p: Page<E>, other: string, total: nat)
    requires PageAt(ranked, filter, offset, p) && p.next.Some?
    ensures var end := offset + |p.entries|;
            && Decode(p.next.value, other, total)
               == (if other != filter then OtherResult else if end > total then OutOfRange else Offset(end))
            && offset < end < |ranked| && Decode(p.next.value, filter, |ranked|) == Offset(end)
            && forall q: Page<E> :: PageAt(ranked, filter, end, q) ==>
                 q.entries != [] && PageAt(ranked, filter, offset, Page(p.entries + q.entries, q.next))
  {
    var end := offset + |p.entries|;
    forall q: Page<E> | PageAt(ranked, filter, end, q)
      ensures q.entries != [] && PageAt(ranked, filter, offset, Page(p.entries + q.entries, q.next))
    {
      assert p.entries + q.entries == ranked[offset..end + |q.entries|];
    }
  }

  function Joined<E>(pages: seq<seq<E>>): seq<E> {
    if pages == [] then [] else Joined(pages[..|pages| - 1]) + pages[|pages| - 1]
  }

  /** A walk that follows the cursors, with any budget for each page, ends and yields every ranked entry once,
      in order; it takes no more pages than there are entries, or one. */
  method Walk<E>(ranked: seq<E>, filter: string, budgets: nat -> int, cost: (nat, int, nat) -> int) returns (pages: seq<seq<E>>)
    ensures Joined(pages) == ranked
    ensures |pages| <= if |ranked| == 0 then 1 else |ranked|
  {
    pages := [];
    ghost var offset: nat := 0;
    var token := Start;
    while true
      invariant offset <= |ranked| && Decode(token, filter, |ranked|) == Offset(offset)
      invariant Joined(pages) == ranked[..offset] && |pages| <= offset
      invariant offset == |ranked| ==> |ranked| == 0
      decreases |ranked| - offset
    {
      var r := RenderPage(ranked, filter, token, budgets(|pages|), cost);
      var entries := r.page.entries;
      assert (pages + [entries])[..|pages|] == pages;
      assert ranked[..offset] + entries == ranked[..offset + |entries|];
      pages := pages + [entries];
      if r.page.next.None? {
        assert ranked[..offset + |entries|] == ranked;
        return;
      }
      token, offset := r.page.next.value, offset + |entries|;
    }
  }
}
