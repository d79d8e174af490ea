/** Allocation from per-user ranges: what exhaustion means, that disjoint blocks never meet, and exactly
    when a user may receive a number twice. */
module AllocationRanges {
  import opened Text
  import opened Ids
  import opened Maxima
  import opened Sorting
  import opened Allocation
  import opened AllocationRuns

  predicate Inside(r: Range, n: int) {
    r.from <= n <= r.to
  }

  /** A number comes out of one of the ranges, and is above every taken number of that range. */
  lemma {:induction false} FirstFreeInside(taken: set<int>, ranges: seq<Range>) returns (i: nat)
    requires FirstFree(taken, ranges).Some?
    ensures i < |ranges| && FirstFree(taken, ranges) == Some(NextIn(taken, ranges[i]))
    ensures var n := NextIn(taken, ranges[i]);
            Inside(ranges[i], n) && n !in taken && forall v :: v in taken && Inside(ranges[i], v) ==> v < n
    ensures forall k :: 0 <= k < i ==> NextIn(taken, ranges[k]) > ranges[k].to
  {
    if NextIn(taken, ranges[0]) <= ranges[0].to {
      i := 0;
    } else {
      i := FirstFreeInside(taken, ranges[1..]);
      assert forall k :: 1 <= k < |ranges| ==> ranges[k] == ranges[1..][k - 1];
      i := i + 1;
    }
  }

  /** A range is used up exactly when it is empty or its last number is taken. */
  lemma UsedUp(taken: set<int>, r: Range)
    ensures NextIn(taken, r) > r.to <==> (r.from <= r.to ==> r.to in taken)
  {
    var n := NextIn(taken, r);
    assert r.from <= r.to && r.to in taken ==> r.to < n;
  }

  /** Exhaustion is reported exactly when every non-empty range has its last number taken. */
  lemma {:induction false} ExhaustedExactly(taken: set<int>, ranges: seq<Range>)
    ensures FirstFree(taken, ranges).None? <==> forall i :: 0 <= i < |ranges| && ranges[i].from <= ranges[i].to ==> ranges[i].to in taken
  {
    if ranges != [] {
      UsedUp(taken, ranges[0]);
      ExhaustedExactly(taken, ranges[1..]);
      assert forall i :: 1 <= i < |ranges| ==> ranges[i] == ranges[1..][i - 1];
      assert forall i :: 0 <= i < |ranges| - 1 ==> ranges[1..][i] == ranges[i + 1];
    }
  }

  /** The first range with room answers, past any number of used-up ones. */
  lemma {:induction false} FirstFreeAt(taken: set<int>, ranges: seq<Range>, i: nat)
    requires i < |ranges| && NextIn(taken, ranges[i]) <= ranges[i].to
    requires forall k :: 0 <= k < i ==> NextIn(taken, ranges[k]) > ranges[k].to
    ensures FirstFree(taken, ranges) == Some(NextIn(taken, ranges[i]))
  {
    if i > 0 {
      FirstFreeAt(taken, ranges[1..], i - 1);
    }
  }

  // ---------------------------------------------------------------- users apart

  ghost predicate DisjointBlocks(a: seq<Range>, b: seq<Range>) {
    forall i, j, n :: 0 <= i < |a| && 0 <= j < |b| ==> !(Inside(a[i], n) && Inside(b[j], n))
  }

  /** Two clones whose users own disjoint blocks never hand out the same number, whatever each has seen
      and handed out before. */
  lemma DisjointUsersNeverMeet(cfg: Config, u: string, v: string, s: State, s': State,
                               items: seq<Scanned>, items': seq<Scanned>, t: ItemType, code: TypeCode)
    requires UserRanges(cfg, u, t) != [] && UserRanges(cfg, v, t) != []
    requires DisjointBlocks(UserRanges(cfg, u, t), UserRanges(cfg, v, t))
    ensures var m, n := NextNumber(cfg, u, s, items, t, code), NextNumber(cfg, v, s', items', t, code);
            m.Some? && n.Some? ==> m.value != n.value
  {
    var m, n := NextNumber(cfg, u, s, items, t, code), NextNumber(cfg, v, s', items', t, code);
    if m.Some? && n.Some? {
      var i := FirstFreeInside(Taken(cfg, s, items, code), UserRanges(cfg, u, t));
      var j := FirstFreeInside(Taken(cfg, s', items', code), UserRanges(cfg, v, t));
      assert Inside(UserRanges(cfg, u, t)[i], m.value) && Inside(UserRanges(cfg, v, t)[j], n.value);
    }
  }

  /** A user without a block lands above every block of every user, so it meets none of them either. */
  lemma NoBlockLandsAbove(cfg: Config, u: string, v: string, s: State, s': State,
                          items: seq<Scanned>, items': seq<Scanned>, t: ItemType, code: TypeCode)
    requires u != v && UserRanges(cfg, u, t) == [] && UserRanges(cfg, v, t) != []
    ensures var m, n := NextNumber(cfg, u, s, items, t, code), NextNumber(cfg, v, s', items', t, code);
            m.Some? && (forall r :: r in UserRanges(cfg, v, t) ==> r.to < m.value) && (n.Some? ==> n.value < m.value)
  {
    AboveEverything(cfg, u, s, items, t, code);
    forall r | r in UserRanges(cfg, v, t)
      ensures r in Blocked(cfg, u, t)
    {
      assert r in BlocksFor(cfg.ranges[v], t);
    }
    if NextNumber(cfg, v, s', items', t, code).Some? {
      var j := FirstFreeInside(Taken(cfg, s', items', code), UserRanges(cfg, v, t));
      assert UserRanges(cfg, v, t)[j] in UserRanges(cfg, v, t);
    }
  }

  // ---------------------------------------------------------------- one user, one process

  /** A range can still give numbers when it is not empty and no redirect holds its last number. */
  ghost predicate Usable(cfg: Config, code: TypeCode, r: Range) {
    r.from <= r.to && r.to !in RedirectNumbers(cfg, code)
  }

  /** No call of any run repeats a number of the code. */
  ghost predicate NeverRepeats(cfg: Config, user: string, code: TypeCode) {
    forall s: State, events: seq<Event>, i, j {:trigger GivenAt(cfg, user, s, events, i), GivenAt(cfg, user, s, events, j)} ::
      0 <= i < j < |events| ==>
        var g, h := GivenAt(cfg, user, s, events, i), GivenAt(cfg, user, s, events, j);
        g.Given? && h.Given? && g.code == code && h.code == code ==> g.number != h.number
  }

  /** All the usable ranges end with the same number. */
  ghost predicate OneLast(cfg: Config, code: TypeCode, ranges: seq<Range>) {
    forall i, j :: 0 <= i < j < |ranges| && Usable(cfg, code, ranges[i]) && Usable(cfg, code, ranges[j]) ==> ranges[i].to == ranges[j].to
  }

  /** The k-th range is the first usable one. */
  ghost predicate FirstToUse(cfg: Config, code: TypeCode, ranges: seq<Range>, k: nat) {
    k < |ranges| && Usable(cfg, code, ranges[k]) && forall i :: 0 <= i < k ==> !Usable(cfg, code, ranges[i])
  }

  /** What one step hands out and remembers for a code is the next number of its item type. */
  lemma GivenIsNext(cfg: Config, user: string, s: State, e: Event, c: TypeCode)
    ensures var (s', g) := Step(cfg, user, s, e.op, e.items);
            var n := NextNumber(cfg, user, s, e.items, ItemTypeFor(c), c);
            && (g.Given? && g.code == c ==> n == Some(g.number) && c in s'.reserved && s'.reserved[c] == g.number)
            && (c in s.reserved ==> c in s'.reserved)
            && (c in s'.reserved ==> (c in s.reserved && s'.reserved[c] == s.reserved[c]) || n == Some(s'.reserved[c]))
  {
    match e.op
    case Peek(_) =>
    case Reconcile(_) =>
    case Reserve(t) =>
      assert TypeCodeFor(t) == Some(c) <==> t == ItemTypeFor(c);
    case Next(t, _) =>
      assert TypeCodeFor(t) == Some(c) <==> t == ItemTypeFor(c);
  }

  /** A number comes from a usable range. */
  lemma NextFromUsable(cfg: Config, user: string, s: State, items: seq<Scanned>, code: TypeCode) returns (k: nat)
    requires UserRanges(cfg, user, ItemTypeFor(code)) != []
    requires NextNumber(cfg, user, s, items, ItemTypeFor(code), code).Some?
    ensures var ranges := UserRanges(cfg, user, ItemTypeFor(code));
            && k < |ranges| && Usable(cfg, code, ranges[k])
            && NextNumber(cfg, user, s, items, ItemTypeFor(code), code) == Some(NextIn(Taken(cfg, s, items, code), ranges[k]))
            && Inside(ranges[k], NextIn(Taken(cfg, s, items, code), ranges[k]))
            && (OneLast(cfg, code, ranges) ==> FirstToUse(cfg, code, ranges, k))
  {
    var ranges := UserRanges(cfg, user, ItemTypeFor(code));
    var taken := Taken(cfg, s, items, code);
    k := FirstFreeInside(taken, ranges);
    UsedUp(taken, ranges[k]);
    if OneLast(cfg, code, ranges) {
      forall i | 0 <= i < k
        ensures !Usable(cfg, code, ranges[i])
      {
        UsedUp(taken, ranges[i]);
      }
    }
  }

  /** With one last number, the next number lies in the first usable range, above the last one from there. */
  lemma OneRangeNext(cfg: Config, user: string, s: State, items: seq<Scanned>, code: TypeCode, k: nat)
    requires var ranges := UserRanges(cfg, user, ItemTypeFor(code));
             FirstToUse(cfg, code, ranges, k) && OneLast(cfg, code, ranges)
    ensures var r := UserRanges(cfg, user, ItemTypeFor(code))[k];
            var n := NextNumber(cfg, user, s, items, ItemTypeFor(code), code);
            n.Some? ==> Inside(r, n.value) && (code in s.reserved && Inside(r, s.reserved[code]) ==> s.reserved[code] < n.value)
  {
    if NextNumber(cfg, user, s, items, ItemTypeFor(code), code).Some? {
      var i := NextFromUsable(cfg, user, s, items, code);
      assert i == k;
    }
  }

  lemma {:induction false} OneRangeLater(cfg: Config, user: string, s: State, events: seq<Event>, code: TypeCode, k: nat, j: nat)
    requires var ranges := UserRanges(cfg, user, ItemTypeFor(code));
             FirstToUse(cfg, code, ranges, k) && OneLast(cfg, code, ranges)
             && code in s.reserved && Inside(ranges[k], s.reserved[code])
    requires j < |events|
    ensures var h := GivenAt(cfg, user, s, events, j);
            h.Given? && h.code == code ==> s.reserved[code] < h.number
    decreases j
  {
    OneRangeNext(cfg, user, s, events[0].items, code, k);
    GivenIsNext(cfg, user, s, events[0], code);
    if j > 0 {
      OneRangeLater(cfg, user, Step(cfg, user, s, events[0].op, events[0].items).0, events[1..], code, k, j - 1);
    }
  }

  lemma {:induction false} OneRangeFresh(cfg: Config, user: string, s: State, events: seq<Event>, code: TypeCode, i: nat, j: nat)
    requires var ranges := UserRanges(cfg, user, ItemTypeFor(code));
             ranges != [] && OneLast(cfg, code, ranges)
    requires i < j < |events|
    ensures Differ(code, GivenAt(cfg, user, s, events, i), GivenAt(cfg, user, s, events, j))
    decreases i
  {
    if i > 0 {
      GivenLater(cfg, user, s, events, i);
      GivenLater(cfg, user, s, events, j);
      OneRangeFresh(cfg, user, Step(cfg, user, s, events[0].op, events[0].items).0, events[1..], code, i - 1, j - 1);
    } else {
      GivenLater(cfg, user, s, events, j);
      GivenFirst(cfg, user, s, events);
      var s' := Step(cfg, user, s, events[0].op, events[0].items).0;
      FreshAfterFirst(cfg, user, s, events[0], s', events[1..], code, j - 1, GivenAt(cfg, user, s, events, 0));
    }
  }

  lemma FreshAfterFirst(cfg: Config, user: string, s: State, e: Event, s': State, later: seq<Event>, code: TypeCode, j: nat, g: Given)
    requires var ranges := UserRanges(cfg, user, ItemTypeFor(code));
             ranges != [] && OneLast(cfg, code, ranges)
    requires j < |later| && (s', g) == Step(cfg, user, s, e.op, e.items)
    ensures Differ(code, g, GivenAt(cfg, user, s', later, j))
  {
    var k := FirstRemembered(cfg, user, s, e, code);
    OneRangeFirst(cfg, user, s', g, k, later, code, j);
  }

  lemma GivenFirst(cfg: Config, user: string, s: State, events: seq<Event>)
    requires events != []
    ensures GivenAt(cfg, user, s, events, 0) == Step(cfg, user, s, events[0].op, events[0].items).1
  {
  }

  lemma GivenLater(cfg: Config, user: string, s: State, events: seq<Event>, i: nat)
    requires 0 < i < |events|
    ensures GivenAt(cfg, user, s, events, i)
            == GivenAt(cfg, user, Step(cfg, user, s, events[0].op, events[0].items).0, events[1..], i - 1)
  {
  }

  /** The number is the last one remembered for the code, and lies in the k-th range, the first usable one. */
  ghost predicate Remembers(cfg: Config, user: string, code: TypeCode, s: State, k: nat, n: int) {
    var ranges := UserRanges(cfg, user, ItemTypeFor(code));
    && FirstToUse(cfg, code, ranges, k)
    && code in s.reserved && s.reserved[code] == n && Inside(ranges[k], n)
  }

  /** A number handed out first is not handed out again. */
  lemma OneRangeFirst(cfg: Config, user: string, s: State, g: Given, k: nat, events: seq<Event>, code: TypeCode, j: nat)
    requires OneLast(cfg, code, UserRanges(cfg, user, ItemTypeFor(code)))
    requires Of(code, g) ==> Remembers(cfg, user, code, s, k, g.number)
    requires j < |events|
    ensures Differ(code, g, GivenAt(cfg, user, s, events, j))
  {
    if Of(code, g) {
      RememberedLater(cfg, user, s, events, code, k, g.number, j);
    }
  }

  ghost predicate Of(code: TypeCode, g: Given) {
    g.Given? && g.code == code
  }

  ghost predicate Differ(code: TypeCode, g: Given, h: Given) {
    Of(code, g) && Of(code, h) ==> g.number != h.number
  }

  /** A number handed out is remembered, and comes from the first usable range. */
  lemma FirstRemembered(cfg: Config, user: string, s: State, e: Event, code: TypeCode) returns (k: nat)
    requires UserRanges(cfg, user, ItemTypeFor(code)) != [] && OneLast(cfg, code, UserRanges(cfg, user, ItemTypeFor(code)))
    ensures var (s', g) := Step(cfg, user, s, e.op, e.items);
            Of(code, g) ==> Remembers(cfg, user, code, s', k, g.number)
  {
    k := 0;
    if Of(code, Step(cfg, user, s, e.op, e.items).1) {
      GivenIsNext(cfg, user, s, e, code);
      k := NextFromUsable(cfg, user, s, e.items, code);
    }
  }

  lemma RememberedLater(cfg: Config, user: string, s: State, events: seq<Event>, code: TypeCode, k: nat, n: int, j: nat)
    requires OneLast(cfg, code, UserRanges(cfg, user, ItemTypeFor(code))) && Remembers(cfg, user, code, s, k, n)
    requires j < |events|
    ensures var h := GivenAt(cfg, user, s, events, j); Of(code, h) ==> n < h.number
  {
    OneRangeLater(cfg, user, s, events, code, k, j);
  }

  /** The i-th range is the first usable one, and the j-th the first usable one after it that ends elsewhere. */
  ghost predicate EndApart(cfg: Config, code: TypeCode, ranges: seq<Range>, i: nat, j: nat) {
    && FirstToUse(cfg, code, ranges, i) && i < j < |ranges|
    && Usable(cfg, code, ranges[j]) && ranges[j].to != ranges[i].to
    && (forall k :: 0 <= k < j && Usable(cfg, code, ranges[k]) ==> ranges[k].to == ranges[i].to)
    && ranges[i].from >= 0
  }

  /** The first range answers while its last number is free, and the other one when it is not. */
  lemma EitherAnswers(cfg: Config, user: string, s: State, items: seq<Scanned>, code: TypeCode, taken: set<int>, i: nat, j: nat)
    requires Taken(cfg, s, items, code) == taken && EndApart(cfg, code, UserRanges(cfg, user, ItemTypeFor(code)), i, j)
    ensures var ranges := UserRanges(cfg, user, ItemTypeFor(code));
            var n := NextNumber(cfg, user, s, items, ItemTypeFor(code), code);
            && (ranges[i].to !in taken ==> n == Some(NextIn(taken, ranges[i])) && Inside(ranges[i], n.value))
            && (ranges[i].to in taken && ranges[j].to !in taken ==> n == Some(NextIn(taken, ranges[j])) && Inside(ranges[j], n.value))
  {
    var ranges := UserRanges(cfg, user, ItemTypeFor(code));
    UsedUp(taken, ranges[i]);
    UsedUp(taken, ranges[j]);
    if ranges[i].to !in taken {
      RangeAnswers(cfg, user, s, items, code, taken, i);
    } else if ranges[j].to !in taken {
      forall k | 0 <= k < j && Usable(cfg, code, ranges[k])
        ensures NextIn(taken, ranges[k]) > ranges[k].to
      {
        UsedUp(taken, ranges[k]);
      }
      RangeAnswers(cfg, user, s, items, code, taken, j);
    }
  }

  /** The last number of the first range lies in the other one too: its file is on disk for the second call only,
      which goes past it, so the third call starts the first range again. */
  lemma LongerRepeats(cfg: Config, user: string, code: TypeCode, i: nat, j: nat)
    requires var ranges := UserRanges(cfg, user, ItemTypeFor(code));
             EndApart(cfg, code, ranges, i, j) && Inside(ranges[j], ranges[i].to)
    ensures !NeverRepeats(cfg, user, code)
  {
    var ranges, t := UserRanges(cfg, user, ItemTypeFor(code)), ItemTypeFor(code);
    var a, b := ranges[i], ranges[j];
    var full := [Scanned("", "", Some(ItemId(cfg.key, code, a.to)), "", None)];
    var redirects := RedirectNumbers(cfg, code);
    LastScanned(cfg, code, a.to);
    var s0 := State(map[], map[]);
    EitherAnswers(cfg, user, s0, [], code, redirects, i, j);
    var n0 := NextIn(redirects, a);
    var s1 := State(map[], map[code := n0]);
    EitherAnswers(cfg, user, s1, full, code, redirects + {a.to, n0}, i, j);
    var n1 := NextIn(redirects + {a.to, n0}, b);
    EitherAnswers(cfg, user, State(map[], map[code := n1]), [], code, redirects + {n1}, i, j);
    SameNext(redirects, redirects + {n1}, a);
    ThreeReserves(cfg, user, code, s0, [], full, [], n0, n1);
  }

  /** The last number of the first range lies outside the other one: once it has been handed out the other range
      answers; the files of the second call let the first range hand it out once more, and the third call is the
      first over again. */
  lemma ShorterRepeats(cfg: Config, user: string, code: TypeCode, i: nat, j: nat)
    requires var ranges := UserRanges(cfg, user, ItemTypeFor(code));
             EndApart(cfg, code, ranges, i, j) && !Inside(ranges[j], ranges[i].to)
    ensures !NeverRepeats(cfg, user, code)
  {
    var ranges := UserRanges(cfg, user, ItemTypeFor(code));
    var a, b := ranges[i], ranges[j];
    var redirects := RedirectNumbers(cfg, code);
    var s0 := State(map[], map[code := a.to]);
    EitherAnswers(cfg, user, s0, [], code, redirects + {a.to}, i, j);
    var x := NextIn(redirects + {a.to}, b);
    var s1 := State(map[], map[code := x]);
    var most := AllButLast(cfg, code, a);
    EitherAnswers(cfg, user, s1, most, code, ScannedNumbers(cfg, most, code) + redirects + {x}, i, j);
    ThreeReserves(cfg, user, code, s0, [], most, [], x, a.to);
  }

  /** Files with which a range has no number left but its last. */
  lemma AllButLast(cfg: Config, code: TypeCode, r: Range) returns (items: seq<Scanned>)
    requires 0 <= r.from <= r.to
    ensures r.to !in ScannedNumbers(cfg, items, code)
    ensures forall taken: set<int> :: ScannedNumbers(cfg, items, code) <= taken && r.to !in taken ==> NextIn(taken, r) == r.to
  {
    if r.from == r.to {
      items := [];
      LastScanned(cfg, code, 0);
    } else {
      items := [Scanned("", "", Some(ItemId(cfg.key, code, r.to - 1)), "", None)];
      LastScanned(cfg, code, r.to - 1);
      assert r.to - 1 in ScannedNumbers(cfg, items, code);
    }
  }

  lemma LastScanned(cfg: Config, code: TypeCode, n: nat)
    ensures ScannedNumbers(cfg, [], code) == {}
    ensures ScannedNumbers(cfg, [Scanned("", "", Some(ItemId(cfg.key, code, n)), "", None)], code) == {n}
  {
    var full := [Scanned("", "", Some(ItemId(cfg.key, code, n)), "", None)];
    assert Counts(cfg.key, code, full[0].parsed);
  }

  /** The i-th range answers when it has room and every usable one before it has none. */
  lemma RangeAnswers(cfg: Config, user: string, s: State, items: seq<Scanned>, code: TypeCode, taken: set<int>, i: nat)
    requires Taken(cfg, s, items, code) == taken
    requires var ranges := UserRanges(cfg, user, ItemTypeFor(code));
             && i < |ranges| && NextIn(taken, ranges[i]) <= ranges[i].to
             && forall k :: 0 <= k < i && Usable(cfg, code, ranges[k]) ==> NextIn(taken, ranges[k]) > ranges[k].to
    ensures NextNumber(cfg, user, s, items, ItemTypeFor(code), code)
            == Some(NextIn(taken, UserRanges(cfg, user, ItemTypeFor(code))[i]))
  {
    var ranges := UserRanges(cfg, user, ItemTypeFor(code));
    UnusableSkipped(cfg, code, taken, ranges, i);
    FirstFreeAt(taken, ranges, i);
  }

  lemma ThreeReserves(cfg: Config, user: string, code: TypeCode, s0: State,
                      first: seq<Scanned>, second: seq<Scanned>, third: seq<Scanned>, n0: int, n1: int)
    requires var t := ItemTypeFor(code);
             && NextNumber(cfg, user, s0, first, t, code) == Some(n0)
             && NextNumber(cfg, user, s0.(reserved := s0.reserved[code := n0]), second, t, code) == Some(n1)
             && NextNumber(cfg, user, s0.(reserved := s0.reserved[code := n1]), third, t, code) == Some(n0)
    ensures !NeverRepeats(cfg, user, code)
  {
    var t := ItemTypeFor(code);
    var s1, s2 := s0.(reserved := s0.reserved[code := n0]), s0.(reserved := s0.reserved[code := n1]);
    var events := [Event(Reserve(t), first), Event(Reserve(t), second), Event(Reserve(t), third)];
    ReserveHands(cfg, user, s0, first, code, n0);
    ReserveHands(cfg, user, s1, second, code, n1);
    ReserveHands(cfg, user, s2, third, code, n0);
    assert s1.reserved[code := n1] == s2.reserved;
    ThirdGiven(cfg, user, s0, s1, s2, events);
  }

  lemma ThirdGiven(cfg: Config, user: string, s0: State, s1: State, s2: State, events: seq<Event>)
    requires |events| == 3
    requires s1 == Step(cfg, user, s0, events[0].op, events[0].items).0 && s2 == Step(cfg, user, s1, events[1].op, events[1].items).0
    ensures GivenAt(cfg, user, s0, events, 0) == Step(cfg, user, s0, events[0].op, events[0].items).1
    ensures GivenAt(cfg, user, s0, events, 2) == Step(cfg, user, s2, events[2].op, events[2].items).1
  {
    GivenLater(cfg, user, s0, events, 2);
    GivenLater(cfg, user, s1, events[1..], 1);
  }

  lemma ReserveHands(cfg: Config, user: string, s: State, items: seq<Scanned>, code: TypeCode, n: int)
    requires NextNumber(cfg, user, s, items, ItemTypeFor(code), code) == Some(n)
    ensures Step(cfg, user, s, Reserve(ItemTypeFor(code)), items) == (s.(reserved := s.reserved[code := n]), Given(code, n))
  {
  }

  lemma UnusableSkipped(cfg: Config, code: TypeCode, taken: set<int>, ranges: seq<Range>, j: nat)
    requires j <= |ranges| && RedirectNumbers(cfg, code) <= taken
    ensures forall k :: 0 <= k < j && !Usable(cfg, code, ranges[k]) ==> NextIn(taken, ranges[k]) > ranges[k].to
  {
    forall k | 0 <= k < j && !Usable(cfg, code, ranges[k])
      ensures NextIn(taken, ranges[k]) > ranges[k].to
    {
      UsedUp(taken, ranges[k]);
    }
  }

  /** The next number of a range only depends on the taken numbers inside it. */
  lemma SameNext(taken: set<int>, taken': set<int>, r: Range)
    requires forall v :: Inside(r, v) ==> (v in taken <==> v in taken')
    ensures NextIn(taken, r) == NextIn(taken', r)
  {
    var inside := set v | v in taken && r.from <= v <= r.to;
    var inside' := set v | v in taken' && r.from <= v <= r.to;
    assert forall v :: v in inside <==> v in taken && Inside(r, v);
    assert forall v :: v in inside' <==> v in taken' && Inside(r, v);
    assert inside == inside';
  }

  /** A user never receives a number twice in a process, whatever files come and go, if and only if all of the
      user's usable ranges end with the same number. */
  lemma NeverRepeatsExactly(cfg: Config, user: string, code: TypeCode)
    requires UserRanges(cfg, user, ItemTypeFor(code)) != []
    requires forall r :: r in UserRanges(cfg, user, ItemTypeFor(code)) ==> r.from >= 0
    ensures NeverRepeats(cfg, user, code) <==> OneLast(cfg, code, UserRanges(cfg, user, ItemTypeFor(code)))
  {
    var ranges := UserRanges(cfg, user, ItemTypeFor(code));
    if OneLast(cfg, code, ranges) {
      forall s: State, events: seq<Event>, i, j | 0 <= i < j < |events|
        ensures var g, h := GivenAt(cfg, user, s, events, i), GivenAt(cfg, user, s, events, j);
                g.Given? && h.Given? && g.code == code && h.code == code ==> g.number != h.number
      {
        OneRangeFresh(cfg, user, s, events, code, i, j);
      }
    } else {
      var i, j := FirstEndingApart(cfg, code, ranges);
      if Inside(ranges[j], ranges[i].to) {
        LongerRepeats(cfg, user, code, i, j);
      } else {
        ShorterRepeats(cfg, user, code, i, j);
      }
    }
  }

  /** With any ranges, or none, a number whose file is on disk for a later call is not what that call hands out:
      a process that writes each item before it asks for the next never receives a number twice. */
  lemma OnDiskNeverRepeats(cfg: Config, user: string, s: State, events: seq<Event>, i: nat, j: nat)
    requires i < j < |events|
    requires var g := GivenAt(cfg, user, s, events, i); g.Given? ==> g.number in ScannedNumbers(cfg, events[j].items, g.code)
    ensures var g, h := GivenAt(cfg, user, s, events, i), GivenAt(cfg, user, s, events, j);
            g.Given? && h.Given? && g.code == h.code ==> g.number != h.number
  {
    var h, before := GivenAt(cfg, user, s, events, j), StateAfter(cfg, user, s, events[..j]);
    GivenIsStep(cfg, user, s, events, j);
    if h.Given? {
      GivenIsNext(cfg, user, before, events[j], h.code);
      NextIsFree(cfg, user, before, events[j].items, h.code);
    }
  }

  lemma NextIsFree(cfg: Config, user: string, s: State, items: seq<Scanned>, code: TypeCode)
    ensures var n := NextNumber(cfg, user, s, items, ItemTypeFor(code), code);
            n.Some? ==> n.value !in Taken(cfg, s, items, code)
  {
    var ranges := UserRanges(cfg, user, ItemTypeFor(code));
    if ranges == [] {
      AboveEverything(cfg, user, s, items, ItemTypeFor(code), code);
    } else if FirstFree(Taken(cfg, s, items, code), ranges).Some? {
      var k := FirstFreeInside(Taken(cfg, s, items, code), ranges);
    }
  }

  lemma {:induction false} FirstUsable(cfg: Config, code: TypeCode, ranges: seq<Range>, from: nat, j: nat) returns (i: nat)
    requires from <= j < |ranges| && Usable(cfg, code, ranges[j])
    ensures from <= i <= j && Usable(cfg, code, ranges[i])
    ensures forall k :: from <= k < i ==> !Usable(cfg, code, ranges[k])
    decreases j - from
  {
    if Usable(cfg, code, ranges[from]) {
      i := from;
    } else {
      i := FirstUsable(cfg, code, ranges, from + 1, j);
    }
  }

  lemma {:induction false} FirstApart(cfg: Config, code: TypeCode, ranges: seq<Range>, i: nat, from: nat, q: nat) returns (j: nat)
    requires i < from <= q < |ranges| && Usable(cfg, code, ranges[q]) && ranges[q].to != ranges[i].to
    ensures from <= j <= q && Usable(cfg, code, ranges[j]) && ranges[j].to != ranges[i].to
    ensures forall k :: from <= k < j && Usable(cfg, code, ranges[k]) ==> ranges[k].to == ranges[i].to
    decreases q - from
  {
    if Usable(cfg, code, ranges[from]) && ranges[from].to != ranges[i].to {
      j := from;
    } else {
      j := FirstApart(cfg, code, ranges, i, from + 1, q);
    }
  }

  lemma FirstEndingApart(cfg: Config, code: TypeCode, ranges: seq<Range>) returns (i: nat, j: nat)
    requires !OneLast(cfg, code, ranges) && forall r :: r in ranges ==> r.from >= 0
    ensures EndApart(cfg, code, ranges, i, j)
  {
    var p, q :| 0 <= p < q < |ranges| && Usable(cfg, code, ranges[p]) && Usable(cfg, code, ranges[q]) && ranges[p].to != ranges[q].to;
    i := FirstUsable(cfg, code, ranges, 0, p);
    assert ranges[i] in ranges;
    j := FirstApart(cfg, code, ranges, i, i + 1, if ranges[q].to != ranges[i].to then q else p);
  }
}
