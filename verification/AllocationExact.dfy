/** Which number an allocation hands out, read off the configuration, the files and the state alone. */
module AllocationExact {
  import opened Text
  import opened Ids
  import opened Maxima
  import opened Sorting
  import opened Allocation
  import opened AllocationRuns
  import opened AllocationRanges

  // ---------------------------------------------------------------- what a number must avoid

  /** A number of the code in use: a scanned file has it, under the project key if there is one, or a redirect names
      it, or it was the last one handed out. */
  ghost predicate Used(cfg: Config, s: State, items: seq<Scanned>, code: TypeCode, v: int) {
    || (exists i :: 0 <= i < |items| && items[i].parsed.Some? && items[i].parsed.value.code == code && items[i].parsed.value.number == v
                    && (cfg.key == "" || items[i].parsed.value.key == cfg.key))
    || (v >= 0 && ItemId(cfg.key, code, v) in cfg.redirected)
    || (code in s.reserved && s.reserved[code] == v)
  }

  /** Past every range the project reserves for the type, and past every other user's. */
  ghost predicate PastBlocks(cfg: Config, user: string, t: ItemType, n: int) {
    && (t in cfg.reserved ==> forall r :: r in cfg.reserved[t] ==> r.to < n)
    && (forall handle, r :: handle in cfg.ranges && handle != user && t in cfg.ranges[handle] && r in cfg.ranges[handle][t] ==> r.to < n)
  }

  /** A number a user without ranges may receive. */
  ghost predicate Above(cfg: Config, user: string, s: State, items: seq<Scanned>, t: ItemType, code: TypeCode, n: int) {
    && n >= 1
    && (forall v :: Used(cfg, s, items, code, v) ==> v < n)
    && (t in s.counters ==> s.counters[t] < n)
    && PastBlocks(cfg, user, t, n)
  }

  /** The ranges the configuration gives the user for the type. */
  ghost predicate Owns(cfg: Config, user: string, t: ItemType, r: Range) {
    cfg.useRanges && user != "" && user in cfg.ranges && t in cfg.ranges[user] && r in cfg.ranges[user][t]
  }

  lemma UsedIsTaken(cfg: Config, s: State, items: seq<Scanned>, code: TypeCode, v: int)
    ensures v in Taken(cfg, s, items, code) <==> Used(cfg, s, items, code, v)
  {
    if i :| 0 <= i < |items| && items[i].parsed.Some? && items[i].parsed.value.code == code && items[i].parsed.value.number == v
            && (cfg.key == "" || items[i].parsed.value.key == cfg.key) {
      assert Counts(cfg.key, code, items[i].parsed);
    }
    if v >= 0 && ItemId(cfg.key, code, v) in cfg.redirected {
      assert v in RedirectNumbers(cfg, code);
    }
  }

  lemma BlockedMeans(cfg: Config, user: string, t: ItemType, n: int)
    ensures (forall r :: r in Blocked(cfg, user, t) ==> r.to < n) <==> PastBlocks(cfg, user, t, n)
  {
    if forall r :: r in Blocked(cfg, user, t) ==> r.to < n {
      forall handle, r | handle in cfg.ranges && handle != user && t in cfg.ranges[handle] && r in cfg.ranges[handle][t]
        ensures r.to < n
      {
        assert r in BlocksFor(cfg.ranges[handle], t);
        assert r in Blocked(cfg, user, t);
      }
      if t in cfg.reserved {
        forall r | r in cfg.reserved[t]
          ensures r.to < n
        {
          assert r in Blocked(cfg, user, t);
        }
      }
    }
  }

  lemma OwnedRanges(cfg: Config, user: string, t: ItemType, r: Range)
    ensures r in UserRanges(cfg, user, t) <==> Owns(cfg, user, t, r)
  {
  }

  lemma NothingOwned(cfg: Config, user: string, t: ItemType)
    ensures UserRanges(cfg, user, t) == [] <==> forall r :: !Owns(cfg, user, t, r)
  {
    var ranges := UserRanges(cfg, user, t);
    if ranges != [] {
      OwnedRanges(cfg, user, t, ranges[0]);
    }
    forall r
      ensures Owns(cfg, user, t, r) <==> r in ranges
    {
      OwnedRanges(cfg, user, t, r);
    }
  }

  // ---------------------------------------------------------------- without ranges

  /** A user without a range for the type receives the least positive number above everything in use, the hint, the
      project's reserved ranges and every other user's. */
  lemma LeastAbove(cfg: Config, user: string, s: State, items: seq<Scanned>, t: ItemType, code: TypeCode)
    requires forall r :: !Owns(cfg, user, t, r)
    ensures var n := NextNumber(cfg, user, s, items, t, code);
            n.Some? && Above(cfg, user, s, items, t, code, n.value) && forall m :: Above(cfg, user, s, items, t, code, m) ==> n.value <= m
  {
    NothingOwned(cfg, user, t);
    AboveEverything(cfg, user, s, items, t, code);
    var n := NextNumber(cfg, user, s, items, t, code).value;
    AboveMeans(cfg, user, s, items, t, code, n);
    forall m | Above(cfg, user, s, items, t, code, m)
      ensures n <= m
    {
      AboveMeans(cfg, user, s, items, t, code, m);
      BelowAny(Taken(cfg, s, items, code) + {Hint(s, t)} + BlockEnds(cfg, user, t), m);
    }
  }

  lemma AboveMeans(cfg: Config, user: string, s: State, items: seq<Scanned>, t: ItemType, code: TypeCode, n: int)
    requires n >= 1
    ensures Above(cfg, user, s, items, t, code, n)
            <==> forall v :: v in Taken(cfg, s, items, code) + {Hint(s, t)} + BlockEnds(cfg, user, t) ==> v < n
  {
    BlockedMeans(cfg, user, t, n);
    forall v
      ensures v in Taken(cfg, s, items, code) <==> Used(cfg, s, items, code, v)
    {
      UsedIsTaken(cfg, s, items, code, v);
    }
    var all := Taken(cfg, s, items, code) + {Hint(s, t)} + BlockEnds(cfg, user, t);
    if forall v :: v in all ==> v < n {
      assert Hint(s, t) in all;
      forall r | r in Blocked(cfg, user, t)
        ensures r.to < n
      {
        assert r.to in BlockEnds(cfg, user, t);
        assert r.to in all;
      }
      forall v | v in Taken(cfg, s, items, code)
        ensures v < n
      {
        assert v in all;
      }
    }
  }

  lemma BelowAny(all: set<int>, m: int)
    requires m >= 1 && forall v :: v in all ==> v < m
    ensures Highest(all, 0) + 1 <= m
  {
  }

  // ---------------------------------------------------------------- with ranges

  /** A number of a range: the first one, or the next after one in use there; nothing in use there is above it. */
  ghost predicate NextOf(cfg: Config, s: State, items: seq<Scanned>, code: TypeCode, r: Range, n: int) {
    && r.from <= n <= r.to
    && (n == r.from || Used(cfg, s, items, code, n - 1))
    && forall v :: Used(cfg, s, items, code, v) && r.from <= v <= r.to ==> v < n
  }

  /** A range has no number left: it is empty, or its last number is in use. */
  ghost predicate NoneLeft(cfg: Config, s: State, items: seq<Scanned>, code: TypeCode, r: Range) {
    r.from <= r.to ==> Used(cfg, s, items, code, r.to)
  }

  lemma FirstInOrder(taken: set<int>, ranges: seq<Range>) returns (i: nat)
    requires FirstFree(taken, ranges).Some? && forall k, l :: 0 <= k < l < |ranges| ==> ranges[k].from <= ranges[l].from
    ensures i < |ranges|
    ensures var r, n := ranges[i], FirstFree(taken, ranges).value;
            r.from <= n <= r.to && (n == r.from || n - 1 in taken) && forall v :: v in taken && r.from <= v <= r.to ==> v < n
    ensures forall q :: q in ranges && q.from < ranges[i].from && q.from <= q.to ==> q.to in taken
  {
    i := FirstFreeInside(taken, ranges);
    forall q | q in ranges && q.from < ranges[i].from && q.from <= q.to
      ensures q.to in taken
    {
      var k :| 0 <= k < |ranges| && ranges[k] == q;
      UsedUp(taken, ranges[k]);
    }
  }

  lemma InUse(cfg: Config, user: string, s: State, items: seq<Scanned>, t: ItemType, code: TypeCode, taken: set<int>, ranges: seq<Range>)
    requires taken == Taken(cfg, s, items, code) && ranges == UserRanges(cfg, user, t)
    ensures forall v :: v in taken <==> Used(cfg, s, items, code, v)
    ensures forall r :: r in ranges <==> Owns(cfg, user, t, r)
    ensures ranges == [] <==> forall r :: !Owns(cfg, user, t, r)
  {
    NothingOwned(cfg, user, t);
    forall v
      ensures v in taken <==> Used(cfg, s, items, code, v)
    {
      UsedIsTaken(cfg, s, items, code, v);
    }
    forall r
      ensures r in ranges <==> Owns(cfg, user, t, r)
    {
      OwnedRanges(cfg, user, t, r);
    }
  }

  lemma FirstLeft(cfg: Config, user: string, s: State, items: seq<Scanned>, t: ItemType, code: TypeCode) returns (r: Range)
    requires UserRanges(cfg, user, t) != [] && NextNumber(cfg, user, s, items, t, code).Some?
    ensures Owns(cfg, user, t, r) && NextOf(cfg, s, items, code, r, NextNumber(cfg, user, s, items, t, code).value)
    ensures forall q :: Owns(cfg, user, t, q) && q.from < r.from ==> NoneLeft(cfg, s, items, code, q)
  {
    var ranges, taken := UserRanges(cfg, user, t), Taken(cfg, s, items, code);
    RangesInOrder(cfg, user, t);
    var i := FirstInOrder(taken, ranges);
    r := ranges[i];
    OwnedRanges(cfg, user, t, r);
    AsNextOf(cfg, s, items, code, taken, r, FirstFree(taken, ranges).value);
    forall q | Owns(cfg, user, t, q) && q.from < r.from
      ensures NoneLeft(cfg, s, items, code, q)
    {
      OwnedRanges(cfg, user, t, q);
      UsedIsTaken(cfg, s, items, code, q.to);
    }
  }

  /** A user with ranges for the type receives a number of one of them that starts no later than any other with a
      number left. */
  lemma FirstRangeLeft(cfg: Config, user: string, s: State, items: seq<Scanned>, t: ItemType, code: TypeCode) returns (r: Range)
    requires (exists q :: Owns(cfg, user, t, q)) && NextNumber(cfg, user, s, items, t, code).Some?
    ensures Owns(cfg, user, t, r) && NextOf(cfg, s, items, code, r, NextNumber(cfg, user, s, items, t, code).value)
    ensures forall q :: Owns(cfg, user, t, q) && q.from < r.from ==> NoneLeft(cfg, s, items, code, q)
  {
    NothingOwned(cfg, user, t);
    r := FirstLeft(cfg, user, s, items, t, code);
  }

  lemma AsNextOf(cfg: Config, s: State, items: seq<Scanned>, code: TypeCode, taken: set<int>, r: Range, n: int)
    requires taken == Taken(cfg, s, items, code)
    requires r.from <= n <= r.to && (n == r.from || n - 1 in taken) && forall v :: v in taken && r.from <= v <= r.to ==> v < n
    ensures NextOf(cfg, s, items, code, r, n)
  {
    UsedIsTaken(cfg, s, items, code, n - 1);
    forall v | Used(cfg, s, items, code, v) && r.from <= v <= r.to
      ensures v < n
    {
      UsedIsTaken(cfg, s, items, code, v);
    }
  }

  /** A user with ranges for the type receives nothing exactly when none of them has a number left. */
  lemma NoRangeLeft(cfg: Config, user: string, s: State, items: seq<Scanned>, t: ItemType, code: TypeCode)
    requires exists q :: Owns(cfg, user, t, q)
    ensures NextNumber(cfg, user, s, items, t, code).None? <==> forall r :: Owns(cfg, user, t, r) ==> NoneLeft(cfg, s, items, code, r)
  {
    var ranges, taken := UserRanges(cfg, user, t), Taken(cfg, s, items, code);
    InUse(cfg, user, s, items, t, code, taken, ranges);
    ExhaustedExactly(taken, ranges);
    assert forall i :: 0 <= i < |ranges| ==> ranges[i] in ranges;
    forall r | r in ranges
      ensures exists i :: 0 <= i < |ranges| && ranges[i] == r
    {
    }
  }

  lemma RangesInOrder(cfg: Config, user: string, t: ItemType)
    ensures forall i, j :: 0 <= i < j < |UserRanges(cfg, user, t)| ==> UserRanges(cfg, user, t)[i].from <= UserRanges(cfg, user, t)[j].from
  {
    if UserRanges(cfg, user, t) != [] {
      SortSorted(FromLess, BlocksFor(cfg.ranges[user], t));
    }
  }

  // ---------------------------------------------------------------- what a call does with it

  /** A call that allocates hands out the number a peek would show exactly when there is one, the project key is
      valid and the counters, if they are written, could be; and once the number was found it is remembered whether
      or not the write went through. */
  lemma NextHands(cfg: Config, user: string, s: State, items: seq<Scanned>, t: ItemType, code: TypeCode, written: bool)
    requires TypeCodeFor(t) == Some(code)
    ensures var n, (s', g) := NextNumber(cfg, user, s, items, t, code), Step(cfg, user, s, Next(t, written), items);
            && (g.Given? <==> ValidProjectKey(cfg.key) && n.Some? && (written || !cfg.writeCounters))
            && (g.Given? ==> g == Given(code, n.value) && s'.counters == s.counters[t := n.value])
            && (ValidProjectKey(cfg.key) && n.Some? ==> s'.reserved == s.reserved[code := n.value])
            && (!g.Given? ==> s'.counters == s.counters)
            && (!ValidProjectKey(cfg.key) || n.None? ==> s' == s)
  {
  }

  /** In every run, a number handed out to a user without ranges is the least one above what its call sees. */
  lemma GivenIsLeast(cfg: Config, user: string, s: State, events: seq<Event>, i: nat)
    requires i < |events| && forall t, r :: !Owns(cfg, user, t, r)
    ensures var g, before, items := GivenAt(cfg, user, s, events, i), StateAfter(cfg, user, s, events[..i]), events[i].items;
            g.Given? ==> Above(cfg, user, before, items, ItemTypeFor(g.code), g.code, g.number)
                         && forall m :: Above(cfg, user, before, items, ItemTypeFor(g.code), g.code, m) ==> g.number <= m
  {
    var g, before := GivenAt(cfg, user, s, events, i), StateAfter(cfg, user, s, events[..i]);
    GivenIsStep(cfg, user, s, events, i);
    if g.Given? {
      GivenIsNext(cfg, user, before, events[i], g.code);
      LeastAbove(cfg, user, before, events[i].items, ItemTypeFor(g.code), g.code);
    }
  }

  // ---------------------------------------------------------------- what a reconciliation repairs

  /** A number of the code that a scanned file or a redirect has. */
  ghost predicate OnRecord(cfg: Config, items: seq<Scanned>, code: TypeCode, v: int) {
    Used(cfg, State(map[], map[]), items, code, v)
  }

  /** A hint is reported exactly when a number on record is above it, and above zero. */
  lemma StaleMeans(cfg: Config, s: State, items: seq<Scanned>, t: ItemType, code: TypeCode)
    requires TypeCodeFor(t) == Some(code)
    ensures t in Stale(cfg, s, items)
            <==> Hint(s, t) < 0 || exists v :: OnRecord(cfg, items, code, v) && Hint(s, t) < v
  {
    RecordMeans(cfg, items, t, code);
  }

  lemma RecordMeans(cfg: Config, items: seq<Scanned>, t: ItemType, code: TypeCode)
    requires TypeCodeFor(t) == Some(code)
    ensures var n := ScannedMax(cfg, items, t);
            n >= 0 && (n == 0 || OnRecord(cfg, items, code, n)) && forall v :: OnRecord(cfg, items, code, v) ==> v <= n
  {
    var all := ScannedNumbers(cfg, items, code) + RedirectNumbers(cfg, code);
    forall v
      ensures v in all <==> OnRecord(cfg, items, code, v)
    {
      UsedIsTaken(cfg, State(map[], map[]), items, code, v);
    }
  }

  /** Afterwards a hint is the least that is no lower than before, than zero and than every number on record. */
  lemma ReconciledMeans(cfg: Config, s: State, items: seq<Scanned>, t: ItemType, code: TypeCode)
    requires TypeCodeFor(t) == Some(code)
    ensures var h := Hint(Reconciled(cfg, s, items), t);
            && Hint(s, t) <= h && 0 <= h && (forall v :: OnRecord(cfg, items, code, v) ==> v <= h)
            && (h == Hint(s, t) || h == 0 || OnRecord(cfg, items, code, h))
    ensures Reconciled(cfg, s, items).reserved == s.reserved
  {
    ReconciledHint(cfg, s, items, t);
    RecordMeans(cfg, items, t, code);
  }
}
