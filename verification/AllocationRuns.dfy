/** What holds of every run of the allocator, whatever files appear and vanish between its calls. */
module AllocationRuns {
  import opened Text
  import opened Ids
  import opened Maxima
  import opened Sorting
  import opened Allocation

  /** One call and the files it scans. */
  datatype Event = Event(op: Op, items: seq<Scanned>)

  ghost function StateAfter(cfg: Config, user: string, s: State, events: seq<Event>): State
    decreases |events|
  {
    if events == [] then s
    else StateAfter(cfg, user, Step(cfg, user, s, events[0].op, events[0].items).0, events[1..])
  }

  /** What the i-th call of a run hands out. */
  ghost function GivenAt(cfg: Config, user: string, s: State, events: seq<Event>, i: nat): Given
    requires i < |events|
    decreases i
  {
    var (s', g) := Step(cfg, user, s, events[0].op, events[0].items);
    if i == 0 then g else GivenAt(cfg, user, s', events[1..], i - 1)
  }

  // ---------------------------------------------------------------- without a block

  ghost predicate NoBlock(cfg: Config, user: string) {
    forall t :: UserRanges(cfg, user, t) == []
  }

  /** The number of a user without a block is above everything in use, the hint and every blocked range. */
  lemma AboveEverything(cfg: Config, user: string, s: State, items: seq<Scanned>, t: ItemType, code: TypeCode)
    requires UserRanges(cfg, user, t) == []
    ensures NextNumber(cfg, user, s, items, t, code).Some?
    ensures var n := NextNumber(cfg, user, s, items, t, code).value;
            && n > 0 && n > Hint(s, t)
            && (forall v :: v in Taken(cfg, s, items, code) ==> v < n)
            && (forall r :: r in Blocked(cfg, user, t) ==> r.to < n)
  {
    var blocks := BlockEnds(cfg, user, t);
    var all := Taken(cfg, s, items, code) + {Hint(s, t)} + blocks;
    assert Hint(s, t) in all;
    forall r | r in Blocked(cfg, user, t)
      ensures r.to <= Highest(all, 0)
    {
      assert r.to in blocks;
      assert r.to in all;
    }
    forall v | v in Taken(cfg, s, items, code)
      ensures v <= Highest(all, 0)
    {
      assert v in all;
    }
  }

  /** A step hands out a number only above the last one of its code, and remembers it. */
  lemma StepRaises(cfg: Config, user: string, s: State, e: Event)
    requires NoBlock(cfg, user)
    ensures var (s', g) := Step(cfg, user, s, e.op, e.items);
            && s.reserved.Keys <= s'.reserved.Keys
            && (forall c :: c in s.reserved ==> s.reserved[c] <= s'.reserved[c])
            && (g.Given? ==> g.code in s'.reserved && s'.reserved[g.code] == g.number)
            && (g.Given? && g.code in s.reserved ==> s.reserved[g.code] < g.number)
  {
    match e.op
    case Next(t, _) =>
      if TypeCodeFor(t).Some? {
        AboveEverything(cfg, user, s, e.items, t, TypeCodeFor(t).value);
      }
    case Reserve(t) =>
      if TypeCodeFor(t).Some? {
        AboveEverything(cfg, user, s, e.items, t, TypeCodeFor(t).value);
      }
    case Peek(_) =>
    case Reconcile(_) =>
  }

  lemma {:induction false} LaterAbove(cfg: Config, user: string, s: State, events: seq<Event>, j: nat)
    requires NoBlock(cfg, user) && j < |events|
    ensures var g := GivenAt(cfg, user, s, events, j);
            g.Given? && g.code in s.reserved ==> s.reserved[g.code] < g.number
    decreases j
  {
    StepRaises(cfg, user, s, events[0]);
    if j > 0 {
      LaterAbove(cfg, user, Step(cfg, user, s, events[0].op, events[0].items).0, events[1..], j - 1);
    }
  }

  /** In every run the numbers handed out for a type code strictly increase. */
  lemma {:induction false} NumbersIncrease(cfg: Config, user: string, s: State, events: seq<Event>, i: nat, j: nat)
    requires NoBlock(cfg, user) && i < j < |events|
    ensures var g, h := GivenAt(cfg, user, s, events, i), GivenAt(cfg, user, s, events, j);
            g.Given? && h.Given? && g.code == h.code ==> g.number < h.number
    decreases i
  {
    var s' := Step(cfg, user, s, events[0].op, events[0].items).0;
    if i > 0 {
      NumbersIncrease(cfg, user, s', events[1..], i - 1, j - 1);
    } else {
      StepRaises(cfg, user, s, events[0]);
      LaterAbove(cfg, user, s', events[1..], j - 1);
    }
  }

  /** A number handed out is above everything the call can see: the files it scans, both sides of every
      redirect, the hint of the type and every blocked range. */
  lemma GivenExceedsAllSeen(cfg: Config, user: string, s: State, e: Event)
    requires NoBlock(cfg, user)
    ensures var g := Step(cfg, user, s, e.op, e.items).1;
            g.Given? ==>
              && (forall v :: v in ScannedNumbers(cfg, e.items, g.code) ==> v < g.number)
              && (forall v :: v in RedirectNumbers(cfg, g.code) ==> v < g.number)
              && (forall r :: r in Blocked(cfg, user, ItemTypeFor(g.code)) ==> r.to < g.number)
              && Hint(s, ItemTypeFor(g.code)) < g.number
  {
    if e.op.Next? || e.op.Reserve? {
      if TypeCodeFor(e.op.t).Some? {
        AboveEverything(cfg, user, s, e.items, e.op.t, TypeCodeFor(e.op.t).value);
      }
    }
  }

  /** The i-th call of a run is a step from the state the earlier calls left. */
  lemma {:induction false} GivenIsStep(cfg: Config, user: string, s: State, events: seq<Event>, i: nat)
    requires i < |events|
    ensures GivenAt(cfg, user, s, events, i)
            == Step(cfg, user, StateAfter(cfg, user, s, events[..i]), events[i].op, events[i].items).1
    decreases i
  {
    if i > 0 {
      var s' := Step(cfg, user, s, events[0].op, events[0].items).0;
      GivenIsStep(cfg, user, s', events[1..], i - 1);
      assert events[..i][1..] == events[1..][..i - 1];
    }
  }

  /** In every run a number handed out is above the files scanned then, the redirects, the blocked ranges, what the
      earlier calls left in the hints, and every number they handed out for the same type code. */
  lemma GivenIsNew(cfg: Config, user: string, s: State, events: seq<Event>, i: nat)
    requires NoBlock(cfg, user) && i < |events|
    ensures var g := GivenAt(cfg, user, s, events, i);
            g.Given? ==>
              && (forall v :: v in ScannedNumbers(cfg, events[i].items, g.code) + RedirectNumbers(cfg, g.code) ==> v < g.number)
              && (forall r :: r in Blocked(cfg, user, ItemTypeFor(g.code)) ==> r.to < g.number)
              && Hint(StateAfter(cfg, user, s, events[..i]), ItemTypeFor(g.code)) < g.number
              && forall j :: 0 <= j < i && GivenAt(cfg, user, s, events, j).Given? && GivenAt(cfg, user, s, events, j).code == g.code
                   ==> GivenAt(cfg, user, s, events, j).number < g.number
  {
    GivenIsStep(cfg, user, s, events, i);
    GivenExceedsAllSeen(cfg, user, StateAfter(cfg, user, s, events[..i]), events[i]);
    forall j | 0 <= j < i
      ensures var g, h := GivenAt(cfg, user, s, events, j), GivenAt(cfg, user, s, events, i);
              g.Given? && h.Given? && g.code == h.code ==> g.number < h.number
    {
      NumbersIncrease(cfg, user, s, events, j, i);
    }
  }

  // ---------------------------------------------------------------- reconciliation

  function HintIn(counters: map<ItemType, int>, t: ItemType): int {
    if t in counters then counters[t] else 0
  }

  lemma {:induction false} RaisedHint(cfg: Config, counters: map<ItemType, int>, items: seq<Scanned>, types: seq<ItemType>, t: ItemType)
    requires forall u :: u in types ==> TypeCodeFor(u).Some?
    ensures HintIn(Raised(cfg, counters, items, types), t)
            == if t in types && ScannedMax(cfg, items, t) > HintIn(counters, t) then ScannedMax(cfg, items, t) else HintIn(counters, t)
  {
    if types != [] {
      RaisedHint(cfg, counters, items, types[1..], t);
      assert t in types <==> t == types[0] || t in types[1..];
    }
  }

  lemma {:induction false} RaisedFixed(cfg: Config, counters: map<ItemType, int>, items: seq<Scanned>, types: seq<ItemType>)
    requires forall u :: u in types ==> TypeCodeFor(u).Some? && ScannedMax(cfg, items, u) <= HintIn(counters, u)
    ensures Raised(cfg, counters, items, types) == counters
  {
    if types != [] {
      RaisedFixed(cfg, counters, items, types[1..]);
    }
  }

  /** After a reconciliation a hint is the old one or what the scan found, whichever is higher. */
  lemma ReconciledHint(cfg: Config, s: State, items: seq<Scanned>, t: ItemType)
    requires TypeCodeFor(t).Some?
    ensures var n := ScannedMax(cfg, items, t);
            Hint(Reconciled(cfg, s, items), t) == if Hint(s, t) < n then n else Hint(s, t)
  {
    RaisedHint(cfg, s.counters, items, COUNTED_TYPES, t);
    assert t in COUNTED_TYPES;
  }

  /** Repairing the hints changes no number the next call over the same files hands out, whoever calls. */
  lemma ReconcileKeepsNext(cfg: Config, user: string, s: State, items: seq<Scanned>, t: ItemType)
    requires TypeCodeFor(t).Some?
    ensures var code := TypeCodeFor(t).value;
            NextNumber(cfg, user, Reconciled(cfg, s, items), items, t, code) == NextNumber(cfg, user, s, items, t, code)
  {
    var code := TypeCodeFor(t).value;
    ReconciledHint(cfg, s, items, t);
    var seen := ScannedNumbers(cfg, items, code) + RedirectNumbers(cfg, code);
    var taken := Taken(cfg, s, items, code);
    assert Reconciled(cfg, s, items).reserved == s.reserved;
    HintAbsorbed(seen, taken, BlockEnds(cfg, user, t), Hint(s, t));
  }

  /** Raising a hint to a maximum that takes part in the same maximum changes nothing. */
  lemma HintAbsorbed(seen: set<int>, taken: set<int>, blocks: set<int>, hint: int)
    requires seen <= taken
    ensures var n := Highest(seen, 0);
            Highest(taken + {if hint < n then n else hint} + blocks, 0) == Highest(taken + {hint} + blocks, 0)
  {
    var n := Highest(seen, 0);
    var m := Highest(taken + {hint} + blocks, 0);
    assert n == 0 || n in taken + {hint} + blocks;
    assert hint in taken + {hint} + blocks;
    if hint < n {
      forall v | v in taken + {n} + blocks
        ensures v <= m
      {
        assert v == n || v in taken + {hint} + blocks;
      }
      HighestIs(taken + {n} + blocks, 0, m);
    }
  }

  /** A second reconciliation over the same files finds nothing stale and changes nothing. */
  lemma ReconcileSettles(cfg: Config, s: State, items: seq<Scanned>)
    ensures Stale(cfg, Reconciled(cfg, s, items), items) == {}
    ensures Reconciled(cfg, Reconciled(cfg, s, items), items) == Reconciled(cfg, s, items)
  {
    var s' := Reconciled(cfg, s, items);
    forall t: ItemType | TypeCodeFor(t).Some?
      ensures HintIn(s'.counters, t) == Hint(s', t) >= ScannedMax(cfg, items, t)
    {
      ReconciledHint(cfg, s, items, t);
    }
    RaisedFixed(cfg, s'.counters, items, COUNTED_TYPES);
  }

  // ---------------------------------------------------------------- looking ahead

  predicate OnlyLooks(op: Op) {
    op.Peek? || op.Reconcile?
  }

  lemma LookKeepsNext(cfg: Config, user: string, s: State, op: Op, items: seq<Scanned>, t: ItemType)
    requires TypeCodeFor(t).Some? && OnlyLooks(op)
    ensures NextNumber(cfg, user, Step(cfg, user, s, op, items).0, items, t, TypeCodeFor(t).value)
            == NextNumber(cfg, user, s, items, t, TypeCodeFor(t).value)
  {
    if op.Reconcile? {
      ReconcileKeepsNext(cfg, user, s, items, t);
    }
  }

  /** A number peeked at is the number handed out next, whatever further peeks and reconciliations, written or
      not, come in between over the same files. */
  lemma {:induction false} PeekHolds(cfg: Config, user: string, s: State, looks: seq<Event>, items: seq<Scanned>, t: ItemType)
    requires TypeCodeFor(t).Some? && forall i :: 0 <= i < |looks| ==> OnlyLooks(looks[i].op) && looks[i].items == items
    ensures NextNumber(cfg, user, StateAfter(cfg, user, s, looks), items, t, TypeCodeFor(t).value)
            == NextNumber(cfg, user, s, items, t, TypeCodeFor(t).value)
    decreases |looks|
  {
    if looks != [] {
      LookKeepsNext(cfg, user, s, looks[0].op, items, t);
      PeekHolds(cfg, user, Step(cfg, user, s, looks[0].op, items).0, looks[1..], items, t);
    }
  }
}
