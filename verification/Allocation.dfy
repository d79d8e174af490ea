/** What the allocator must hand out: the numbers in use, the ranges and the next free number. */
module Allocation {
  import opened Text
  import opened Ids
  import opened Sorting
  import opened Maxima

  /** An inclusive block of numbers. */
  datatype Range = Range(from: int, to: int)

  /** The cheap projection of an item file that allocation and collision repair read, its id taken apart
      when it follows the grammar. */
  datatype Scanned = Scanned(path: string, id: string, parsed: Option<ItemId>, title: string, created: Option<int>)

  /** The part of project.yaml that no allocation changes; `redirected` holds every well-formed id on either
      side of a redirect. */
  datatype Config = Config(
    key: string,
    useRanges: bool,
    writeCounters: bool,
    reserved: map<ItemType, seq<Range>>,
    ranges: map<string, map<ItemType, seq<Range>>>,
    redirected: set<ItemId>)

  /** What allocation changes: the counter hints and the last number handed out per type code. */
  datatype State = State(counters: map<ItemType, int>, reserved: map<TypeCode, int>)

  // ---------------------------------------------------------------- numbers in use

  /** A scanned id counts when it carries the code and the project key (any key, for an empty one). */
  predicate Counts(key: string, code: TypeCode, id: Option<ItemId>) {
    id.Some? && id.value.code == code && (key == "" || id.value.key == key)
  }

  ghost function ScannedNumbers(cfg: Config, items: seq<Scanned>, code: TypeCode): set<int> {
    set i | 0 <= i < |items| && Counts(cfg.key, code, items[i].parsed) :: items[i].parsed.value.number
  }

  /** The numbers of both sides of every redirect that carries the project key itself. */
  ghost function RedirectNumbers(cfg: Config, code: TypeCode): set<int> {
    set id | id in cfg.redirected && id.code == code && id.key == cfg.key :: id.number
  }

  /** Every number an allocation of the code must avoid: files, redirects and the last one handed out. */
  ghost function Taken(cfg: Config, s: State, items: seq<Scanned>, code: TypeCode): set<int> {
    ScannedNumbers(cfg, items, code) + RedirectNumbers(cfg, code)
    + if code in s.reserved then {s.reserved[code]} else {}
  }

  function Hint(s: State, t: ItemType): int {
    if t in s.counters then s.counters[t] else 0
  }

  // ---------------------------------------------------------------- ranges

  function BlocksFor(byType: map<ItemType, seq<Range>>, t: ItemType): seq<Range> {
    if t in byType then byType[t] else []
  }

  predicate FromLess(a: Range, b: Range) {
    a.from < b.from
  }

  /** The ranges the user allocates from, in order; none without the strategy, a user or a block. */
  function UserRanges(cfg: Config, user: string, t: ItemType): seq<Range> {
    if !cfg.useRanges || user == "" || user !in cfg.ranges then []
    else Sort(FromLess, BlocksFor(cfg.ranges[user], t))
  }

  /** The blocks the user must stay out of: the reserved ones and every other user's. */
  ghost function Blocked(cfg: Config, user: string, t: ItemType): set<Range> {
    (set r | r in BlocksFor(cfg.reserved, t))
    + (set handle, r | handle in cfg.ranges && handle != user && r in BlocksFor(cfg.ranges[handle], t) :: r)
  }

  /** One past the last taken number of a range, or its first number. */
  ghost function NextIn(taken: set<int>, r: Range): (n: int)
    ensures n >= r.from
    ensures forall v :: v in taken && r.from <= v <= r.to ==> v < n
    ensures n == r.from || (n - 1 in taken && r.from <= n - 1 <= r.to)
  {
    var inside := set v | v in taken && r.from <= v <= r.to;
    var m := Highest(inside, r.from - 1);
    assert forall v :: v in taken && r.from <= v <= r.to ==> v in inside;
    m + 1
  }

  /** The first number free in the ordered ranges. */
  ghost function FirstFree(taken: set<int>, ranges: seq<Range>): Option<int> {
    if ranges == [] then None
    else if NextIn(taken, ranges[0]) <= ranges[0].to then Some(NextIn(taken, ranges[0]))
    else FirstFree(taken, ranges[1..])
  }

  // ---------------------------------------------------------------- the next number

  ghost function BlockEnds(cfg: Config, user: string, t: ItemType): set<int> {
    set r | r in Blocked(cfg, user, t) :: r.to
  }

  /** A user with ranges takes the first number free in them; anyone else goes one above all that is seen. */
  ghost function NextFrom(ranges: seq<Range>, taken: set<int>, hint: int, ends: set<int>): Option<int> {
    if ranges != [] then FirstFree(taken, ranges)
    else Some(Highest(taken + {hint} + ends, 0) + 1)
  }

  ghost function NextNumber(cfg: Config, user: string, s: State, items: seq<Scanned>, t: ItemType, code: TypeCode): Option<int> {
    NextFrom(UserRanges(cfg, user, t), Taken(cfg, s, items, code), Hint(s, t), BlockEnds(cfg, user, t))
  }

  // ---------------------------------------------------------------- steps

  /** One call, with the outcome of the counter write it may attempt. */
  datatype Op = Next(t: ItemType, written: bool) | Peek(t: ItemType) | Reserve(t: ItemType) | Reconcile(written: bool)

  /** The number a call hands out for good, which is what a later call may not repeat. */
  datatype Given = Nothing | Given(code: TypeCode, number: int)

  ghost function ScannedMax(cfg: Config, items: seq<Scanned>, t: ItemType): int
    requires TypeCodeFor(t).Some?
  {
    var code := TypeCodeFor(t).value;
    Highest(ScannedNumbers(cfg, items, code) + RedirectNumbers(cfg, code), 0)
  }

  /** The counter hints below what the scan found. */
  ghost function Stale(cfg: Config, s: State, items: seq<Scanned>): set<ItemType> {
    set t: ItemType | TypeCodeFor(t).Some? && Hint(s, t) < ScannedMax(cfg, items, t)
  }

  /** The item types that have a counter, in the order the repair visits them. */
  const COUNTED_TYPES := [Epic, Story, Task, Milestone, Spec]

  /** Raises the hints of some types to what the scan found; none is lowered. */
  ghost function Raised(cfg: Config, counters: map<ItemType, int>, items: seq<Scanned>, types: seq<ItemType>): map<ItemType, int>
    requires forall t :: t in types ==> TypeCodeFor(t).Some?
  {
    if types == [] then counters
    else
      var rest := Raised(cfg, counters, items, types[1..]);
      var n := ScannedMax(cfg, items, types[0]);
      if n > (if types[0] in counters then counters[types[0]] else 0) then rest[types[0] := n] else rest
  }

  ghost function Reconciled(cfg: Config, s: State, items: seq<Scanned>): State {
    s.(counters := Raised(cfg, s.counters, items, COUNTED_TYPES))
  }

  ghost function Step(cfg: Config, user: string, s: State, op: Op, items: seq<Scanned>): (State, Given) {
    match op
    case Peek(_) => (s, Nothing)
    case Reconcile(written) =>
      if cfg.writeCounters && Stale(cfg, s, items) != {} && !written then (s, Nothing)
      else (Reconciled(cfg, s, items), Nothing)
    case Reserve(t) =>
      var code := TypeCodeFor(t);
      if code.None? then (s, Nothing)
      else
        var n := NextNumber(cfg, user, s, items, t, code.value);
        if n.None? then (s, Nothing)
        else (s.(reserved := s.reserved[code.value := n.value]), Given(code.value, n.value))
    case Next(t, written) =>
      var code := TypeCodeFor(t);
      if code.None? || !ValidProjectKey(cfg.key) then (s, Nothing)
      else
        var n := NextNumber(cfg, user, s, items, t, code.value);
        if n.None? then (s, Nothing)
        else
          var s' := s.(reserved := s.reserved[code.value := n.value]);
          if cfg.writeCounters && !written then (s', Nothing)
          else (s'.(counters := s.counters[t := n.value]), Given(code.value, n.value))
  }
}
