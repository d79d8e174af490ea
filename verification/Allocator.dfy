/** The allocator object: its loops over files, redirects, ranges and hints, proved against `Allocation`. */
module Allocator {
  import opened Text
  import opened Ids
  import opened Maxima
  import opened Sorting
  import opened Allocation
  import AllocationRuns

  ghost function Elements(s: seq<int>): set<int> {
    set v | v in s
  }

  lemma ElementsAppend(s: seq<int>, v: int)
    ensures Elements(s + [v]) == Elements(s) + {v}
  {
  }

  lemma ElementsJoin(s: seq<int>, t: seq<int>)
    ensures Elements(s + t) == Elements(s) + Elements(t)
  {
  }

  /** maxInt: the largest value, or zero. */
  method MaxInt(values: seq<int>) returns (m: int)
    ensures m == Highest(Elements(values), 0)
  {
    m := 0;
    for i := 0 to |values|
      invariant m >= 0 && (m == 0 || m in values[..i])
      invariant forall v :: v in values[..i] ==> v <= m
    {
      assert values[..i + 1] == values[..i] + [values[i]];
      if values[i] > m {
        m := values[i];
      }
    }
    assert values[..|values|] == values;
    HighestIs(Elements(values), 0, m);
  }

  /** The first number free inside the ordered ranges; nothing when all are used up. */
  method NextInRanges(taken: seq<int>, ranges: seq<Range>) returns (r: Option<int>)
    ensures r == FirstFree(Elements(taken), ranges)
  {
    for k := 0 to |ranges|
      invariant FirstFree(Elements(taken), ranges) == FirstFree(Elements(taken), ranges[k..])
    {
      var range := ranges[k];
      var n := range.from;
      for i := 0 to |taken|
        invariant n >= range.from
        invariant n == range.from || (n - 1 in taken && n - 1 <= range.to)
        invariant forall v :: v in taken[..i] && range.from <= v <= range.to ==> v < n
      {
        assert taken[..i + 1] == taken[..i] + [taken[i]];
        var v := taken[i];
        if v >= range.from && v <= range.to && v >= n {
          n := v + 1;
        }
      }
      assert taken[..|taken|] == taken;
      assert ranges[k..][0] == range && ranges[k..][1..] == ranges[k + 1..];
      NextInIs(Elements(taken), range, n);
      if n <= range.to {
        return Some(n);
      }
    }
    return None;
  }

  lemma NextInIs(taken: set<int>, r: Range, n: int)
    requires n >= r.from && (n == r.from || (n - 1 in taken && n - 1 <= r.to))
    requires forall v :: v in taken && r.from <= v <= r.to ==> v < n
    ensures NextIn(taken, r) == n
  {
    var m := NextIn(taken, r);
    assert n != r.from ==> n - 1 < m;
    assert m != r.from ==> m - 1 < n;
  }

  method InsideRange(n: int, ranges: seq<Range>) returns (r: Range, inside: bool)
    ensures inside ==> r in ranges && r.from <= n <= r.to
    ensures !inside ==> forall q :: q in ranges ==> !(q.from <= n <= q.to)
  {
    for i := 0 to |ranges|
      invariant forall q :: q in ranges[..i] ==> !(q.from <= n <= q.to)
    {
      assert ranges[..i + 1] == ranges[..i] + [ranges[i]];
      if n >= ranges[i].from && n <= ranges[i].to {
        return ranges[i], true;
      }
    }
    assert ranges[..|ranges|] == ranges;
    return Range(0, 0), false;
  }

  ghost function Ends(ranges: seq<Range>): set<int> {
    set r | r in ranges :: r.to
  }

  ghost predicate Held(blocks: seq<Range>, n: int) {
    exists r :: r in blocks && r.from <= n <= r.to
  }

  /** The escape loop: the least number from `start` on that no block holds. It is the start itself
      whenever the start is above every block. */
  method EscapeBlocks(start: int, blocks: seq<Range>) returns (n: int)
    ensures n >= start && !Held(blocks, n)
    ensures forall m :: start <= m < n ==> Held(blocks, m)
    ensures (forall q :: q in blocks ==> q.to < start) ==> n == start
  {
    n := start;
    ghost var top := Highest(Ends(blocks), start);
    while true
      invariant start <= n <= top + 1
      invariant forall m :: start <= m < n ==> Held(blocks, m)
      decreases top + 1 - n
    {
      var r, inside := InsideRange(n, blocks);
      if !inside {
        break;
      }
      assert r.to in Ends(blocks);
      assert forall m :: n <= m <= r.to ==> r.from <= m <= r.to && Held(blocks, m);
      n := r.to + 1;
    }
    assert n > start ==> Held(blocks, start);
  }

  /** The well-formed ids on either side of the redirects. */
  ghost function ParsedSides(redirects: map<string, string>): set<ItemId> {
    set text | text in redirects.Keys + redirects.Values && ParseItemId(text).Some? :: ParseItemId(text).value
  }

  class Allocator {
    const cfg: Config
    const redirects: map<string, string>
    var user: string
    var counters: map<ItemType, int>
    var reserved: map<TypeCode, int>

    constructor (cfg: Config, redirects: map<string, string>, counters: map<ItemType, int>)
      requires cfg.redirected == ParsedSides(redirects)
      ensures this.cfg == cfg && this.redirects == redirects && Valid()
      ensures user == "" && Now() == State(counters, map[])
    {
      this.cfg, this.redirects, this.counters := cfg, redirects, counters;
      user, reserved := "", map[];
    }

    ghost predicate Valid() {
      cfg.redirected == ParsedSides(redirects)
    }

    ghost function Now(): State
      reads this
    {
      State(counters, reserved)
    }

    method SetUser(user: string)
      modifies this`user
      ensures this.user == user
    {
      this.user := user;
    }

    method NumbersOf(items: seq<Scanned>, code: TypeCode) returns (out: seq<int>)
      ensures Elements(out) == ScannedNumbers(cfg, items, code)
    {
      out := [];
      for i := 0 to |items|
        invariant Elements(out) == ScannedNumbers(cfg, items[..i], code)
      {
        ScannedGrows(cfg, items, i, code);
        if Counts(cfg.key, code, items[i].parsed) {
          ElementsAppend(out, items[i].parsed.value.number);
          out := out + [items[i].parsed.value.number];
        }
      }
      assert items[..|items|] == items;
    }

    method RedirectedNumbers(code: TypeCode) returns (out: seq<int>)
      requires Valid()
      ensures Elements(out) == RedirectNumbers(cfg, code)
    {
      out := [];
      var left := redirects.Keys + redirects.Values;
      ghost var done: set<string> := {};
      while left != {}
        invariant done + left == redirects.Keys + redirects.Values
        invariant Elements(out) == NumbersAmong(cfg, done, code)
        decreases left
      {
        var side :| side in left;
        var parsed := ParseItemId(side);
        AmongGrows(cfg, done, side, parsed, code);
        if parsed.Some? && parsed.value.code == code && parsed.value.key == cfg.key {
          ElementsAppend(out, parsed.value.number);
          out := out + [parsed.value.number];
        }
        left, done := left - {side}, done + {side};
      }
      AllAmong(cfg, redirects, code);
      assert done == redirects.Keys + redirects.Values;
    }

    /** The sorted ranges of the user; none without the strategy, a user or a block. */
    method OwnRanges(t: ItemType) returns (ranges: seq<Range>)
      ensures ranges == UserRanges(cfg, user, t)
    {
      if !cfg.useRanges || user == "" || user !in cfg.ranges {
        return [];
      }
      ranges := Sort(FromLess, BlocksFor(cfg.ranges[user], t));
    }

    /** The blocks of everybody else, in any order: only their ends and extents matter. */
    method OtherRanges(t: ItemType) returns (blocks: seq<Range>)
      ensures forall r :: r in blocks <==> r in Blocked(cfg, user, t)
    {
      blocks := BlocksFor(cfg.reserved, t);
      var left := cfg.ranges.Keys;
      while left != {}
        invariant left <= cfg.ranges.Keys
        invariant forall r :: r in blocks <==>
                    r in BlocksFor(cfg.reserved, t)
                    || exists h :: h in cfg.ranges && h !in left && h != user && r in BlocksFor(cfg.ranges[h], t)
        decreases left
      {
        var handle :| handle in left;
        if handle != user {
          blocks := blocks + BlocksFor(cfg.ranges[handle], t);
        }
        left := left - {handle};
      }
    }

    /** Files, redirects and the last number handed out. */
    method InUse(items: seq<Scanned>, code: TypeCode) returns (numbers: seq<int>)
      requires Valid()
      ensures Elements(numbers) == Taken(cfg, Now(), items, code)
    {
      numbers := NumbersOf(items, code);
      var redirected := RedirectedNumbers(code);
      ElementsJoin(numbers, redirected);
      numbers := numbers + redirected;
      if code in reserved {
        ElementsAppend(numbers, reserved[code]);
        numbers := numbers + [reserved[code]];
      }
    }

    /** One above the numbers, the hint and the end of every block. */
    method AboveAll(numbers: seq<int>, t: ItemType) returns (n: int)
      ensures n == Highest(Elements(numbers) + {Hint(Now(), t)} + BlockEnds(cfg, user, t), 0) + 1
    {
      var maxSeen := MaxInt(numbers);
      var hint := Hint(State(counters, reserved), t);
      if hint > maxSeen {
        maxSeen := hint;
      }
      var blocks := OtherRanges(t);
      ghost var floor := maxSeen;
      for i := 0 to |blocks|
        invariant maxSeen >= floor && (maxSeen == floor || maxSeen in Ends(blocks))
        invariant forall q :: q in blocks[..i] ==> q.to <= maxSeen
      {
        assert blocks[..i + 1] == blocks[..i] + [blocks[i]];
        if blocks[i].to > maxSeen {
          maxSeen := blocks[i].to;
        }
      }
      assert blocks[..|blocks|] == blocks;
      assert Ends(blocks) == BlockEnds(cfg, user, t);
      SeenMaximum(Elements(numbers), hint, Ends(blocks), maxSeen, floor);
      n := EscapeBlocks(maxSeen + 1, blocks);
    }

    /** The next number over the scanned files, nothing when the user's ranges are exhausted. */
    method NextNumber(items: seq<Scanned>, t: ItemType, code: TypeCode) returns (r: Option<int>)
      requires Valid()
      ensures r == Allocation.NextNumber(cfg, user, Now(), items, t, code)
    {
      var numbers := InUse(items, code);
      var ranges := OwnRanges(t);
      if |ranges| > 0 {
        r := NextInRanges(numbers, ranges);
      } else {
        var n := AboveAll(numbers, t);
        r := Some(n);
      }
    }

    /** Shows the number Next would give out, and changes nothing. */
    method Peek(items: seq<Scanned>, t: ItemType) returns (r: Option<int>)
      requires Valid()
      ensures r == if TypeCodeFor(t).None? || !ValidProjectKey(cfg.key) then None
                   else Allocation.NextNumber(cfg, user, Now(), items, t, TypeCodeFor(t).value)
    {
      var code := TypeCodeFor(t);
      if code.None? || !ValidProjectKey(cfg.key) {
        return None;
      }
      r := NextNumber(items, t, code.value);
    }

    /** Hands out the next number: it is remembered before the counter write is tried. */
    method Next(items: seq<Scanned>, t: ItemType, written: bool) returns (given: Given)
      requires Valid()
      modifies this`counters, this`reserved
      ensures (Now(), given) == Step(cfg, user, old(Now()), Op.Next(t, written), items)
    {
      var code := TypeCodeFor(t);
      if code.None? || !ValidProjectKey(cfg.key) {
        return Nothing;
      }
      var n := NextNumber(items, t, code.value);
      if n.None? {
        return Nothing;
      }
      reserved := reserved[code.value := n.value];
      if cfg.writeCounters && !written {
        return Nothing;
      }
      counters := counters[t := n.value];
      return Given(code.value, n.value);
    }

    /** The planner's variant: no key check, no counter. */
    method ReserveNext(items: seq<Scanned>, t: ItemType) returns (given: Given)
      requires Valid()
      modifies this`reserved
      ensures (Now(), given) == Step(cfg, user, old(Now()), Reserve(t), items)
    {
      var code := TypeCodeFor(t);
      if code.None? {
        return Nothing;
      }
      var n := NextNumber(items, t, code.value);
      if n.None? {
        return Nothing;
      }
      reserved := reserved[code.value := n.value];
      return Given(code.value, n.value);
    }

    /** The highest number the scan finds per type, and the types whose hint is below it. */
    method ScanCounts(items: seq<Scanned>, types: seq<ItemType>) returns (scanned: map<ItemType, int>, stale: set<ItemType>)
      requires Valid()
      requires forall t :: t in types ==> TypeCodeFor(t).Some?
      ensures forall t :: t in types ==> t in scanned && scanned[t] == ScannedMax(cfg, items, t)
      ensures forall t :: t in stale <==> t in types && Hint(Now(), t) < ScannedMax(cfg, items, t)
    {
      scanned, stale := map[], {};
      for i := 0 to |types|
        invariant forall t :: t in types[..i] ==> t in scanned
        invariant forall t :: t in scanned ==> t in types && scanned[t] == ScannedMax(cfg, items, t)
        invariant forall t :: t in stale <==> t in types[..i] && Hint(Now(), t) < ScannedMax(cfg, items, t)
      {
        assert types[..i + 1] == types[..i] + [types[i]];
        var n := ScannedHighest(items, types[i]);
        scanned := scanned[types[i] := n];
        if Hint(State(counters, reserved), types[i]) < n {
          stale := stale + {types[i]};
        }
      }
      assert types[..|types|] == types;
    }

    method ScannedHighest(items: seq<Scanned>, t: ItemType) returns (n: int)
      requires Valid() && TypeCodeFor(t).Some?
      ensures n == ScannedMax(cfg, items, t)
    {
      var code := TypeCodeFor(t).value;
      var numbers := NumbersOf(items, code);
      var redirected := RedirectedNumbers(code);
      ElementsJoin(numbers, redirected);
      n := MaxInt(numbers + redirected);
    }

    /** Repairs the hints from a scan and reports the stale ones. */
    method Reconcile(items: seq<Scanned>, written: bool) returns (stale: set<ItemType>)
      requires Valid()
      modifies this`counters
      ensures stale == Stale(cfg, old(Now()), items)
      ensures Now() == Step(cfg, user, old(Now()), Op.Reconcile(written), items).0
    {
      AllCounted();
      var scanned;
      scanned, stale := ScanCounts(items, COUNTED_TYPES);
      if cfg.writeCounters && stale != {} && !written {
        return;
      }
      RaiseHints(items, scanned, stale);
    }

    method RaiseHints(ghost items: seq<Scanned>, scanned: map<ItemType, int>, stale: set<ItemType>)
      requires forall t: ItemType :: TypeCodeFor(t).Some? ==> t in scanned && scanned[t] == ScannedMax(cfg, items, t)
      requires stale == Stale(cfg, Now(), items)
      modifies this`counters
      ensures Now() == Reconciled(cfg, old(Now()), items)
    {
      var i := |COUNTED_TYPES|;
      assert COUNTED_TYPES[i..] == [];
      while i > 0
        invariant 0 <= i <= |COUNTED_TYPES|
        invariant counters == Raised(cfg, old(counters), items, COUNTED_TYPES[i..])
      {
        i := i - 1;
        var t := COUNTED_TYPES[i];
        assert COUNTED_TYPES[i..][0] == t && COUNTED_TYPES[i..][1..] == COUNTED_TYPES[i + 1..];
        if t in stale {
          counters := counters[t := scanned[t]];
        }
      }
      assert COUNTED_TYPES[0..] == COUNTED_TYPES;
    }
  }

  lemma AllCounted()
    ensures forall t :: TypeCodeFor(t).Some? <==> t in COUNTED_TYPES
  {
  }

  lemma ScannedGrows(cfg: Config, items: seq<Scanned>, i: nat, code: TypeCode)
    requires i < |items|
    ensures ScannedNumbers(cfg, items[..i + 1], code)
            == ScannedNumbers(cfg, items[..i], code)
               + if Counts(cfg.key, code, items[i].parsed) then {items[i].parsed.value.number} else {}
  {
    var init, next := items[..i], items[..i + 1];
    forall k | 0 <= k <= i
      ensures next[k] == items[k] && (k < i ==> init[k] == items[k])
    {
    }
    forall v | v in ScannedNumbers(cfg, next, code)
      ensures v in ScannedNumbers(cfg, init, code) || (Counts(cfg.key, code, items[i].parsed) && v == items[i].parsed.value.number)
    {
      var k :| 0 <= k < |next| && Counts(cfg.key, code, next[k].parsed) && v == next[k].parsed.value.number;
      if k < i {
        assert Counts(cfg.key, code, init[k].parsed);
      }
    }
    forall v | v in ScannedNumbers(cfg, init, code)
      ensures v in ScannedNumbers(cfg, next, code)
    {
      var k :| 0 <= k < |init| && Counts(cfg.key, code, init[k].parsed) && v == init[k].parsed.value.number;
      assert Counts(cfg.key, code, next[k].parsed);
    }
    assert Counts(cfg.key, code, next[i].parsed) ==> next[i].parsed.value.number in ScannedNumbers(cfg, next, code);
  }

  ghost function NumbersAmong(cfg: Config, sides: set<string>, code: TypeCode): set<int> {
    set text | text in sides && RedirectOf(cfg, text, code) :: ParseItemId(text).value.number
  }

  predicate RedirectOf(cfg: Config, text: string, code: TypeCode) {
    var p := ParseItemId(text);
    p.Some? && p.value.code == code && p.value.key == cfg.key
  }

  lemma AmongGrows(cfg: Config, sides: set<string>, side: string, parsed: Option<ItemId>, code: TypeCode)
    requires parsed == ParseItemId(side)
    ensures NumbersAmong(cfg, sides + {side}, code)
            == NumbersAmong(cfg, sides, code)
               + if parsed.Some? && parsed.value.code == code && parsed.value.key == cfg.key then {parsed.value.number} else {}
  {
  }

  lemma AllAmong(cfg: Config, redirects: map<string, string>, code: TypeCode)
    requires cfg.redirected == ParsedSides(redirects)
    ensures NumbersAmong(cfg, redirects.Keys + redirects.Values, code) == RedirectNumbers(cfg, code)
  {
    forall id | id in cfg.redirected && id.code == code && id.key == cfg.key
      ensures id.number in NumbersAmong(cfg, redirects.Keys + redirects.Values, code)
    {
      var text :| text in redirects.Keys + redirects.Values && ParseItemId(text) == Some(id);
      assert RedirectOf(cfg, text, code);
    }
  }

  lemma SeenMaximum(numbers: set<int>, hint: int, ends: set<int>, m: int, floor: int)
    requires floor == (if hint > Highest(numbers, 0) then hint else Highest(numbers, 0))
    requires m >= floor && (m == floor || m in ends) && forall v :: v in ends ==> v <= m
    ensures Highest(numbers + {hint} + ends, 0) == m
    ensures forall v :: v in ends ==> v < m + 1
  {
    var all := numbers + {hint} + ends;
    assert hint in all;
    forall v | v in all
      ensures v <= m
    {
      assert v in numbers ==> v <= Highest(numbers, 0);
    }
    HighestIs(all, 0, m);
  }
}
