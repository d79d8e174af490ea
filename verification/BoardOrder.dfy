/** The `order:` mapping of a board and the moves that edit it. */
module BoardOrder {
  import opened Text

  // ---------------------------------------------------------------- one list

  /** The list without a reference. */
  function Without(refs: seq<string>, ref: string): (r: seq<string>)
    ensures ref !in r && |r| <= |refs|
    ensures forall x :: x in r <==> x in refs && x != ref
  {
    if refs == [] then []
    else if refs[0] == ref then Without(refs[1..], ref)
    else [refs[0]] + Without(refs[1..], ref)
  }

  /** A negative position, or one past the end, appends. */
  function Clamp(position: int, n: nat): (p: nat)
    ensures p <= n
    ensures 0 <= position <= n ==> p == position
    ensures position < 0 || position > n ==> p == n
  {
    if position < 0 || position > n then n else position
  }

  function InsertAt(refs: seq<string>, ref: string, position: int): (r: seq<string>)
    ensures |r| == |refs| + 1 && r[Clamp(position, |refs|)] == ref
    ensures forall x :: x in r <==> x in refs || x == ref
  {
    var p := Clamp(position, |refs|);
    assert refs == refs[..p] + refs[p..];
    refs[..p] + [ref] + refs[p..]
  }

  lemma {:induction false} WithoutJoined(a: seq<string>, b: seq<string>, ref: string)
    ensures Without(a + b, ref) == Without(a, ref) + Without(b, ref)
  {
    if a == [] {
      assert a + b == b;
    } else {
      assert (a + b)[1..] == a[1..] + b;
      WithoutJoined(a[1..], b, ref);
    }
  }

  lemma {:induction false} WithoutAbsent(refs: seq<string>, ref: string)
    requires ref !in refs
    ensures Without(refs, ref) == refs
  {
    if refs != [] {
      WithoutAbsent(refs[1..], ref);
    }
  }

  /** Inserting a new reference and dropping it again restores the list. */
  lemma WithoutInserted(refs: seq<string>, ref: string, position: int)
    requires ref !in refs
    ensures Without(InsertAt(refs, ref, position), ref) == refs
  {
    var p := Clamp(position, |refs|);
    assert refs == refs[..p] + refs[p..];
    WithoutJoined(refs[..p] + [ref], refs[p..], ref);
    WithoutJoined(refs[..p], [ref], ref);
    WithoutAbsent(refs[..p], ref);
    WithoutAbsent(refs[p..], ref);
  }

  lemma {:induction false} WithoutSwap(refs: seq<string>, a: string, b: string)
    ensures Without(Without(refs, a), b) == Without(Without(refs, b), a)
  {
    if refs != [] {
      WithoutSwap(refs[1..], a, b);
    }
  }

  ghost predicate Distinct(refs: seq<string>) {
    forall i, j :: 0 <= i < j < |refs| ==> refs[i] != refs[j]
  }

  lemma DistinctCons(x: string, rest: seq<string>)
    requires Distinct(rest) && x !in rest
    ensures Distinct([x] + rest)
  {
  }

  lemma {:induction false} WithoutDistinct(refs: seq<string>, ref: string)
    requires Distinct(refs)
    ensures Distinct(Without(refs, ref))
    ensures |Without(refs, ref)| == |refs| - if ref in refs then 1 else 0
  {
    if refs != [] {
      var rest := refs[1..];
      assert forall i :: 0 <= i < |rest| ==> rest[i] == refs[i + 1] && rest[i] != refs[0];
      WithoutDistinct(rest, ref);
      DistinctCons(refs[0], Without(rest, ref));
    }
  }

  lemma InsertDistinct(refs: seq<string>, ref: string, position: int)
    requires Distinct(refs) && ref !in refs
    ensures Distinct(InsertAt(refs, ref, position))
  {
  }

  // ---------------------------------------------------------------- the mapping

  /** The lists of the columns that carry one, in file order. */
  datatype Listing = Listing(columns: seq<string>, refs: map<string, seq<string>>) {
    /** The columns are exactly the map's keys, without duplicates. */
    ghost predicate Valid() {
      Distinct(columns) && forall c :: c in columns <==> c in refs
    }

    function Refs(column: string): seq<string> {
      if column in refs then refs[column] else []
    }

    function Set(column: string, list: seq<string>): Listing {
      Listing(if column in refs then columns else columns + [column], refs[column := list])
    }

    function Remove(ref: string): Listing {
      Listing(columns, map c | c in refs :: Without(refs[c], ref))
    }

    function Insert(column: string, ref: string, position: int): Listing {
      Set(column, InsertAt(Refs(column), ref, position))
    }

    /** The lists of some columns, in the order of those columns. */
    function Pruned(declared: seq<string>): (r: Listing)
    {
      Listing(Kept(declared), map c | c in declared && c in refs :: refs[c])
    }

    /** The columns that carry a list, each at its first place. */
    function Kept(declared: seq<string>): (r: seq<string>)
      ensures forall c :: c in r <==> c in declared && c in refs
      decreases |declared|
    {
      if declared == [] then []
      else
        var last := declared[|declared| - 1];
        var init := declared[..|declared| - 1];
        assert declared == init + [last];
        if last in refs && last !in init then Kept(init) + [last] else Kept(init)
    }
  }

  lemma {:induction false} KeptDistinct(o: Listing, declared: seq<string>)
    ensures Distinct(o.Kept(declared))
    decreases |declared|
  {
    if declared != [] {
      KeptDistinct(o, declared[..|declared| - 1]);
    }
  }

  /** ApplyMove: the reference leaves every column and enters the target; undeclared columns go. */
  function Moved(o: Listing, declared: seq<string>, ref: string, to: string, position: int): Listing {
    o.Remove(ref).Insert(to, ref, position).Pruned(declared)
  }

  lemma SetKeepsValid(o: Listing, to: string, list: seq<string>)
    requires o.Valid()
    ensures o.Set(to, list).Valid()
  {
  }

  lemma PrunedValid(o: Listing, declared: seq<string>)
    ensures o.Pruned(declared).Valid()
  {
    KeptDistinct(o, declared);
  }

  /** Every edit keeps the invariant. */
  lemma EditsKeepValid(o: Listing, declared: seq<string>, ref: string, to: string, position: int, list: seq<string>)
    requires o.Valid()
    ensures o.Set(to, list).Valid() && o.Remove(ref).Valid() && o.Insert(to, ref, position).Valid()
    ensures o.Pruned(declared).Valid() && Moved(o, declared, ref, to, position).Valid()
  {
    SetKeepsValid(o, to, list);
    SetKeepsValid(o, to, InsertAt(o.Refs(to), ref, position));
    PrunedValid(o, declared);
    PrunedValid(o.Remove(ref).Insert(to, ref, position), declared);
  }

  /** What a move makes of one column's list. */
  function MovedList(list: seq<string>, isTarget: bool, ref: string, position: int): seq<string> {
    if isTarget then InsertAt(Without(list, ref), ref, position) else Without(list, ref)
  }

  /** What a move leaves: the target holds the reference at the clamped position, every other declared list is
      merely filtered, and the columns are the declared ones that have a list. */
  lemma MovePlaces(o: Listing, declared: seq<string>, ref: string, to: string, position: int)
    requires o.Valid()
    ensures var m := Moved(o, declared, ref, to, position);
            && m.Valid()
            && (forall c :: c in m.refs <==> c in declared && (c in o.refs || c == to))
            && (forall c :: c in declared ==> m.Refs(c) == MovedList(o.Refs(c), c == to, ref, position))
  {
    EditsKeepValid(o, declared, ref, to, position, []);
    forall c | c in declared
      ensures Moved(o, declared, ref, to, position).Refs(c) == MovedList(o.Refs(c), c == to, ref, position)
    {
      MovedAt(o, declared, ref, to, position, c);
    }
  }

  lemma MovedAt(o: Listing, declared: seq<string>, ref: string, to: string, position: int, c: string)
    requires c in declared
    ensures Moved(o, declared, ref, to, position).Refs(c) == MovedList(o.Refs(c), c == to, ref, position)
  {
    assert o.Remove(ref).Refs(c) == Without(o.Refs(c), ref);
  }

  lemma InsertedOnce(list: seq<string>, ref: string, position: int, i: nat)
    requires ref !in list && i <= |list|
    ensures InsertAt(list, ref, position)[i] == ref <==> i == Clamp(position, |list|)
  {
    var p := Clamp(position, |list|);
    if i != p {
      assert InsertAt(list, ref, position)[i] == list[if i < p then i else i - 1];
    }
  }

  /** A moved reference is listed once in the whole mapping: in the target, at the clamped position. */
  lemma MovedOnce(o: Listing, declared: seq<string>, ref: string, to: string, position: int, c: string, i: nat)
    requires o.Valid() && c in declared
    requires i < |Moved(o, declared, ref, to, position).Refs(c)|
    ensures Moved(o, declared, ref, to, position).Refs(c)[i] == ref
            <==> c == to && i == Clamp(position, |Without(o.Refs(to), ref)|)
  {
    MovePlaces(o, declared, ref, to, position);
    var list := Moved(o, declared, ref, to, position).Refs(c);
    if c == to {
      InsertedOnce(Without(o.Refs(to), ref), ref, position, i);
    } else {
      assert list[i] in list;
    }
  }

  lemma {:induction false} KeptPart(o: Listing, declared: seq<string>, keep: string -> bool)
    requires forall c :: keep(c) <==> c in o.refs
    ensures Part(declared, o.Kept(declared), keep)
    decreases |declared|
  {
    if declared != [] {
      var init, last := declared[..|declared| - 1], declared[|declared| - 1];
      KeptPart(o, init, keep);
      assert declared == init + [last];
      if last in o.refs && last !in init {
        PartGrows(init, o.Kept(init), keep, last);
      } else {
        PartStays(init, o.Kept(init), keep, last);
      }
    }
  }

  /** The columns of a moved listing are the declared ones that had a list, and the target, each once and in the
      order of the board. */
  lemma MovedColumns(o: Listing, declared: seq<string>, ref: string, to: string, position: int, keep: string -> bool)
    requires forall c :: keep(c) <==> c in o.refs || c == to
    ensures Part(declared, Moved(o, declared, ref, to, position).columns, keep) && Distinct(Moved(o, declared, ref, to, position).columns)
  {
    var before := o.Remove(ref).Insert(to, ref, position);
    KeptPart(before, declared, keep);
    KeptDistinct(before, declared);
  }

  lemma {:induction false} KeptAlike(a: Listing, b: Listing, declared: seq<string>)
    requires forall c :: c in declared ==> (c in a.refs <==> c in b.refs)
    ensures a.Kept(declared) == b.Kept(declared)
    decreases |declared|
  {
    if declared != [] {
      KeptAlike(a, b, declared[..|declared| - 1]);
    }
  }

  /** Lists that agree column by column prune to the same mapping. */
  lemma PrunedAlike(a: Listing, b: Listing, declared: seq<string>)
    requires forall c :: c in declared ==> (c in a.refs <==> c in b.refs) && a.Refs(c) == b.Refs(c)
    ensures a.Pruned(declared) == b.Pruned(declared)
  {
    KeptAlike(a, b, declared);
    assert a.Pruned(declared).refs == b.Pruned(declared).refs;
  }

  /** Moving a card where it already is changes nothing: a move is idempotent. */
  lemma MoveTwice(o: Listing, declared: seq<string>, ref: string, to: string, position: int)
    requires o.Valid()
    ensures var m := Moved(o, declared, ref, to, position);
            Moved(m, declared, ref, to, position) == m
  {
    var before := o.Remove(ref).Insert(to, ref, position);
    var m := Moved(o, declared, ref, to, position);
    var again := m.Remove(ref).Insert(to, ref, position);
    WithoutInserted(Without(o.Refs(to), ref), ref, position);
    forall c | c in declared
      ensures (c in again.refs <==> c in before.refs) && again.Refs(c) == before.Refs(c)
    {
      if c in o.refs && c != to {
        WithoutAbsent(Without(o.refs[c], ref), ref);
      }
    }
    PrunedAlike(again, before, declared);
  }

  // ---------------------------------------------------------------- commuting moves

  /** Whether a position appends to a list of some length. */
  predicate Appends(position: int, n: nat) {
    position < 0 || position > n
  }

  /** Two insertions into one list commute exactly when one of them appends and the other does not. */
  lemma InsertsCommute(list: seq<string>, a: string, p: int, b: string, q: int)
    requires a != b && a !in list && b !in list
    ensures InsertAt(InsertAt(list, a, p), b, q) == InsertAt(InsertAt(list, b, q), a, p)
            <==> Appends(p, |list|) != Appends(q, |list|)
  {
    var n := |list|;
    if Appends(p, n) && !Appends(q, n) {
      AppendLast(list, a, p, b, q);
    } else if Appends(q, n) && !Appends(p, n) {
      AppendLast(list, b, q, a, p);
    } else if Appends(p, n) {
      BothAppend(list, a, p, b, q);
    } else {
      NeitherAppends(list, a, p, b, q);
    }
  }

  lemma AppendLast(list: seq<string>, a: string, p: int, b: string, q: int)
    requires Appends(p, |list|) && !Appends(q, |list|)
    ensures InsertAt(InsertAt(list, a, p), b, q) == InsertAt(InsertAt(list, b, q), a, p)
  {
    var n := |list|;
    assert InsertAt(list, a, p) == list + [a];
    assert (list + [a])[..q] == list[..q] && (list + [a])[q..] == list[q..] + [a];
    assert InsertAt(list, b, q) == list[..q] + [b] + list[q..];
    assert InsertAt(InsertAt(list, b, q), a, p) == InsertAt(list, b, q) + [a];
  }

  lemma BothAppend(list: seq<string>, a: string, p: int, b: string, q: int)
    requires a != b && Appends(p, |list|) && Appends(q, |list|)
    ensures InsertAt(InsertAt(list, a, p), b, q) != InsertAt(InsertAt(list, b, q), a, p)
  {
    var n := |list|;
    assert InsertAt(list, a, p) == list + [a] && InsertAt(list, b, q) == list + [b];
    assert InsertAt(list + [a], b, q)[n + 1] == b;
    assert InsertAt(list + [b], a, p)[n + 1] == a;
  }

  lemma NeitherAppends(list: seq<string>, a: string, p: int, b: string, q: int)
    requires a != b && a !in list && b !in list && !Appends(p, |list|) && !Appends(q, |list|)
    ensures InsertAt(InsertAt(list, a, p), b, q) != InsertAt(InsertAt(list, b, q), a, p)
  {
    var la, lb := InsertAt(list, a, p), InsertAt(list, b, q);
    var ab, ba := InsertAt(la, b, q), InsertAt(lb, a, p);
    assert ab[q] == b && ba[p] == a;
    if p == q {
    } else if p < q {
      assert ba[q + 1] == lb[q] == b;
      assert ba[q] == lb[q - 1] == list[q - 1];
    } else {
      assert ab[p + 1] == la[p] == a;
      assert ab[p] == la[p - 1] == list[p - 1];
    }
  }

  /** One list under two moves, in either order. */
  lemma ListsCommute(list: seq<string>, a: string, isA: bool, p: int, b: string, isB: bool, q: int)
    requires a != b && (isB ==> a !in list) && (isA ==> b !in list)
    ensures MovedList(MovedList(list, isA, a, p), isB, b, q) == MovedList(MovedList(list, isB, b, q), isA, a, p)
            <==> (isA && isB ==> Appends(p, |list|) != Appends(q, |list|))
  {
    WithoutSwap(list, a, b);
    if isA {
      WithoutAbsent(list, b);
      WithoutAbsent(InsertAt(Without(list, a), a, p), b);
    }
    if isB {
      WithoutAbsent(list, a);
      WithoutAbsent(InsertAt(Without(list, b), b, q), a);
    }
    if isA && isB {
      InsertsCommute(list, a, p, b, q);
    }
  }

  /** The lists after two moves. */
  lemma TwoMoves(o: Listing, declared: seq<string>, a: string, to: string, p: int, b: string, to': string, q: int)
    requires o.Valid()
    ensures var m := Moved(Moved(o, declared, a, to, p), declared, b, to', q);
            && m.columns == m.Kept(declared)
            && (forall c :: c in m.refs <==> c in declared && (c in o.refs || c == to || c == to'))
            && (forall c :: c in declared ==> m.Refs(c) == MovedList(MovedList(o.Refs(c), c == to, a, p), c == to', b, q))
  {
    MovePlaces(o, declared, a, to, p);
    var once := Moved(o, declared, a, to, p);
    MovePlaces(once, declared, b, to', q);
    var m := Moved(once, declared, b, to', q);
    KeptAlike(once.Remove(b).Insert(to', b, q), m, declared);
  }

  lemma SameListing(x: Listing, y: Listing, declared: seq<string>)
    requires x.columns == x.Kept(declared) && y.columns == y.Kept(declared)
    requires forall c :: c in x.refs <==> c in y.refs
    requires forall c :: c in x.refs ==> c in declared && x.Refs(c) == y.Refs(c)
    ensures x == y
  {
    KeptAlike(x, y, declared);
    assert forall c :: c in x.refs ==> x.refs[c] == x.Refs(c) == y.Refs(c) == y.refs[c];
    assert x.refs == y.refs;
  }

  /** Two moves, neither reference listed in the other's target, commute exactly when the targets differ or
      exactly one of them appends. */
  lemma MovesCommute(o: Listing, declared: seq<string>, a: string, to: string, p: int, b: string, to': string, q: int)
    requires o.Valid() && a != b && to in declared && to' in declared
    requires a !in o.Refs(to') && b !in o.Refs(to)
    ensures Moved(Moved(o, declared, a, to, p), declared, b, to', q) == Moved(Moved(o, declared, b, to', q), declared, a, to, p)
            <==> to != to' || Appends(p, |o.Refs(to)|) != Appends(q, |o.Refs(to)|)
  {
    var x := Moved(Moved(o, declared, a, to, p), declared, b, to', q);
    var y := Moved(Moved(o, declared, b, to', q), declared, a, to, p);
    TwoMoves(o, declared, a, to, p, b, to', q);
    TwoMoves(o, declared, b, to', q, a, to, p);
    forall c | c in declared
      ensures x.Refs(c) == y.Refs(c)
              <==> (c == to && c == to' ==> Appends(p, |o.Refs(c)|) != Appends(q, |o.Refs(c)|))
    {
      ListsCommute(o.Refs(c), a, c == to, p, b, c == to', q);
    }
    if to != to' || Appends(p, |o.Refs(to)|) != Appends(q, |o.Refs(to)|) {
      SameListing(x, y, declared);
    }
  }

  // ---------------------------------------------------------------- the editor

  /** BoardOrder: the mapping as the editor holds it, changed in place. */
  class Order {
    var columns: seq<string>
    var refs: map<string, seq<string>>

    constructor ()
      ensures Now() == Listing([], map[]) && Valid()
    {
      columns, refs := [], map[];
    }

    ghost predicate Valid()
      reads this
    {
      Now().Valid()
    }

    function Now(): Listing
      reads this
    {
      Listing(columns, refs)
    }

    method Refs(column: string) returns (list: seq<string>)
      ensures list == Now().Refs(column)
    {
      list := if column in refs then refs[column] else [];
    }

    method Set(column: string, list: seq<string>)
      requires Valid()
      modifies this
      ensures Valid() && Now() == old(Now()).Set(column, list)
      ensures refs == old(refs)[column := list] && columns == old(columns) + if column in old(refs) then [] else [column]
    {
      if column !in refs {
        columns := columns + [column];
      }
      refs := refs[column := list];
    }

    /** Drops a reference from every list; the map is walked in any order. */
    method Remove(ref: string)
      requires Valid()
      modifies this
      ensures Valid() && Now() == old(Now()).Remove(ref)
    {
      var left := refs.Keys;
      while left != {}
        invariant columns == old(columns) && refs.Keys == old(refs.Keys) && left <= refs.Keys
        invariant forall c :: c in refs ==> refs[c] == if c in left then old(refs)[c] else Without(old(refs)[c], ref)
        decreases left
      {
        var column :| column in left;
        var kept := Filtered(refs[column], ref);
        refs := refs[column := kept];
        left := left - {column};
      }
      assert refs == old(Now()).Remove(ref).refs;
    }

    static method Filtered(list: seq<string>, ref: string) returns (kept: seq<string>)
      ensures kept == Without(list, ref)
    {
      kept := [];
      for i := 0 to |list|
        invariant kept == Without(list[..i], ref)
      {
        assert list[..i + 1] == list[..i] + [list[i]];
        WithoutJoined(list[..i], [list[i]], ref);
        if list[i] != ref {
          kept := kept + [list[i]];
        }
      }
      assert list[..|list|] == list;
    }

    method Insert(column: string, ref: string, position: int)
      requires Valid()
      modifies this
      ensures Valid() && Now() == old(Now()).Insert(column, ref, position)
    {
      var list := Refs(column);
      var p := position;
      if p < 0 || p > |list| {
        p := |list|;
      }
      Set(column, list[..p] + [ref] + list[p..]);
    }

    method Clone() returns (copy: Order)
      requires Valid()
      ensures fresh(copy) && copy.Valid() && copy.Now() == Now()
    {
      copy := new Order();
      copy.columns, copy.refs := columns, refs;
    }
  }

  lemma PrunedSnoc(o: Listing, declared: seq<string>, c: string)
    ensures o.Pruned(declared + [c]) == if c in o.refs then o.Pruned(declared).Set(c, o.refs[c]) else o.Pruned(declared)
  {
    assert (declared + [c])[..|declared|] == declared;
    var more := o.Pruned(declared + [c]);
    assert forall d :: d in declared + [c] <==> d in declared || d == c;
    assert more.refs == (if c in o.refs then o.Pruned(declared).Set(c, o.refs[c]) else o.Pruned(declared)).refs;
  }

  /** PruneOrder without a set of live references: a fresh mapping of the declared columns that have a list. */
  method PruneOrder(order: Order, declared: seq<string>) returns (pruned: Order)
    requires order.Valid()
    ensures fresh(pruned) && pruned.Valid() && pruned.Now() == order.Now().Pruned(declared)
  {
    pruned := new Order();
    ghost var o := order.Now();
    for i := 0 to |declared|
      invariant fresh(pruned) && pruned.Valid()
      invariant pruned.Now() == o.Pruned(declared[..i])
    {
      assert declared[..i + 1] == declared[..i] + [declared[i]];
      PrunedSnoc(o, declared[..i], declared[i]);
      if declared[i] in order.refs {
        pruned.Set(declared[i], order.refs[declared[i]]);
      }
    }
    assert declared[..|declared|] == declared;
  }

  /** ApplyMove: edits the order list in place, then prunes it. */
  method ApplyMove(order: Order, declared: seq<string>, ref: string, to: string, position: int) returns (moved: Order)
    requires order.Valid()
    modifies order
    ensures fresh(moved) && moved.Valid() && moved.Now() == Moved(old(order.Now()), declared, ref, to, position)
  {
    order.Remove(ref);
    order.Insert(to, ref, position);
    moved := PruneOrder(order, declared);
  }
}
