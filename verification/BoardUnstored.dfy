/** A move into the stored order list as it is, without storing what the view shows first: where the card lands,
    and what stays. */
module BoardUnstored {
  import opened Text
  import opened Ids
  import opened Sorting
  import opened Boards
  import opened BoardOrder
  import opened BoardView
  import opened BoardCards
  import opened BoardFacts
  import opened BoardAgreement
  import opened BoardMove
  import opened BoardSound

  // ---------------------------------------------------------------- the place of a listed card

  /** The references of a list that a column shows. */
  function ShownOf(list: seq<string>, shown: seq<string>): set<string> {
    set x | x in list && x in shown
  }

  function Members(s: seq<string>): set<string> {
    set x | x in s
  }

  lemma {:induction false} PrefixCount(s: seq<string>, k: nat)
    requires Distinct(s) && k <= |s|
    ensures |Members(s[..k])| == k
  {
    if k > 0 {
      PrefixCount(s, k - 1);
      assert s[..k] == s[..k - 1] + [s[k - 1]];
      assert Members(s[..k]) == Members(s[..k - 1]) + {s[k - 1]};
      assert s[k - 1] !in s[..k - 1];
    }
  }

  /** A card stands before a listed one exactly when the list names it before. */
  lemma BeforeListed(list: seq<string>, cards: seq<Card>, j: nat, k: nat)
    requires Sorted(CardLess(list), cards) && CardsApart(cards) && j < |cards| && k < |cards| && cards[k].ref in list
    ensures j < k <==> RankIn(list, cards[j].ref) < RankIn(list, cards[k].ref)
  {
    if j < k {
      assert !CardLess(list)(cards[k], cards[j]);
      NotLess(list, cards[k], cards[j]);
    } else if k < j {
      assert !CardLess(list)(cards[j], cards[k]);
      NotLess(list, cards[j], cards[k]);
    }
  }

  lemma NotLess(list: seq<string>, a: Card, c: Card)
    requires !CardLess(list)(a, c) && a.ref != c.ref && (a.ref in list || c.ref in list)
    ensures RankIn(list, c.ref) < RankIn(list, a.ref)
  {
    RanksDiffer(list, a.ref, c.ref);
  }

  lemma RankInPrefix(list: seq<string>, x: string, n: nat)
    requires n <= |list|
    ensures x in list[..n] <==> RankIn(list, x) < n
  {
    var r := RankIn(list, x);
    if x in list[..n] {
      var i :| 0 <= i < n && list[..n][i] == x;
      assert list[i] == x;
    }
    if r < n {
      assert list[..n][r] == x;
    }
  }

  /** The place of a listed card is the number of references that the list names before it and the column shows. */
  lemma ListedPlace(list: seq<string>, cards: seq<Card>, k: nat)
    requires Sorted(CardLess(list), cards) && CardsApart(cards) && k < |cards| && cards[k].ref in list
    ensures k == |ShownOf(list[..RankIn(list, cards[k].ref)], RefsOf(cards))|
  {
    var refs, n := RefsOf(cards), RankIn(list, cards[k].ref);
    PrefixCount(refs, k);
    forall x
      ensures x in refs[..k] <==> x in list[..n] && x in refs
    {
      RankInPrefix(list, x, n);
      if x in refs {
        var j :| 0 <= j < |refs| && refs[j] == x;
        BeforeListed(list, cards, j, k);
        if j < k {
          assert refs[..k][j] == x;
        }
        if i :| 0 <= i < k && refs[..k][i] == x {
          assert refs[i] == refs[j];
        }
      } else {
        assert x in refs[..k] ==> x in refs;
      }
    }
    assert Members(refs[..k]) == ShownOf(list[..n], refs);
  }

  lemma InsertedRank(list: seq<string>, ref: string, position: int)
    requires ref !in list
    ensures var p := Clamp(position, |list|);
            && RankIn(InsertAt(list, ref, position), ref) == p && InsertAt(list, ref, position)[..p] == list[..p]
  {
    var p, r := Clamp(position, |list|), InsertAt(list, ref, position);
    assert forall i :: 0 <= i < p ==> r[i] == list[i];
    assert r[p] == ref;
  }

  /** The references a stored list names above the place a move asks for. */
  function Above(list: seq<string>, ref: string, position: int): seq<string> {
    Without(list, ref)[..Clamp(position, |Without(list, ref)|)]
  }

  /** After a move into any stored list, the card stands below exactly the cards its target shows of those the
      list names above the place asked for. */
  lemma MovedPlace(b: Board, input: Input, order: Listing, ref: string, to: string, t: nat, position: int, view: View) returns (k: nat)
    requires WellSupplied(b, input) && SoundReader(input.parse) && Unrepeated(b.ColumnIds())
    requires FirstWithId(b.columns, to) == Some(t)
    requires Renders(b, input, Moved(order, b.ColumnIds(), ref, to, position), view) && ref in RefsOf(view.columns[t])
    ensures k < |view.columns[t]| && view.columns[t][k].ref == ref
    ensures k == |ShownOf(Above(order.Refs(to), ref, position), RefsOf(view.columns[t]))|
  {
    var moved := Moved(order, b.ColumnIds(), ref, to, position);
    assert b.ColumnIds()[t] == to && moved.Refs(to) == moved.Refs(b.columns[t].id);
    MovedAt(order, b.ColumnIds(), ref, to, position, to);
    ContentsApart(b, input, moved, t);
    k := InsertedPlace(order.Refs(to), ref, position, Contents(b, input, moved, t));
  }

  lemma InsertedPlace(list: seq<string>, ref: string, position: int, cards: seq<Card>) returns (k: nat)
    requires CardsApart(cards)
    requires ref in RefsOf(Sort(CardLess(InsertAt(Without(list, ref), ref, position)), cards))
    ensures var sorted := Sort(CardLess(InsertAt(Without(list, ref), ref, position)), cards);
            k < |sorted| && sorted[k].ref == ref && k == |ShownOf(Above(list, ref, position), RefsOf(sorted))|
  {
    var with := InsertAt(Without(list, ref), ref, position);
    var sorted := Sort(CardLess(with), cards);
    k :| 0 <= k < |RefsOf(sorted)| && RefsOf(sorted)[k] == ref;
    InsertedRank(Without(list, ref), ref, position);
    CardOrder(with);
    SortSorted(CardLess(with), cards);
    SortApart(CardLess(with), cards);
    ListedPlace(with, sorted, k);
  }

  // ---------------------------------------------------------------- the placeholders that stay

  function OtherSlots(slots: seq<Slot>, ref: string): seq<Slot> {
    if slots == [] then []
    else
      var n := |slots| - 1;
      OtherSlots(slots[..n], ref) + if slots[n].raw == ref then [] else [slots[n]]
  }

  lemma {:induction false} OtherSlotsJoin(a: seq<Slot>, c: seq<Slot>, ref: string)
    ensures OtherSlots(a + c, ref) == OtherSlots(a, ref) + OtherSlots(c, ref)
  {
    if c == [] {
      assert a + c == a;
    } else {
      var n := |c| - 1;
      assert (a + c)[..|a| + n] == a + c[..n];
      OtherSlotsJoin(a, c[..n], ref);
    }
  }

  lemma {:induction false} OtherSlotsOf(column: nat, refs: seq<string>, ref: string)
    ensures OtherSlots(SlotsOf(column, refs), ref) == SlotsOf(column, Without(refs, ref))
  {
    if refs == [] {
    } else {
      var rest := refs[1..];
      OtherSlotsOf(column, rest, ref);
      assert SlotsOf(column, refs) == [Slot(column, refs[0])] + SlotsOf(column, rest);
      OtherSlotsJoin([Slot(column, refs[0])], SlotsOf(column, rest), ref);
      assert [Slot(column, refs[0])][..0] == [];
    }
  }

  /** Lists that agree but for one reference have the same other slots. */
  lemma {:induction false} SameOtherSlots(columns: seq<string>, a: Listing, c: Listing, ref: string)
    requires forall id :: id in columns ==> Without(a.Refs(id), ref) == Without(c.Refs(id), ref)
    ensures OtherSlots(Slots(columns, a), ref) == OtherSlots(Slots(columns, c), ref)
  {
    if columns != [] {
      var n := |columns| - 1;
      assert columns[n] in columns && forall id :: id in columns[..n] ==> id in columns;
      SameOtherSlots(columns[..n], a, c, ref);
      OtherSlotsJoin(Slots(columns[..n], a), SlotsOf(n, a.Refs(columns[n])), ref);
      OtherSlotsJoin(Slots(columns[..n], c), SlotsOf(n, c.Refs(columns[n])), ref);
      OtherSlotsOf(n, a.Refs(columns[n]), ref);
      OtherSlotsOf(n, c.Refs(columns[n]), ref);
    }
  }

  /** The reader and the gate turn one reference away: it never becomes a placeholder. */
  ghost predicate TurnsAway(gate: Gate, ref: string) {
    gate.parse(ref).None? || !gate.admits(gate.parse(ref).value)
  }

  lemma {:induction false} ExtrasIgnore(gate: Gate, slots: seq<Slot>, placed: set<string>, ref: string)
    requires TurnsAway(gate, ref)
    ensures Extras(gate, slots, placed) == Extras(gate, OtherSlots(slots, ref), placed)
  {
    if slots != [] {
      var n := |slots| - 1;
      ExtrasIgnore(gate, slots[..n], placed, ref);
      if slots[n].raw != ref {
        var others := OtherSlots(slots[..n], ref) + [slots[n]];
        assert others[..|others| - 1] == OtherSlots(slots[..n], ref);
      } else {
        assert OtherSlots(slots, ref) == OtherSlots(slots[..n], ref);
      }
    }
  }

  /** What is read of the order list is placed alike. */
  ghost predicate PlacedAlike(gate: Gate, placed: set<string>, placed': set<string>) {
    forall raw :: gate.parse(raw).Some? && gate.admits(gate.parse(raw).value) ==>
      (gate.parse(raw).value.Text() in placed <==> gate.parse(raw).value.Text() in placed')
  }

  lemma {:induction false} ExtrasPlaced(gate: Gate, slots: seq<Slot>, placed: set<string>, placed': set<string>)
    requires PlacedAlike(gate, placed, placed')
    ensures Extras(gate, slots, placed) == Extras(gate, slots, placed')
  {
    if slots != [] {
      ExtrasPlaced(gate, slots[..|slots| - 1], placed, placed');
    }
  }

  // ---------------------------------------------------------------- one step, two lists

  /** The lists agree but for one reference. */
  ghost predicate AgreeBut(b: Board, order: Listing, other: Listing, ref: string) {
    forall id :: id in b.ColumnIds() ==> Without(order.Refs(id), ref) == Without(other.Refs(id), ref)
  }

  lemma MovedAgrees(b: Board, order: Listing, ref: string, to: string, position: int)
    ensures AgreeBut(b, order, Moved(order, b.ColumnIds(), ref, to, position), ref)
  {
    forall id | id in b.ColumnIds()
      ensures Without(order.Refs(id), ref) == Without(Moved(order, b.ColumnIds(), ref, to, position).Refs(id), ref)
    {
      MovedAt(order, b.ColumnIds(), ref, to, position, id);
      WithoutInserted(Without(order.Refs(id), ref), ref, position);
      WithoutAbsent(Without(order.Refs(id), ref), ref);
    }
  }

  /** A board whose item write is under way, with the references of the order list read soundly. */
  ghost predicate Writing(b: Board, input: Input, after: Input, step: Step) {
    b.kind == Kanban && SoundReader(input.parse) && CleanRefs(b, input) && Changes(b, input, after, step)
  }

  lemma SlashProject(r: Ref)
    requires '/' !in r.project
    ensures Before(r.Text(), '/') == r.project
  {
    RefText(r.project, r.item, r.item);
  }

  /** No reference that is read and admitted is the moved card's. */
  lemma AdmitsOthers(b: Board, input: Input, after: Input, step: Step, raw: string)
    requires Writing(b, input, after, step) && input.parse(raw).Some? && GateOf(b, input).admits(input.parse(raw).value)
    ensures input.parse(raw).value.Text() != step.Text() && raw != step.Text()
  {
    var r := input.parse(raw).value;
    SlashProject(r);
    SlashProject(Ref(step.key, step.it.id));
    ItsCandidate(b, input, after, step);
    OwnRef(b, input, step, raw);
  }

  lemma OwnRef(b: Board, input: Input, step: Step, raw: string)
    requires CleanRefs(b, input) && step.Before(b) in Candidates(b, input) && step.Before(b).card.ref == step.Text()
    requires input.parse(raw).Some? && input.parse(raw).value.Text() != step.Text()
    ensures raw != step.Text()
  {
  }

  lemma OtherPlaced(b: Board, input: Input, after: Input, step: Step, ref: string)
    requires Writing(b, input, after, step) && ref != step.Text()
    ensures ref in PlacedRefs(PolicyOf(b, input), Candidates(b, input)) <==> ref in PlacedRefs(PolicyOf(b, after), Candidates(b, after))
  {
    PlacedRef(PolicyOf(b, input), Candidates(b, input), ref);
    PlacedRef(PolicyOf(b, after), Candidates(b, after), ref);
    forall c: Candidate | c.card.ref == ref
      ensures c in Candidates(b, input) <==> c in Candidates(b, after)
    {
      CandidatesAfter(b, input, after, step, c);
      ItsCandidate(b, input, after, step);
    }
  }

  /** The move and the write leave the placeholders alone. */
  lemma SameExtras(b: Board, input: Input, after: Input, step: Step, order: Listing, other: Listing)
    requires Writing(b, input, after, step) && AgreeBut(b, order, other, step.Text())
    ensures PlaceholdersOf(b, after, other) == PlaceholdersOf(b, input, order)
  {
    var gate, gate', ref := GateOf(b, input), GateOf(b, after), step.Text();
    var placed, placed' := PlacedRefs(PolicyOf(b, input), Candidates(b, input)), PlacedRefs(PolicyOf(b, after), Candidates(b, after));
    var slots, slots' := Slots(b.ColumnIds(), order), Slots(b.ColumnIds(), other);
    forall r: Ref
      ensures gate'.admits(r) == gate.admits(r)
    {
      SameGate(b, input, after, step, r);
    }
    ExtrasAlike(gate', gate, slots', placed');
    forall raw | gate.parse(raw).Some? && gate.admits(gate.parse(raw).value)
      ensures gate.parse(raw).value.Text() in placed <==> gate.parse(raw).value.Text() in placed'
    {
      AdmitsOthers(b, input, after, step, raw);
      OtherPlaced(b, input, after, step, gate.parse(raw).value.Text());
    }
    ExtrasPlaced(gate, slots', placed, placed');
    if !TurnsAway(gate, ref) {
      AdmitsOthers(b, input, after, step, ref);
    }
    ExtrasIgnore(gate, slots, placed, ref);
    ExtrasIgnore(gate, slots', placed, ref);
    SameOtherSlots(b.ColumnIds(), order, other, ref);
  }

  /** Every other card is in the same column as before. */
  lemma OtherContents(b: Board, input: Input, after: Input, step: Step, order: Listing, other: Listing, i: nat, card: Card)
    requires Writing(b, input, after, step) && AgreeBut(b, order, other, step.Text()) && card.ref != step.Text()
    ensures card in Contents(b, after, other, i) <==> card in Contents(b, input, order, i)
  {
    SameExtras(b, input, after, step, order, other);
    BucketMembers(PolicyOf(b, input), Candidates(b, input), In(i), card);
    BucketMembers(PolicyOf(b, after), Candidates(b, after), In(i), card);
    ExtraMembers(GateOf(b, input), PlaceholdersOf(b, input, order), i, card);
    ExtraMembers(GateOf(b, after), PlaceholdersOf(b, after, other), i, card);
    forall c: Candidate | c.card.ref == card.ref
      ensures c in Candidates(b, input) <==> c in Candidates(b, after)
    {
      CandidatesAfter(b, input, after, step, c);
      ItsCandidate(b, input, after, step);
    }
  }

  // ---------------------------------------------------------------- the order of the others

  function Drop(cards: seq<Card>, ref: string): (r: seq<Card>)
    ensures forall x :: x in r <==> x in cards && x.ref != ref
  {
    if cards == [] then []
    else (if cards[0].ref == ref then [] else [cards[0]]) + Drop(cards[1..], ref)
  }

  lemma {:induction false} DropRefs(cards: seq<Card>, ref: string)
    ensures RefsOf(Drop(cards, ref)) == Without(RefsOf(cards), ref)
  {
    if cards != [] {
      DropRefs(cards[1..], ref);
      RefsCons(cards);
      if cards[0].ref == ref {
        assert Drop(cards, ref) == Drop(cards[1..], ref);
      } else {
        RefsCons([cards[0]] + Drop(cards[1..], ref));
      }
    }
  }

  lemma RefsCons(cards: seq<Card>)
    requires cards != []
    ensures RefsOf(cards)[0] == cards[0].ref && RefsOf(cards)[1..] == RefsOf(cards[1..])
    ensures RefsOf(cards) == [cards[0].ref] + RefsOf(cards[1..])
  {
  }

  lemma {:induction false} DropSorted(less: (Card, Card) -> bool, cards: seq<Card>, ref: string)
    requires Sorted(less, cards) && CardsApart(cards)
    ensures Sorted(less, Drop(cards, ref)) && CardsApart(Drop(cards, ref))
  {
    if cards != [] {
      var rest := cards[1..];
      assert forall i :: 0 <= i < |rest| ==> rest[i] == cards[i + 1];
      DropSorted(less, rest, ref);
      if cards[0].ref != ref {
        forall x | x in Drop(rest, ref)
          ensures !less(x, cards[0]) && x.ref != cards[0].ref
        {
          var j :| 0 <= j < |rest| && rest[j] == x;
          assert cards[j + 1] == x;
        }
        HeadSorted(less, cards[0], Drop(rest, ref));
      } else {
        assert [] + Drop(rest, ref) == Drop(rest, ref);
      }
    }
  }

  lemma HeadSorted(less: (Card, Card) -> bool, x: Card, rest: seq<Card>)
    requires Sorted(less, rest) && CardsApart(rest) && forall y :: y in rest ==> !less(y, x) && y.ref != x.ref
    ensures Sorted(less, [x] + rest) && CardsApart([x] + rest)
  {
    forall i, j | 0 <= i < j < |[x] + rest|
      ensures !less(([x] + rest)[j], ([x] + rest)[i]) && ([x] + rest)[i].ref != ([x] + rest)[j].ref
    {
      assert rest[j - 1] in rest;
      if i > 0 {
        assert ([x] + rest)[i] == rest[i - 1];
      }
    }
  }

  /** Dropping a reference from a list changes no rank comparison among the others. */
  lemma {:induction false} RankWithout(list: seq<string>, ref: string, x: string, y: string)
    requires x != ref && y != ref
    ensures RankIn(list, x) < RankIn(list, y) <==> RankIn(Without(list, ref), x) < RankIn(Without(list, ref), y)
  {
    if list != [] {
      RankWithout(list[1..], ref, x, y);
    }
  }

  /** Lists that agree but for one reference order all other cards alike. */
  lemma LessAlike(list: seq<string>, other: seq<string>, ref: string, x: Card, y: Card)
    requires Without(list, ref) == Without(other, ref) && x.ref != ref && y.ref != ref
    ensures CardLess(list)(x, y) == CardLess(other)(x, y)
  {
    RankWithout(list, ref, x.ref, y.ref);
    RankWithout(other, ref, x.ref, y.ref);
    assert x.ref in list <==> x.ref in Without(list, ref);
    assert y.ref in list <==> y.ref in Without(list, ref);
    assert x.ref in other <==> x.ref in Without(other, ref);
    assert y.ref in other <==> y.ref in Without(other, ref);
  }

  /** Two columns that hold the same cards but for one reference, sorted by lists that agree but for it, show
      the others in one order. */
  lemma SameOthers(list: seq<string>, other: seq<string>, ref: string, cards: seq<Card>, cards': seq<Card>)
    requires Without(list, ref) == Without(other, ref) && CardsApart(cards) && CardsApart(cards')
    requires Sorted(CardLess(list), cards) && Sorted(CardLess(other), cards')
    requires forall x: Card :: x.ref != ref ==> (x in cards <==> x in cards')
    ensures Without(RefsOf(cards), ref) == Without(RefsOf(cards'), ref)
  {
    var a, c := Drop(cards, ref), Drop(cards', ref);
    DropSorted(CardLess(list), cards, ref);
    DropSorted(CardLess(other), cards', ref);
    forall i, j | 0 <= i < j < |c|
      ensures !CardLess(list)(c[j], c[i])
    {
      assert c[i] in c && c[j] in c;
      LessAlike(list, other, ref, c[j], c[i]);
    }
    SameCards(a, c);
    CardOrder(list);
    CardSeparates(list, a);
    SortedUnique(CardLess(list), a, c);
    DropRefs(cards, ref);
    DropRefs(cards', ref);
  }

  /** Whatever list is stored, a move and its item write leave every other card in its column, in its order. */
  lemma OthersStay(b: Board, input: Input, after: Input, step: Step, order: Listing, other: Listing, view: View, again: View, i: nat)
    requires Writing(b, input, after, step) && AgreeBut(b, order, other, step.Text()) && i < |b.columns|
    requires Renders(b, input, order, view) && Renders(b, after, other, again)
    ensures Without(RefsOf(again.columns[i]), step.Text()) == Without(RefsOf(view.columns[i]), step.Text())
  {
    var id := b.columns[i].id;
    assert b.ColumnIds()[i] == id;
    ColumnApart(b, input, order, i);
    ColumnApart(b, after, other, i);
    CardOrder(order.Refs(id));
    CardOrder(other.Refs(id));
    SortSorted(CardLess(order.Refs(id)), Contents(b, input, order, i));
    SortSorted(CardLess(other.Refs(id)), Contents(b, after, other, i));
    forall x: Card | x.ref != step.Text()
      ensures x in view.columns[i] <==> x in again.columns[i]
    {
      OtherContents(b, input, after, step, order, other, i, x);
    }
    SameOthers(order.Refs(id), other.Refs(id), step.Text(), view.columns[i], again.columns[i]);
  }

  // ---------------------------------------------------------------- the move

  /** How many of the cards the target shows already stand, in the stored list, above the place asked for. */
  function StoredAbove(c: Case, ref: string): nat
    requires c.t < |c.view.columns|
  {
    |ShownOf(Above(c.order.Refs(c.move.to), ref, c.move.position), Without(RefsOf(c.view.columns[c.t]), ref))|
  }

  /** The view after a move into the stored list: every other card keeps its column and its relative order, the
      card stands below the cards that the stored list names above it, and the target counts as planned. */
  ghost predicate AsStored(b: Board, c: Case, ref: string, after: View) {
    && |after.columns| == |after.exceeded| == |c.view.columns| == |b.columns| && c.t < |b.columns|
    && (forall i :: 0 <= i < |b.columns| ==> Without(RefsOf(after.columns[i]), ref) == Without(RefsOf(c.view.columns[i]), ref))
    && StoredAbove(c, ref) < |after.columns[c.t]| && after.columns[c.t][StoredAbove(c, ref)].ref == ref
    && |after.columns[c.t]| == c.plan.wipUsed
    && after.exceeded[c.t] == c.plan.wipExceeded
  }

  lemma ShownAlike(list: seq<string>, shown: seq<string>, ref: string)
    requires ref !in list
    ensures ShownOf(list, shown) == ShownOf(list, Without(shown, ref))
  {
  }

  /** A planned move written into the list as it is stored: when the target is the first column that shows the
      planned status, the card stands where the stored list puts it and all else stays; otherwise the card is not
      in the target. */
  lemma MoveAsStored(b: Board, c: Case, after: Input, step: Step, again: View)
    requires Underway(b, c, after, step)
    requires Renders(b, after, Moved(c.order, b.ColumnIds(), step.Text(), c.move.to, c.move.position), again)
    ensures if Home(b, step) == Some(c.t) then AsStored(b, c, step.Text(), again)
            else forall card :: card in again.columns[c.t] ==> card.ref != step.Text()
  {
    var moved := Moved(c.order, b.ColumnIds(), step.Text(), c.move.to, c.move.position);
    ItsCandidate(b, c.input, after, step);
    if Home(b, step) == Some(c.t) {
      StoredLands(b, c, after, step, again);
    } else {
      MoveMisses(b, after, moved, again, step.After(b), c.t);
    }
  }

  lemma StoredLands(b: Board, c: Case, after: Input, step: Step, again: View)
    requires Underway(b, c, after, step) && Home(b, step) == Some(c.t)
    requires Renders(b, after, Moved(c.order, b.ColumnIds(), step.Text(), c.move.to, c.move.position), again)
    ensures AsStored(b, c, step.Text(), again)
  {
    StoredOthers(b, c, after, step, again);
    StoredShown(b, c, after, step, again);
    StoredPlace(b, after, c.order, step.Text(), c.move.to, c.t, c.move.position, again, Without(RefsOf(c.view.columns[c.t]), step.Text()));
    StoredCounts(b, c, after, step, again);
    StoredParts(b, c, step.Text(), again);
  }

  lemma StoredParts(b: Board, c: Case, ref: string, again: View)
    requires |again.columns| == |again.exceeded| == |c.view.columns| == |b.columns| && c.t < |b.columns|
    requires forall i :: 0 <= i < |b.columns| ==> Without(RefsOf(again.columns[i]), ref) == Without(RefsOf(c.view.columns[i]), ref)
    requires var k := |ShownOf(Above(c.order.Refs(c.move.to), ref, c.move.position), Without(RefsOf(c.view.columns[c.t]), ref))|;
             k < |again.columns[c.t]| && again.columns[c.t][k].ref == ref
    requires |again.columns[c.t]| == c.plan.wipUsed && again.exceeded[c.t] == c.plan.wipExceeded
    ensures AsStored(b, c, ref, again)
  {
  }

  lemma StoredOthers(b: Board, c: Case, after: Input, step: Step, again: View)
    requires Underway(b, c, after, step)
    requires Renders(b, after, Moved(c.order, b.ColumnIds(), step.Text(), c.move.to, c.move.position), again)
    ensures forall i :: 0 <= i < |b.columns| ==> Without(RefsOf(again.columns[i]), step.Text()) == Without(RefsOf(c.view.columns[i]), step.Text())
  {
    var moved := Moved(c.order, b.ColumnIds(), step.Text(), c.move.to, c.move.position);
    MovedAgrees(b, c.order, step.Text(), c.move.to, c.move.position);
    forall i | 0 <= i < |b.columns|
      ensures Without(RefsOf(again.columns[i]), step.Text()) == Without(RefsOf(c.view.columns[i]), step.Text())
    {
      OthersStay(b, c.input, after, step, c.order, moved, c.view, again, i);
    }
  }

  lemma StoredPlace(b: Board, input: Input, order: Listing, ref: string, to: string, t: nat, position: int, view: View, others: seq<string>)
    requires WellSupplied(b, input) && SoundReader(input.parse) && Unrepeated(b.ColumnIds())
    requires FirstWithId(b.columns, to) == Some(t)
    requires Renders(b, input, Moved(order, b.ColumnIds(), ref, to, position), view) && ref in RefsOf(view.columns[t])
    requires Without(RefsOf(view.columns[t]), ref) == others
    ensures var k := |ShownOf(Above(order.Refs(to), ref, position), others)|;
            k < |view.columns[t]| && view.columns[t][k].ref == ref
  {
    var k := MovedPlace(b, input, order, ref, to, t, position, view);
    ShownAlike(Above(order.Refs(to), ref, position), RefsOf(view.columns[t]), ref);
  }

  lemma StoredShown(b: Board, c: Case, after: Input, step: Step, again: View)
    requires Underway(b, c, after, step) && Home(b, step) == Some(c.t)
    requires Renders(b, after, Moved(c.order, b.ColumnIds(), step.Text(), c.move.to, c.move.position), again)
    ensures step.Text() in RefsOf(again.columns[c.t])
  {
    var moved := Moved(c.order, b.ColumnIds(), step.Text(), c.move.to, c.move.position);
    ItsCandidate(b, c.input, after, step);
    var inside := PlanMeans(b, c, step.cfg, step.Before(b));
    StillMatches(b, step);
    AppearsInPlace(b, after, moved, again, step.After(b));
    RefMembers(again.columns[c.t], step.Text());
  }

  lemma StoredCounts(b: Board, c: Case, after: Input, step: Step, again: View)
    requires Underway(b, c, after, step) && c.t < |b.columns|
    requires Renders(b, after, Moved(c.order, b.ColumnIds(), step.Text(), c.move.to, c.move.position), again)
    requires step.Text() in RefsOf(again.columns[c.t])
    requires Without(RefsOf(again.columns[c.t]), step.Text()) == Without(RefsOf(c.view.columns[c.t]), step.Text())
    ensures |again.columns[c.t]| == c.plan.wipUsed && again.exceeded[c.t] == c.plan.wipExceeded
  {
    var ref := step.Text();
    ItsCandidate(b, c.input, after, step);
    var inside := PlanMeans(b, c, step.cfg, step.Before(b));
    TargetCounts(b, c, step.key, step.cfg, step.Before(b), inside);
    ColumnApart(b, after, Moved(c.order, b.ColumnIds(), ref, c.move.to, c.move.position), c.t);
    WithoutDistinct(RefsOf(again.columns[c.t]), ref);
  }

  lemma {:induction false} AroundRef(s: seq<string>, ref: string, k: nat)
    requires Distinct(s) && k < |s| && s[k] == ref
    ensures Without(s, ref) == s[..k] + s[k + 1..]
  {
    assert s == s[..k] + ([s[k]] + s[k + 1..]);
    WithoutJoined(s[..k], [s[k]] + s[k + 1..], ref);
    WithoutJoined([s[k]], s[k + 1..], ref);
    WithoutAbsent(s[..k], ref);
    WithoutAbsent(s[k + 1..], ref);
  }

  /** What a move promises holds without storing the view first exactly when the target shows, of the references
      that the stored list names above the place asked for, as many as that place has cards above it: what a
      caller can count before the move. */
  lemma LandsExactly(b: Board, c: Case, after: Input, step: Step, again: View)
    requires Underway(b, c, after, step) && Home(b, step) == Some(c.t)
    requires Renders(b, after, Moved(c.order, b.ColumnIds(), step.Text(), c.move.to, c.move.position), again)
    ensures AsPlanned(b, c, step.Text(), again)
            <==> StoredAbove(c, step.Text()) == Clamp(c.move.position, |Without(RefsOf(c.view.columns[c.t]), step.Text())|)
  {
    var ref := step.Text();
    MoveAsStored(b, c, after, step, again);
    forall i | 0 <= i < |b.columns| && i != c.t
      ensures RefsOf(again.columns[i]) == Without(RefsOf(c.view.columns[i]), ref)
    {
      OnlyInTarget(b, c, after, step, again, i);
      WithoutAbsent(RefsOf(again.columns[i]), ref);
    }
    ColumnApart(b, after, Moved(c.order, b.ColumnIds(), ref, c.move.to, c.move.position), c.t);
    InsertedAt(RefsOf(again.columns[c.t]), Without(RefsOf(c.view.columns[c.t]), ref), ref, StoredAbove(c, ref), c.move.position);
    LandedParts(b, c, ref, again);
  }

  lemma LandedParts(b: Board, c: Case, ref: string, again: View)
    requires AsStored(b, c, ref, again)
    requires forall i :: 0 <= i < |b.columns| && i != c.t ==> RefsOf(again.columns[i]) == Without(RefsOf(c.view.columns[i]), ref)
    ensures AsPlanned(b, c, ref, again)
            <==> RefsOf(again.columns[c.t]) == InsertAt(Without(RefsOf(c.view.columns[c.t]), ref), ref, c.move.position)
  {
  }

  lemma OnlyInTarget(b: Board, c: Case, after: Input, step: Step, again: View, i: nat)
    requires Underway(b, c, after, step) && Home(b, step) == Some(c.t) && i < |b.columns| && i != c.t
    requires Renders(b, after, Moved(c.order, b.ColumnIds(), step.Text(), c.move.to, c.move.position), again)
    ensures step.Text() !in RefsOf(again.columns[i])
  {
    var moved := Moved(c.order, b.ColumnIds(), step.Text(), c.move.to, c.move.position);
    ItsCandidate(b, c.input, after, step);
    var inside := PlanMeans(b, c, step.cfg, step.Before(b));
    StillMatches(b, step);
    MoveMisses(b, after, moved, again, step.After(b), i);
    RefMembers(again.columns[i], step.Text());
  }

  lemma InsertedAt(refs: seq<string>, others: seq<string>, ref: string, k: nat, position: int)
    requires Distinct(refs) && k < |refs| && refs[k] == ref && Without(refs, ref) == others
    ensures refs == InsertAt(others, ref, position) <==> k == Clamp(position, |others|)
  {
    var p := Clamp(position, |others|);
    AroundRef(refs, ref, k);
    RemovedAt(refs, k);
    if k != p {
      assert InsertAt(others, ref, position)[p] == ref;
    }
  }

  lemma RemovedAt(refs: seq<string>, k: nat)
    requires k < |refs|
    ensures var others := refs[..k] + refs[k + 1..]; refs == others[..k] + [refs[k]] + others[k..]
  {
    var others := refs[..k] + refs[k + 1..];
    assert others[..k] == refs[..k] && others[k..] == refs[k + 1..];
  }

  // ---------------------------------------------------------------- an input

  const TODO := Column("todo", 0, map["*" := ["open"]], [])
  const FIRST := Item("a", "open", NoPriority, 0, false, "")
  const SECOND := Item("b", "open", NoPriority, 0, false, "")

  /** One column, and two items that no list names. */
  function TwoBoard(): Board {
    Board(Kanban, "", [TODO], [], [], (p: Priority, s: string) => true, None, true)
  }

  function TwoInput(parse: string -> Option<Ref>): Input {
    Input(["P"], [Source("P", None, [FIRST, SECOND])], map[], None, parse)
  }

  lemma TwoSupplied(parse: string -> Option<Ref>)
    ensures WellSupplied(TwoBoard(), TwoInput(parse)) && TwoBoard().Scope(["P"]) == ["P"]
    ensures Unrepeated(TwoBoard().ColumnIds()) && FirstWithId(TwoBoard().columns, "todo") == Some(0)
  {
    assert TwoBoard().Scope(["P"]) == ["P"];
    assert FIRST.id != SECOND.id;
  }

  lemma TwoListed(parse: string -> Option<Ref>, it: Item)
    requires it == FIRST || it == SECOND
    ensures LiveCandidate(TwoBoard(), "P", None, it) in Candidates(TwoBoard(), TwoInput(parse))
    ensures PlaceOf(TwoBoard(), None, LiveCandidate(TwoBoard(), "P", None, it)) == In(0)
  {
    var b, input := TwoBoard(), TwoInput(parse);
    var source := Source("P", None, [FIRST, SECOND]);
    TwoSupplied(parse);
    assert SourceOf(input.sources, "P") == Some(source);
    assert source.items[0] == FIRST && source.items[1] == SECOND;
    CandidatesAre(b, input, LiveCandidate(b, "P", None, it));
    assert Supplies(b, input, "P", LiveCandidate(b, "P", None, it));
    assert TODO.Shows("P", None, "open");
  }

  /** Whatever place is asked for, a card moved into a column without a stored list stands first. */
  lemma UnlistedMoveGoesFirst(b: Board, input: Input, order: Listing, ref: string, to: string, t: nat, position: int, view: View)
    requires WellSupplied(b, input) && SoundReader(input.parse) && Unrepeated(b.ColumnIds())
    requires FirstWithId(b.columns, to) == Some(t) && Without(order.Refs(to), ref) == []
    requires Renders(b, input, Moved(order, b.ColumnIds(), ref, to, position), view) && ref in RefsOf(view.columns[t])
    ensures |view.columns[t]| > 0 && view.columns[t][0].ref == ref
  {
    var k := MovedPlace(b, input, order, ref, to, t, position, view);
    assert ShownOf([], RefsOf(view.columns[t])) == {};
  }

  lemma TwoShown(parse: string -> Option<Ref>, order: Listing, view: View, it: Item)
    requires SoundReader(parse) && (it == FIRST || it == SECOND) && Renders(TwoBoard(), TwoInput(parse), order, view)
    ensures TwoCard(it) in view.columns[0]
  {
    var b, input := TwoBoard(), TwoInput(parse);
    TwoSupplied(parse);
    TwoListed(parse, it);
    AppearsInPlace(b, input, order, view, LiveCandidate(b, "P", None, it));
  }

  function TwoCard(it: Item): (c: Card)
    ensures c.ref == "P/" + it.id
  {
    LiveCandidate(TwoBoard(), "P", None, it).card
  }

  lemma FirstOfTwo(b: Board, input: Input, order: Listing, ref: string, to: string, t: nat, position: int, view: View, x: Card, y: Card)
    requires WellSupplied(b, input) && SoundReader(input.parse) && Unrepeated(b.ColumnIds())
    requires FirstWithId(b.columns, to) == Some(t) && Without(order.Refs(to), ref) == []
    requires Renders(b, input, Moved(order, b.ColumnIds(), ref, to, position), view)
    requires x in view.columns[t] && y in view.columns[t] && x.ref == ref != y.ref
    ensures |view.columns[t]| >= 2 && view.columns[t][0].ref == ref
  {
    RefMembers(view.columns[t], ref);
    UnlistedMoveGoesFirst(b, input, order, ref, to, t, position, view);
    TwoPlaces(view.columns[t], x, y);
  }

  lemma TwoRefs()
    ensures TwoCard(FIRST).ref == "P/a" && TwoCard(SECOND).ref == "P/b"
    ensures "P/a" != "P/b" && Without(Listing([], map[]).Refs("todo"), "P/a") == []
  {
    assert "P/a"[2] != "P/b"[2];
  }

  /** A card moved to the second place of a column that no list orders ends up first, above the other card. */
  lemma SecondPlaceMissed(parse: string -> Option<Ref>, view: View)
    requires SoundReader(parse)
    requires Renders(TwoBoard(), TwoInput(parse), Moved(Listing([], map[]), TwoBoard().ColumnIds(), "P/a", "todo", 1), view)
    ensures |view.columns[0]| >= 2 && view.columns[0][0].ref == "P/a"
  {
    var order := Moved(Listing([], map[]), TwoBoard().ColumnIds(), "P/a", "todo", 1);
    TwoSupplied(parse);
    TwoShown(parse, order, view, FIRST);
    TwoShown(parse, order, view, SECOND);
    TwoRefs();
    FirstOfTwo(TwoBoard(), TwoInput(parse), Listing([], map[]), "P/a", "todo", 0, 1, view, TwoCard(FIRST), TwoCard(SECOND));
  }

  lemma TwoPlaces(cards: seq<Card>, x: Card, y: Card)
    requires x in cards && y in cards && x != y
    ensures |cards| >= 2
  {
    var i :| 0 <= i < |cards| && cards[i] == x;
    var j :| 0 <= j < |cards| && cards[j] == y;
  }
}
