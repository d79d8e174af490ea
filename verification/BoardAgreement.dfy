/** A stored order list and the render agree, and the render does not depend on how its inputs are listed. */
module BoardAgreement {
  import opened Text
  import opened Ids
  import opened Sorting
  import opened Boards
  import opened BoardOrder
  import opened BoardView
  import opened BoardCards
  import opened BoardFacts

  // ---------------------------------------------------------------- the orders

  lemma RankOrder()
    ensures WeakOrder(RankLess)
  {
    forall a: Card, b: Card | RankLess(a, b)
      ensures !RankLess(b, a)
    {
      if Less(a.ref, b.ref) {
        LessAsymmetric(a.ref, b.ref);
      }
    }
    forall a: Card, b: Card, c: Card | !RankLess(a, b) && !RankLess(b, c)
      ensures !RankLess(a, c)
    {
      if !Less(a.ref, b.ref) && !Less(b.ref, c.ref) {
        LessNegativelyTransitive(a.ref, b.ref, c.ref);
      }
    }
  }

  lemma CardOrder(order: seq<string>)
    ensures WeakOrder(CardLess(order))
  {
    RankOrder();
    var less := CardLess(order);
    forall a: Card, b: Card | less(a, b)
      ensures !less(b, a)
    {
    }
    forall a: Card, b: Card, c: Card | !less(a, b) && !less(b, c)
      ensures !less(a, c)
    {
      CardStep(order, a, b, c);
    }
  }

  lemma CardStep(order: seq<string>, a: Card, b: Card, c: Card)
    requires !CardLess(order)(a, b) && !CardLess(order)(b, c) && NegativelyTransitive(RankLess)
    ensures !CardLess(order)(a, c)
  {
    var ra, rb, rc := RankIn(order, a.ref), RankIn(order, b.ref), RankIn(order, c.ref);
    assert ra >= rb && rb >= rc;
    if a.ref !in order && c.ref !in order {
      assert rb == |order| && b.ref !in order;
      assert !RankLess(a, b) && !RankLess(b, c);
    }
  }

  lemma RankSeparates(cards: seq<Card>)
    requires CardsApart(cards)
    ensures Separates(RankLess, cards)
  {
    forall x, y | x in cards && y in cards && x != y
      ensures RankLess(x, y) || RankLess(y, x)
    {
      Apart(cards, x, y);
      LessConnected(x.ref, y.ref);
    }
  }

  lemma Apart(cards: seq<Card>, x: Card, y: Card)
    requires CardsApart(cards) && x in cards && y in cards && x != y
    ensures x.ref != y.ref
  {
    var i :| 0 <= i < |cards| && cards[i] == x;
    var j :| 0 <= j < |cards| && cards[j] == y;
  }

  lemma CardSeparates(order: seq<string>, cards: seq<Card>)
    requires CardsApart(cards)
    ensures Separates(CardLess(order), cards)
  {
    RankSeparates(cards);
    forall x, y | x in cards && y in cards && x != y
      ensures CardLess(order)(x, y) || CardLess(order)(y, x)
    {
      Apart(cards, x, y);
      if x.ref in order || y.ref in order {
        RanksDiffer(order, x.ref, y.ref);
      }
    }
  }

  lemma RanksDiffer(order: seq<string>, a: string, b: string)
    requires a != b && (a in order || b in order)
    ensures RankIn(order, a) != RankIn(order, b)
  {
  }

  // ---------------------------------------------------------------- listing order of the inputs

  lemma {:induction false} ExtrasAlike(gate: Gate, other: Gate, slots: seq<Slot>, placed: set<string>)
    requires gate.parse == other.parse && forall r: Ref :: gate.admits(r) == other.admits(r)
    ensures Extras(gate, slots, placed) == Extras(other, slots, placed)
  {
    if slots != [] {
      ExtrasAlike(gate, other, slots[..|slots| - 1], placed);
    }
  }

  lemma SamePolicy(b: Board, input: Input, other: Input)
    requires SameSupply(input, other)
    ensures forall c :: PolicyOf(b, input).place(c) == PolicyOf(b, other).place(c) && PolicyOf(b, input).show(c) == PolicyOf(b, other).show(c)
  {
  }

  lemma SameRefs(b: Board, input: Input, other: Input)
    requires SameSupply(input, other)
    ensures PlacedRefs(PolicyOf(b, input), Candidates(b, input)) == PlacedRefs(PolicyOf(b, other), Candidates(b, other))
    ensures KnownRefs(Candidates(b, input)) == KnownRefs(Candidates(b, other))
  {
    SamePolicy(b, input, other);
    forall c
      ensures c in Candidates(b, input) <==> c in Candidates(b, other)
    {
      SameCandidates(b, input, other, c);
    }
    forall ref
      ensures ref in PlacedRefs(PolicyOf(b, input), Candidates(b, input)) <==> ref in PlacedRefs(PolicyOf(b, other), Candidates(b, other))
      ensures ref in KnownRefs(Candidates(b, input)) <==> ref in KnownRefs(Candidates(b, other))
    {
      PlacedRef(PolicyOf(b, input), Candidates(b, input), ref);
      PlacedRef(PolicyOf(b, other), Candidates(b, other), ref);
      KnownRef(Candidates(b, input), ref);
      KnownRef(Candidates(b, other), ref);
    }
  }

  lemma SamePlaceholders(b: Board, input: Input, other: Input, order: Listing)
    requires SameSupply(input, other)
    ensures PlaceholdersOf(b, input, order) == PlaceholdersOf(b, other, order)
    ensures forall r: Ref :: GateOf(b, input).card(r) == GateOf(b, other).card(r)
  {
    SameRefs(b, input, other);
    forall r: Ref
      ensures GateOf(b, input).admits(r) == GateOf(b, other).admits(r)
    {
      assert SameSource(SourceOf(input.sources, r.project), SourceOf(other.sources, r.project));
    }
    ExtrasAlike(GateOf(b, input), GateOf(b, other), Slots(b.ColumnIds(), order), PlacedRefs(PolicyOf(b, input), Candidates(b, input)));
  }

  lemma SameBucket(b: Board, input: Input, other: Input, place: Place, card: Card)
    requires SameSupply(input, other)
    ensures card in Bucket(PolicyOf(b, input), Candidates(b, input), place) <==> card in Bucket(PolicyOf(b, other), Candidates(b, other), place)
  {
    SamePolicy(b, input, other);
    BucketMembers(PolicyOf(b, input), Candidates(b, input), place, card);
    BucketMembers(PolicyOf(b, other), Candidates(b, other), place, card);
    forall c
      ensures c in Candidates(b, input) <==> c in Candidates(b, other)
    {
      SameCandidates(b, input, other, c);
    }
  }

  lemma SameContents(b: Board, input: Input, other: Input, order: Listing, i: nat, card: Card)
    requires SameSupply(input, other)
    ensures card in Contents(b, input, order, i) <==> card in Contents(b, other, order, i)
  {
    SameBucket(b, input, other, In(i), card);
    SamePlaceholders(b, input, other, order);
    ExtraMembers(GateOf(b, input), PlaceholdersOf(b, input, order), i, card);
    ExtraMembers(GateOf(b, other), PlaceholdersOf(b, other, order), i, card);
  }

  /** Listing the repositories, their items and the snapshots' entries in any other order changes no column and
      not the unmapped cards. */
  lemma ListingOrderIrrelevant(b: Board, input: Input, other: Input, order: Listing, view: View, view': View)
    requires SameSupply(input, other) && WellSupplied(b, input) && WellSupplied(b, other) && SoundReader(input.parse)
    requires Renders(b, input, order, view) && Renders(b, other, order, view')
    ensures view == view'
  {
    forall i | 0 <= i < |b.columns|
      ensures view.columns[i] == view'.columns[i]
    {
      var refs := order.Refs(b.columns[i].id);
      ContentsApart(b, input, order, i);
      ContentsApart(b, other, order, i);
      forall card
        ensures card in Contents(b, input, order, i) <==> card in Contents(b, other, order, i)
      {
        SameContents(b, input, other, order, i, card);
      }
      SameCards(Contents(b, input, order, i), Contents(b, other, order, i));
      CardOrder(refs);
      CardSeparates(refs, Contents(b, input, order, i));
      SortForgets(CardLess(refs), Contents(b, input, order, i), Contents(b, other, order, i));
    }
    UnmappedIrrelevant(b, input, other);
    assert view.columns == view'.columns && view.exceeded == view'.exceeded;
  }

  lemma UnmappedIrrelevant(b: Board, input: Input, other: Input)
    requires SameSupply(input, other) && WellSupplied(b, input) && WellSupplied(b, other)
    ensures Sort(RankLess, Bucket(PolicyOf(b, input), Candidates(b, input), Unmapped))
            == Sort(RankLess, Bucket(PolicyOf(b, other), Candidates(b, other), Unmapped))
  {
    var x, y := Bucket(PolicyOf(b, input), Candidates(b, input), Unmapped), Bucket(PolicyOf(b, other), Candidates(b, other), Unmapped);
    CandidatesApart(b, input);
    CandidatesApart(b, other);
    BucketApart(PolicyOf(b, input), Candidates(b, input), Unmapped);
    BucketApart(PolicyOf(b, other), Candidates(b, other), Unmapped);
    forall card
      ensures card in x <==> card in y
    {
      SameBucket(b, input, other, Unmapped, card);
    }
    SameCards(x, y);
    RankOrder();
    RankSeparates(x);
    SortForgets(RankLess, x, y);
  }

  /** Of two cards of a column that the list does not name, the one with the smaller priority rank stands first:
      a low one before a critical one. */
  lemma SmallerRankFirst(b: Board, input: Input, order: Listing, view: View, i: nat, j: nat, k: nat)
    requires Renders(b, input, order, view) && i < |b.columns| && j < |view.columns[i]| && k < |view.columns[i]|
    requires var refs := order.Refs(b.columns[i].id); view.columns[i][j].ref !in refs && view.columns[i][k].ref !in refs
    ensures view.columns[i][j].priority.Rank() < view.columns[i][k].priority.Rank() ==> j < k
    ensures view.columns[i][j].priority == Low && view.columns[i][k].priority == Critical ==> j < k
  {
    var refs := order.Refs(b.columns[i].id);
    CardOrder(refs);
    SortSorted(CardLess(refs), Contents(b, input, order, i));
    if k < j {
      assert !CardLess(refs)(view.columns[i][j], view.columns[i][k]);
    }
  }

  // ---------------------------------------------------------------- lists that name exactly the cards

  function RefsOf(cards: seq<Card>): (r: seq<string>)
    ensures |r| == |cards| && forall i :: 0 <= i < |cards| ==> r[i] == cards[i].ref
  {
    seq(|cards|, i requires 0 <= i < |cards| => cards[i].ref)
  }

  lemma RefMembers(cards: seq<Card>, ref: string)
    ensures ref in RefsOf(cards) <==> exists card :: card in cards && card.ref == ref
  {
    if ref in RefsOf(cards) {
      var i :| 0 <= i < |cards| && RefsOf(cards)[i] == ref;
      assert cards[i] in cards;
    }
    if card :| card in cards && card.ref == ref {
      var i :| 0 <= i < |cards| && cards[i] == card;
      assert RefsOf(cards)[i] == ref;
    }
  }

  lemma {:induction false} InListOrder(list: seq<string>, cards: seq<Card>) returns (t: seq<Card>)
    requires forall ref :: ref in list ==> exists card :: card in cards && card.ref == ref
    ensures RefsOf(t) == list && forall card :: card in t ==> card in cards
  {
    t := [];
    if list != [] {
      var n := |list| - 1;
      assert forall ref :: ref in list[..n] ==> ref in list;
      t := InListOrder(list[..n], cards);
      assert list[n] in list;
      var card :| card in cards && card.ref == list[n];
      t := t + [card];
      assert list == list[..n] + [list[n]];
      assert RefsOf(t) == list;
    }
  }

  lemma RankOfPlace(list: seq<string>, i: nat)
    requires Distinct(list) && i < |list|
    ensures RankIn(list, list[i]) == i
  {
  }

  /** A list that names exactly the cards of a column arranges them in its own order. */
  lemma ArrangedByList(list: seq<string>, cards: seq<Card>)
    requires Distinct(list) && CardsApart(cards) && forall ref :: ref in list <==> ref in RefsOf(cards)
    ensures RefsOf(Sort(CardLess(list), cards)) == list
  {
    forall ref | ref in list
      ensures exists card :: card in cards && card.ref == ref
    {
      RefMembers(cards, ref);
    }
    var t := InListOrder(list, cards);
    assert forall i :: 0 <= i < |t| ==> RefsOf(t)[i] == t[i].ref;
    assert CardsApart(t);
    forall card | card in cards
      ensures card in t
    {
      RefMembers(cards, card.ref);
      assert card.ref in list;
      RefMembers(t, card.ref);
      var other :| other in t && other.ref == card.ref;
      if other != card {
        Apart(cards, other, card);
      }
    }
    SameCards(t, cards);
    CardOrder(list);
    CardSeparates(list, t);
    ListSorted(list, t);
    SortFixes(CardLess(list), cards, t);
  }

  lemma ListSorted(list: seq<string>, t: seq<Card>)
    requires Distinct(list) && RefsOf(t) == list
    ensures Sorted(CardLess(list), t)
  {
    forall i, j | 0 <= i < j < |t|
      ensures !CardLess(list)(t[j], t[i])
    {
      RankOfPlace(list, i);
      RankOfPlace(list, j);
      assert t[i].ref == list[i] && t[j].ref == list[j];
    }
  }

  // ---------------------------------------------------------------- faithful order lists

  /** A reference the order list may carry for a column: a candidate's that goes there, or a placeholder's; and
      when it parses it is written the way it is read. */
  ghost predicate Carries(b: Board, input: Input, i: nat, ref: string) {
    && (input.parse(ref).Some? ==> input.parse(ref).value.Text() == ref)
    && ((exists c :: c in Candidates(b, input) && PlaceOf(b, Scoping(b, input), c) == In(i) && c.card.ref == ref)
        || (input.parse(ref).Some? && GateOf(b, input).admits(input.parse(ref).value)
            && forall c :: c in Candidates(b, input) ==> c.card.ref != ref))
  }

  /** The order list names, column by column, exactly the cards of the board, each once. */
  ghost predicate Faithful(b: Board, input: Input, order: Listing) {
    && (forall i :: 0 <= i < |b.columns| ==> Distinct(order.Refs(b.columns[i].id)))
    && (forall i, j, ref :: 0 <= i < |b.columns| && 0 <= j < |b.columns| ==>
          ref in order.Refs(b.columns[i].id) && ref in order.Refs(b.columns[j].id) ==> i == j)
    && (forall i, ref :: 0 <= i < |b.columns| && ref in order.Refs(b.columns[i].id) ==> Carries(b, input, i, ref))
    && (forall i, c :: 0 <= i < |b.columns| && c in Candidates(b, input) && PlaceOf(b, Scoping(b, input), c) == In(i) ==>
          c.card.ref in order.Refs(b.columns[i].id))
  }

  lemma ContentsListed(b: Board, input: Input, order: Listing, i: nat, ref: string)
    requires WellSupplied(b, input) && SoundReader(input.parse) && Faithful(b, input, order) && i < |b.columns|
    requires ref in RefsOf(Contents(b, input, order, i))
    ensures ref in order.Refs(b.columns[i].id)
  {
    var policy, cands, gate, extras := PolicyOf(b, input), Candidates(b, input), GateOf(b, input), PlaceholdersOf(b, input, order);
    RefMembers(Contents(b, input, order, i), ref);
    var card :| card in Contents(b, input, order, i) && card.ref == ref;
    BucketMembers(policy, cands, In(i), card);
    ExtraMembers(gate, extras, i, card);
    if card !in Bucket(policy, cands, In(i)) {
      var x :| x in extras && x.column == i && gate.card(x.ref) == card;
      PlaceholderFacts(b, input, order, x);
      var raw :| raw in order.Refs(b.columns[i].id) && input.parse(raw) == Some(x.ref);
      assert Carries(b, input, i, raw);
    }
  }

  lemma ListedInContents(b: Board, input: Input, order: Listing, i: nat, ref: string)
    requires WellSupplied(b, input) && SoundReader(input.parse) && Faithful(b, input, order) && i < |b.columns|
    requires ref in order.Refs(b.columns[i].id)
    ensures ref in RefsOf(Contents(b, input, order, i))
  {
    var policy, cands := PolicyOf(b, input), Candidates(b, input);
    assert Carries(b, input, i, ref);
    RefMembers(Contents(b, input, order, i), ref);
    if c :| c in cands && PlaceOf(b, Scoping(b, input), c) == In(i) && c.card.ref == ref {
      BucketMembers(policy, cands, In(i), policy.show(c));
    } else {
      PlaceholderListed(b, input, order, i, ref);
    }
  }

  lemma PlaceholderListed(b: Board, input: Input, order: Listing, i: nat, ref: string)
    requires WellSupplied(b, input) && SoundReader(input.parse) && Faithful(b, input, order) && i < |b.columns|
    requires ref in order.Refs(b.columns[i].id) && input.parse(ref).Some? && input.parse(ref).value.Text() == ref
    requires GateOf(b, input).admits(input.parse(ref).value) && forall c :: c in Candidates(b, input) ==> c.card.ref != ref
    ensures exists card :: card in Contents(b, input, order, i) && card.ref == ref
  {
    var policy, cands, gate := PolicyOf(b, input), Candidates(b, input), GateOf(b, input);
    var slots := Slots(b.ColumnIds(), order);
    SlotMembers(b.ColumnIds(), order, Slot(i, ref));
    var k :| 0 <= k < |slots| && slots[k] == Slot(i, ref);
    PlacedRef(policy, cands, ref);
    ExtrasCover(gate, slots, PlacedRefs(policy, cands), k);
    var x :| x in PlaceholdersOf(b, input, order) && x.ref.Text() == ref;
    PlaceholderFacts(b, input, order, x);
    var raw :| raw in order.Refs(b.columns[x.column].id) && input.parse(raw) == Some(x.ref);
    assert Carries(b, input, x.column, raw);
    assert raw == ref;
    ExtraMembers(gate, PlaceholdersOf(b, input, order), i, gate.card(x.ref));
  }

  /** A faithful order list is what the render shows, column by column. */
  lemma FaithfulShown(b: Board, input: Input, order: Listing, i: nat)
    requires WellSupplied(b, input) && SoundReader(input.parse) && Faithful(b, input, order) && i < |b.columns|
    ensures RefsOf(ColumnCards(b, input, order, i)) == order.Refs(b.columns[i].id)
  {
    forall ref
      ensures ref in order.Refs(b.columns[i].id) <==> ref in RefsOf(Contents(b, input, order, i))
    {
      if ref in order.Refs(b.columns[i].id) {
        ListedInContents(b, input, order, i, ref);
      }
      if ref in RefsOf(Contents(b, input, order, i)) {
        ContentsListed(b, input, order, i, ref);
      }
    }
    ContentsApart(b, input, order, i);
    ArrangedByList(order.Refs(b.columns[i].id), Contents(b, input, order, i));
  }

  // ---------------------------------------------------------------- OrderFromView

  /** Whatever a card's reference parses to is written the same way. */
  ghost predicate CleanRefs(b: Board, input: Input) {
    forall c :: c in Candidates(b, input) && input.parse(c.card.ref).Some? ==> input.parse(c.card.ref).value.Text() == c.card.ref
  }

  /** The lists a view shows. */
  ghost predicate ListsView(b: Board, view: View, order: Listing) {
    |view.columns| == |b.columns| && forall i :: 0 <= i < |b.columns| ==> order.Refs(b.columns[i].id) == RefsOf(view.columns[i])
  }

  /** OrderFromView: a fresh order list holding the references each column shows. */
  method OrderFromView(b: Board, view: View) returns (order: Order)
    requires |view.columns| == |b.columns|
    ensures fresh(order) && order.Valid()
    ensures Unrepeated(b.ColumnIds()) ==> ListsView(b, view, order.Now()) && order.columns == b.ColumnIds()
    ensures forall c :: c in order.Now().refs <==> c in b.ColumnIds()
  {
    order := new Order();
    var ids := b.ColumnIds();
    for i := 0 to |ids|
      invariant fresh(order) && order.Valid()
      invariant forall c :: c in order.Now().refs <==> c in ids[..i]
      invariant Unrepeated(ids) ==> order.columns == ids[..i]
      invariant Unrepeated(ids) ==> forall k :: 0 <= k < i ==> order.Now().Refs(ids[k]) == RefsOf(view.columns[k])
    {
      assert ids[..i + 1] == ids[..i] + [ids[i]];
      order.Set(ids[i], RefsOf(view.columns[i]));
    }
    assert ids[..|ids|] == ids;
  }

  lemma ShownCarries(b: Board, input: Input, order: Listing, i: nat, card: Card)
    requires WellSupplied(b, input) && SoundReader(input.parse) && CleanRefs(b, input) && i < |b.columns|
    requires card in ColumnCards(b, input, order, i)
    ensures Carries(b, input, i, card.ref)
  {
    ColumnMembers(b, input, order, i, card);
    if c :| c in Candidates(b, input) && PlaceOf(b, Scoping(b, input), c) == In(i) && Shown(Scoping(b, input), c) == card {
    } else {
      var x :| x in PlaceholdersOf(b, input, order) && x.column == i && GateOf(b, input).card(x.ref) == card;
      PlaceholderFacts(b, input, order, x);
      ExtrasFounded(GateOf(b, input), Slots(b.ColumnIds(), order), PlacedRefs(PolicyOf(b, input), Candidates(b, input)));
    }
  }

  /** The list a view shows is faithful. */
  lemma ViewFaithful(b: Board, input: Input, order: Listing, view: View, listed: Listing)
    requires WellSupplied(b, input) && SoundReader(input.parse) && CleanRefs(b, input)
    requires Renders(b, input, order, view) && ListsView(b, view, listed)
    ensures Faithful(b, input, listed)
  {
    forall i | 0 <= i < |b.columns|
      ensures Distinct(listed.Refs(b.columns[i].id))
    {
      ColumnApart(b, input, order, i);
    }
    forall i, ref | 0 <= i < |b.columns| && ref in listed.Refs(b.columns[i].id)
      ensures Carries(b, input, i, ref)
    {
      RefMembers(view.columns[i], ref);
      var card :| card in view.columns[i] && card.ref == ref;
      ShownCarries(b, input, order, i, card);
    }
    forall i, j, ref | 0 <= i < |b.columns| && 0 <= j < |b.columns| && ref in listed.Refs(b.columns[i].id) && ref in listed.Refs(b.columns[j].id)
      ensures i == j
    {
      InOneColumn(b, input, order, view, i, j, ref);
    }
    forall i, c | 0 <= i < |b.columns| && c in Candidates(b, input) && PlaceOf(b, Scoping(b, input), c) == In(i)
      ensures c.card.ref in listed.Refs(b.columns[i].id)
    {
      AppearsInPlace(b, input, order, view, c);
      RefMembers(view.columns[i], c.card.ref);
    }
  }

  lemma InOneColumn(b: Board, input: Input, order: Listing, view: View, i: nat, j: nat, ref: string)
    requires WellSupplied(b, input) && SoundReader(input.parse) && Renders(b, input, order, view) && i < |b.columns| && j < |b.columns|
    requires ref in RefsOf(view.columns[i]) && ref in RefsOf(view.columns[j])
    ensures i == j
  {
    RefMembers(view.columns[i], ref);
    RefMembers(view.columns[j], ref);
    var x :| x in view.columns[i] && x.ref == ref;
    var y :| y in view.columns[j] && y.ref == ref;
    ColumnMembers(b, input, order, i, x);
    ColumnMembers(b, input, order, j, y);
    OneColumn(b, input, order, i, x, j, y);
  }

  /** A card is the same in any two renders of one board that show its reference. */
  lemma SameCard(b: Board, input: Input, order: Listing, i: nat, x: Card, order': Listing, j: nat, y: Card)
    requires WellSupplied(b, input) && SoundReader(input.parse)
    requires Belongs(b, input, order, i, x) && Belongs(b, input, order', j, y) && x.ref == y.ref
    ensures x == y
  {
    var scoping, cands, gate := Scoping(b, input), Candidates(b, input), GateOf(b, input);
    CandidatesApart(b, input);
    if c :| c in cands && PlaceOf(b, scoping, c) == In(i) && Shown(scoping, c) == x {
      if d :| d in cands && PlaceOf(b, scoping, d) == In(j) && Shown(scoping, d) == y {
        SameCandidate(cands, c, d);
      } else {
        var f :| f in PlaceholdersOf(b, input, order') && f.column == j && gate.card(f.ref) == y;
        PlaceholderFacts(b, input, order', f);
      }
    } else {
      var e :| e in PlaceholdersOf(b, input, order) && e.column == i && gate.card(e.ref) == x;
      PlaceholderFacts(b, input, order, e);
      if f :| f in PlaceholdersOf(b, input, order') && f.column == j && gate.card(f.ref) == y {
        PlaceholderFacts(b, input, order', f);
      }
    }
  }

  lemma SameColumn(b: Board, input: Input, order: Listing, listed: Listing, i: nat)
    requires WellSupplied(b, input) && SoundReader(input.parse) && i < |b.columns|
    requires RefsOf(ColumnCards(b, input, listed, i)) == RefsOf(ColumnCards(b, input, order, i))
    ensures ColumnCards(b, input, listed, i) == ColumnCards(b, input, order, i)
  {
    var xs, ys := ColumnCards(b, input, order, i), ColumnCards(b, input, listed, i);
    assert |ys| == |RefsOf(ys)| == |xs|;
    forall k | 0 <= k < |xs|
      ensures ys[k] == xs[k]
    {
      assert xs[k].ref == RefsOf(xs)[k] == RefsOf(ys)[k] == ys[k].ref;
      ColumnMembers(b, input, order, i, xs[k]);
      ColumnMembers(b, input, listed, i, ys[k]);
      SameCard(b, input, order, i, xs[k], listed, i, ys[k]);
    }
  }

  /** Storing the order a view shows and rendering again shows the same view. */
  lemma OrderAgrees(b: Board, input: Input, order: Listing, view: View, listed: Listing, again: View)
    requires WellSupplied(b, input) && SoundReader(input.parse) && CleanRefs(b, input)
    requires Renders(b, input, order, view) && ListsView(b, view, listed) && Renders(b, input, listed, again)
    ensures again == view
  {
    ViewFaithful(b, input, order, view, listed);
    forall i | 0 <= i < |b.columns|
      ensures again.columns[i] == view.columns[i]
    {
      FaithfulShown(b, input, listed, i);
      SameColumn(b, input, order, listed, i);
    }
    assert again.columns == view.columns && again.exceeded == view.exceeded;
  }
}
