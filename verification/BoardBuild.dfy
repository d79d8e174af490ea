/** BuildBoardView: the loops that fill the buckets, add the placeholders and sort the columns. */
module BoardBuild {
  import opened Text
  import opened Ids
  import opened Sorting
  import opened Boards
  import opened BoardOrder
  import opened BoardView

  // ---------------------------------------------------------------- sorting a column

  /** The cards the order list names, or the others, each in their original order. */
  function Pick(cards: seq<Card>, order: seq<string>, listed: bool): (r: seq<Card>)
    ensures forall c :: c in r <==> c in cards && (c.ref in order <==> listed)
  {
    if cards == [] then []
    else (if (cards[0].ref in order) == listed then [cards[0]] else []) + Pick(cards[1..], order, listed)
  }

  lemma {:induction false} PickAppend(cards: seq<Card>, c: Card, order: seq<string>, listed: bool)
    ensures Pick(cards + [c], order, listed) == Pick(cards, order, listed) + if (c.ref in order) == listed then [c] else []
  {
    if cards == [] {
      assert (cards + [c])[1..] == [];
    } else {
      assert (cards + [c])[1..] == cards[1..] + [c];
      PickAppend(cards[1..], c, order, listed);
    }
  }

  function ListedLess(order: seq<string>): (Card, Card) -> bool {
    (a: Card, b: Card) => RankIn(order, a.ref) < RankIn(order, b.ref)
  }

  lemma {:induction false} InsertListed(order: seq<string>, x: Card, listed: seq<Card>, rest: seq<Card>)
    requires x.ref in order && (forall c :: c in listed ==> c.ref in order) && forall c :: c in rest ==> c.ref !in order
    ensures Insert(CardLess(order), x, listed + rest) == Insert(ListedLess(order), x, listed) + rest
  {
    if listed == [] {
      assert listed + rest == rest;
      if rest != [] {
        assert rest[0] in rest;
      }
    } else {
      assert listed[0] in listed;
      assert (listed + rest)[1..] == listed[1..] + rest;
      InsertListed(order, x, listed[1..], rest);
    }
  }

  lemma {:induction false} InsertRest(order: seq<string>, x: Card, listed: seq<Card>, rest: seq<Card>)
    requires x.ref !in order && (forall c :: c in listed ==> c.ref in order) && forall c :: c in rest ==> c.ref !in order
    ensures Insert(CardLess(order), x, listed + rest) == listed + Insert(RankLess, x, rest)
  {
    if listed == [] {
      assert listed + rest == rest;
      InsertUnlisted(order, x, rest);
    } else {
      assert listed[0] in listed;
      assert (listed + rest)[0] == listed[0] && (listed + rest)[1..] == listed[1..] + rest;
      InsertRest(order, x, listed[1..], rest);
      assert RankIn(order, listed[0].ref) < RankIn(order, x.ref);
      assert CardLess(order)(listed[0], x);
      assert listed == [listed[0]] + listed[1..];
      assert [listed[0]] + (listed[1..] + Insert(RankLess, x, rest)) == listed + Insert(RankLess, x, rest);
    }
  }

  lemma {:induction false} InsertUnlisted(order: seq<string>, x: Card, rest: seq<Card>)
    requires x.ref !in order && forall c :: c in rest ==> c.ref !in order
    ensures Insert(CardLess(order), x, rest) == Insert(RankLess, x, rest)
  {
    if rest != [] {
      assert rest[0] in rest;
      InsertUnlisted(order, x, rest[1..]);
    }
  }

  /** Sorting by the list and then by rank is sorting the two halves apart, ties in their original order. */
  lemma {:induction false} SortInHalves(order: seq<string>, cards: seq<Card>)
    ensures Sort(CardLess(order), cards)
            == Sort(ListedLess(order), Pick(cards, order, true)) + Sort(RankLess, Pick(cards, order, false))
  {
    if cards != [] {
      SortInHalves(order, cards[1..]);
      var listed, rest := Pick(cards[1..], order, true), Pick(cards[1..], order, false);
      if cards[0].ref in order {
        assert Pick(cards, order, true) == [cards[0]] + listed && Pick(cards, order, false) == rest;
        InsertListed(order, cards[0], Sort(ListedLess(order), listed), Sort(RankLess, rest));
        assert ([cards[0]] + listed)[1..] == listed;
      } else {
        assert Pick(cards, order, false) == [cards[0]] + rest && Pick(cards, order, true) == listed;
        InsertRest(order, cards[0], Sort(ListedLess(order), listed), Sort(RankLess, rest));
        assert ([cards[0]] + rest)[1..] == rest;
      }
    }
  }

  /** sortBoardCards: the rank of each listed reference, the two halves, and their stable sorts. */
  method SortBoardCards(cards: seq<Card>, order: seq<string>) returns (out: seq<Card>)
    ensures out == Sort(CardLess(order), cards)
  {
    var rank := Ranks(order);
    var listed: seq<Card>, rest: seq<Card> := [], [];
    for i := 0 to |cards|
      invariant listed == Pick(cards[..i], order, true) && rest == Pick(cards[..i], order, false)
    {
      assert cards[..i + 1] == cards[..i] + [cards[i]];
      PickAppend(cards[..i], cards[i], order, true);
      PickAppend(cards[..i], cards[i], order, false);
      if cards[i].ref in rank {
        listed := listed + [cards[i]];
      } else {
        rest := rest + [cards[i]];
      }
    }
    assert cards[..|cards|] == cards;
    SortInHalves(order, cards);
    out := Sort(ListedLess(order), listed) + Sort(RankLess, rest);
  }

  /** The first place of every listed reference. */
  method Ranks(order: seq<string>) returns (rank: map<string, nat>)
    ensures forall ref :: ref in rank <==> ref in order
    ensures forall ref :: ref in rank ==> rank[ref] == RankIn(order, ref)
  {
    rank := map[];
    for i := 0 to |order|
      invariant forall ref :: ref in rank <==> ref in order[..i]
      invariant forall ref :: ref in rank ==> rank[ref] < |order| && order[rank[ref]] == ref && forall k :: 0 <= k < rank[ref] ==> order[k] != ref
    {
      assert order[..i + 1] == order[..i] + [order[i]];
      if order[i] !in rank {
        assert forall k :: 0 <= k < i ==> order[k] in order[..i];
        rank := rank[order[i] := i];
      }
    }
    assert order[..|order|] == order;
  }

  // ---------------------------------------------------------------- the candidates

  lemma BucketAppend(policy: Policy, cands: seq<Candidate>, c: Candidate, place: Place)
    ensures Bucket(policy, cands + [c], place) == Bucket(policy, cands, place) + if policy.place(c) == place then [policy.show(c)] else []
  {
    assert (cands + [c])[..|cands|] == cands;
  }

  lemma RefsAppend(policy: Policy, cands: seq<Candidate>, c: Candidate)
    ensures PlacedRefs(policy, cands + [c]) == PlacedRefs(policy, cands) + if policy.place(c).In? then {c.card.ref} else {}
    ensures KnownRefs(cands + [c]) == KnownRefs(cands) + if c.card.remote then {c.card.ref} else {}
  {
    var more := cands + [c];
    assert forall i :: 0 <= i < |cands| ==> more[i] == cands[i];
    assert more[|cands|] == c;
    forall ref | ref in PlacedRefs(policy, cands)
      ensures ref in PlacedRefs(policy, more)
    {
      var i :| 0 <= i < |cands| && policy.place(cands[i]).In? && cands[i].card.ref == ref;
      assert policy.place(more[i]).In?;
    }
    forall ref | ref in KnownRefs(cands)
      ensures ref in KnownRefs(more)
    {
      var i :| 0 <= i < |cands| && cands[i].card.remote && cands[i].card.ref == ref;
      assert more[i].card.remote;
    }
    assert policy.place(c).In? ==> policy.place(more[|cands|]).In?;
  }

  /** The buckets, the unmapped cards and the references seen so far. */
  datatype Placing = Placing(buckets: seq<seq<Card>>, unmapped: seq<Card>, placed: set<string>, known: set<string>)

  ghost predicate Tallies(policy: Policy, cands: seq<Candidate>, n: nat, p: Placing) {
    && |p.buckets| == n
    && (forall i :: 0 <= i < n ==> p.buckets[i] == Bucket(policy, cands, In(i)))
    && p.unmapped == Bucket(policy, cands, Unmapped)
    && p.placed == PlacedRefs(policy, cands) && p.known == KnownRefs(cands)
  }

  /** Files one candidate. */
  method PlaceOne(b: Board, scoping: Option<Sprint>, c: Candidate, p: Placing, ghost cands: seq<Candidate>, ghost policy: Policy)
    returns (q: Placing)
    requires Tallies(policy, cands, |b.columns|, p)
    requires policy.place(c) == PlaceOf(b, scoping, c) && policy.show(c) == Shown(scoping, c)
    ensures Tallies(policy, cands + [c], |b.columns|, q)
  {
    RefsAppend(policy, cands, c);
    forall place
      ensures Bucket(policy, cands + [c], place) == Bucket(policy, cands, place) + if policy.place(c) == place then [policy.show(c)] else []
    {
      BucketAppend(policy, cands, c, place);
    }
    q := p;
    if c.card.remote {
      q := q.(known := q.known + {c.card.ref});
    }
    match PlaceOf(b, scoping, c) {
      case Dropped =>
      case Unmapped => q := q.(unmapped := q.unmapped + [Shown(scoping, c)]);
      case In(i) => q := q.(buckets := q.buckets[i := q.buckets[i] + [Shown(scoping, c)]], placed := q.placed + {c.card.ref});
    }
  }

  method PlaceAll(b: Board, input: Input, cands: seq<Candidate>) returns (p: Placing)
    ensures Tallies(PolicyOf(b, input), cands, |b.columns|, p)
  {
    var scoping := Scoping(b, input);
    p := Placing(seq(|b.columns|, i => []), [], {}, {});
    for k := 0 to |cands|
      invariant Tallies(PolicyOf(b, input), cands[..k], |b.columns|, p)
    {
      assert cands[..k + 1] == cands[..k] + [cands[k]];
      p := PlaceOne(b, scoping, cands[k], p, cands[..k], PolicyOf(b, input));
    }
    assert cands[..|cands|] == cands;
  }

  // ---------------------------------------------------------------- the placeholders

  /** The buckets with the placeholders found so far. */
  ghost predicate Filled(gate: Gate, start: Placing, extras: seq<Extra>, buckets: seq<seq<Card>>, placed: set<string>) {
    && |buckets| == |start.buckets|
    && (forall i :: 0 <= i < |buckets| ==> buckets[i] == start.buckets[i] + ExtraCards(gate, extras, i))
    && placed == start.placed + ExtraRefs(extras)
  }

  lemma ExtrasAppend(gate: Gate, slots: seq<Slot>, s: Slot, placed: set<string>)
    ensures var before := Extras(gate, slots, placed);
            var ref := gate.parse(s.raw);
            Extras(gate, slots + [s], placed)
            == if ref.Some? && ref.value.Text() !in placed && ref.value.Text() !in ExtraRefs(before) && gate.admits(ref.value)
               then before + [Extra(s.column, ref.value)] else before
  {
    assert (slots + [s])[..|slots|] == slots;
  }

  lemma FilledGrows(gate: Gate, start: Placing, extras: seq<Extra>, buckets: seq<seq<Card>>, placed: set<string>, x: Extra)
    requires Filled(gate, start, extras, buckets, placed) && x.column < |buckets|
    ensures Filled(gate, start, extras + [x], buckets[x.column := buckets[x.column] + [gate.card(x.ref)]], placed + {x.ref.Text()})
  {
    var more := extras + [x];
    assert more[..|extras|] == extras && more[|extras|] == x;
    assert forall i :: 0 <= i < |extras| ==> more[i] == extras[i];
    forall text | text in ExtraRefs(extras)
      ensures text in ExtraRefs(more)
    {
      var i :| 0 <= i < |extras| && extras[i].ref.Text() == text;
      assert more[i].ref.Text() == text;
    }
    assert ExtraRefs(more) == ExtraRefs(extras) + {x.ref.Text()};
  }

  /** The gate decides by these inputs. */
  ghost predicate Fits(gate: Gate, input: Input, scoping: Option<Sprint>, known: set<string>) {
    && gate.parse == input.parse
    && (forall r: Ref :: gate.admits(r) <==>
          (scoping.Some? ==> r.Text() in scoping.value.items) && SourceOf(input.sources, r.project).None? && r.Text() !in known)
    && (forall r: Ref :: gate.card(r) == Placeholder(r.project in input.declared, r))
  }

  lemma GateFits(b: Board, input: Input)
    ensures Fits(GateOf(b, input), input, Scoping(b, input), KnownRefs(Candidates(b, input)))
  {
  }

  /** One reference of the order list. */
  method FillOne(input: Input, scoping: Option<Sprint>, known: set<string>, s: Slot, buckets: seq<seq<Card>>, placed: set<string>,
                 ghost gate: Gate, ghost start: Placing, ghost slots: seq<Slot>)
    returns (buckets': seq<seq<Card>>, placed': set<string>)
    requires Filled(gate, start, Extras(gate, slots, start.placed), buckets, placed) && s.column < |buckets|
    requires Fits(gate, input, scoping, known)
    ensures Filled(gate, start, Extras(gate, slots + [s], start.placed), buckets', placed')
  {
    ExtrasAppend(gate, slots, s, start.placed);
    buckets', placed' := buckets, placed;
    var ref := input.parse(s.raw);
    if ref.None? {
      return;
    }
    var text := ref.value.Text();
    if text in placed {
      return;
    }
    if scoping.Some? && text !in scoping.value.items {
      return;
    }
    if SourceOf(input.sources, ref.value.project).Some? {
      return;
    }
    if text in known {
      return;
    }
    FilledGrows(gate, start, Extras(gate, slots, start.placed), buckets, placed, Extra(s.column, ref.value));
    buckets' := buckets[s.column := buckets[s.column] + [Placeholder(ref.value.project in input.declared, ref.value)]];
    placed' := placed + {text};
  }

  /** Every reference of one column's list. */
  method FillColumn(input: Input, scoping: Option<Sprint>, known: set<string>, column: nat, refs: seq<string>,
                    buckets: seq<seq<Card>>, placed: set<string>, ghost gate: Gate, ghost start: Placing, ghost slots: seq<Slot>)
    returns (buckets': seq<seq<Card>>, placed': set<string>)
    requires Filled(gate, start, Extras(gate, slots, start.placed), buckets, placed) && column < |buckets|
    requires Fits(gate, input, scoping, known)
    ensures Filled(gate, start, Extras(gate, slots + SlotsOf(column, refs), start.placed), buckets', placed')
  {
    buckets', placed' := buckets, placed;
    ghost var more := SlotsOf(column, refs);
    assert slots + more[..0] == slots;
    for k := 0 to |refs|
      invariant |buckets'| == |buckets|
      invariant Filled(gate, start, Extras(gate, slots + more[..k], start.placed), buckets', placed')
    {
      assert slots + more[..k + 1] == slots + more[..k] + [more[k]];
      buckets', placed' := FillOne(input, scoping, known, Slot(column, refs[k]), buckets', placed', gate, start, slots + more[..k]);
    }
    assert more[..|refs|] == more;
  }

  method FillAll(b: Board, input: Input, order: Listing, start: Placing) returns (buckets: seq<seq<Card>>)
    requires Tallies(PolicyOf(b, input), Candidates(b, input), |b.columns|, start)
    ensures |buckets| == |b.columns| && forall i :: 0 <= i < |b.columns| ==> buckets[i] == Contents(b, input, order, i)
  {
    GateFits(b, input);
    var placed;
    buckets, placed := FillColumns(input, Scoping(b, input), b.ColumnIds(), order, start, GateOf(b, input));
  }

  /** The lists of all columns. */
  method FillColumns(input: Input, scoping: Option<Sprint>, ids: seq<string>, order: Listing, start: Placing, ghost gate: Gate)
    returns (buckets: seq<seq<Card>>, placed: set<string>)
    requires |ids| == |start.buckets| && Fits(gate, input, scoping, start.known)
    ensures Filled(gate, start, Extras(gate, Slots(ids, order), start.placed), buckets, placed)
  {
    buckets, placed := start.buckets, start.placed;
    assert Slots(ids[..0], order) == [];
    for ci := 0 to |ids|
      invariant Filled(gate, start, Extras(gate, Slots(ids[..ci], order), start.placed), buckets, placed)
    {
      assert ids[..ci + 1][..ci] == ids[..ci];
      buckets, placed := FillColumn(input, scoping, start.known, ci, order.Refs(ids[ci]), buckets, placed, gate, start, Slots(ids[..ci], order));
    }
    assert ids[..|ids|] == ids;
  }

  method ArrangeColumn(order: Listing, c: Column, bucket: seq<Card>) returns (cards: seq<Card>)
    ensures cards == Arranged(order, c, bucket)
  {
    cards := SortBoardCards(bucket, order.Refs(c.id));
  }

  /** The sorted columns. */
  method SortColumns(columns: seq<Column>, order: Listing, buckets: seq<seq<Card>>, ghost arranged: (Column, seq<Card>) -> seq<Card>)
    returns (out: seq<seq<Card>>)
    requires |buckets| == |columns| && forall c, bucket :: arranged(c, bucket) == Arranged(order, c, bucket)
    ensures |out| == |columns| && forall k :: 0 <= k < |columns| ==> out[k] == arranged(columns[k], buckets[k])
  {
    out := [];
    for i := 0 to |columns|
      invariant |out| == i && forall k :: 0 <= k < i ==> out[k] == arranged(columns[k], buckets[k])
    {
      var cards := ArrangeColumn(order, columns[i], buckets[i]);
      out := out + [cards];
    }
  }

  /** BuildBoardView: every candidate is filed, the order list adds its placeholders, the columns are sorted. */
  method BuildBoardView(b: Board, input: Input, order: Listing) returns (view: View)
    ensures Renders(b, input, order, view)
  {
    var cands := WalkCards(b, input);
    var start := PlaceAll(b, input, cands);
    var buckets := FillAll(b, input, order, start);
    var columns := SortColumns(b.columns, order, buckets, (c: Column, bucket: seq<Card>) => Arranged(order, c, bucket));
    var exceeded := seq(|columns|, i requires 0 <= i < |columns| => Exceeds(b.columns[i], |columns[i]|));
    view := View(columns, Sort(RankLess, start.unmapped), exceeded);
  }
}
