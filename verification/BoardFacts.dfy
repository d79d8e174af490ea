/** What every render satisfies: it is a partition of the matching candidates, placeholders stand only for
    references nothing else resolves, and the listing order of repositories and items does not matter. */
module BoardFacts {
  import opened Text
  import opened Ids
  import opened Sorting
  import opened Boards
  import opened BoardOrder
  import opened BoardView
  import opened BoardCards

  // ---------------------------------------------------------------- buckets

  lemma {:induction false} BucketMembers(policy: Policy, cands: seq<Candidate>, place: Place, card: Card)
    ensures card in Bucket(policy, cands, place) <==> exists c :: c in cands && policy.place(c) == place && policy.show(c) == card
  {
    if cands != [] {
      var n := |cands| - 1;
      BucketMembers(policy, cands[..n], place, card);
      assert cands == cands[..n] + [cands[n]];
      assert forall c :: c in cands <==> c in cands[..n] || c == cands[n];
    }
  }

  ghost predicate CardsApart(cards: seq<Card>) {
    forall i, j :: 0 <= i < j < |cards| ==> cards[i].ref != cards[j].ref
  }

  /** A policy shows a card under its own reference. */
  ghost predicate Keeps(policy: Policy) {
    forall c :: policy.show(c).ref == c.card.ref
  }

  lemma {:induction false} BucketApart(policy: Policy, cands: seq<Candidate>, place: Place)
    requires RefsApart(cands) && Keeps(policy)
    ensures CardsApart(Bucket(policy, cands, place))
  {
    if cands != [] {
      var n := |cands| - 1;
      BucketApart(policy, cands[..n], place);
      forall card | card in Bucket(policy, cands[..n], place)
        ensures card.ref != cands[n].card.ref
      {
        BucketMembers(policy, cands[..n], place, card);
      }
    }
  }

  // ---------------------------------------------------------------- placeholders

  /** Where a placeholder comes from: an admitted reference of its column that nothing placed. */
  ghost predicate Founded(gate: Gate, slots: seq<Slot>, placed: set<string>, x: Extra) {
    && x.ref.Text() !in placed && gate.admits(x.ref)
    && exists i :: 0 <= i < |slots| && slots[i].column == x.column && gate.parse(slots[i].raw) == Some(x.ref)
  }

  lemma {:induction false} ExtrasFounded(gate: Gate, slots: seq<Slot>, placed: set<string>)
    ensures forall x :: x in Extras(gate, slots, placed) ==> Founded(gate, slots, placed, x)
    ensures forall i, j :: 0 <= i < j < |Extras(gate, slots, placed)| ==>
              Extras(gate, slots, placed)[i].ref.Text() != Extras(gate, slots, placed)[j].ref.Text()
  {
    if slots != [] {
      var n := |slots| - 1;
      var before, extras := Extras(gate, slots[..n], placed), Extras(gate, slots, placed);
      ExtrasFounded(gate, slots[..n], placed);
      forall x | x in extras
        ensures Founded(gate, slots, placed, x)
      {
        if x in before {
          var i :| 0 <= i < n && slots[..n][i].column == x.column && gate.parse(slots[..n][i].raw) == Some(x.ref);
          assert slots[i] == slots[..n][i];
        } else {
          assert slots[n].column == x.column && gate.parse(slots[n].raw) == Some(x.ref);
        }
      }
      assert forall i :: 0 <= i < |before| ==> before[i].ref.Text() in ExtraRefs(before);
    }
  }

  /** Every admitted reference that nothing placed has a placeholder. */
  lemma {:induction false} ExtrasCover(gate: Gate, slots: seq<Slot>, placed: set<string>, k: nat)
    requires k < |slots| && gate.parse(slots[k].raw).Some?
    requires gate.parse(slots[k].raw).value.Text() !in placed && gate.admits(gate.parse(slots[k].raw).value)
    ensures exists x :: x in Extras(gate, slots, placed) && x.ref.Text() == gate.parse(slots[k].raw).value.Text()
    decreases |slots|
  {
    var n := |slots| - 1;
    var before, text := Extras(gate, slots[..n], placed), gate.parse(slots[k].raw).value.Text();
    if k < n {
      ExtrasCover(gate, slots[..n], placed, k);
      var x :| x in before && x.ref.Text() == text;
      assert x in Extras(gate, slots, placed);
    } else if text in ExtraRefs(before) {
      var i :| 0 <= i < |before| && before[i].ref.Text() == text;
      assert before[i] in Extras(gate, slots, placed);
    } else {
      var x := Extra(slots[n].column, gate.parse(slots[k].raw).value);
      assert Extras(gate, slots, placed) == before + [x];
      assert x in Extras(gate, slots, placed);
    }
  }

  lemma {:induction false} ExtraMembers(gate: Gate, extras: seq<Extra>, column: nat, card: Card)
    ensures card in ExtraCards(gate, extras, column) <==> exists x :: x in extras && x.column == column && gate.card(x.ref) == card
  {
    if extras != [] {
      var n := |extras| - 1;
      ExtraMembers(gate, extras[..n], column, card);
      assert extras == extras[..n] + [extras[n]];
      assert forall x :: x in extras <==> x in extras[..n] || x == extras[n];
    }
  }

  ghost predicate Stands(gate: Gate) {
    forall r: Ref :: gate.card(r).ref == r.Text()
  }

  lemma {:induction false} ExtraCardsApart(gate: Gate, extras: seq<Extra>, column: nat)
    requires Stands(gate)
    requires forall i, j :: 0 <= i < j < |extras| ==> extras[i].ref.Text() != extras[j].ref.Text()
    ensures CardsApart(ExtraCards(gate, extras, column))
  {
    if extras != [] {
      var n := |extras| - 1;
      ExtraCardsApart(gate, extras[..n], column);
      forall card | card in ExtraCards(gate, extras[..n], column)
        ensures card.ref != extras[n].ref.Text()
      {
        ExtraMembers(gate, extras[..n], column, card);
        var x :| x in extras[..n] && x.column == column && gate.card(x.ref) == card;
        var i :| 0 <= i < n && extras[i] == x;
      }
    }
  }

  // ---------------------------------------------------------------- slots

  lemma {:induction false} SlotMembers(columns: seq<string>, order: Listing, s: Slot)
    ensures s in Slots(columns, order) <==> s.column < |columns| && s.raw in order.Refs(columns[s.column])
  {
    if columns != [] {
      var n := |columns| - 1;
      SlotMembers(columns[..n], order, s);
      var refs := order.Refs(columns[n]);
      if s.column == n && s.raw in refs {
        var i :| 0 <= i < |refs| && refs[i] == s.raw;
        assert SlotsOf(n, refs)[i] == s;
      }
    }
  }

  // ---------------------------------------------------------------- columns of a render

  /** Why a card is in a column: it is a candidate's that goes there, or a placeholder standing there. */
  ghost predicate Belongs(b: Board, input: Input, order: Listing, i: nat, card: Card) {
    || (exists c :: c in Candidates(b, input) && PlaceOf(b, Scoping(b, input), c) == In(i) && Shown(Scoping(b, input), c) == card)
    || (exists x :: x in PlaceholdersOf(b, input, order) && x.column == i && GateOf(b, input).card(x.ref) == card)
  }

  lemma ColumnMembers(b: Board, input: Input, order: Listing, i: nat, card: Card)
    requires i < |b.columns|
    ensures card in ColumnCards(b, input, order, i) <==> Belongs(b, input, order, i, card)
  {
    BucketMembers(PolicyOf(b, input), Candidates(b, input), In(i), card);
    ExtraMembers(GateOf(b, input), PlaceholdersOf(b, input, order), i, card);
  }

  lemma UnmappedMembers(b: Board, input: Input, order: Listing, view: View, card: Card)
    requires Renders(b, input, order, view)
    ensures card in view.unmapped
            <==> exists c :: c in Candidates(b, input) && PlaceOf(b, Scoping(b, input), c) == Unmapped && Shown(Scoping(b, input), c) == card
  {
    BucketMembers(PolicyOf(b, input), Candidates(b, input), Unmapped, card);
  }

  lemma PlacedRef(policy: Policy, cands: seq<Candidate>, ref: string)
    ensures ref in PlacedRefs(policy, cands) <==> exists c :: c in cands && policy.place(c).In? && c.card.ref == ref
  {
    if c :| c in cands && policy.place(c).In? && c.card.ref == ref {
      var i :| 0 <= i < |cands| && cands[i] == c;
    }
  }

  lemma KnownRef(cands: seq<Candidate>, ref: string)
    ensures ref in KnownRefs(cands) <==> exists c :: c in cands && c.card.remote && c.card.ref == ref
  {
    if c :| c in cands && c.card.remote && c.card.ref == ref {
      var i :| 0 <= i < |cands| && cands[i] == c;
    }
  }

  /** A reader of references that returns what it would read again, with a project key that has no slash. */
  ghost predicate SoundReader(parse: string -> Option<Ref>) {
    forall s :: parse(s).Some? ==> '/' !in parse(s).value.project && parse(parse(s).value.Text()) == parse(s)
  }

  /** A candidate is live and its project cloned, or remote and its project not. */
  lemma CandidateSide(b: Board, input: Input, c: Candidate)
    requires c in Candidates(b, input) && WellSupplied(b, input)
    ensures Named(c) && c.card.project in b.Scope(input.declared)
    ensures c.card.remote <==> SourceOf(input.sources, c.card.project).None?
  {
    CandidatesAre(b, input, c);
    var key :| key in b.Scope(input.declared) && Supplies(b, input, key, c);
    var source := SourceOf(input.sources, key);
    if source.Some? {
      var it :| it in source.value.items && c == LiveCandidate(b, key, source.value.cfg, it);
      RefText(key, it.id, it.id);
    } else {
      var e :| e in input.snapshots[key].entries && c == RemoteCandidate(b, input, key, input.snapshots[key].cfg, e);
      RefText(key, e.item.id, e.item.id);
    }
  }

  /** A placeholder's reference is no candidate's. */
  lemma NoCandidateStands(b: Board, input: Input, c: Candidate, r: Ref)
    requires c in Candidates(b, input) && WellSupplied(b, input) && '/' !in r.project && GateOf(b, input).admits(r)
    ensures c.card.ref != r.Text()
  {
    CandidateSide(b, input, c);
    RefText(r.project, r.item, r.item);
    KnownRef(Candidates(b, input), r.Text());
    assert r.Text() !in KnownRefs(Candidates(b, input)) && SourceOf(input.sources, r.project).None?;
  }

  /** The placeholders of a render: where each stands and what its reference lacks. */
  lemma PlaceholderFacts(b: Board, input: Input, order: Listing, x: Extra)
    requires WellSupplied(b, input) && SoundReader(input.parse) && x in PlaceholdersOf(b, input, order)
    ensures x.column < |b.columns| && '/' !in x.ref.project && input.parse(x.ref.Text()) == Some(x.ref)
    ensures SourceOf(input.sources, x.ref.project).None?
    ensures forall c :: c in Candidates(b, input) ==> c.card.ref != x.ref.Text()
    ensures Scoping(b, input).Some? ==> x.ref.Text() in Scoping(b, input).value.items
    ensures exists raw :: raw in order.Refs(b.columns[x.column].id) && input.parse(raw) == Some(x.ref)
  {
    var gate, slots := GateOf(b, input), Slots(b.ColumnIds(), order);
    ExtrasFounded(gate, slots, PlacedRefs(PolicyOf(b, input), Candidates(b, input)));
    var i :| 0 <= i < |slots| && slots[i].column == x.column && gate.parse(slots[i].raw) == Some(x.ref);
    SlotMembers(b.ColumnIds(), order, slots[i]);
    forall c | c in Candidates(b, input)
      ensures c.card.ref != x.ref.Text()
    {
      NoCandidateStands(b, input, c, x.ref);
    }
    assert slots[i].raw in order.Refs(b.columns[x.column].id);
  }

  // ---------------------------------------------------------------- the partition

  lemma SortApart(less: (Card, Card) -> bool, cards: seq<Card>)
    requires CardsApart(cards)
    ensures CardsApart(Sort(less, cards))
  {
    var sorted := Sort(less, cards);
    forall i, j | 0 <= i < j < |sorted|
      ensures sorted[i].ref != sorted[j].ref
    {
      assert sorted[i] in sorted && sorted[j] in sorted;
      if sorted[i].ref == sorted[j].ref {
        var k :| 0 <= k < |cards| && cards[k] == sorted[i];
        var l :| 0 <= l < |cards| && cards[l] == sorted[j];
        assert sorted[i] == sorted[j];
        CountedTwice(sorted, i, j);
        CountOnce(cards, sorted[i]);
      }
    }
  }

  lemma {:induction false} CountOnce(s: seq<Card>, x: Card)
    requires CardsApart(s)
    ensures multiset(s)[x] == if x in s then 1 else 0
  {
    if s != [] {
      assert s == [s[0]] + s[1..];
      CountOnce(s[1..], x);
      if x == s[0] {
        assert x !in s[1..];
      }
    }
  }

  lemma SameCards(a: seq<Card>, b: seq<Card>)
    requires CardsApart(a) && CardsApart(b) && forall x :: x in a <==> x in b
    ensures multiset(a) == multiset(b)
  {
    forall x: Card
      ensures multiset(a)[x] == multiset(b)[x]
    {
      CountOnce(a, x);
      CountOnce(b, x);
    }
  }

  lemma JoinApart(a: seq<Card>, b: seq<Card>)
    requires CardsApart(a) && CardsApart(b) && forall x, y :: x in a && y in b ==> x.ref != y.ref
    ensures CardsApart(a + b)
  {
    forall i, j | 0 <= i < j < |a + b|
      ensures (a + b)[i].ref != (a + b)[j].ref
    {
      if i < |a| <= j {
        assert a[i] in a && b[j - |a|] in b;
      }
    }
  }

  /** Two cards in different places of a render, or at two places of one column, have different references. */
  lemma ContentsApart(b: Board, input: Input, order: Listing, i: nat)
    requires WellSupplied(b, input) && SoundReader(input.parse)
    ensures CardsApart(Contents(b, input, order, i))
  {
    var policy, cands, gate, extras := PolicyOf(b, input), Candidates(b, input), GateOf(b, input), PlaceholdersOf(b, input, order);
    CandidatesApart(b, input);
    BucketApart(policy, cands, In(i));
    ExtrasFounded(gate, Slots(b.ColumnIds(), order), PlacedRefs(policy, cands));
    ExtraCardsApart(gate, extras, i);
    forall x, y | x in Bucket(policy, cands, In(i)) && y in ExtraCards(gate, extras, i)
      ensures x.ref != y.ref
    {
      BucketMembers(policy, cands, In(i), x);
      ExtraMembers(gate, extras, i, y);
      var e :| e in extras && e.column == i && gate.card(e.ref) == y;
      PlaceholderFacts(b, input, order, e);
    }
    JoinApart(Bucket(policy, cands, In(i)), ExtraCards(gate, extras, i));
  }

  lemma ColumnApart(b: Board, input: Input, order: Listing, i: nat)
    requires WellSupplied(b, input) && SoundReader(input.parse) && i < |b.columns|
    ensures CardsApart(ColumnCards(b, input, order, i))
  {
    ContentsApart(b, input, order, i);
    SortApart(CardLess(order.Refs(b.columns[i].id)), Contents(b, input, order, i));
  }

  lemma {:induction false} SameCandidate(cands: seq<Candidate>, c: Candidate, d: Candidate)
    requires RefsApart(cands) && c in cands && d in cands && c.card.ref == d.card.ref
    ensures c == d
  {
    var i :| 0 <= i < |cands| && cands[i] == c;
    var j :| 0 <= j < |cands| && cands[j] == d;
  }

  lemma SameExtra(b: Board, input: Input, order: Listing, x: Extra, y: Extra)
    requires x in PlaceholdersOf(b, input, order) && y in PlaceholdersOf(b, input, order) && x.ref.Text() == y.ref.Text()
    ensures x == y
  {
    var extras := PlaceholdersOf(b, input, order);
    ExtrasFounded(GateOf(b, input), Slots(b.ColumnIds(), order), PlacedRefs(PolicyOf(b, input), Candidates(b, input)));
    var i :| 0 <= i < |extras| && extras[i] == x;
    var j :| 0 <= j < |extras| && extras[j] == y;
  }

  /** A reference stands in one column only. */
  lemma OneColumn(b: Board, input: Input, order: Listing, i: nat, x: Card, j: nat, y: Card)
    requires WellSupplied(b, input) && SoundReader(input.parse)
    requires Belongs(b, input, order, i, x) && Belongs(b, input, order, j, y) && x.ref == y.ref
    ensures i == j && x == y
  {
    var scoping, cands, extras, gate := Scoping(b, input), Candidates(b, input), PlaceholdersOf(b, input, order), GateOf(b, input);
    CandidatesApart(b, input);
    forall e | e in extras
      ensures forall c :: c in cands ==> c.card.ref != e.ref.Text()
    {
      PlaceholderFacts(b, input, order, e);
    }
    if c :| c in cands && PlaceOf(b, scoping, c) == In(i) && Shown(scoping, c) == x {
      if d :| d in cands && PlaceOf(b, scoping, d) == In(j) && Shown(scoping, d) == y {
        SameCandidate(cands, c, d);
      }
    } else {
      var e :| e in extras && e.column == i && gate.card(e.ref) == x;
      if f :| f in extras && f.column == j && gate.card(f.ref) == y {
        SameExtra(b, input, order, e, f);
      }
    }
  }

  /** Every card of a view, columns and unmapped items alike. */
  function Flatten(columns: seq<seq<Card>>): (r: seq<Card>)
    ensures forall card :: card in r <==> exists i :: 0 <= i < |columns| && card in columns[i]
  {
    if columns == [] then []
    else
      var n := |columns| - 1;
      assert forall i :: 0 <= i < n ==> columns[..n][i] == columns[i];
      Flatten(columns[..n]) + columns[n]
  }

  function AllCards(view: View): seq<Card> {
    Flatten(view.columns) + view.unmapped
  }

  lemma {:induction false} FlattenApart(columns: seq<seq<Card>>)
    requires forall i :: 0 <= i < |columns| ==> CardsApart(columns[i])
    requires forall i, j, x, y :: 0 <= i < j < |columns| && x in columns[i] && y in columns[j] ==> x.ref != y.ref
    ensures CardsApart(Flatten(columns))
  {
    if columns != [] {
      var n := |columns| - 1;
      FlattenApart(columns[..n]);
      JoinApart(Flatten(columns[..n]), columns[n]);
    }
  }

  /** A render shows no reference twice. */
  lemma RenderApart(b: Board, input: Input, order: Listing, view: View)
    requires WellSupplied(b, input) && SoundReader(input.parse) && Renders(b, input, order, view)
    ensures CardsApart(AllCards(view))
  {
    var n := |b.columns|;
    forall i | 0 <= i < n
      ensures CardsApart(view.columns[i])
    {
      ColumnApart(b, input, order, i);
    }
    forall i, j, x, y | 0 <= i < j < n && x in view.columns[i] && y in view.columns[j]
      ensures x.ref != y.ref
    {
      ColumnMembers(b, input, order, i, x);
      ColumnMembers(b, input, order, j, y);
      if x.ref == y.ref {
        OneColumn(b, input, order, i, x, j, y);
      }
    }
    FlattenApart(view.columns);
    UnmappedApart(b, input, order, view);
    forall x, y | x in Flatten(view.columns) && y in view.unmapped
      ensures x.ref != y.ref
    {
      var i :| 0 <= i < n && x in view.columns[i];
      NotBoth(b, input, order, view, i, x, y);
    }
    JoinApart(Flatten(view.columns), view.unmapped);
  }

  lemma UnmappedApart(b: Board, input: Input, order: Listing, view: View)
    requires WellSupplied(b, input) && Renders(b, input, order, view)
    ensures CardsApart(view.unmapped)
  {
    CandidatesApart(b, input);
    BucketApart(PolicyOf(b, input), Candidates(b, input), Unmapped);
    SortApart(RankLess, Bucket(PolicyOf(b, input), Candidates(b, input), Unmapped));
  }

  lemma NotBoth(b: Board, input: Input, order: Listing, view: View, i: nat, x: Card, y: Card)
    requires WellSupplied(b, input) && SoundReader(input.parse) && Renders(b, input, order, view)
    requires i < |b.columns| && x in view.columns[i] && y in view.unmapped
    ensures x.ref != y.ref
  {
    var scoping, cands := Scoping(b, input), Candidates(b, input);
    ColumnMembers(b, input, order, i, x);
    UnmappedMembers(b, input, order, view, y);
    var d :| d in cands && PlaceOf(b, scoping, d) == Unmapped && Shown(scoping, d) == y;
    CandidatesApart(b, input);
    if c :| c in cands && PlaceOf(b, scoping, c) == In(i) && Shown(scoping, c) == x {
      if c.card.ref == d.card.ref {
        SameCandidate(cands, c, d);
      }
    } else {
      var e :| e in PlaceholdersOf(b, input, order) && e.column == i && GateOf(b, input).card(e.ref) == x;
      PlaceholderFacts(b, input, order, e);
    }
  }

  lemma OnlyHome(b: Board, input: Input, order: Listing, view: View, c: Candidate, i: nat, card: Card)
    requires WellSupplied(b, input) && SoundReader(input.parse) && Renders(b, input, order, view) && c in Candidates(b, input)
    requires i < |b.columns| && card in view.columns[i] && card.ref == c.card.ref
    ensures PlaceOf(b, Scoping(b, input), c) == In(i)
  {
    var scoping, cands := Scoping(b, input), Candidates(b, input);
    ColumnMembers(b, input, order, i, card);
    if d :| d in cands && PlaceOf(b, scoping, d) == In(i) && Shown(scoping, d) == card {
      CandidatesApart(b, input);
      SameCandidate(cands, c, d);
    } else {
      var e :| e in PlaceholdersOf(b, input, order) && e.column == i && GateOf(b, input).card(e.ref) == card;
      PlaceholderFacts(b, input, order, e);
    }
  }

  /** A card among the unmapped with a candidate's reference means that the candidate belongs there. */
  lemma OnlyUnmapped(b: Board, input: Input, order: Listing, view: View, c: Candidate, card: Card)
    requires WellSupplied(b, input) && Renders(b, input, order, view) && c in Candidates(b, input)
    requires card in view.unmapped && card.ref == c.card.ref
    ensures PlaceOf(b, Scoping(b, input), c) == Unmapped
  {
    UnmappedMembers(b, input, order, view, card);
    var d :| d in Candidates(b, input) && PlaceOf(b, Scoping(b, input), d) == Unmapped && Shown(Scoping(b, input), d) == card;
    CandidatesApart(b, input);
    SameCandidate(Candidates(b, input), c, d);
  }

  /** A candidate appears where its place says. */
  lemma AppearsInPlace(b: Board, input: Input, order: Listing, view: View, c: Candidate)
    requires Renders(b, input, order, view) && c in Candidates(b, input)
    ensures match PlaceOf(b, Scoping(b, input), c)
            case In(i) => Shown(Scoping(b, input), c) in view.columns[i]
            case Unmapped => Shown(Scoping(b, input), c) in view.unmapped
            case Dropped => true
  {
    var card := Shown(Scoping(b, input), c);
    match PlaceOf(b, Scoping(b, input), c) {
      case In(i) => ColumnMembers(b, input, order, i, card);
      case Unmapped => UnmappedMembers(b, input, order, view, card);
      case Dropped =>
    }
  }

  /** On a board the sprint scopes: whether the candidate belongs to the sprint. */
  predicate Member(scoping: Option<Sprint>, c: Candidate) {
    scoping.Some? ==> c.card.ref in scoping.value.items
  }

  /** The render is a partition: no reference appears twice, and every candidate that matches the filters, and
      on a sprint board belongs to the sprint, appears, in the first column that shows its status or else among
      the unmapped. */
  lemma RenderPartitions(b: Board, input: Input, order: Listing, view: View, c: Candidate)
    requires WellSupplied(b, input) && SoundReader(input.parse) && Renders(b, input, order, view) && c in Candidates(b, input)
    ensures CardsApart(AllCards(view))
    ensures c.matched && Member(Scoping(b, input), c) ==>
              match FirstShowing(b.columns, c.card.project, c.cfg, c.card.status)
              case Some(i) => Shown(Scoping(b, input), c) in view.columns[i]
              case None => Shown(Scoping(b, input), c) in view.unmapped
  {
    RenderApart(b, input, order, view);
    AppearsInPlace(b, input, order, view, c);
  }

  lemma PlaceMeans(b: Board, scoping: Option<Sprint>, c: Candidate)
    ensures PlaceOf(b, scoping, c) != Dropped ==> c.matched
    ensures !Member(scoping, c) && PlaceOf(b, scoping, c) != Dropped ==>
              LastWithId(b.columns, b.backlogColumn).Some? && SprintCandidate(b, c)
              && PlaceOf(b, scoping, c) == In(LastWithId(b.columns, b.backlogColumn).value)
  {
  }

  /** Where a card with a candidate's reference stands, the candidate belongs. */
  lemma StandsInPlace(b: Board, input: Input, order: Listing, view: View, c: Candidate, card: Card)
    requires WellSupplied(b, input) && SoundReader(input.parse) && Renders(b, input, order, view) && c in Candidates(b, input)
    requires card in AllCards(view) && card.ref == c.card.ref
    ensures match PlaceOf(b, Scoping(b, input), c)
            case In(i) => card in view.columns[i]
            case Unmapped => card in view.unmapped
            case Dropped => false
  {
    if card in view.unmapped {
      OnlyUnmapped(b, input, order, view, c, card);
    } else {
      var i :| 0 <= i < |b.columns| && card in view.columns[i];
      OnlyHome(b, input, order, view, c, i, card);
    }
  }

  /** A candidate the filters drop appears nowhere; one the sprint does not list appears in the backlog column
      or nowhere, and then only as a sprint candidate. */
  lemma OthersStayAway(b: Board, input: Input, order: Listing, view: View, c: Candidate, card: Card)
    requires WellSupplied(b, input) && SoundReader(input.parse) && Renders(b, input, order, view) && c in Candidates(b, input)
    requires card in AllCards(view) && card.ref == c.card.ref
    ensures c.matched
    ensures !Member(Scoping(b, input), c) ==>
              LastWithId(b.columns, b.backlogColumn).Some? && card in view.columns[LastWithId(b.columns, b.backlogColumn).value]
              && SprintCandidate(b, c)
  {
    StandsInPlace(b, input, order, view, c, card);
    PlaceMeans(b, Scoping(b, input), c);
  }

  /** A card no candidate accounts for is a placeholder: its reference parses, its project is not cloned, no
      snapshot resolved it, and a sprint board's sprint lists it. */
  lemma PlaceholdersOnlyForUnresolved(b: Board, input: Input, order: Listing, view: View, i: nat, card: Card)
    requires WellSupplied(b, input) && SoundReader(input.parse) && Renders(b, input, order, view)
    requires i < |b.columns| && card in view.columns[i] && forall c :: c in Candidates(b, input) ==> c.card.ref != card.ref
    ensures exists r: Ref :: input.parse(card.ref) == Some(r) && r.Text() == card.ref && card == Placeholder(r.project in input.declared, r)
                             && SourceOf(input.sources, r.project).None?
                             && (Scoping(b, input).Some? ==> card.ref in Scoping(b, input).value.items)
  {
    ColumnMembers(b, input, order, i, card);
    var x :| x in PlaceholdersOf(b, input, order) && x.column == i && GateOf(b, input).card(x.ref) == card;
    PlaceholderFacts(b, input, order, x);
  }
}
