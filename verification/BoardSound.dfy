/** A planned move is sound: plan, item write, order edit and the next render agree. */
module BoardSound {
  import opened Text
  import opened Ids
  import opened Sorting
  import opened Boards
  import opened BoardOrder
  import opened BoardView
  import opened BoardCards
  import opened BoardFacts
  import opened BoardAgreement
  import opened BoardMove

  // ---------------------------------------------------------------- writing the item

  /** The item with the planned status; its update stamp may rise. */
  function Written(it: Item, status: string, updated: int): Item {
    it.(status := status, updated := updated)
  }

  /** The same inputs but for one item of one cloned project, which has changed in place. */
  ghost predicate ItemChanged(input: Input, after: Input, key: string, cfg: Option<Workflow>, it: Item, it': Item) {
    var source, source' := SourceOf(input.sources, key), SourceOf(after.sources, key);
    && after.declared == input.declared && after.snapshots == input.snapshots && after.sprint == input.sprint && after.parse == input.parse
    && (forall k :: k != key ==> SourceOf(after.sources, k) == SourceOf(input.sources, k))
    && source.Some? && source'.Some? && source.value.cfg == cfg && source'.value.cfg == cfg && source'.value.project == key
    && it in source.value.items && it'.id == it.id
    && (forall x :: x in source'.value.items <==> x == it' || (x in source.value.items && x.id != it.id))
  }

  /** Replacing an item of a source at its place changes that item and nothing else. */
  lemma ReplacedInPlace(b: Board, input: Input, j: nat, i: nat, it': Item)
    requires WellSupplied(b, input) && SourcesApart(input.sources) && j < |input.sources| && i < |input.sources[j].items|
    requires it'.id == input.sources[j].items[i].id
    ensures var s := input.sources[j];
            var after := input.(sources := input.sources[j := s.(items := s.items[i := it'])]);
            ItemChanged(input, after, s.project, s.cfg, s.items[i], it') && WellSupplied(b, after)
  {
    var s := input.sources[j];
    var s' := s.(items := s.items[i := it']);
    var sources' := input.sources[j := s'];
    SourceAt(input.sources, j);
    SourceAt(sources', j);
    forall k | k != s.project
      ensures SourceOf(sources', k) == SourceOf(input.sources, k)
    {
      SourceElsewhere(input.sources, sources', j, k);
    }
    assert s in input.sources;
    forall x
      ensures x in s'.items <==> x == it' || (x in s.items && x.id != s.items[i].id)
    {
      if x in s'.items {
        var k :| 0 <= k < |s'.items| && s'.items[k] == x;
        assert k != i ==> s.items[k] == x;
      }
      if x in s.items && x.id != s.items[i].id {
        var k :| 0 <= k < |s.items| && s.items[k] == x;
        assert s'.items[k] == x;
      }
      assert s'.items[i] == it';
    }
    forall u | u in sources'
      ensures ItemsApart(u.items)
    {
      if u != s' {
        assert u in input.sources;
      }
    }
  }

  lemma SourceAt(sources: seq<Source>, j: nat)
    requires SourcesApart(sources) && j < |sources|
    ensures SourceOf(sources, sources[j].project) == Some(sources[j])
  {
    var r := SourceOf(sources, sources[j].project);
    assert sources[j] in sources;
    var k :| 0 <= k < |sources| && sources[k] == r.value;
  }

  lemma {:induction false} SourceElsewhere(sources: seq<Source>, other: seq<Source>, j: nat, key: string)
    requires |other| == |sources| && j < |sources| && sources[j].project != key && other[j].project != key
    requires forall k :: 0 <= k < |sources| && k != j ==> other[k] == sources[k]
    ensures SourceOf(other, key) == SourceOf(sources, key)
  {
    var n := |sources| - 1;
    if j < n {
      SourceElsewhere(sources[..n], other[..n], j, key);
    } else {
      assert other[..n] == sources[..n];
    }
  }

  // ---------------------------------------------------------------- the candidates afterwards

  /** A move of a live card of a cloned project, and the item write it leads to. */
  datatype Step = Step(key: string, cfg: Option<Workflow>, it: Item, it': Item) {
    ghost function Before(b: Board): Candidate {
      LiveCandidate(b, key, cfg, it)
    }

    ghost function After(b: Board): Candidate {
      LiveCandidate(b, key, cfg, it')
    }

    function Text(): string {
      Ref(key, it.id).Text()
    }
  }

  ghost predicate Changes(b: Board, input: Input, after: Input, step: Step) {
    && WellSupplied(b, input) && WellSupplied(b, after)
    && ItemChanged(input, after, step.key, step.cfg, step.it, step.it')
    && step.key in b.Scope(input.declared) && Boards.Planned(step.Before(b)) && Boards.Planned(step.After(b))
  }

  lemma OtherSupplier(b: Board, input: Input, after: Input, step: Step, key: string, d: Candidate)
    requires Changes(b, input, after, step) && key != step.key && key in b.Scope(input.declared)
    ensures Supplies(b, after, key, d) <==> Supplies(b, input, key, d)
    ensures Supplies(b, input, key, d) ==> d.card.ref != step.Text()
  {
    if SourceOf(input.sources, key).None? && key in input.snapshots {
      forall e | e in input.snapshots[key].entries
        ensures RemoteCandidate(b, after, key, input.snapshots[key].cfg, e) == RemoteCandidate(b, input, key, input.snapshots[key].cfg, e)
      {
      }
    }
    if Supplies(b, input, key, d) {
      CandidatesAre(b, input, d);
      ItsProject(b, input, key, d);
      RefText(step.key, step.it.id, step.it.id);
    }
  }

  lemma ItsProject(b: Board, input: Input, key: string, d: Candidate)
    requires Supplies(b, input, key, d) && '/' !in key
    ensures d.card.project == key && Named(d)
  {
    var source := SourceOf(input.sources, key);
    if source.Some? {
      var it :| it in source.value.items && d == LiveCandidate(b, key, source.value.cfg, it);
      RefText(key, it.id, it.id);
    } else {
      var e :| e in input.snapshots[key].entries && d == RemoteCandidate(b, input, key, input.snapshots[key].cfg, e);
      RefText(key, e.item.id, e.item.id);
    }
  }

  lemma OwnSupplier(b: Board, input: Input, after: Input, step: Step, d: Candidate)
    requires Changes(b, input, after, step)
    ensures Supplies(b, after, step.key, d) <==> d == step.After(b) || (Supplies(b, input, step.key, d) && d.card.ref != step.Text())
  {
    var source, source' := SourceOf(input.sources, step.key).value, SourceOf(after.sources, step.key).value;
    if Supplies(b, after, step.key, d) {
      var x :| x in source'.items && d == LiveCandidate(b, step.key, step.cfg, x);
      RefText(step.key, x.id, step.it.id);
    }
    if Supplies(b, input, step.key, d) && d.card.ref != step.Text() {
      var x :| x in source.items && d == LiveCandidate(b, step.key, step.cfg, x);
      assert x.id != step.it.id;
      assert x in source'.items;
    }
    assert step.it' in source'.items;
  }

  /** After the write the candidates are the others and the rewritten one. */
  lemma CandidatesAfter(b: Board, input: Input, after: Input, step: Step, d: Candidate)
    requires Changes(b, input, after, step)
    ensures d in Candidates(b, after) <==> d == step.After(b) || (d in Candidates(b, input) && d.card.ref != step.Text())
  {
    CandidatesAre(b, input, d);
    CandidatesAre(b, after, d);
    OwnSupplier(b, input, after, step, d);
    forall key | key in b.Scope(input.declared) && key != step.key
      ensures Supplies(b, after, key, d) <==> Supplies(b, input, key, d)
      ensures Supplies(b, input, key, d) ==> d.card.ref != step.Text()
    {
      OtherSupplier(b, input, after, step, key, d);
    }
  }

  /** The card itself is a candidate before and after. */
  lemma ItsCandidate(b: Board, input: Input, after: Input, step: Step)
    requires Changes(b, input, after, step)
    ensures step.Before(b) in Candidates(b, input) && step.After(b) in Candidates(b, after)
    ensures step.Before(b).card.ref == step.After(b).card.ref == step.Text()
  {
    CandidatesAfter(b, input, after, step, step.After(b));
    CandidatesAre(b, input, step.Before(b));
    assert Supplies(b, input, step.key, step.Before(b));
  }

  /** The placeholders' conditions are the same after the write. */
  lemma SameGate(b: Board, input: Input, after: Input, step: Step, r: Ref)
    requires Changes(b, input, after, step)
    ensures GateOf(b, after).admits(r) == GateOf(b, input).admits(r)
  {
    ItsCandidate(b, input, after, step);
    KnownRef(Candidates(b, input), r.Text());
    KnownRef(Candidates(b, after), r.Text());
    forall c: Candidate | c.card.remote
      ensures c in Candidates(b, input) <==> c in Candidates(b, after)
    {
      CandidatesAfter(b, input, after, step, c);
      if c in Candidates(b, input) && c.card.ref == step.Text() {
        CandidatesApart(b, input);
        SameCandidate(Candidates(b, input), c, step.Before(b));
      }
    }
  }

  // ---------------------------------------------------------------- the edited list is faithful

  /** The lists after the move. */
  ghost predicate ListsMoved(b: Board, before: Listing, after: Listing, t: nat, ref: string, position: int) {
    t < |b.columns|
    && forall i :: 0 <= i < |b.columns| ==>
         after.Refs(b.columns[i].id) == MovedList(before.Refs(b.columns[i].id), i == t, ref, position)
  }

  lemma MovedListMembers(list: seq<string>, isTarget: bool, ref: string, position: int)
    requires Distinct(list)
    ensures Distinct(MovedList(list, isTarget, ref, position))
    ensures forall x :: x in MovedList(list, isTarget, ref, position) <==> (x in list && x != ref) || (isTarget && x == ref)
  {
    WithoutDistinct(list, ref);
    InsertDistinct(Without(list, ref), ref, position);
  }

  lemma CarriesAfter(b: Board, input: Input, after: Input, step: Step, i: nat, ref: string)
    requires Changes(b, input, after, step) && Scoping(b, input).None? && Scoping(b, after).None?
    requires Carries(b, input, i, ref) && ref != step.Text()
    ensures Carries(b, after, i, ref)
  {
    ItsCandidate(b, input, after, step);
    if c :| c in Candidates(b, input) && PlaceOf(b, Scoping(b, input), c) == In(i) && c.card.ref == ref {
      CandidatesAfter(b, input, after, step, c);
    } else {
      SameGate(b, input, after, step, input.parse(ref).value);
      forall c | c in Candidates(b, after)
        ensures c.card.ref != ref
      {
        CandidatesAfter(b, input, after, step, c);
      }
    }
  }

  lemma MovedFaithful(b: Board, input: Input, after: Input, step: Step, listed: Listing, moved: Listing, t: nat, position: int)
    requires Changes(b, input, after, step) && Scoping(b, input).None? && Scoping(b, after).None? && CleanRefs(b, input)
    requires Faithful(b, input, listed) && ListsMoved(b, listed, moved, t, step.Text(), position)
    requires PlaceOf(b, None, step.After(b)) == In(t)
    ensures Faithful(b, after, moved)
  {
    ItsCandidate(b, input, after, step);
    forall i | 0 <= i < |b.columns|
      ensures Distinct(moved.Refs(b.columns[i].id))
      ensures forall x :: x in moved.Refs(b.columns[i].id) <==> (x in listed.Refs(b.columns[i].id) && x != step.Text()) || (i == t && x == step.Text())
    {
      MovedListMembers(listed.Refs(b.columns[i].id), i == t, step.Text(), position);
    }
    forall i, ref | 0 <= i < |b.columns| && ref in moved.Refs(b.columns[i].id)
      ensures Carries(b, after, i, ref)
    {
      if ref == step.Text() {
        assert step.After(b) in Candidates(b, after);
      } else {
        CarriesAfter(b, input, after, step, i, ref);
      }
    }
    forall i, c | 0 <= i < |b.columns| && c in Candidates(b, after) && PlaceOf(b, Scoping(b, after), c) == In(i)
      ensures c.card.ref in moved.Refs(b.columns[i].id)
    {
      CandidatesAfter(b, input, after, step, c);
    }
  }

  // ---------------------------------------------------------------- the moved card's home

  /** The first column that shows the planned status. */
  function Home(b: Board, step: Step): Option<nat> {
    FirstShowing(b.columns, step.key, step.cfg, step.it'.status)
  }

  /** A card shown before and rewritten to a status some column shows still matches the filters. */
  lemma StillMatches(b: Board, step: Step)
    requires b.Matches(step.it, step.cfg) && step.it' == Written(step.it, step.it'.status, step.it'.updated) && step.it'.updated >= step.it.updated
    requires Home(b, step).Some? && (step.cfg.Some? ==> step.cfg.value.key == step.key)
    ensures b.Matches(step.it', step.cfg)
  {
  }

  /** What a move asks for and what it started from: a kanban board, its view, the list the view shows, and the
      plan made for the card. */
  datatype Case = Case(input: Input, order: Listing, view: View, listed: Listing, move: Move, plan: Plan, t: nat)

  /** A plan made over the view of some stored list, and the item write it leads to. */
  ghost predicate Underway(b: Board, c: Case, after: Input, step: Step) {
    && b.kind == Kanban && Unrepeated(b.ColumnIds()) && SoundReader(c.input.parse) && CleanRefs(b, c.input)
    && Renders(b, c.input, c.order, c.view)
    && Changes(b, c.input, after, step) && (step.cfg.Some? ==> step.cfg.value.key == step.key)
    && c.move.ref == Ref(step.key, step.it.id) && PlanFor(b, c.view, c.move, step.cfg, None) == Accepted(c.plan)
    && FirstWithId(b.columns, c.move.to) == Some(c.t) && c.move.to != ""
    && step.it' == Written(step.it, c.plan.status, step.it'.updated) && step.it'.updated >= step.it.updated
  }

  /** The list the move edits is the one the view shows. */
  ghost predicate Prepared(b: Board, c: Case, after: Input, step: Step) {
    Underway(b, c, after, step) && c.listed.Valid() && ListsView(b, c.view, c.listed)
  }

  /** What a view that finds a candidate's reference says about the candidate. */
  lemma Located(b: Board, input: Input, order: Listing, view: View, cand: Candidate)
    requires WellSupplied(b, input) && SoundReader(input.parse) && Renders(b, input, order, view) && b.kind == Kanban
    requires cand in Candidates(b, input) && Locate(view, cand.card.ref).Some?
    ensures cand.matched && Locate(view, cand.card.ref).value.card == cand.card
    ensures match PlaceOf(b, None, cand)
            case In(i) => Locate(view, cand.card.ref).value.column == Some(i)
            case Unmapped => Locate(view, cand.card.ref).value.column == None
            case Dropped => false
  {
    var spot := Locate(view, cand.card.ref).value;
    PlaceMeans(b, None, cand);
    StandsInPlace(b, input, order, view, cand, spot.card);
    AppearsInPlace(b, input, order, view, cand);
    RenderApart(b, input, order, view);
    if spot.card != cand.card {
      Apart(AllCards(view), spot.card, cand.card);
    }
    LocatedColumn(b, input, order, view, cand);
  }

  lemma LocatedColumn(b: Board, input: Input, order: Listing, view: View, cand: Candidate)
    requires WellSupplied(b, input) && SoundReader(input.parse) && Renders(b, input, order, view) && b.kind == Kanban
    requires cand in Candidates(b, input) && Locate(view, cand.card.ref).Some?
    ensures var spot := Locate(view, cand.card.ref).value;
            PlaceOf(b, None, cand) == match spot.column case Some(i) => In(i) case None => Unmapped
  {
    var spot := Locate(view, cand.card.ref).value;
    if spot.column.Some? {
      OnlyHome(b, input, order, view, cand, spot.column.value, spot.card);
    } else {
      assert FindColumn(view.columns, cand.card.ref).None?;
      OnlyUnmapped(b, input, order, view, cand, spot.card);
    }
  }

  /** What an accepted plan of a live card holds. */
  lemma PlanHolds(b: Board, view: View, move: Move, cfg: Option<Workflow>, t: nat, spot: Spot, plan: Plan)
    requires PlanFor(b, view, move, cfg, None) == Accepted(plan) && FirstWithId(b.columns, move.to) == Some(t)
    requires Locate(view, move.ref.Text()) == Some(spot) && !spot.card.remote
    ensures var inside := FromOf(b, spot) == b.columns[t].id;
            && plan.choices == b.columns[t].StatusesFor(move.ref.project, cfg)
            && PickStatus(plan.choices, move.status, spot.card.status, inside) == Some(plan.status)
            && plan.wipUsed == CardsIn(b, view, b.columns[t].id) + (if inside then 0 else 1)
            && plan.wipExceeded == Exceeds(b.columns[t], plan.wipUsed)
  {
  }

  lemma IdOfPlace(b: Board, i: nat, t: nat)
    requires Unrepeated(b.ColumnIds()) && i < |b.columns| && t < |b.columns|
    ensures b.columns[i].id == b.columns[t].id <==> i == t
    ensures LastWithId(b.columns, b.columns[t].id) == Some(t)
  {
    assert b.ColumnIds()[i] == b.columns[i].id && b.ColumnIds()[t] == b.columns[t].id;
    var k := LastWithId(b.columns, b.columns[t].id).value;
    assert b.ColumnIds()[k] == b.columns[k].id;
  }

  lemma FromInside(b: Board, spot: Spot, t: nat)
    requires Unrepeated(b.ColumnIds()) && t < |b.columns| && b.columns[t].id != ""
    requires spot.column.Some? ==> spot.column.value < |b.columns|
    ensures FromOf(b, spot) == b.columns[t].id <==> spot.column == Some(t)
  {
    if spot.column.Some? {
      IdOfPlace(b, spot.column.value, t);
    }
  }

  /** The plan in terms of the card's candidate and its place. */
  ghost predicate Plans(b: Board, c: Case, key: string, cfg: Option<Workflow>, cand: Candidate, inside: bool) {
    && c.t < |b.columns| && c.t < |c.view.columns| && cand.matched
    && inside == (PlaceOf(b, None, cand) == In(c.t))
    && c.plan.choices == b.columns[c.t].StatusesFor(key, cfg)
    && PickStatus(c.plan.choices, c.move.status, cand.card.status, inside) == Some(c.plan.status)
    && c.plan.wipUsed == |c.view.columns[c.t]| + (if inside then 0 else 1)
    && c.plan.wipExceeded == Exceeds(b.columns[c.t], c.plan.wipUsed)
  }

  lemma PlanMeans(b: Board, c: Case, cfg: Option<Workflow>, cand: Candidate) returns (inside: bool)
    requires b.kind == Kanban && Unrepeated(b.ColumnIds()) && WellSupplied(b, c.input) && SoundReader(c.input.parse)
    requires Renders(b, c.input, c.order, c.view) && cand in Candidates(b, c.input) && !cand.card.remote
    requires cand.card.ref == c.move.ref.Text() && PlanFor(b, c.view, c.move, cfg, None) == Accepted(c.plan)
    requires FirstWithId(b.columns, c.move.to) == Some(c.t) && c.move.to != ""
    ensures Plans(b, c, c.move.ref.project, cfg, cand, inside)
  {
    var spot := Locate(c.view, cand.card.ref).value;
    Located(b, c.input, c.order, c.view, cand);
    inside := spot.column == Some(c.t);
    PlanFromSpot(b, c, cfg, spot, inside);
  }

  lemma PlanFromSpot(b: Board, c: Case, cfg: Option<Workflow>, spot: Spot, inside: bool)
    requires Unrepeated(b.ColumnIds()) && |c.view.columns| == |b.columns|
    requires PlanFor(b, c.view, c.move, cfg, None) == Accepted(c.plan) && Locate(c.view, c.move.ref.Text()) == Some(spot)
    requires FirstWithId(b.columns, c.move.to) == Some(c.t) && c.move.to != "" && !spot.card.remote
    requires inside == (spot.column == Some(c.t))
    ensures c.plan.choices == b.columns[c.t].StatusesFor(c.move.ref.project, cfg)
    ensures PickStatus(c.plan.choices, c.move.status, spot.card.status, inside) == Some(c.plan.status)
    ensures c.plan.wipUsed == |c.view.columns[c.t]| + (if inside then 0 else 1)
    ensures c.plan.wipExceeded == Exceeds(b.columns[c.t], c.plan.wipUsed)
  {
    FromInside(b, spot, c.t);
    IdOfPlace(b, c.t, c.t);
    PlanHolds(b, c.view, c.move, cfg, c.t, spot, c.plan);
  }

  /** Each status of the project is shown by one column at most. */
  ghost predicate Unambiguous(b: Board, key: string, cfg: Option<Workflow>) {
    forall i, j, status :: 0 <= i < |b.columns| && 0 <= j < |b.columns| ==>
      b.columns[i].Shows(key, cfg, status) && b.columns[j].Shows(key, cfg, status) ==> i == j
  }

  /** Where no status is shown by two columns, the planned status belongs to the target exactly when the target
      maps any status for the project. */
  lemma PlannedStatusShown(b: Board, c: Case, key: string, cfg: Option<Workflow>, cand: Candidate, inside: bool)
    requires Plans(b, c, key, cfg, cand, inside) && Unambiguous(b, key, cfg)
    requires cand.card.project == key && cand.cfg == cfg
    ensures FirstShowing(b.columns, key, cfg, c.plan.status) == Some(c.t) <==> c.plan.choices != []
  {
    var column := b.columns[c.t];
    if c.plan.choices != [] {
      assert c.plan.status in c.plan.choices by {
        if c.move.status == "" && inside {
          assert column.Shows(key, cfg, cand.card.status);
        }
      }
      assert column.Shows(key, cfg, c.plan.status);
      var home := FirstShowing(b.columns, key, cfg, c.plan.status).value;
      assert b.columns[home].Shows(key, cfg, c.plan.status);
    }
  }

  // ---------------------------------------------------------------- soundness

  /** The view after the move: the card stands in the target at the clamped position, every other card keeps
      its column and its relative order, and the target has as many cards as the plan said. */
  ghost predicate AsPlanned(b: Board, c: Case, ref: string, after: View) {
    && |after.columns| == |after.exceeded| == |c.view.columns| == |b.columns| && c.t < |b.columns|
    && (forall i :: 0 <= i < |b.columns| ==> RefsOf(after.columns[i]) == MovedList(RefsOf(c.view.columns[i]), i == c.t, ref, c.move.position))
    && |after.columns[c.t]| == c.plan.wipUsed
    && after.exceeded[c.t] == c.plan.wipExceeded
  }

  /** The target's list grows by one unless the card was in it. */
  lemma ListCounts(cards: seq<Card>, ref: string, position: int)
    requires CardsApart(cards)
    ensures |MovedList(RefsOf(cards), true, ref, position)|
            == |cards| + if exists card :: card in cards && card.ref == ref then 0 else 1
  {
    WithoutDistinct(RefsOf(cards), ref);
    RefMembers(cards, ref);
  }

  lemma TargetCounts(b: Board, c: Case, key: string, cfg: Option<Workflow>, cand: Candidate, inside: bool)
    requires WellSupplied(b, c.input) && SoundReader(c.input.parse) && Renders(b, c.input, c.order, c.view) && b.kind == Kanban
    requires cand in Candidates(b, c.input) && Plans(b, c, key, cfg, cand, inside)
    ensures |MovedList(RefsOf(c.view.columns[c.t]), true, cand.card.ref, c.move.position)| == c.plan.wipUsed
  {
    ColumnApart(b, c.input, c.order, c.t);
    ListCounts(c.view.columns[c.t], cand.card.ref, c.move.position);
    AppearsInPlace(b, c.input, c.order, c.view, cand);
    if card :| card in c.view.columns[c.t] && card.ref == cand.card.ref {
      OnlyHome(b, c.input, c.order, c.view, cand, c.t, card);
    }
  }

  lemma ListsAfterMove(b: Board, listed: Listing, ref: string, to: string, t: nat, position: int)
    requires listed.Valid() && Unrepeated(b.ColumnIds()) && FirstWithId(b.columns, to) == Some(t)
    ensures ListsMoved(b, listed, Moved(listed, b.ColumnIds(), ref, to, position), t, ref, position)
  {
    var ids := b.ColumnIds();
    MovePlaces(listed, ids, ref, to, position);
    forall i | 0 <= i < |b.columns|
      ensures Moved(listed, ids, ref, to, position).Refs(b.columns[i].id) == MovedList(listed.Refs(b.columns[i].id), i == t, ref, position)
    {
      assert ids[i] == b.columns[i].id && ids[t] == to;
    }
  }

  /** A planned move is sound. Take the view of a kanban board, store the order it shows, plan a move of a live
      card, write the planned status to the item, apply the move to the list and render again. When the target
      is the first column that shows the planned status, the new view is as planned; otherwise the card is not
      in the target. */
  lemma MoveIsSound(b: Board, c: Case, after: Input, step: Step, again: View)
    requires Prepared(b, c, after, step)
    requires Renders(b, after, Moved(c.listed, b.ColumnIds(), step.Text(), c.move.to, c.move.position), again)
    ensures if Home(b, step) == Some(c.t) then AsPlanned(b, c, step.Text(), again)
            else forall card :: card in again.columns[c.t] ==> card.ref != step.Text()
  {
    if Home(b, step) == Some(c.t) {
      MoveHits(b, c, after, step, again);
    } else {
      ItsCandidate(b, c.input, after, step);
      MoveMisses(b, after, Moved(c.listed, b.ColumnIds(), step.Text(), c.move.to, c.move.position), again, step.After(b), c.t);
    }
  }

  lemma MoveHits(b: Board, c: Case, after: Input, step: Step, again: View)
    requires Prepared(b, c, after, step) && Home(b, step) == Some(c.t)
    requires Renders(b, after, Moved(c.listed, b.ColumnIds(), step.Text(), c.move.to, c.move.position), again)
    ensures AsPlanned(b, c, step.Text(), again)
  {
    ItsCandidate(b, c.input, after, step);
    var inside := PlanMeans(b, c, step.cfg, step.Before(b));
    TargetCounts(b, c, step.key, step.cfg, step.Before(b), inside);
    MoveLands(b, c, after, step, inside, again);
  }

  lemma MoveMisses(b: Board, after: Input, moved: Listing, again: View, cand: Candidate, t: nat)
    requires b.kind == Kanban && WellSupplied(b, after) && SoundReader(after.parse) && Renders(b, after, moved, again)
    requires cand in Candidates(b, after) && PlaceOf(b, None, cand) != In(t) && t < |b.columns|
    ensures forall card :: card in again.columns[t] ==> card.ref != cand.card.ref
  {
    forall card | card in again.columns[t]
      ensures card.ref != cand.card.ref
    {
      if card.ref == cand.card.ref {
        OnlyHome(b, after, moved, again, cand, t, card);
      }
    }
  }

  lemma MoveLands(b: Board, c: Case, after: Input, step: Step, inside: bool, again: View)
    requires Prepared(b, c, after, step) && Home(b, step) == Some(c.t)
    requires Plans(b, c, step.key, step.cfg, step.Before(b), inside)
    requires |MovedList(RefsOf(c.view.columns[c.t]), true, step.Text(), c.move.position)| == c.plan.wipUsed
    requires Renders(b, after, Moved(c.listed, b.ColumnIds(), step.Text(), c.move.to, c.move.position), again)
    ensures AsPlanned(b, c, step.Text(), again)
  {
    var moved := Moved(c.listed, b.ColumnIds(), step.Text(), c.move.to, c.move.position);
    StillMatches(b, step);
    ViewFaithful(b, c.input, c.order, c.view, c.listed);
    ListsAfterMove(b, c.listed, step.Text(), c.move.to, c.t, c.move.position);
    MovedFaithful(b, c.input, after, step, c.listed, moved, c.t, c.move.position);
    ShownAsListed(b, after, moved, again, c, step.Text());
  }

  lemma ShownAsListed(b: Board, after: Input, moved: Listing, again: View, c: Case, ref: string)
    requires WellSupplied(b, after) && SoundReader(after.parse) && Faithful(b, after, moved) && Renders(b, after, moved, again)
    requires ListsView(b, c.view, c.listed) && ListsMoved(b, c.listed, moved, c.t, ref, c.move.position)
    requires |MovedList(RefsOf(c.view.columns[c.t]), true, ref, c.move.position)| == c.plan.wipUsed
    requires c.plan.wipExceeded == Exceeds(b.columns[c.t], c.plan.wipUsed)
    ensures AsPlanned(b, c, ref, again)
  {
    forall i | 0 <= i < |b.columns|
      ensures RefsOf(again.columns[i]) == MovedList(RefsOf(c.view.columns[i]), i == c.t, ref, c.move.position)
    {
      FaithfulShown(b, after, moved, i);
    }
    assert |again.columns[c.t]| == |RefsOf(again.columns[c.t])|;
  }

  /** The position in the new view, spelled out. */
  lemma MovedPosition(b: Board, c: Case, ref: string, after: View)
    requires AsPlanned(b, c, ref, after)
    ensures var p := Clamp(c.move.position, |Without(RefsOf(c.view.columns[c.t]), ref)|);
            p < |after.columns[c.t]| && after.columns[c.t][p].ref == ref
  {
    var p := Clamp(c.move.position, |Without(RefsOf(c.view.columns[c.t]), ref)|);
    assert RefsOf(after.columns[c.t])[p] == ref;
    assert |RefsOf(after.columns[c.t])| == |after.columns[c.t]|;
  }

  /** On a board without an ambiguous status the planned move is sound exactly when the target maps some status
      for the project. A card from elsewhere is accepted into a column that maps none only under an explicit
      status, and is not there afterwards. */
  lemma UnambiguousMove(b: Board, c: Case, after: Input, step: Step, again: View)
    requires Prepared(b, c, after, step) && Unambiguous(b, step.key, step.cfg)
    requires Renders(b, after, Moved(c.listed, b.ColumnIds(), step.Text(), c.move.to, c.move.position), again)
    ensures if c.plan.choices != [] then AsPlanned(b, c, step.Text(), again)
            else forall card :: card in again.columns[c.t] ==> card.ref != step.Text()
    ensures c.plan.choices == [] ==> c.move.status != "" || PlaceOf(b, None, step.Before(b)) == In(c.t)
  {
    MoveIsSound(b, c, after, step, again);
    ItsCandidate(b, c.input, after, step);
    var inside := PlanMeans(b, c, step.cfg, step.Before(b));
    PlannedStatusShown(b, c, step.key, step.cfg, step.Before(b), inside);
  }

  // ---------------------------------------------------------------- references

  /** References as board files write them are read soundly. */
  lemma RefsReadSoundly()
    ensures SoundReader(ParseRef)
  {
    forall s | ParseRef(s).Some?
      ensures '/' !in ParseRef(s).value.project && ParseRef(ParseRef(s).value.Text()) == ParseRef(s)
    {
      RefIsRead(s);
    }
  }
}
