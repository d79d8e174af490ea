/** Exactly which moves a board accepts, and what it plans for them, read off the view, the columns and the sprint. */
module BoardPlan {
  import opened Text
  import opened Ids
  import opened Boards
  import opened BoardOrder
  import opened BoardView
  import opened BoardCards
  import opened BoardFacts
  import opened BoardMove
  import opened BoardShown

  // ---------------------------------------------------------------- what a move asks about

  /** The first column with the id a move names. */
  ghost predicate IsTarget(b: Board, to: string, t: nat) {
    t < |b.columns| && b.columns[t].id == to && forall k :: 0 <= k < t ==> b.columns[k].id != to
  }

  /** The card stands in a column with this id, or among the unmapped, which have none. */
  ghost predicate StandsAt(b: Board, view: View, card: Card, from: string) {
    || (exists i :: 0 <= i < |view.columns| && i < |b.columns| && card in view.columns[i] && b.columns[i].id == from)
    || (card in view.unmapped && from == "")
  }

  /** The move brings the card into the board's sprint. */
  predicate Joins(b: Board, move: Move, sprint: Option<Sprint>) {
    b.kind == Scrum && sprint.Some? && move.ref.Text() !in sprint.value.items && move.to != b.backlogColumn
  }

  /** A remote card that leaves the drawer for the sprint. */
  predicate LeavesDrawer(b: Board, card: Card, from: string, move: Move, sprint: Option<Sprint>) {
    card.remote && Joins(b, move, sprint) && from == b.backlogColumn
  }

  /** What only the repository of a remote card may change. */
  predicate Bound(b: Board, card: Card, from: string, move: Move, sprint: Option<Sprint>) {
    card.remote && from != move.to && !LeavesDrawer(b, card, from, move, sprint)
  }

  ghost predicate MapsNothing(c: Column, key: string, cfg: Option<Workflow>) {
    forall s :: !Maps(c, key, cfg, s)
  }

  /** The status a card acquires that is dropped into the column: the first of the list that decides, or the first
      one the workflow declares in the column's categories. */
  ghost predicate Acquires(c: Column, key: string, cfg: Option<Workflow>, s: string) {
    && Maps(c, key, cfg, s)
    && (c.categories == [] ==> s == (if key in c.statuses then c.statuses[key] else c.statuses[WILDCARD])[0])
    && (c.categories != [] ==> exists k :: 0 <= k < |cfg.value.statuses| && cfg.value.statuses[k].id == s
                                           && forall l :: 0 <= l < k ==> cfg.value.statuses[l].category !in c.categories)
  }

  /** The choices of a plan are exactly what the column maps, with the acquired status in front. */
  lemma ChoicesMean(c: Column, key: string, cfg: Option<Workflow>)
    ensures forall s :: s in c.StatusesFor(key, cfg) <==> Maps(c, key, cfg, s)
    ensures c.StatusesFor(key, cfg) == [] <==> MapsNothing(c, key, cfg)
    ensures c.StatusesFor(key, cfg) != [] ==> Acquires(c, key, cfg, c.StatusesFor(key, cfg)[0])
  {
    var choices := c.StatusesFor(key, cfg);
    forall s
      ensures s in choices <==> Maps(c, key, cfg, s)
    {
      ShowsMaps(c, key, cfg, s);
    }
    if choices != [] {
      assert choices[0] in choices;
      if c.categories != [] {
        FirstOfCategories(cfg.value.statuses, c.categories);
      }
    }
  }

  lemma {:induction false} FirstOfCategories(defs: seq<StatusDef>, categories: seq<Category>)
    requires OfCategories(defs, categories) != []
    ensures exists k :: 0 <= k < |defs| && defs[k].id == OfCategories(defs, categories)[0]
                        && forall l :: 0 <= l < k ==> defs[l].category !in categories
  {
    if defs[0].category !in categories {
      FirstOfCategories(defs[1..], categories);
      var k :| 0 <= k < |defs[1..]| && defs[1..][k].id == OfCategories(defs[1..], categories)[0]
               && forall l :: 0 <= l < k ==> defs[1..][l].category !in categories;
      assert forall l :: 1 <= l <= k ==> defs[l] == defs[1..][l - 1];
      assert defs[k + 1].id == OfCategories(defs, categories)[0];
    } else {
      assert defs[0].id == OfCategories(defs, categories)[0];
    }
  }

  // ---------------------------------------------------------------- where the planner finds things

  lemma TargetFound(b: Board, to: string, t: nat)
    requires IsTarget(b, to, t)
    ensures FirstWithId(b.columns, to) == Some(t)
  {
    FirstWithIdFirst(b.columns, to);
  }

  /** In a view without repeated references the planner finds the card, and the column it stands in. */
  lemma CardFound(b: Board, view: View, card: Card, from: string)
    requires |view.columns| == |b.columns| && CardsApart(AllCards(view)) && StandsAt(b, view, card, from)
    ensures Locate(view, card.ref).Some? && Locate(view, card.ref).value.card == card
    ensures CardsKeepApart(view) ==> FromOf(b, Locate(view, card.ref).value) == from
  {
    var spot := Locate(view, card.ref);
    AmongAll(b, view, card, from);
    SameCard(AllCards(view), card, spot.value.card);
    if CardsKeepApart(view) {
      ItsColumn(b, view, spot.value, from);
    }
  }

  lemma AmongAll(b: Board, view: View, card: Card, from: string)
    requires StandsAt(b, view, card, from)
    ensures card in AllCards(view)
  {
    if i :| 0 <= i < |view.columns| && i < |b.columns| && card in view.columns[i] && b.columns[i].id == from {
      assert card in Flatten(view.columns);
    }
  }

  /** No reference stands in two places. */
  ghost predicate CardsKeepApart(view: View) {
    && (forall i, j, x, y :: 0 <= i < j < |view.columns| && x in view.columns[i] && y in view.columns[j] ==> x.ref != y.ref)
    && (forall i, x, y :: 0 <= i < |view.columns| && x in view.columns[i] && y in view.unmapped ==> x.ref != y.ref)
  }

  lemma ItsColumn(b: Board, view: View, spot: Spot, from: string)
    requires |view.columns| == |b.columns| && CardsKeepApart(view) && StandsAt(b, view, spot.card, from)
    requires Locate(view, spot.card.ref) == Some(spot)
    ensures FromOf(b, spot) == from
  {
    if spot.column.None? {
      assert FindColumn(view.columns, spot.card.ref).None?;
    }
  }

  lemma {:induction false} FlattenKeepsApart(columns: seq<seq<Card>>, i: nat, j: nat, x: Card, y: Card)
    requires CardsApart(Flatten(columns)) && i < j < |columns| && x in columns[i] && y in columns[j]
    ensures x.ref != y.ref
    decreases |columns|
  {
    var n := |columns| - 1;
    var init := Flatten(columns[..n]);
    if j < n {
      assert forall k, l :: 0 <= k < l < |init| ==> init[k] == Flatten(columns)[k] && init[l] == Flatten(columns)[l];
      FlattenKeepsApart(columns[..n], i, j, x, y);
    } else {
      assert columns[..n][i] == columns[i];
      JoinedApart(init, columns[n], x, y);
    }
  }

  lemma JoinedApart(a: seq<Card>, b: seq<Card>, x: Card, y: Card)
    requires CardsApart(a + b) && x in a && y in b
    ensures x.ref != y.ref
  {
    var i :| 0 <= i < |a| && a[i] == x;
    var j :| 0 <= j < |b| && b[j] == y;
    assert (a + b)[i].ref != (a + b)[|a| + j].ref;
  }

  lemma ApartMeans(view: View)
    requires CardsApart(AllCards(view))
    ensures CardsKeepApart(view)
  {
    var shown := Flatten(view.columns);
    assert CardsApart(shown) by {
      assert forall k :: 0 <= k < |shown| ==> shown[k] == AllCards(view)[k];
    }
    forall i, j, x, y | 0 <= i < j < |view.columns| && x in view.columns[i] && y in view.columns[j]
      ensures x.ref != y.ref
    {
      FlattenKeepsApart(view.columns, i, j, x, y);
    }
    forall i, x, y | 0 <= i < |view.columns| && x in view.columns[i] && y in view.unmapped
      ensures x.ref != y.ref
    {
      JoinedApart(shown, view.unmapped, x, y);
    }
  }

  // ---------------------------------------------------------------- refusals

  /** A move is refused for its column exactly when no column has the id, and for its card exactly when one has and
      no card of the view has the reference. */
  lemma UnseenRefused(b: Board, view: View, move: Move, cfg: Option<Workflow>, sprint: Option<Sprint>)
    requires |view.columns| == |b.columns|
    ensures PlanFor(b, view, move, cfg, sprint) == Refused(NoColumn) <==> forall i :: 0 <= i < |b.columns| ==> b.columns[i].id != move.to
    ensures PlanFor(b, view, move, cfg, sprint) == Refused(NotShown)
            <==> (exists i :: 0 <= i < |b.columns| && b.columns[i].id == move.to)
                 && (forall i, card :: 0 <= i < |view.columns| && card in view.columns[i] ==> card.ref != move.ref.Text())
                 && (forall card :: card in view.unmapped ==> card.ref != move.ref.Text())
  {
    var spot := Locate(view, move.ref.Text());
    if spot.None? {
      forall i, card | 0 <= i < |view.columns| && card in view.columns[i]
        ensures card.ref != move.ref.Text()
      {
        assert card in Flatten(view.columns) && card in AllCards(view);
      }
    } else if spot.value.column.None? {
      assert spot.value.card in view.unmapped;
    }
  }

  /** The planner's questions about a shown card, answered from the board. */
  lemma PlanReads(b: Board, view: View, move: Move, cfg: Option<Workflow>, sprint: Option<Sprint>, t: nat, card: Card, from: string)
    requires |view.columns| == |b.columns| && CardsApart(AllCards(view)) && IsTarget(b, move.to, t)
    requires card.ref == move.ref.Text() && StandsAt(b, view, card, from)
    ensures PlanFor(b, view, move, cfg, sprint)
            == PlanOf(b, card, from, t, CardsIn(b, view, move.to), b.columns[t].StatusesFor(move.ref.project, cfg), move, sprint)
  {
    TargetFound(b, move.to, t);
    ApartMeans(view);
    CardFound(b, view, card, from);
  }

  /** Exactly which moves of a shown card are refused, and why: a remote card may only stay in its column or leave
      the drawer for the sprint; a requested status must be one the column maps, if it maps any; and without a
      request a card that changes column needs a column that maps some status. */
  lemma RefusedExactly(b: Board, view: View, move: Move, cfg: Option<Workflow>, sprint: Option<Sprint>, t: nat, card: Card, from: string)
    requires |view.columns| == |b.columns| && CardsApart(AllCards(view)) && IsTarget(b, move.to, t)
    requires card.ref == move.ref.Text() && StandsAt(b, view, card, from)
    ensures var r, c, key := PlanFor(b, view, move, cfg, sprint), b.columns[t], move.ref.project;
            var free := !Bound(b, card, from, move, sprint) && !LeavesDrawer(b, card, from, move, sprint);
            && (r == Refused(ReadOnly) <==> Bound(b, card, from, move, sprint))
            && (r == Refused(NotMapped) <==> free && move.status != "" && !MapsNothing(c, key, cfg) && !Maps(c, key, cfg, move.status))
            && (r == Refused(NoStatus) <==> free && move.status == "" && from != move.to && MapsNothing(c, key, cfg))
            && (r.Refused? ==> r.why == ReadOnly || r.why == NotMapped || r.why == NoStatus)
  {
    PlanReads(b, view, move, cfg, sprint, t, card, from);
    ChoicesMean(b.columns[t], move.ref.project, cfg);
  }

  // ---------------------------------------------------------------- accepted plans

  /** What is planned for an accepted move of a shown card. The status is the card's own when a remote card leaves
      the drawer, else the requested one, else the card's own inside its column, else the one the target gives. */
  lemma AcceptedPlan(b: Board, view: View, move: Move, cfg: Option<Workflow>, sprint: Option<Sprint>, t: nat, card: Card, from: string)
    requires |view.columns| == |b.columns| && CardsApart(AllCards(view)) && IsTarget(b, move.to, t)
    requires card.ref == move.ref.Text() && StandsAt(b, view, card, from)
    requires PlanFor(b, view, move, cfg, sprint).Accepted?
    ensures var plan, c, key := PlanFor(b, view, move, cfg, sprint).plan, b.columns[t], move.ref.project;
            && plan.from == from && plan.to == move.to && plan.sprintAdd == Joins(b, move, sprint)
            && (LeavesDrawer(b, card, from, move, sprint) ==> plan.status == card.status)
            && (!LeavesDrawer(b, card, from, move, sprint) && move.status != "" ==> plan.status == move.status)
            && (!LeavesDrawer(b, card, from, move, sprint) && move.status == "" && from == move.to ==> plan.status == card.status)
            && (!LeavesDrawer(b, card, from, move, sprint) && move.status == "" && from != move.to ==> Acquires(c, key, cfg, plan.status))
            && plan.statusChanged == (plan.status != card.status)
            && (forall s :: s in plan.choices <==> Maps(c, key, cfg, s))
  {
    PlanReads(b, view, move, cfg, sprint, t, card, from);
    ChoicesMean(b.columns[t], move.ref.project, cfg);
  }

  /** The count of an accepted plan: the cards the target shows, and one more unless the card is among them; marked
      when it is above the target's limit, if there is one. */
  lemma AcceptedCount(b: Board, view: View, move: Move, cfg: Option<Workflow>, sprint: Option<Sprint>, t: nat, card: Card, from: string)
    requires |view.columns| == |b.columns| && CardsApart(AllCards(view)) && IsTarget(b, move.to, t) && Unrepeated(b.ColumnIds())
    requires card.ref == move.ref.Text() && StandsAt(b, view, card, from)
    requires PlanFor(b, view, move, cfg, sprint).Accepted?
    ensures var plan := PlanFor(b, view, move, cfg, sprint).plan;
            && plan.wipUsed == |view.columns[t]| + (if from == move.to then 0 else 1)
            && (plan.wipExceeded <==> 0 < b.columns[t].wip < plan.wipUsed)
  {
    PlanReads(b, view, move, cfg, sprint, t, card, from);
    forall k | t < k < |b.columns|
      ensures b.columns[k].id != move.to
    {
      assert b.ColumnIds()[k] != b.ColumnIds()[t];
    }
    LastWithIdIs(b.columns, move.to, t);
  }

  /** What an accepted move of a remote card can do: it stays in its column, or it leaves the drawer for the sprint
      and keeps its status. In its own column it gets another status exactly when one is asked for. */
  lemma RemoteStays(b: Board, view: View, move: Move, cfg: Option<Workflow>, sprint: Option<Sprint>, t: nat, card: Card, from: string)
    requires |view.columns| == |b.columns| && CardsApart(AllCards(view)) && IsTarget(b, move.to, t)
    requires card.ref == move.ref.Text() && StandsAt(b, view, card, from) && card.remote
    requires PlanFor(b, view, move, cfg, sprint).Accepted?
    ensures var plan := PlanFor(b, view, move, cfg, sprint).plan;
            && (from == move.to || (from == b.backlogColumn && plan.sprintAdd && plan.status == card.status))
            && (plan.statusChanged <==> !LeavesDrawer(b, card, from, move, sprint) && move.status != "" && move.status != card.status)
  {
    RefusedExactly(b, view, move, cfg, sprint, t, card, from);
    AcceptedPlan(b, view, move, cfg, sprint, t, card, from);
  }

  /** In a render every card of a project that is not cloned is remote, so such a card never changes column, other
      than from the drawer into the sprint. */
  lemma UnclonedStays(b: Board, input: Input, order: Listing, view: View, move: Move, cfg: Option<Workflow>, t: nat, card: Card, i: nat)
    requires WellSupplied(b, input) && SoundReader(input.parse) && Renders(b, input, order, view)
    requires i < |b.columns| && card in view.columns[i] && card.ref == move.ref.Text() && IsTarget(b, move.to, t)
    requires SourceOf(input.sources, Before(card.ref, '/')).None? && PlanFor(b, view, move, cfg, input.sprint).Accepted?
    ensures card.remote
    ensures var plan := PlanFor(b, view, move, cfg, input.sprint).plan;
            b.columns[i].id == move.to || (b.columns[i].id == b.backlogColumn && plan.sprintAdd && plan.status == card.status)
  {
    RenderApart(b, input, order, view);
    RemoteCard(b, input, order, i, card);
    RemoteStays(b, view, move, cfg, input.sprint, t, card, b.columns[i].id);
  }

  lemma RemoteCard(b: Board, input: Input, order: Listing, i: nat, card: Card)
    requires WellSupplied(b, input) && SoundReader(input.parse) && i < |b.columns| && card in ColumnCards(b, input, order, i)
    requires SourceOf(input.sources, Before(card.ref, '/')).None?
    ensures card.remote
  {
    ColumnMembers(b, input, order, i, card);
    if c :| c in Candidates(b, input) && PlaceOf(b, Scoping(b, input), c) == In(i) && Shown(Scoping(b, input), c) == card {
      ShownRemote(b, input, c);
    }
  }

  lemma ShownRemote(b: Board, input: Input, c: Candidate)
    requires WellSupplied(b, input) && c in Candidates(b, input) && SourceOf(input.sources, Before(c.card.ref, '/')).None?
    ensures Shown(Scoping(b, input), c).remote
  {
    CandidateSide(b, input, c);
  }
}
