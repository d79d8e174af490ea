/** Planning a card move, and that the plan, the order edit and the next render agree. */
module BoardMove {
  import opened Text
  import opened Ids
  import opened Sorting
  import opened Boards
  import opened BoardOrder
  import opened BoardView
  import opened BoardCards
  import opened BoardFacts
  import opened BoardAgreement

  /** A requested move; an empty status leaves the choice to the column. */
  datatype Move = Move(ref: Ref, to: string, position: int, status: string)

  datatype Plan = Plan(from: string, to: string, status: string, statusChanged: bool, choices: seq<string>,
                       wipUsed: int, wipExceeded: bool, sprintAdd: bool)

  datatype Refusal = NoColumn | NotShown | ReadOnly | NotMapped | NoStatus

  datatype Outcome = Accepted(plan: Plan) | Refused(why: Refusal)

  // ---------------------------------------------------------------- where the card is

  function FindCard(cards: seq<Card>, ref: string): (r: Option<Card>)
    ensures r.Some? ==> r.value in cards && r.value.ref == ref
    ensures r.None? ==> forall card :: card in cards ==> card.ref != ref
  {
    if cards == [] then None
    else if cards[|cards| - 1].ref == ref then Some(cards[|cards| - 1])
    else
      assert cards == cards[..|cards| - 1] + [cards[|cards| - 1]];
      FindCard(cards[..|cards| - 1], ref)
  }

  /** The card and its column, or no column for an unmapped card. */
  datatype Spot = Spot(card: Card, column: Option<nat>)

  function FindColumn(columns: seq<seq<Card>>, ref: string): (r: Option<Spot>)
    ensures r.Some? ==> r.value.column.Some? && r.value.column.value < |columns|
                        && r.value.card in columns[r.value.column.value] && r.value.card.ref == ref
    ensures r.None? ==> forall i, card :: 0 <= i < |columns| && card in columns[i] ==> card.ref != ref
  {
    if columns == [] then None
    else
      var n := |columns| - 1;
      match FindCard(columns[n], ref)
      case Some(card) => Some(Spot(card, Some(n)))
      case None => FindColumn(columns[..n], ref)
  }

  function Locate(view: View, ref: string): (r: Option<Spot>)
    ensures r.Some? ==> r.value.card in AllCards(view) && r.value.card.ref == ref
    ensures r.Some? && r.value.column.Some? ==> r.value.column.value < |view.columns| && r.value.card in view.columns[r.value.column.value]
    ensures r.None? ==> forall card :: card in AllCards(view) ==> card.ref != ref
  {
    match FindColumn(view.columns, ref)
    case Some(spot) => Some(spot)
    case None =>
      match FindCard(view.unmapped, ref)
      case Some(card) => Some(Spot(card, None))
      case None => None
  }

  function FromOf(b: Board, spot: Spot): string {
    if spot.column.Some? && spot.column.value < |b.columns| then b.columns[spot.column.value].id else ""
  }

  function CardsIn(b: Board, view: View, id: string): int {
    match LastWithId(b.columns, id)
    case Some(i) => if i < |view.columns| then |view.columns[i]| else 0
    case None => 0
  }

  // ---------------------------------------------------------------- the plan

  /** The status a live card acquires: the requested one if the column maps it or maps nothing, its own inside
      its column, or the first the column maps. */
  function PickStatus(choices: seq<string>, requested: string, current: string, inside: bool): Option<string> {
    if requested != "" then
      if choices != [] && requested !in choices then None else Some(requested)
    else if inside then Some(current)
    else if choices == [] then None
    else Some(choices[0])
  }

  /** What is planned once the card, its column, the target, the target's size and its choices are known. */
  function PlanOf(b: Board, card: Card, from: string, t: nat, used: int, choices: seq<string>, move: Move, sprint: Option<Sprint>): Outcome
    requires t < |b.columns|
  {
    var column := b.columns[t];
    var joins := sprint.Some? && b.kind == Scrum && move.ref.Text() !in sprint.value.items && column.id != b.backlogColumn;
    if card.remote && joins && from == b.backlogColumn then
      Accepted(Plan(from, column.id, card.status, false, choices, used + 1, Exceeds(column, used + 1), joins))
    else if card.remote && from != column.id then Refused(ReadOnly)
    else
      match PickStatus(choices, move.status, card.status, from == column.id)
      case None => Refused(if move.status != "" then NotMapped else NoStatus)
      case Some(status) =>
        var after := used + if from != column.id then 1 else 0;
        Accepted(Plan(from, column.id, status, status != card.status, choices, after, Exceeds(column, after), joins))
  }

  function PlanFor(b: Board, view: View, move: Move, cfg: Option<Workflow>, sprint: Option<Sprint>): Outcome {
    match FirstWithId(b.columns, move.to)
    case None => Refused(NoColumn)
    case Some(t) =>
      match Locate(view, move.ref.Text())
      case None => Refused(NotShown)
      case Some(spot) =>
        PlanOf(b, spot.card, FromOf(b, spot), t, CardsIn(b, view, move.to), b.columns[t].StatusesFor(move.ref.project, cfg), move, sprint)
  }

  /** PlanMoveInSprint: looks the card up in the view, refuses what a remote card may not do and picks the status. */
  method PlanMoveInSprint(b: Board, view: View, move: Move, cfg: Option<Workflow>, sprint: Option<Sprint>) returns (r: Outcome)
    requires |view.columns| == |b.columns|
    ensures r == PlanFor(b, view, move, cfg, sprint)
  {
    var t := FirstWithId(b.columns, move.to);
    if t.None? {
      return Refused(NoColumn);
    }
    var column := b.columns[t.value];
    var ref := move.ref.Text();
    var spot, used := Search(b, view, ref, column.id);
    if spot.None? {
      return Refused(NotShown);
    }
    var from, card := FromOf(b, spot.value), spot.value.card;
    var joins := sprint.Some? && b.kind == Scrum && ref !in sprint.value.items && column.id != b.backlogColumn;
    var choices := column.StatusesFor(move.ref.project, cfg);
    if card.remote && joins && from == b.backlogColumn {
      used := used + 1;
      return Accepted(Plan(from, column.id, card.status, false, choices, used, Exceeds(column, used), joins));
    }
    if card.remote && from != column.id {
      return Refused(ReadOnly);
    }
    var status := card.status;
    if move.status != "" {
      if choices != [] && move.status !in choices {
        return Refused(NotMapped);
      }
      status := move.status;
    } else if from != column.id {
      if choices == [] {
        return Refused(NoStatus);
      }
      status := choices[0];
    }
    if from != column.id {
      used := used + 1;
    }
    return Accepted(Plan(from, column.id, status, status != card.status, choices, used, Exceeds(column, used), joins));
  }

  /** The size of the last of the first columns with an id. */
  function CountedIn(columns: seq<Column>, shown: seq<seq<Card>>, id: string): int
    requires |columns| <= |shown|
  {
    match LastWithId(columns, id)
    case Some(k) => |shown[k]|
    case None => 0
  }

  lemma SearchStep(columns: seq<Column>, shown: seq<seq<Card>>, ref: string, id: string, i: nat)
    requires i < |columns| == |shown|
    ensures FindColumn(shown[..i + 1], ref)
            == match FindCard(shown[i], ref) case Some(card) => Some(Spot(card, Some(i))) case None => FindColumn(shown[..i], ref)
    ensures CountedIn(columns[..i + 1], shown, id)
            == if columns[i].id == id then |shown[i]| else CountedIn(columns[..i], shown, id)
  {
    assert shown[..i + 1][..i] == shown[..i] && columns[..i + 1][..i] == columns[..i];
  }

  /** One pass over the columns finds the card and counts the target; the unmapped cards come second. */
  method Search(b: Board, view: View, ref: string, id: string) returns (spot: Option<Spot>, used: int)
    requires |view.columns| == |b.columns|
    ensures spot == Locate(view, ref) && used == CardsIn(b, view, id)
  {
    spot, used := None, 0;
    for i := 0 to |view.columns|
      invariant spot == FindColumn(view.columns[..i], ref)
      invariant used == CountedIn(b.columns[..i], view.columns, id)
    {
      SearchStep(b.columns, view.columns, ref, id, i);
      var card := LastCard(view.columns[i], ref);
      if card.Some? {
        spot := Some(Spot(card.value, Some(i)));
      }
      if b.columns[i].id == id {
        used := |view.columns[i]|;
      }
    }
    assert view.columns[..|view.columns|] == view.columns && b.columns[..|b.columns|] == b.columns;
    if spot.None? {
      var card := LastCard(view.unmapped, ref);
      if card.Some? {
        spot := Some(Spot(card.value, None));
      }
    }
  }

  method LastCard(cards: seq<Card>, ref: string) returns (r: Option<Card>)
    ensures r == FindCard(cards, ref)
  {
    r := None;
    for i := 0 to |cards|
      invariant r == FindCard(cards[..i], ref)
    {
      assert cards[..i + 1][..i] == cards[..i];
      if cards[i].ref == ref {
        r := Some(cards[i]);
      }
    }
    assert cards[..|cards|] == cards;
  }
}
