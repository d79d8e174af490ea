/** Rendering a board: where each candidate goes, the placeholders of the order list, and the order of the cards. */
module BoardView {
  import opened Text
  import opened Ids
  import opened Sorting
  import opened Boards
  import opened BoardOrder

  // ---------------------------------------------------------------- where a candidate goes

  datatype Place = In(column: nat) | Unmapped | Dropped

  /** A scrum board with a readable sprint shows only the sprint's scope. */
  function Scoping(b: Board, input: Input): Option<Sprint> {
    if b.kind == Scrum then input.sprint else None
  }

  /** The last column with an id. */
  function LastWithId(columns: seq<Column>, id: string): (r: Option<nat>)
    ensures r.Some? ==> r.value < |columns| && columns[r.value].id == id
    ensures r.None? ==> forall i :: 0 <= i < |columns| ==> columns[i].id != id
  {
    if columns == [] then None
    else if columns[|columns| - 1].id == id then Some(|columns| - 1)
    else LastWithId(columns[..|columns| - 1], id)
  }

  /** The first column with an id. */
  function FirstWithId(columns: seq<Column>, id: string): (r: Option<nat>)
    ensures r.Some? ==> r.value < |columns| && columns[r.value].id == id
    ensures r.None? ==> forall i :: 0 <= i < |columns| ==> columns[i].id != id
  {
    if columns == [] then None
    else if columns[0].id == id then Some(0)
    else
      assert forall i :: 1 <= i < |columns| ==> columns[i] == columns[1..][i - 1];
      match FirstWithId(columns[1..], id)
      case None => None
      case Some(i) => Some(i + 1)
  }

  /** Whether an item the sprint does not list belongs in the backlog drawer. */
  predicate SprintCandidate(b: Board, c: Candidate) {
    && c.matched && !Terminal(c.card.category)
    && match FirstWithId(b.columns, b.backlogColumn)
       case Some(i) => b.columns[i].Shows(c.card.project, c.cfg, c.card.status)
       case None => FirstShowing(b.columns, c.card.project, c.cfg, c.card.status).Some?
  }

  function PlaceOf(b: Board, scoping: Option<Sprint>, c: Candidate): (p: Place)
    ensures p.In? ==> p.column < |b.columns|
  {
    if !c.matched then Dropped
    else if scoping.Some? && c.card.ref !in scoping.value.items then
      var drawer := LastWithId(b.columns, b.backlogColumn);
      if drawer.Some? && SprintCandidate(b, c) then In(drawer.value) else Dropped
    else
      match FirstShowing(b.columns, c.card.project, c.cfg, c.card.status)
      case Some(i) => In(i)
      case None => Unmapped
  }

  /** The card as it is shown, with its sprint marks. */
  function Shown(scoping: Option<Sprint>, c: Candidate): (r: Card)
    ensures r.ref == c.card.ref
  {
    if scoping.None? then c.card
    else if c.card.ref in scoping.value.items
    then c.card.(inSprint := true, committed := c.card.ref in scoping.value.committed)
    else c.card.(backlog := true)
  }

  /** What one render decides about the candidates, apart from their order: where each goes and how it looks. */
  datatype Policy = Policy(place: Candidate -> Place, show: Candidate -> Card)

  function PolicyOf(b: Board, input: Input): Policy {
    var scoping := Scoping(b, input);
    Policy((c: Candidate) => PlaceOf(b, scoping, c), (c: Candidate) => Shown(scoping, c))
  }

  /** The cards of the candidates that go to a place. */
  function Bucket(policy: Policy, cands: seq<Candidate>, place: Place): (r: seq<Card>)
  {
    if cands == [] then []
    else
      var c := cands[|cands| - 1];
      Bucket(policy, cands[..|cands| - 1], place) + if policy.place(c) == place then [policy.show(c)] else []
  }

  ghost function PlacedRefs(policy: Policy, cands: seq<Candidate>): set<string> {
    set i | 0 <= i < |cands| && policy.place(cands[i]).In? :: cands[i].card.ref
  }

  ghost function KnownRefs(cands: seq<Candidate>): set<string> {
    set i | 0 <= i < |cands| && cands[i].card.remote :: cands[i].card.ref
  }

  // ---------------------------------------------------------------- placeholders

  /** One reference of the order list: its column and its text. */
  datatype Slot = Slot(column: nat, raw: string)

  /** What a reference needs to become a placeholder when nothing placed it: it parses, the sprint scope keeps
      it, its project is not cloned and no snapshot resolved it. */
  datatype Gate = Gate(parse: string -> Option<Ref>, admits: Ref -> bool, card: Ref -> Card)

  function Placeholder(declared: bool, r: Ref): Card {
    Card(r.Text(), r.project, "", Undeclared, NoPriority, 0, declared, true, false, false, false)
  }

  ghost function GateOf(b: Board, input: Input): Gate {
    var scoping := Scoping(b, input);
    var known := KnownRefs(Candidates(b, input));
    Gate(input.parse,
         (r: Ref) => (scoping.Some? ==> r.Text() in scoping.value.items) && SourceOf(input.sources, r.project).None? && r.Text() !in known,
         (r: Ref) => Placeholder(r.project in input.declared, r))
  }

  /** A placeholder and the column it stands in. */
  datatype Extra = Extra(column: nat, ref: Ref)

  /** The placeholders of some slots: each admitted reference nothing has placed yet, once. */
  ghost function Extras(gate: Gate, slots: seq<Slot>, placed: set<string>): seq<Extra> {
    if slots == [] then []
    else
      var n := |slots| - 1;
      var before := Extras(gate, slots[..n], placed);
      var ref := gate.parse(slots[n].raw);
      if ref.Some? && ref.value.Text() !in placed && ref.value.Text() !in ExtraRefs(before) && gate.admits(ref.value)
      then before + [Extra(slots[n].column, ref.value)]
      else before
  }

  function ExtraRefs(extras: seq<Extra>): set<string> {
    set i | 0 <= i < |extras| :: extras[i].ref.Text()
  }

  /** The placeholder cards of a column. */
  function ExtraCards(gate: Gate, extras: seq<Extra>, column: nat): seq<Card> {
    if extras == [] then []
    else
      var x := extras[|extras| - 1];
      ExtraCards(gate, extras[..|extras| - 1], column) + if x.column == column then [gate.card(x.ref)] else []
  }

  function SlotsOf(column: nat, refs: seq<string>): (r: seq<Slot>)
    ensures |r| == |refs| && forall i :: 0 <= i < |refs| ==> r[i] == Slot(column, refs[i])
  {
    seq(|refs|, i requires 0 <= i < |refs| => Slot(column, refs[i]))
  }

  /** The order list of a board, column by column. */
  function Slots(columns: seq<string>, order: Listing): seq<Slot> {
    if columns == [] then []
    else
      var n := |columns| - 1;
      Slots(columns[..n], order) + SlotsOf(n, order.Refs(columns[n]))
  }

  // ---------------------------------------------------------------- order of the cards

  /** The first place of a reference in a list, or its length. */
  function RankIn(order: seq<string>, ref: string): (n: nat)
    ensures n <= |order|
    ensures n < |order| ==> order[n] == ref
    ensures n == |order| <==> ref !in order
    ensures forall i :: 0 <= i < n ==> order[i] != ref
  {
    if order == [] then 0
    else if order[0] == ref then 0
    else
      assert forall i :: 1 <= i < |order| ==> order[i] == order[1..][i - 1];
      1 + RankIn(order[1..], ref)
  }

  /** The implicit order: the lower priority rank first, then the most recently updated, then the reference. */
  predicate RankLess(a: Card, b: Card) {
    if a.priority.Rank() != b.priority.Rank() then a.priority.Rank() < b.priority.Rank()
    else if a.updated != b.updated then a.updated > b.updated
    else Less(a.ref, b.ref)
  }

  /** Listed cards first, in the list's order; the others by rank. */
  function CardLess(order: seq<string>): (Card, Card) -> bool {
    (a: Card, b: Card) =>
      if a.ref in order || b.ref in order then RankIn(order, a.ref) < RankIn(order, b.ref) else RankLess(a, b)
  }

  // ---------------------------------------------------------------- the render

  datatype View = View(columns: seq<seq<Card>>, unmapped: seq<Card>, exceeded: seq<bool>)

  ghost function PlaceholdersOf(b: Board, input: Input, order: Listing): seq<Extra> {
    Extras(GateOf(b, input), Slots(b.ColumnIds(), order), PlacedRefs(PolicyOf(b, input), Candidates(b, input)))
  }

  /** The cards of a column before they are sorted. */
  ghost function Contents(b: Board, input: Input, order: Listing, i: nat): seq<Card> {
    Bucket(PolicyOf(b, input), Candidates(b, input), In(i)) + ExtraCards(GateOf(b, input), PlaceholdersOf(b, input, order), i)
  }

  /** The cards of a column in their order. */
  ghost function Arranged(order: Listing, c: Column, cards: seq<Card>): seq<Card> {
    Sort(CardLess(order.Refs(c.id)), cards)
  }

  ghost function ColumnCards(b: Board, input: Input, order: Listing, i: nat): seq<Card>
    requires i < |b.columns|
  {
    Arranged(order, b.columns[i], Contents(b, input, order, i))
  }

  predicate Exceeds(c: Column, n: int) {
    c.wip > 0 && n > c.wip
  }

  /** The view a board must render to. */
  ghost predicate Renders(b: Board, input: Input, order: Listing, view: View) {
    && |view.columns| == |view.exceeded| == |b.columns|
    && (forall i :: 0 <= i < |b.columns| ==> view.columns[i] == ColumnCards(b, input, order, i))
    && (forall i :: 0 <= i < |b.columns| ==> view.exceeded[i] == Exceeds(b.columns[i], |view.columns[i]|))
    && view.unmapped == Sort(RankLess, Bucket(PolicyOf(b, input), Candidates(b, input), Unmapped))
  }
}
