/** What a render shows, item by item, read off the board file, the workflows and the items alone. */
module BoardShown {
  import opened Text
  import opened Ids
  import opened Sorting
  import opened Boards
  import opened BoardOrder
  import opened BoardView
  import opened BoardCards
  import opened BoardFacts
  import opened BoardAgreement

  // ---------------------------------------------------------------- what a column maps

  /** A column with categories maps exactly the statuses a workflow puts in them. Without categories a project's
      own list decides if there is one, and the wildcard's only if there is none. */
  ghost predicate Maps(c: Column, key: string, cfg: Option<Workflow>, status: string) {
    && (c.categories != [] ==> cfg.Some? && exists d :: d in cfg.value.statuses && d.id == status && d.category in c.categories)
    && (c.categories == [] && key in c.statuses ==> status in c.statuses[key])
    && (c.categories == [] && key !in c.statuses ==> WILDCARD in c.statuses && status in c.statuses[WILDCARD])
  }

  lemma ShowsMaps(c: Column, key: string, cfg: Option<Workflow>, status: string)
    ensures c.Shows(key, cfg, status) <==> Maps(c, key, cfg, status)
  {
    if c.categories != [] && cfg.Some? {
      var defs := cfg.value.statuses;
      assert forall i :: 0 <= i < |defs| ==> defs[i] in defs;
      if d :| d in defs && d.id == status && d.category in c.categories {
        var i :| 0 <= i < |defs| && defs[i] == d;
      }
    }
  }

  /** The i-th column is the first one that maps the status. */
  ghost predicate FirstMaps(b: Board, key: string, cfg: Option<Workflow>, status: string, i: nat) {
    i < |b.columns| && Maps(b.columns[i], key, cfg, status) && forall k :: 0 <= k < i ==> !Maps(b.columns[k], key, cfg, status)
  }

  ghost predicate NoneMaps(b: Board, key: string, cfg: Option<Workflow>, status: string) {
    forall k :: 0 <= k < |b.columns| ==> !Maps(b.columns[k], key, cfg, status)
  }

  lemma FirstShowingMaps(b: Board, key: string, cfg: Option<Workflow>, status: string)
    ensures match FirstShowing(b.columns, key, cfg, status)
            case Some(i) => FirstMaps(b, key, cfg, status, i)
            case None => NoneMaps(b, key, cfg, status)
  {
    forall k | 0 <= k < |b.columns|
      ensures b.columns[k].Shows(key, cfg, status) <==> Maps(b.columns[k], key, cfg, status)
    {
      ShowsMaps(b.columns[k], key, cfg, status);
    }
  }

  // ---------------------------------------------------------------- categories and filters

  /** The first declaration of a status. */
  ghost predicate Declares(defs: seq<StatusDef>, status: string, k: nat) {
    k < |defs| && defs[k].id == status && forall l :: 0 <= l < k ==> defs[l].id != status
  }

  /** The category of a status: that of its first declaration, and none without a workflow or a declaration. */
  ghost predicate HasCategory(cfg: Option<Workflow>, status: string, category: Category) {
    if cfg.Some? && exists d :: d in cfg.value.statuses && d.id == status
    then exists k: nat :: Declares(cfg.value.statuses, status, k) && cfg.value.statuses[k].category == category
    else category == Undeclared
  }

  lemma {:induction false} DeclaredCategory(defs: seq<StatusDef>, status: string)
    ensures (exists k: nat :: Declares(defs, status, k) && defs[k].category == CategoryAmong(defs, status))
            || ((forall d :: d in defs ==> d.id != status) && CategoryAmong(defs, status) == Undeclared)
    ensures forall k: nat, l: nat :: Declares(defs, status, k) && Declares(defs, status, l) ==> k == l
  {
    if defs != [] {
      if defs[0].id == status {
        assert Declares(defs, status, 0);
      } else {
        DeclaredCategory(defs[1..], status);
        if k: nat :| Declares(defs[1..], status, k) && defs[1..][k].category == CategoryAmong(defs[1..], status) {
          assert forall l :: 0 <= l < k ==> defs[1..][l] == defs[l + 1];
          assert Declares(defs, status, k + 1);
        }
      }
    }
  }

  function CategoryIn(cfg: Option<Workflow>, status: string): Category {
    if cfg.Some? then cfg.value.CategoryOf(status) else Undeclared
  }

  lemma CategoryMeans(cfg: Option<Workflow>, status: string, category: Category)
    ensures HasCategory(cfg, status, category) <==> category == CategoryIn(cfg, status)
  {
    if cfg.Some? {
      var defs := cfg.value.statuses;
      DeclaredCategory(defs, status);
      if k: nat :| Declares(defs, status, k) {
        assert defs[k] in defs;
      }
    }
  }

  /** Whether the board wants an item: it is not deleted, the filters keep it, it is recent enough, and if its
      status is a closed one the board includes those or maps the status for the workflow's own key. */
  ghost predicate Wanted(b: Board, it: Item, cfg: Option<Workflow>) {
    && !it.deleted && b.keeps(it.priority, it.facts)
    && (b.updatedSince.Some? ==> b.updatedSince.value <= it.updated)
    && (b.includeClosed || cfg.None? || (!HasCategory(cfg, it.status, Done) && !HasCategory(cfg, it.status, Cancelled))
        || exists i :: 0 <= i < |b.columns| && Maps(b.columns[i], cfg.value.key, cfg, it.status))
  }

  lemma MatchesWanted(b: Board, it: Item, cfg: Option<Workflow>)
    ensures b.Matches(it, cfg) <==> Wanted(b, it, cfg)
  {
    CategoryMeans(cfg, it.status, Done);
    CategoryMeans(cfg, it.status, Cancelled);
    if cfg.Some? {
      FirstShowingMaps(b, cfg.value.key, cfg, it.status);
    }
  }

  /** The projects a board shows: those it lists, or every declared one when it lists none or the wildcard; and of
      those the filtered ones, when it filters. */
  ghost predicate InScope(b: Board, declared: seq<string>, key: string) {
    && (if b.projects == [] || WILDCARD in b.projects then key in declared else key in b.projects)
    && (b.filterProjects == [] || key in b.filterProjects)
  }

  lemma ScopeMembers(b: Board, declared: seq<string>, key: string)
    ensures key in b.Scope(declared) <==> InScope(b, declared, key)
  {
    var own := Intersect(declared, b.projects);
    assert key in own + Strangers(b.projects, declared, own) <==> key in b.projects;
  }

  // ---------------------------------------------------------------- where a card stands

  ghost predicate ShownIn(view: View, i: nat, ref: string) {
    i < |view.columns| && exists card :: card in view.columns[i] && card.ref == ref
  }

  ghost predicate ShownUnmapped(view: View, ref: string) {
    exists card :: card in view.unmapped && card.ref == ref
  }

  /** A sprint board with a readable sprint. */
  predicate Scoped(b: Board, input: Input) {
    b.kind == Scrum && input.sprint.Some?
  }

  /** The sprint keeps the reference, or there is none. */
  predicate Kept(b: Board, input: Input, ref: string) {
    !Scoped(b, input) || ref in input.sprint.value.items
  }

  /** The drawer a sprint board offers its candidates in: the last column with the backlog's id, if the first one
      with that id maps the status, and the status is not a closed one. */
  ghost predicate InDrawer(b: Board, key: string, cfg: Option<Workflow>, status: string, category: Category, i: nat) {
    && i < |b.columns| && b.columns[i].id == b.backlogColumn
    && (forall k :: i < k < |b.columns| ==> b.columns[k].id != b.backlogColumn)
    && (forall j :: 0 <= j <= i && b.columns[j].id == b.backlogColumn && (forall k :: 0 <= k < j ==> b.columns[k].id != b.backlogColumn) ==>
          Maps(b.columns[j], key, cfg, status))
    && category != Done && category != Cancelled
  }

  /** Where a card of a status belongs. */
  ghost predicate Goes(b: Board, input: Input, ref: string, key: string, cfg: Option<Workflow>, status: string, category: Category, i: nat) {
    if Kept(b, input, ref) then FirstMaps(b, key, cfg, status, i) else InDrawer(b, key, cfg, status, category, i)
  }

  lemma {:induction false} LastWithIdIs(columns: seq<Column>, id: string, i: nat)
    requires i < |columns| && columns[i].id == id && forall k :: i < k < |columns| ==> columns[k].id != id
    ensures LastWithId(columns, id) == Some(i)
    decreases |columns|
  {
    if i < |columns| - 1 {
      LastWithIdIs(columns[..|columns| - 1], id, i);
    }
  }

  lemma {:induction false} LastWithIdLast(columns: seq<Column>, id: string)
    ensures var r := LastWithId(columns, id); r.Some? ==> forall k :: r.value < k < |columns| ==> columns[k].id != id
    decreases |columns|
  {
    if columns != [] && columns[|columns| - 1].id != id {
      LastWithIdLast(columns[..|columns| - 1], id);
    }
  }

  lemma {:induction false} FirstWithIdFirst(columns: seq<Column>, id: string)
    ensures var r := FirstWithId(columns, id); r.Some? ==> forall k :: 0 <= k < r.value ==> columns[k].id != id
  {
    if columns != [] && columns[0].id != id {
      FirstWithIdFirst(columns[1..], id);
      assert forall k :: 1 <= k < |columns| ==> columns[k] == columns[1..][k - 1];
    }
  }

  /** The last and the first column with the backlog's id. */
  lemma DrawerColumns(b: Board, i: nat)
    ensures LastWithId(b.columns, b.backlogColumn) == Some(i)
            <==> i < |b.columns| && b.columns[i].id == b.backlogColumn && forall k :: i < k < |b.columns| ==> b.columns[k].id != b.backlogColumn
  {
    LastWithIdLast(b.columns, b.backlogColumn);
    if i < |b.columns| && b.columns[i].id == b.backlogColumn && forall k :: i < k < |b.columns| ==> b.columns[k].id != b.backlogColumn {
      LastWithIdIs(b.columns, b.backlogColumn, i);
    }
  }

  lemma DrawerMeans(b: Board, c: Candidate, i: nat)
    requires c.matched
    ensures InDrawer(b, c.card.project, c.cfg, c.card.status, c.card.category, i)
            <==> LastWithId(b.columns, b.backlogColumn) == Some(i) && SprintCandidate(b, c)
  {
    DrawerColumns(b, i);
    if LastWithId(b.columns, b.backlogColumn) == Some(i) {
      DrawerFirst(b, c, i);
    }
  }

  lemma DrawerFirst(b: Board, c: Candidate, i: nat)
    requires c.matched && LastWithId(b.columns, b.backlogColumn) == Some(i)
    requires i < |b.columns| && b.columns[i].id == b.backlogColumn && forall k :: i < k < |b.columns| ==> b.columns[k].id != b.backlogColumn
    ensures InDrawer(b, c.card.project, c.cfg, c.card.status, c.card.category, i) <==> SprintCandidate(b, c)
  {
    var j := FirstWithId(b.columns, b.backlogColumn).value;
    FirstWithIdFirst(b.columns, b.backlogColumn);
    ShowsMaps(b.columns[j], c.card.project, c.cfg, c.card.status);
  }

  lemma MemberGoes(b: Board, input: Input, c: Candidate, i: nat)
    requires c.matched && Kept(b, input, c.card.ref)
    ensures PlaceOf(b, Scoping(b, input), c) == In(i) <==> FirstMaps(b, c.card.project, c.cfg, c.card.status, i)
    ensures PlaceOf(b, Scoping(b, input), c) == Unmapped <==> NoneMaps(b, c.card.project, c.cfg, c.card.status)
  {
    FirstShowingMaps(b, c.card.project, c.cfg, c.card.status);
  }

  lemma StrangerGoes(b: Board, input: Input, c: Candidate, i: nat)
    requires c.matched && !Kept(b, input, c.card.ref)
    ensures PlaceOf(b, Scoping(b, input), c) == In(i)
            <==> InDrawer(b, c.card.project, c.cfg, c.card.status, c.card.category, i)
    ensures PlaceOf(b, Scoping(b, input), c) != Unmapped
  {
    DrawerMeans(b, c, i);
  }

  /** What the placement of a candidate means. */
  lemma PlaceGoes(b: Board, input: Input, c: Candidate, i: nat)
    ensures PlaceOf(b, Scoping(b, input), c) == In(i)
            <==> c.matched && Goes(b, input, c.card.ref, c.card.project, c.cfg, c.card.status, c.card.category, i)
    ensures PlaceOf(b, Scoping(b, input), c) == Unmapped
            <==> c.matched && Kept(b, input, c.card.ref) && NoneMaps(b, c.card.project, c.cfg, c.card.status)
  {
    if c.matched {
      if Kept(b, input, c.card.ref) {
        MemberGoes(b, input, c, i);
      } else {
        StrangerGoes(b, input, c, i);
      }
    }
  }

  /** A candidate's reference stands exactly where its place says. */
  lemma CandidateStands(b: Board, input: Input, order: Listing, view: View, c: Candidate, i: nat)
    requires WellSupplied(b, input) && SoundReader(input.parse) && Renders(b, input, order, view) && c in Candidates(b, input)
    ensures ShownIn(view, i, c.card.ref) <==> PlaceOf(b, Scoping(b, input), c) == In(i)
    ensures ShownUnmapped(view, c.card.ref) <==> PlaceOf(b, Scoping(b, input), c) == Unmapped
    ensures forall card :: card in AllCards(view) && card.ref == c.card.ref ==> card == Shown(Scoping(b, input), c)
  {
    var place, shown := PlaceOf(b, Scoping(b, input), c), Shown(Scoping(b, input), c);
    AppearsInPlace(b, input, order, view, c);
    if ShownIn(view, i, c.card.ref) {
      var card :| card in view.columns[i] && card.ref == c.card.ref;
      OnlyHome(b, input, order, view, c, i, card);
    }
    if ShownUnmapped(view, c.card.ref) {
      var card :| card in view.unmapped && card.ref == c.card.ref;
      OnlyUnmapped(b, input, order, view, c, card);
    }
    RenderApart(b, input, order, view);
    forall card | card in AllCards(view) && card.ref == c.card.ref
      ensures card == shown
    {
      StandsInPlace(b, input, order, view, c, card);
      SameCard(AllCards(view), card, shown);
    }
  }

  lemma SameCard(cards: seq<Card>, x: Card, y: Card)
    requires CardsApart(cards) && x in cards && y in cards && x.ref == y.ref
    ensures x == y
  {
    var i :| 0 <= i < |cards| && cards[i] == x;
    var j :| 0 <= j < |cards| && cards[j] == y;
  }

  /** The card as a sprint board marks it. */
  ghost predicate Marked(b: Board, input: Input, card: Card) {
    if Scoped(b, input) then
      && card.inSprint == (card.ref in input.sprint.value.items)
      && card.committed == (card.inSprint && card.ref in input.sprint.value.committed)
      && card.backlog == !card.inSprint
    else !card.inSprint && !card.committed && !card.backlog
  }

  /** What a card shows of an item. */
  ghost predicate Pictures(card: Card, key: string, it: Item, declared: bool, remote: bool) {
    && card.project == key && card.status == it.status && card.priority == it.priority && card.updated == it.updated
    && card.declared == declared && card.remote == remote
  }

  /** A card in a column has a candidate's reference, or one of a project that is not cloned. */
  lemma ColumnCard(b: Board, input: Input, order: Listing, i: nat, card: Card)
    requires WellSupplied(b, input) && SoundReader(input.parse) && i < |b.columns| && card in ColumnCards(b, input, order, i)
    ensures (exists c :: c in Candidates(b, input) && c.card.ref == card.ref) || SourceOf(input.sources, Before(card.ref, '/')).None?
  {
    ColumnMembers(b, input, order, i, card);
    if x :| x in PlaceholdersOf(b, input, order) && x.column == i && GateOf(b, input).card(x.ref) == card {
      PlaceholderFacts(b, input, order, x);
      RefText(x.ref.project, x.ref.item, x.ref.item);
    }
  }

  lemma UnmappedCard(b: Board, input: Input, order: Listing, view: View, card: Card)
    requires Renders(b, input, order, view) && card in view.unmapped
    ensures exists c :: c in Candidates(b, input) && c.card.ref == card.ref
  {
    UnmappedMembers(b, input, order, view, card);
  }

  /** No card has a reference of a cloned project that no candidate has. */
  lemma NobodyStands(b: Board, input: Input, order: Listing, view: View, key: string, id: string)
    requires WellSupplied(b, input) && SoundReader(input.parse) && Renders(b, input, order, view)
    requires '/' !in key && SourceOf(input.sources, key).Some?
    requires forall c :: c in Candidates(b, input) ==> c.card.ref != Ref(key, id).Text()
    ensures forall card :: card in AllCards(view) ==> card.ref != Ref(key, id).Text()
  {
    RefText(key, id, id);
    forall card | card in AllCards(view)
      ensures card.ref != Ref(key, id).Text()
    {
      if card in view.unmapped {
        UnmappedCard(b, input, order, view, card);
      } else {
        var i :| 0 <= i < |b.columns| && card in view.columns[i];
        ColumnCard(b, input, order, i, card);
      }
    }
  }

  /** Which candidate an item of a cloned project is. */
  lemma LiveAmong(b: Board, input: Input, s: Source, it: Item, c: Candidate)
    requires WellSupplied(b, input) && SourceOf(input.sources, s.project) == Some(s) && it in s.items && '/' !in s.project
    ensures c in Candidates(b, input) && c.card.ref == Ref(s.project, it.id).Text()
            <==> InScope(b, input.declared, s.project) && Planned(c) && c == LiveCandidate(b, s.project, s.cfg, it)
  {
    ScopeMembers(b, input.declared, s.project);
    CandidatesAre(b, input, c);
    if c in Candidates(b, input) && c.card.ref == Ref(s.project, it.id).Text() {
      CandidateSide(b, input, c);
      RefText(s.project, it.id, it.id);
      var key :| key in b.Scope(input.declared) && Supplies(b, input, key, c);
      assert c.card.project == key == s.project;
      var other :| other in s.items && c == LiveCandidate(b, s.project, s.cfg, other);
      RefText(s.project, other.id, it.id);
      OneItem(s.items, other, it);
    }
    if InScope(b, input.declared, s.project) && Planned(c) && c == LiveCandidate(b, s.project, s.cfg, it) {
      assert Supplies(b, input, s.project, c);
    }
  }

  lemma OneItem(items: seq<Item>, x: Item, y: Item)
    requires ItemsApart(items) && x in items && y in items && x.id == y.id
    ensures x == y
  {
    var i :| 0 <= i < |items| && items[i] == x;
    var j :| 0 <= j < |items| && items[j] == y;
  }

  /** Where a reference is shown: if the item is on the board, where its status belongs, and in no other place. */
  ghost predicate Placed(b: Board, input: Input, view: View, ref: string, key: string, cfg: Option<Workflow>, status: string,
                         category: Category, on: bool, i: nat) {
    && (ShownIn(view, i, ref) <==> on && Goes(b, input, ref, key, cfg, status, category, i))
    && (ShownUnmapped(view, ref) <==> on && Kept(b, input, ref) && NoneMaps(b, key, cfg, status))
  }

  lemma CandidatePlaced(b: Board, input: Input, order: Listing, view: View, c: Candidate, i: nat)
    requires WellSupplied(b, input) && SoundReader(input.parse) && Renders(b, input, order, view) && c in Candidates(b, input)
    ensures Placed(b, input, view, c.card.ref, c.card.project, c.cfg, c.card.status, c.card.category, c.matched, i)
    ensures forall card :: card in AllCards(view) && card.ref == c.card.ref ==> card == Shown(Scoping(b, input), c)
  {
    CandidateStands(b, input, order, view, c, i);
    PlaceGoes(b, input, c, i);
  }

  lemma CardPictures(b: Board, input: Input, key: string, it: Item, category: Category, declared: bool, remote: bool, c: Candidate)
    requires c.card == CardOf(key, it, category, declared, remote)
    ensures var card := Shown(Scoping(b, input), c);
            Pictures(card, key, it, declared, remote) && card.category == category && Marked(b, input, card)
  {
  }

  /** Where an item of a cloned project is shown, and as what card: in the first column that maps its status, among
      the unmapped when none does, and on a sprint board that does not list it in the backlog drawer or nowhere. */
  lemma LiveShown(b: Board, input: Input, order: Listing, view: View, s: Source, it: Item, category: Category, i: nat)
    requires WellSupplied(b, input) && SoundReader(input.parse) && Renders(b, input, order, view)
    requires SourceOf(input.sources, s.project) == Some(s) && it in s.items && '/' !in s.project
    requires HasCategory(s.cfg, it.status, category)
    ensures Placed(b, input, view, Ref(s.project, it.id).Text(), s.project, s.cfg, it.status, category,
                   InScope(b, input.declared, s.project) && Wanted(b, it, s.cfg) && category != Triage, i)
    ensures forall card :: card in AllCards(view) && card.ref == Ref(s.project, it.id).Text() ==>
              Pictures(card, s.project, it, true, false) && card.category == category && Marked(b, input, card)
  {
    var c := LiveCandidate(b, s.project, s.cfg, it);
    LiveAmong(b, input, s, it, c);
    MatchesWanted(b, it, s.cfg);
    CategoryMeans(s.cfg, it.status, category);
    if c in Candidates(b, input) {
      CandidatePlaced(b, input, order, view, c, i);
      CardPictures(b, input, s.project, it, category, true, false, c);
    } else {
      forall d | d in Candidates(b, input)
        ensures d.card.ref != Ref(s.project, it.id).Text()
      {
        LiveAmong(b, input, s, it, d);
      }
      NobodyStands(b, input, order, view, s.project, it.id);
      StandsAmong(view, i, Ref(s.project, it.id).Text());
    }
  }

  lemma StandsAmong(view: View, i: nat, ref: string)
    ensures ShownIn(view, i, ref) || ShownUnmapped(view, ref) ==> exists card :: card in AllCards(view) && card.ref == ref
  {
    if ShownIn(view, i, ref) {
      var card :| card in view.columns[i] && card.ref == ref;
      assert card in Flatten(view.columns) && card in AllCards(view);
    } else if ShownUnmapped(view, ref) {
      var card :| card in view.unmapped && card.ref == ref;
      assert card in AllCards(view);
    }
  }

  // ---------------------------------------------------------------- projects nobody cloned

  /** The category of a published entry: its own, or the workflow's when it has none. */
  ghost predicate EntryCategory(cfg: Option<Workflow>, e: Entry, category: Category) {
    if e.category == Undeclared then HasCategory(cfg, e.item.status, category) else category == e.category
  }

  /** Where a published entry of a project that is not cloned is shown, and as what card. */
  lemma RemoteShown(b: Board, input: Input, order: Listing, view: View, key: string, cfg: Option<Workflow>, e: Entry, category: Category, i: nat)
    requires WellSupplied(b, input) && SoundReader(input.parse) && Renders(b, input, order, view)
    requires SourceOf(input.sources, key).None? && key in input.snapshots && e in input.snapshots[key].entries && cfg == input.snapshots[key].cfg
    requires InScope(b, input.declared, key) && EntryCategory(cfg, e, category) && category != Triage
    ensures Placed(b, input, view, Ref(key, e.item.id).Text(), key, cfg, e.item.status, category, Wanted(b, e.item, cfg), i)
    ensures forall card :: card in AllCards(view) && card.ref == Ref(key, e.item.id).Text() ==>
              Pictures(card, key, e.item, key in input.declared, true) && card.category == category && Marked(b, input, card)
  {
    var c := RemoteCandidate(b, input, key, cfg, e);
    CategoryMeans(cfg, e.item.status, category);
    ScopeMembers(b, input.declared, key);
    assert c.card.category == category && Supplies(b, input, key, c);
    CandidatesAre(b, input, c);
    MatchesWanted(b, e.item, cfg);
    CandidatePlaced(b, input, order, view, c, i);
    CardPictures(b, input, key, e.item, category, key in input.declared, true, c);
  }

  /** Of several sources of a project the last one serves it. */
  lemma {:induction false} SourceIsLast(sources: seq<Source>, key: string, i: nat)
    requires i < |sources| && sources[i].project == key && forall k :: i < k < |sources| ==> sources[k].project != key
    ensures SourceOf(sources, key) == Some(sources[i])
    decreases |sources|
  {
    if i < |sources| - 1 {
      SourceIsLast(sources[..|sources| - 1], key, i);
    }
  }

  // ---------------------------------------------------------------- placeholders

  /** The column's list names the reference. */
  ghost predicate Names(b: Board, input: Input, order: Listing, i: nat, r: Ref) {
    i < |b.columns| && exists raw :: raw in order.Refs(b.columns[i].id) && input.parse(raw) == Some(r)
  }

  lemma {:induction false} SlotsOrdered(columns: seq<string>, order: Listing)
    ensures forall k, l :: 0 <= k < l < |Slots(columns, order)| ==> Slots(columns, order)[k].column <= Slots(columns, order)[l].column
    ensures forall k :: 0 <= k < |Slots(columns, order)| ==> Slots(columns, order)[k].column < |columns|
  {
    if columns != [] {
      SlotsOrdered(columns[..|columns| - 1], order);
    }
  }

  /** The slot is the first one of its reference. */
  ghost predicate FirstSlot(gate: Gate, slots: seq<Slot>, k: nat, r: Ref) {
    k < |slots| && gate.parse(slots[k].raw) == Some(r)
    && forall l :: 0 <= l < k ==> gate.parse(slots[l].raw).None? || gate.parse(slots[l].raw).value.Text() != r.Text()
  }

  /** The first admitted slot of a reference makes its placeholder. */
  lemma {:induction false} FirstSlotStands(gate: Gate, slots: seq<Slot>, placed: set<string>, k: nat, r: Ref)
    requires FirstSlot(gate, slots, k, r) && r.Text() !in placed && gate.admits(r)
    ensures Extra(slots[k].column, r) in Extras(gate, slots, placed)
    decreases |slots|
  {
    var n := |slots| - 1;
    var before := Extras(gate, slots[..n], placed);
    if k < n {
      FirstSlotStands(gate, slots[..n], placed, k, r);
      assert forall x :: x in before ==> x in Extras(gate, slots, placed);
    } else {
      ExtrasFounded(gate, slots[..n], placed);
      forall i | 0 <= i < |before|
        ensures before[i].ref.Text() != r.Text()
      {
        assert before[i] in before && Founded(gate, slots[..n], placed, before[i]);
        var l :| 0 <= l < n && gate.parse(slots[..n][l].raw) == Some(before[i].ref);
      }
      assert r.Text() !in ExtraRefs(before);
      assert Extras(gate, slots, placed) == before + [Extra(slots[n].column, r)];
    }
  }

  lemma {:induction false} SomeFirstSlot(gate: Gate, slots: seq<Slot>, l: nat, r: Ref) returns (k: nat)
    requires l < |slots| && gate.parse(slots[l].raw) == Some(r)
    requires forall s, ref :: s in slots && gate.parse(s.raw) == Some(ref) && ref.Text() == r.Text() ==> ref == r
    ensures k <= l && FirstSlot(gate, slots, k, r)
    decreases l
  {
    if m :| 0 <= m < l && gate.parse(slots[m].raw).Some? && gate.parse(slots[m].raw).value.Text() == r.Text() {
      assert slots[m] in slots;
      k := SomeFirstSlot(gate, slots, m, r);
    } else {
      k := l;
    }
  }

  /** A reader reads one reference from texts that render alike. */
  lemma OneReading(parse: string -> Option<Ref>, a: string, r: Ref)
    requires SoundReader(parse) && parse(r.Text()) == Some(r) && parse(a).Some? && parse(a).value.Text() == r.Text()
    ensures parse(a) == Some(r)
  {
  }

  lemma NamedSlot(b: Board, input: Input, order: Listing, slots: seq<Slot>, r: Ref, i: nat) returns (l: nat)
    requires slots == Slots(b.ColumnIds(), order) && Names(b, input, order, i, r)
    ensures l < |slots| && slots[l].column == i && input.parse(slots[l].raw) == Some(r)
  {
    var raw :| raw in order.Refs(b.columns[i].id) && input.parse(raw) == Some(r);
    SlotMembers(b.ColumnIds(), order, Slot(i, raw));
    l :| 0 <= l < |slots| && slots[l] == Slot(i, raw);
  }

  lemma SlotNames(b: Board, input: Input, order: Listing, slots: seq<Slot>, r: Ref, k: nat)
    requires slots == Slots(b.ColumnIds(), order) && k < |slots| && input.parse(slots[k].raw) == Some(r)
    ensures Names(b, input, order, slots[k].column, r)
  {
    SlotMembers(b.ColumnIds(), order, slots[k]);
  }

  lemma OneReference(gate: Gate, slots: seq<Slot>, r: Ref)
    requires SoundReader(gate.parse) && gate.parse(r.Text()) == Some(r)
    ensures forall s, ref :: s in slots && gate.parse(s.raw) == Some(ref) && ref.Text() == r.Text() ==> ref == r
  {
    forall s, ref | s in slots && gate.parse(s.raw) == Some(ref) && ref.Text() == r.Text()
      ensures ref == r
    {
      OneReading(gate.parse, s.raw, r);
    }
  }

  /** The column of a reference's placeholder: the first one whose list names it. */
  lemma PlaceholderColumn(b: Board, input: Input, order: Listing, r: Ref, i: nat)
    requires SoundReader(input.parse) && input.parse(r.Text()) == Some(r) && GateOf(b, input).admits(r)
    requires r.Text() !in PlacedRefs(PolicyOf(b, input), Candidates(b, input)) && Names(b, input, order, i, r)
    ensures exists x :: x in PlaceholdersOf(b, input, order) && x.ref == r && x.column <= i && Names(b, input, order, x.column, r)
  {
    var gate, slots, placed := GateOf(b, input), Slots(b.ColumnIds(), order), PlacedRefs(PolicyOf(b, input), Candidates(b, input));
    var l := NamedSlot(b, input, order, slots, r, i);
    var x := FirstExtra(gate, slots, placed, r, l);
    SlotsOrdered(b.ColumnIds(), order);
    var k :| 0 <= k <= l && slots[k].column == x.column && gate.parse(slots[k].raw) == Some(r);
    SlotNames(b, input, order, slots, r, k);
  }

  lemma FirstExtra(gate: Gate, slots: seq<Slot>, placed: set<string>, r: Ref, l: nat) returns (x: Extra)
    requires SoundReader(gate.parse) && gate.parse(r.Text()) == Some(r) && gate.admits(r) && r.Text() !in placed
    requires l < |slots| && gate.parse(slots[l].raw) == Some(r)
    ensures x in Extras(gate, slots, placed) && x.ref == r
    ensures exists k :: 0 <= k <= l && slots[k].column == x.column && gate.parse(slots[k].raw) == Some(r)
  {
    OneReference(gate, slots, r);
    var k := SomeFirstSlot(gate, slots, l, r);
    FirstSlotStands(gate, slots, placed, k, r);
    x := Extra(slots[k].column, r);
  }

  /** A reference no candidate has is shown exactly when its project is not cloned and the sprint, if there is one,
      keeps it: as a placeholder in the first column whose list names it. */
  lemma PlaceholderShown(b: Board, input: Input, order: Listing, view: View, r: Ref, i: nat)
    requires WellSupplied(b, input) && SoundReader(input.parse) && Renders(b, input, order, view)
    requires input.parse(r.Text()) == Some(r) && forall c :: c in Candidates(b, input) ==> c.card.ref != r.Text()
    ensures ShownIn(view, i, r.Text())
            <==> SourceOf(input.sources, r.project).None? && Kept(b, input, r.Text())
                 && Names(b, input, order, i, r) && forall k :: 0 <= k < i ==> !Names(b, input, order, k, r)
    ensures !ShownUnmapped(view, r.Text())
    ensures forall card :: i < |view.columns| && card in view.columns[i] && card.ref == r.Text() ==>
              card == Card(r.Text(), r.project, "", Undeclared, NoPriority, 0, r.project in input.declared, true, false, false, false)
  {
    NotPlaced(b, input, r);
    forall card | i < |view.columns| && card in view.columns[i] && card.ref == r.Text()
      ensures card == Card(r.Text(), r.project, "", Undeclared, NoPriority, 0, r.project in input.declared, true, false, false, false)
    {
      PlaceholderIs(b, input, order, view, r, i, card);
    }
    if ShownIn(view, i, r.Text()) {
      var x := ItsPlaceholder(b, input, order, view, r, i);
      forall k | 0 <= k < i
        ensures !Names(b, input, order, k, r)
      {
        if Names(b, input, order, k, r) {
          PlaceholderColumn(b, input, order, r, k);
          var y :| y in PlaceholdersOf(b, input, order) && y.ref == r && y.column <= k;
          SameExtra(b, input, order, x, y);
        }
      }
    }
    if SourceOf(input.sources, r.project).None? && Kept(b, input, r.Text()) && Names(b, input, order, i, r)
       && forall k :: 0 <= k < i ==> !Names(b, input, order, k, r) {
      PlaceholderColumn(b, input, order, r, i);
      var x :| x in PlaceholdersOf(b, input, order) && x.ref == r && x.column <= i && Names(b, input, order, x.column, r);
      var card := GateOf(b, input).card(r);
      ColumnMembers(b, input, order, i, card);
      assert card in view.columns[i] && card.ref == r.Text();
    }
    if ShownUnmapped(view, r.Text()) {
      var card :| card in view.unmapped && card.ref == r.Text();
      UnmappedCard(b, input, order, view, card);
    }
  }

  lemma NotPlaced(b: Board, input: Input, r: Ref)
    requires forall c :: c in Candidates(b, input) ==> c.card.ref != r.Text()
    ensures r.Text() !in PlacedRefs(PolicyOf(b, input), Candidates(b, input))
    ensures GateOf(b, input).admits(r) <==> SourceOf(input.sources, r.project).None? && Kept(b, input, r.Text())
  {
    PlacedRef(PolicyOf(b, input), Candidates(b, input), r.Text());
    KnownRef(Candidates(b, input), r.Text());
  }

  lemma PlaceholderIs(b: Board, input: Input, order: Listing, view: View, r: Ref, i: nat, card: Card)
    requires WellSupplied(b, input) && SoundReader(input.parse) && Renders(b, input, order, view) && i < |b.columns|
    requires input.parse(r.Text()) == Some(r) && forall c :: c in Candidates(b, input) ==> c.card.ref != r.Text()
    requires card in view.columns[i] && card.ref == r.Text()
    ensures card == Card(r.Text(), r.project, "", Undeclared, NoPriority, 0, r.project in input.declared, true, false, false, false)
  {
    ColumnMembers(b, input, order, i, card);
    var x :| x in PlaceholdersOf(b, input, order) && x.column == i && GateOf(b, input).card(x.ref) == card;
    PlaceholderFacts(b, input, order, x);
    OneReading(input.parse, x.ref.Text(), r);
  }

  lemma ItsPlaceholder(b: Board, input: Input, order: Listing, view: View, r: Ref, i: nat) returns (x: Extra)
    requires WellSupplied(b, input) && SoundReader(input.parse) && Renders(b, input, order, view) && ShownIn(view, i, r.Text())
    requires input.parse(r.Text()) == Some(r) && forall c :: c in Candidates(b, input) ==> c.card.ref != r.Text()
    ensures x in PlaceholdersOf(b, input, order) && x.column == i && x.ref == r && GateOf(b, input).admits(r)
    ensures Names(b, input, order, i, r)
  {
    var card :| card in view.columns[i] && card.ref == r.Text();
    ColumnMembers(b, input, order, i, card);
    x :| x in PlaceholdersOf(b, input, order) && x.column == i && GateOf(b, input).card(x.ref) == card;
    PlaceholderFacts(b, input, order, x);
    OneReading(input.parse, x.ref.Text(), r);
    ExtrasFounded(GateOf(b, input), Slots(b.ColumnIds(), order), PlacedRefs(PolicyOf(b, input), Candidates(b, input)));
  }

  // ---------------------------------------------------------------- order within a column

  /** The first place of a reference in a list. */
  ghost predicate FirstAt(refs: seq<string>, ref: string, p: nat) {
    p < |refs| && refs[p] == ref && forall q :: 0 <= q < p ==> refs[q] != ref
  }

  /** One priority comes before another: none, low, medium, high, critical. */
  predicate Precedes(p: Priority, q: Priority) {
    match p
    case NoPriority => !q.NoPriority?
    case Low => q.Medium? || q.High? || q.Critical?
    case Medium => q.High? || q.Critical?
    case High => q.Critical?
    case Critical => false
  }

  /** The order of cards no list names: by priority, low before high, then the latest update, then the reference. */
  ghost predicate ByRank(x: Card, y: Card) {
    || Precedes(x.priority, y.priority)
    || (x.priority == y.priority && x.updated > y.updated)
    || (x.priority == y.priority && x.updated == y.updated && Less(x.ref, y.ref))
  }

  /** The order of cards below a list. */
  ghost predicate ByList(refs: seq<string>, x: Card, y: Card) {
    || (exists p: nat, q: nat :: p < q && FirstAt(refs, x.ref, p) && FirstAt(refs, y.ref, q))
    || (x.ref in refs && y.ref !in refs)
    || (x.ref !in refs && y.ref !in refs && ByRank(x, y))
  }

  lemma RankMeans(x: Card, y: Card)
    ensures RankLess(x, y) <==> ByRank(x, y)
  {
  }

  lemma ListMeans(refs: seq<string>, x: Card, y: Card)
    ensures CardLess(refs)(x, y) <==> ByList(refs, x, y)
  {
    RankMeans(x, y);
    var p, q := RankIn(refs, x.ref), RankIn(refs, y.ref);
    if x.ref in refs {
      assert FirstAt(refs, x.ref, p);
    }
    if y.ref in refs {
      assert FirstAt(refs, y.ref, q);
    }
  }

  /** Two cards of a column stand in the order the list and the ranks give, and the column is marked when it holds
      more cards than its limit, if it has one. */
  lemma ColumnOrdered(b: Board, input: Input, order: Listing, view: View, i: nat, j: nat, k: nat)
    requires WellSupplied(b, input) && SoundReader(input.parse) && Renders(b, input, order, view)
    requires i < |b.columns| && j < |view.columns[i]| && k < |view.columns[i]| && j != k
    ensures j < k <==> ByList(order.Refs(b.columns[i].id), view.columns[i][j], view.columns[i][k])
    ensures view.exceeded[i] <==> 0 < b.columns[i].wip < |view.columns[i]|
  {
    var refs := order.Refs(b.columns[i].id);
    var x, y := view.columns[i][j], view.columns[i][k];
    ContentsApart(b, input, order, i);
    ColumnApart(b, input, order, i);
    CardOrder(refs);
    CardSeparates(refs, Contents(b, input, order, i));
    SortSorted(CardLess(refs), Contents(b, input, order, i));
    ListMeans(refs, x, y);
    assert x.ref != y.ref by {
      assert CardsApart(view.columns[i]);
    }
  }

  lemma UnmappedOrdered(b: Board, input: Input, order: Listing, view: View, j: nat, k: nat)
    requires WellSupplied(b, input) && Renders(b, input, order, view)
    requires j < |view.unmapped| && k < |view.unmapped| && j != k
    ensures j < k <==> ByRank(view.unmapped[j], view.unmapped[k])
  {
    var cards := Bucket(PolicyOf(b, input), Candidates(b, input), Unmapped);
    UnmappedApart(b, input, order, view);
    CandidatesApart(b, input);
    BucketApart(PolicyOf(b, input), Candidates(b, input), Unmapped);
    RankOrder();
    RankSeparates(cards);
    SortSorted(RankLess, cards);
    RankMeans(view.unmapped[j], view.unmapped[k]);
    assert view.unmapped[j].ref != view.unmapped[k].ref;
  }
}
