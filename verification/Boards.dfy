/** Boards: columns, workflows, filters, and the cards the repositories and snapshots supply. */
module Boards {
  import opened Text
  import opened Ids

  datatype Category = Undeclared | Backlog | Todo | InProgress | Done | Cancelled | Triage | Custom(name: string)

  datatype StatusDef = StatusDef(id: string, category: Category)

  /** The part of a project's configuration a board reads. */
  datatype Workflow = Workflow(key: string, statuses: seq<StatusDef>) {
    function CategoryOf(status: string): Category {
      CategoryAmong(statuses, status)
    }
  }

  function CategoryAmong(defs: seq<StatusDef>, status: string): Category {
    if defs == [] then Undeclared
    else if defs[0].id == status then defs[0].category
    else CategoryAmong(defs[1..], status)
  }

  const WILDCARD := "*"

  datatype Column = Column(id: string, wip: int, statuses: map<string, seq<string>>, categories: seq<Category>) {
    /** The statuses of a project this column shows, the one a dropped card acquires first. A project's own
        mapping replaces the wildcard; a category mapping needs the workflow. */
    function StatusesFor(key: string, cfg: Option<Workflow>): seq<string> {
      if categories != [] then
        if cfg.None? then [] else OfCategories(cfg.value.statuses, categories)
      else if key in statuses then statuses[key]
      else if WILDCARD in statuses then statuses[WILDCARD]
      else []
    }

    predicate Shows(key: string, cfg: Option<Workflow>, status: string) {
      status in StatusesFor(key, cfg)
    }
  }

  function OfCategories(defs: seq<StatusDef>, categories: seq<Category>): (r: seq<string>)
    ensures forall s :: s in r <==> exists i :: 0 <= i < |defs| && defs[i].id == s && defs[i].category in categories
  {
    if defs == [] then []
    else
      var rest := OfCategories(defs[1..], categories);
      assert forall i :: 1 <= i < |defs| ==> defs[i] == defs[1..][i - 1];
      assert forall i :: 0 <= i < |defs| - 1 ==> defs[1..][i] == defs[i + 1];
      if defs[0].category in categories then [defs[0].id] + rest else rest
  }

  datatype Priority = NoPriority | Low | Medium | High | Critical {
    function Rank(): nat {
      match this
      case Critical => 4
      case High => 3
      case Medium => 2
      case Low => 1
      case NoPriority => 0
    }
  }

  /** An item as a board reads it; `facts` stands for the fields only the list filters look at. */
  datatype Item = Item(id: string, status: string, priority: Priority, updated: int, deleted: bool, facts: string)

  datatype Kind = Kanban | Scrum

  /** A board without its order list. `keeps` is the conjunction of the filters on types, labels, assignees,
      priorities, milestone, sprint, due date and text. */
  datatype Board = Board(
    kind: Kind,
    backlogColumn: string,
    columns: seq<Column>,
    projects: seq<string>,
    filterProjects: seq<string>,
    keeps: (Priority, string) -> bool,
    updatedSince: Option<int>,
    includeClosed: bool)
  {
    function ColumnIds(): (r: seq<string>)
      ensures |r| == |columns| && forall i :: 0 <= i < |r| ==> r[i] == columns[i].id
    {
      seq(|columns|, i requires 0 <= i < |columns| => columns[i].id)
    }

    /** The filters. A terminal item is hidden unless a column claims its status for the workflow's own key. */
    predicate Matches(it: Item, cfg: Option<Workflow>) {
      && !it.deleted
      && keeps(it.priority, it.facts)
      && (updatedSince.Some? ==> it.updated >= updatedSince.value)
      && (includeClosed || cfg.None? || !Terminal(cfg.value.CategoryOf(it.status))
          || FirstShowing(columns, cfg.value.key, cfg, it.status).Some?)
    }

    /** The projects shown: all declared ones or the listed ones, narrowed by the project filter. */
    function Scope(declared: seq<string>): seq<string> {
      var scope := if projects != [] && WILDCARD !in projects
                   then Intersect(declared, projects) + Strangers(projects, declared, Intersect(declared, projects))
                   else declared;
      if filterProjects != [] then Intersect(scope, filterProjects) else scope
    }
  }

  predicate Terminal(c: Category) {
    c == Done || c == Cancelled
  }

  /** The first column that shows a status of a project. */
  function FirstShowing(columns: seq<Column>, key: string, cfg: Option<Workflow>, status: string): (r: Option<nat>)
    ensures r.Some? ==> r.value < |columns| && columns[r.value].Shows(key, cfg, status)
    ensures forall i :: 0 <= i < |columns| && columns[i].Shows(key, cfg, status) ==> r.Some? && r.value <= i
  {
    if columns == [] then None
    else if columns[0].Shows(key, cfg, status) then Some(0)
    else
      match FirstShowing(columns[1..], key, cfg, status)
      case None =>
        assert forall i :: 1 <= i < |columns| ==> columns[i] == columns[1..][i - 1];
        None
      case Some(i) =>
        assert forall k :: 1 <= k < |columns| ==> columns[k] == columns[1..][k - 1];
        Some(i + 1)
  }

  /** The entries of `a` that also appear in `b`, in a's order. */
  function Intersect(a: seq<string>, b: seq<string>): (r: seq<string>)
    ensures forall x :: x in r <==> x in a && x in b
  {
    if a == [] then []
    else (if a[0] in b then [a[0]] else []) + Intersect(a[1..], b)
  }

  /** The listed projects the team does not declare, once each. */
  function Strangers(projects: seq<string>, declared: seq<string>, seen: seq<string>): (r: seq<string>)
    ensures forall x :: x in r <==> x in projects && x !in declared && x !in seen
  {
    if projects == [] then []
    else if projects[0] !in declared && projects[0] !in seen
    then [projects[0]] + Strangers(projects[1..], declared, seen + [projects[0]])
    else Strangers(projects[1..], declared, seen)
  }

  ghost predicate Unrepeated(s: seq<string>) {
    forall i, j :: 0 <= i < j < |s| ==> s[i] != s[j]
  }

  lemma {:induction false} IntersectUnrepeated(a: seq<string>, b: seq<string>)
    requires Unrepeated(a)
    ensures Unrepeated(Intersect(a, b))
  {
    if a != [] {
      assert forall i :: 0 <= i < |a[1..]| ==> a[1..][i] == a[i + 1] != a[0];
      IntersectUnrepeated(a[1..], b);
      assert a[0] !in Intersect(a[1..], b);
    }
  }

  lemma {:induction false} StrangersUnrepeated(projects: seq<string>, declared: seq<string>, seen: seq<string>)
    ensures Unrepeated(Strangers(projects, declared, seen))
  {
    if projects != [] {
      StrangersUnrepeated(projects[1..], declared, seen + [projects[0]]);
      StrangersUnrepeated(projects[1..], declared, seen);
      var rest := Strangers(projects[1..], declared, seen + [projects[0]]);
      assert projects[0] !in rest;
    }
  }

  /** A scope repeats no project when the team declares none twice, whatever the board file lists. */
  lemma ScopeUnrepeated(b: Board, declared: seq<string>)
    requires Unrepeated(declared)
    ensures Unrepeated(b.Scope(declared))
  {
    var own := Intersect(declared, b.projects);
    IntersectUnrepeated(declared, b.projects);
    StrangersUnrepeated(b.projects, declared, own);
    var both := own + Strangers(b.projects, declared, own);
    forall i, j | 0 <= i < j < |both|
      ensures both[i] != both[j]
    {
      if i < |own| <= j {
        assert both[i] in own && both[j] in Strangers(b.projects, declared, own);
      }
    }
    IntersectUnrepeated(both, b.filterProjects);
    IntersectUnrepeated(declared, b.filterProjects);
  }

  // ---------------------------------------------------------------- inputs

  /** A project an open repository serves. */
  datatype Source = Source(project: string, cfg: Option<Workflow>, items: seq<Item>)

  /** One entry of a committed snapshot, with the category it publishes. */
  datatype Entry = Entry(item: Item, category: Category)

  datatype Snapshot = Snapshot(cfg: Option<Workflow>, entries: seq<Entry>)

  datatype Sprint = Sprint(items: seq<string>, committed: seq<string>)

  /** Everything a render needs besides the board; `parse` reads a reference of the order list. */
  datatype Input = Input(
    declared: seq<string>,
    sources: seq<Source>,
    snapshots: map<string, Snapshot>,
    sprint: Option<Sprint>,
    parse: string -> Option<Ref>)

  /** The source that serves a project: the last one, as when a map is filled. */
  function SourceOf(sources: seq<Source>, key: string): (r: Option<Source>)
    ensures r.Some? ==> r.value in sources && r.value.project == key
    ensures r.None? ==> forall s :: s in sources ==> s.project != key
  {
    if sources == [] then None
    else
      var last := sources[|sources| - 1];
      if last.project == key then Some(last)
      else
        assert sources == sources[..|sources| - 1] + [last];
        SourceOf(sources[..|sources| - 1], key)
  }

  // ---------------------------------------------------------------- cards

  datatype Card = Card(
    ref: string,
    project: string,
    status: string,
    category: Category,
    priority: Priority,
    updated: int,
    declared: bool,
    remote: bool,
    inSprint: bool,
    committed: bool,
    backlog: bool)

  /** A card before the board decided where it goes. */
  datatype Candidate = Candidate(card: Card, cfg: Option<Workflow>, matched: bool)

  function CardOf(key: string, it: Item, category: Category, declared: bool, remote: bool): Card {
    Card(Ref(key, it.id).Text(), key, it.status, category, it.priority, it.updated, declared, remote, false, false, false)
  }

  function LiveCandidate(b: Board, key: string, cfg: Option<Workflow>, it: Item): Candidate {
    var category := if cfg.Some? then cfg.value.CategoryOf(it.status) else Undeclared;
    Candidate(CardOf(key, it, category, true, false), cfg, b.Matches(it, cfg))
  }

  /** A snapshot's category wins; the published workflow fills in a missing one. */
  function RemoteCandidate(b: Board, input: Input, key: string, cfg: Option<Workflow>, e: Entry): Candidate {
    var category := if e.category == Undeclared && cfg.Some? then cfg.value.CategoryOf(e.item.status) else e.category;
    Candidate(CardOf(key, e.item, category, key in input.declared, true), cfg, b.Matches(e.item, cfg))
  }

  /** Triage items never become cards. */
  predicate Planned(c: Candidate) {
    c.card.category != Triage
  }

  function LiveOf(b: Board, s: Source, items: seq<Item>): seq<Candidate> {
    if items == [] then []
    else
      var c := LiveCandidate(b, s.project, s.cfg, items[|items| - 1]);
      LiveOf(b, s, items[..|items| - 1]) + if Planned(c) then [c] else []
  }

  function RemoteOf(b: Board, input: Input, key: string, cfg: Option<Workflow>, entries: seq<Entry>): seq<Candidate> {
    if entries == [] then []
    else
      var c := RemoteCandidate(b, input, key, cfg, entries[|entries| - 1]);
      RemoteOf(b, input, key, cfg, entries[..|entries| - 1]) + if Planned(c) then [c] else []
  }

  function LiveIn(b: Board, input: Input, scope: seq<string>): seq<Candidate> {
    if scope == [] then []
    else
      var n := |scope| - 1;
      var source := SourceOf(input.sources, scope[n]);
      LiveIn(b, input, scope[..n]) + if source.Some? then LiveOf(b, source.value, source.value.items) else []
  }

  function RemoteIn(b: Board, input: Input, scope: seq<string>): seq<Candidate> {
    if scope == [] then []
    else
      var n := |scope| - 1;
      var key := scope[n];
      RemoteIn(b, input, scope[..n])
      + if SourceOf(input.sources, key).None? && key in input.snapshots
        then RemoteOf(b, input, key, input.snapshots[key].cfg, input.snapshots[key].entries)
        else []
  }

  /** Every card the open repositories and the snapshots can supply, live cards first. */
  function Candidates(b: Board, input: Input): seq<Candidate> {
    var scope := b.Scope(input.declared);
    LiveIn(b, input, scope) + RemoteIn(b, input, scope)
  }

  /** walkCards: visits the scope twice, first the cloned projects, then the snapshots of the others. */
  method WalkCards(b: Board, input: Input) returns (out: seq<Candidate>)
    ensures out == Candidates(b, input)
  {
    var scope := b.Scope(input.declared);
    var live := WalkLive(b, input, scope);
    var remote := WalkRemote(b, input, scope);
    out := live + remote;
  }

  method WalkLive(b: Board, input: Input, scope: seq<string>) returns (out: seq<Candidate>)
    ensures out == LiveIn(b, input, scope)
  {
    out := [];
    for k := 0 to |scope|
      invariant out == LiveIn(b, input, scope[..k])
    {
      assert scope[..k + 1][..k] == scope[..k];
      var source := SourceOf(input.sources, scope[k]);
      if source.Some? {
        var some := WalkItems(b, source.value);
        out := out + some;
      }
    }
    assert scope[..|scope|] == scope;
  }

  method WalkRemote(b: Board, input: Input, scope: seq<string>) returns (out: seq<Candidate>)
    ensures out == RemoteIn(b, input, scope)
  {
    out := [];
    for k := 0 to |scope|
      invariant out == RemoteIn(b, input, scope[..k])
    {
      assert scope[..k + 1][..k] == scope[..k];
      var source := SourceOf(input.sources, scope[k]);
      if source.None? && scope[k] in input.snapshots {
        var some := WalkEntries(b, input, scope[k], input.snapshots[scope[k]]);
        out := out + some;
      }
    }
    assert scope[..|scope|] == scope;
  }

  method WalkItems(b: Board, s: Source) returns (out: seq<Candidate>)
    ensures out == LiveOf(b, s, s.items)
  {
    out := [];
    for i := 0 to |s.items|
      invariant out == LiveOf(b, s, s.items[..i])
    {
      assert s.items[..i + 1][..i] == s.items[..i];
      var c := LiveCandidate(b, s.project, s.cfg, s.items[i]);
      if c.card.category != Triage {
        out := out + [c];
      }
    }
    assert s.items[..|s.items|] == s.items;
  }

  method WalkEntries(b: Board, input: Input, key: string, snap: Snapshot) returns (out: seq<Candidate>)
    ensures out == RemoteOf(b, input, key, snap.cfg, snap.entries)
  {
    out := [];
    for i := 0 to |snap.entries|
      invariant out == RemoteOf(b, input, key, snap.cfg, snap.entries[..i])
    {
      assert snap.entries[..i + 1][..i] == snap.entries[..i];
      var c := RemoteCandidate(b, input, key, snap.cfg, snap.entries[i]);
      if c.card.category != Triage {
        out := out + [c];
      }
    }
    assert snap.entries[..|snap.entries|] == snap.entries;
  }
}
