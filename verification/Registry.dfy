/** The repository registry: registering and removing repositories and workspaces, with the configuration's own
    validators as the invariant. */
module Registry {
  import opened Text

  datatype Repo = Repo(id: string, path: string, role: string, docsFolder: string, docsFolders: seq<string>, enabled: bool)

  datatype Workspace = Workspace(name: string, repos: seq<string>)

  datatype Config = Config(repos: seq<Repo>, workspaces: seq<Workspace>, defaultWorkspace: string)

  const DEFAULT_WORKSPACE := "default"

  predicate ValidRole(role: string) {
    role == "project" || role == "team"
  }

  predicate IsAbs(p: string) {
    p != "" && p[0] == '/'
  }

  // ---------------------------------------------------------------- the validators

  /** A repository entry next to the ones before it. */
  ghost predicate RepoFine(c: Config, i: nat, canonical: string -> string)
    requires i < |c.repos|
  {
    var r := c.repos[i];
    && r.id != "" && r.path != "" && IsAbs(r.path) && ValidRole(r.role) && !IsAbs(r.docsFolder)
    && forall j :: 0 <= j < i ==> c.repos[j].id != r.id && canonical(c.repos[j].path) != canonical(r.path)
  }

  ghost predicate ValidRepos(c: Config, canonical: string -> string) {
    forall i :: 0 <= i < |c.repos| ==> RepoFine(c, i, canonical)
  }

  predicate Known(c: Config, id: string) {
    exists r :: r in c.repos && r.id == id
  }

  ghost predicate ValidWorkspaces(c: Config) {
    && (forall i :: 0 <= i < |c.workspaces| ==> c.workspaces[i].name != "")
    && (forall i, j :: 0 <= i < j < |c.workspaces| ==> c.workspaces[i].name != c.workspaces[j].name)
    && (forall i, id :: 0 <= i < |c.workspaces| && id in c.workspaces[i].repos ==> Known(c, id))
    && (c.defaultWorkspace == "" || exists i :: 0 <= i < |c.workspaces| && c.workspaces[i].name == c.defaultWorkspace)
  }

  ghost predicate Valid(c: Config, canonical: string -> string) {
    ValidRepos(c, canonical) && ValidWorkspaces(c)
  }

  /** What a validator complains about. */
  datatype Finding = BadId(i: nat) | BadPath(i: nat) | BadRole(i: nat) | BadDocs(i: nat)
    | BadName(i: nat) | BadMember(i: nat, id: string) | BadDefault

  /** validateRepos: silent exactly when every entry is fine. */
  method ValidateRepos(c: Config, canonical: string -> string) returns (found: seq<Finding>)
    ensures found == [] <==> ValidRepos(c, canonical)
  {
    found := [];
    var seenId: set<string>, seenPath: set<string> := {}, {};
    for i := 0 to |c.repos|
      invariant found == [] <==> forall k :: 0 <= k < i ==> RepoFine(c, k, canonical)
      invariant found == [] ==> seenId == (set k | 0 <= k < i :: c.repos[k].id)
      invariant found == [] ==> seenPath == (set k | 0 <= k < i :: canonical(c.repos[k].path))
    {
      var r := c.repos[i];
      ghost var before := found;
      if r.id == "" || r.id in seenId {
        found := found + [BadId(i)];
      } else {
        seenId := seenId + {r.id};
      }
      if r.path == "" || !IsAbs(r.path) || canonical(r.path) in seenPath {
        found := found + [BadPath(i)];
      } else {
        seenPath := seenPath + {canonical(r.path)};
      }
      if !ValidRole(r.role) {
        found := found + [BadRole(i)];
      }
      if IsAbs(r.docsFolder) {
        found := found + [BadDocs(i)];
      }
      if before == [] {
        assert found == [] <==> RepoFine(c, i, canonical);
      }
    }
  }

  /** validateWorkspaces: silent exactly when the workspaces are. */
  method ValidateWorkspaces(c: Config) returns (found: seq<Finding>)
    ensures found == [] <==> ValidWorkspaces(c)
  {
    found := [];
    var seen: set<string> := {};
    for i := 0 to |c.workspaces|
      invariant found == [] <==>
        (forall k :: 0 <= k < i ==> c.workspaces[k].name != "")
        && (forall k, l :: 0 <= k < l < i ==> c.workspaces[k].name != c.workspaces[l].name)
        && (forall k, id :: 0 <= k < i && id in c.workspaces[k].repos ==> Known(c, id))
      invariant found == [] ==> seen == set k | 0 <= k < i :: c.workspaces[k].name
    {
      var w := c.workspaces[i];
      if w.name == "" || w.name in seen {
        found := found + [BadName(i)];
      } else {
        seen := seen + {w.name};
      }
      var members := CheckMembers(c, i, w.repos);
      found := found + members;
    }
    if c.defaultWorkspace != "" && c.defaultWorkspace !in seen {
      found := found + [BadDefault];
    }
  }

  method CheckMembers(c: Config, i: nat, ids: seq<string>) returns (found: seq<Finding>)
    ensures found == [] <==> forall id :: id in ids ==> Known(c, id)
  {
    found := [];
    for k := 0 to |ids|
      invariant found == [] <==> forall id :: id in ids[..k] ==> Known(c, id)
    {
      assert ids[..k + 1] == ids[..k] + [ids[k]];
      if !Known(c, ids[k]) {
        found := found + [BadMember(i, ids[k])];
      }
    }
    assert ids[..|ids|] == ids;
  }

  // ---------------------------------------------------------------- workspaces

  /** EnsureWorkspace: naming a workspace is enough to create it. */
  function Ensured(c: Config, name: string): Config {
    if name == "" || exists w :: w in c.workspaces && w.name == name then c
    else c.(workspaces := c.workspaces + [Workspace(name, [])])
  }

  /** attach: the first workspace of that name that lists members gets the id, unless it has it. */
  function Attached(ws: seq<Workspace>, name: string, id: string): (r: seq<Workspace>)
    ensures |r| == |ws| && forall i :: 0 <= i < |ws| ==> r[i].name == ws[i].name
  {
    if ws == [] then []
    else if ws[0].name == name && ws[0].repos != [] then
      [if id in ws[0].repos then ws[0] else ws[0].(repos := ws[0].repos + [id])] + ws[1..]
    else [ws[0]] + Attached(ws[1..], name, id)
  }

  /** A registration appended to a workspace. */
  function Added(c: Config, r: Repo, workspace: string): Config {
    var more := Ensured(c.(repos := c.repos + [r]), workspace);
    more.(workspaces := Attached(more.workspaces, workspace, r.id))
  }

  function WithoutId(ids: seq<string>, id: string): (r: seq<string>)
    ensures forall x :: x in r <==> x in ids && x != id
  {
    if ids == [] then [] else (if ids[0] == id then [] else [ids[0]]) + WithoutId(ids[1..], id)
  }

  function WithoutRepo(rs: seq<Repo>, id: string): (r: seq<Repo>)
    ensures forall x :: x in r <==> x in rs && x.id != id
  {
    if rs == [] then [] else (if rs[0].id == id then [] else [rs[0]]) + WithoutRepo(rs[1..], id)
  }

  function Removed(c: Config, id: string): Config {
    if !Known(c, id) then c
    else Config(WithoutRepo(c.repos, id),
                seq(|c.workspaces|, i requires 0 <= i < |c.workspaces| => c.workspaces[i].(repos := WithoutId(c.workspaces[i].repos, id))),
                c.defaultWorkspace)
  }

  function Named(ws: seq<Workspace>, name: string): (r: Option<Workspace>)
    ensures r.Some? ==> r.value in ws && r.value.name == name
    ensures r.None? ==> forall w :: w in ws ==> w.name != name
  {
    if ws == [] then None else if ws[0].name == name then Some(ws[0]) else Named(ws[1..], name)
  }

  /** The workspace commands act on. */
  function Active(c: Config): string {
    if c.defaultWorkspace != "" then c.defaultWorkspace
    else if c.workspaces != [] then c.workspaces[0].name
    else DEFAULT_WORKSPACE
  }

  /** A workspace without members stands for every registered repository. */
  predicate Shows(c: Config, name: string, r: Repo) {
    var ws := Named(c.workspaces, if name == "" then Active(c) else name);
    r.enabled && (ws.None? || ws.value.repos == [] || r.id in ws.value.repos)
  }

  /** The repositories of a list that a workspace shows, in the list's order. */
  function ShownIn(c: Config, name: string, rs: seq<Repo>): seq<Repo> {
    if rs == [] then []
    else
      var n := |rs| - 1;
      ShownIn(c, name, rs[..n]) + if Shows(c, name, rs[n]) then [rs[n]] else []
  }

  // ---------------------------------------------------------------- what the operations keep

  lemma {:induction false} AttachedMembers(ws: seq<Workspace>, name: string, id: string)
    ensures forall i, x :: 0 <= i < |ws| && x in Attached(ws, name, id)[i].repos ==> x == id || x in ws[i].repos
    ensures forall i :: 0 <= i < |ws| && ws[i].repos == [] ==> Attached(ws, name, id)[i].repos == []
  {
    if ws != [] && !(ws[0].name == name && ws[0].repos != []) {
      AttachedMembers(ws[1..], name, id);
      forall i, x | 0 <= i < |ws| && x in Attached(ws, name, id)[i].repos
        ensures x == id || x in ws[i].repos
      {
        if i > 0 {
          assert Attached(ws, name, id)[i] == Attached(ws[1..], name, id)[i - 1];
        }
      }
      forall i | 0 <= i < |ws| && ws[i].repos == []
        ensures Attached(ws, name, id)[i].repos == []
      {
        if i > 0 {
          assert Attached(ws, name, id)[i] == Attached(ws[1..], name, id)[i - 1];
        }
      }
    }
  }

  lemma {:induction false} EnsuredFine(c: Config, name: string)
    requires ValidWorkspaces(c)
    ensures ValidWorkspaces(Ensured(c, name)) && Ensured(c, name).repos == c.repos
  {
    var e := Ensured(c, name);
    if e != c {
      forall i, j | 0 <= i < j < |e.workspaces|
        ensures e.workspaces[i].name != e.workspaces[j].name
      {
        if j == |c.workspaces| {
          assert c.workspaces[i] in c.workspaces;
        }
      }
      forall i, id | 0 <= i < |e.workspaces| && id in e.workspaces[i].repos
        ensures Known(e, id)
      {
        assert id in c.workspaces[i].repos && Known(c, id);
      }
      if c.defaultWorkspace != "" {
        var i :| 0 <= i < |c.workspaces| && c.workspaces[i].name == c.defaultWorkspace;
        assert e.workspaces[i].name == c.defaultWorkspace;
      }
    }
  }

  lemma {:induction false} MoreRepos(c: Config, r: Repo)
    requires ValidWorkspaces(c)
    ensures ValidWorkspaces(c.(repos := c.repos + [r]))
  {
    var more := c.(repos := c.repos + [r]);
    forall id | Known(c, id)
      ensures Known(more, id)
    {
      var x :| x in c.repos && x.id == id;
      assert x in more.repos;
    }
  }

  lemma {:induction false} AttachedFine(c: Config, name: string, id: string)
    requires ValidWorkspaces(c) && Known(c, id)
    ensures ValidWorkspaces(c.(workspaces := Attached(c.workspaces, name, id)))
  {
    var a := c.(workspaces := Attached(c.workspaces, name, id));
    AttachedMembers(c.workspaces, name, id);
    forall i, x | 0 <= i < |a.workspaces| && x in a.workspaces[i].repos
      ensures Known(a, x)
    {
      assert x == id || x in c.workspaces[i].repos;
      assert Known(c, x);
    }
    if c.defaultWorkspace != "" {
      var i :| 0 <= i < |c.workspaces| && c.workspaces[i].name == c.defaultWorkspace;
      assert a.workspaces[i].name == c.defaultWorkspace;
    }
  }

  /** What the checks before a registration leave to hold of it. */
  ghost predicate Addable(c: Config, r: Repo, canonical: string -> string) {
    && r.id != "" && !Known(c, r.id) && IsAbs(r.path) && ValidRole(r.role)
    && forall x :: x in c.repos ==> canonical(x.path) != canonical(r.path)
  }

  /** Adding keeps a valid configuration valid exactly when the documentation folder is relative. */
  lemma {:induction false} AddedValid(c: Config, r: Repo, workspace: string, canonical: string -> string)
    requires Valid(c, canonical) && Addable(c, r, canonical)
    ensures Valid(Added(c, r, workspace), canonical) <==> !IsAbs(r.docsFolder)
  {
    var more := c.(repos := c.repos + [r]);
    var a := Added(c, r, workspace);
    MoreRepos(c, r);
    EnsuredFine(more, workspace);
    assert r in more.repos;
    AttachedFine(Ensured(more, workspace), workspace, r.id);
    forall i | 0 <= i < |c.repos|
      ensures RepoFine(a, i, canonical)
    {
      assert RepoFine(c, i, canonical);
    }
    assert forall j :: 0 <= j < |c.repos| ==> c.repos[j] in c.repos && a.repos[j] == c.repos[j];
    assert RepoFine(a, |c.repos|, canonical) <==> !IsAbs(r.docsFolder);
  }

  lemma {:induction false} RemovedRepos(rs: seq<Repo>, id: string, canonical: string -> string)
    requires ValidRepos(Config(rs, [], ""), canonical)
    ensures ValidRepos(Config(WithoutRepo(rs, id), [], ""), canonical)
  {
    if rs != [] {
      var n := |rs| - 1;
      var c := Config(rs, [], "");
      forall i | 0 <= i < |rs[1..]|
        ensures RepoFine(Config(rs[1..], [], ""), i, canonical)
      {
        assert RepoFine(c, i + 1, canonical);
        assert forall j :: 0 <= j < i ==> rs[1..][j] == c.repos[j + 1];
      }
      RemovedRepos(rs[1..], id, canonical);
      assert rs == [rs[0]] + rs[1..];
      assert WithoutRepo(rs, id) == if rs[0].id == id then WithoutRepo(rs[1..], id) else [rs[0]] + WithoutRepo(rs[1..], id);
      if rs[0].id != id {
        ConsFine(rs[0], rs[1..], WithoutRepo(rs[1..], id), canonical);
      }
    }
  }

  lemma {:induction false} ConsFine(r: Repo, rest: seq<Repo>, kept: seq<Repo>, canonical: string -> string)
    requires ValidRepos(Config([r] + rest, [], ""), canonical) && ValidRepos(Config(kept, [], ""), canonical)
    requires forall x :: x in kept ==> x in rest
    ensures ValidRepos(Config([r] + kept, [], ""), canonical)
  {
    var c, d, k := Config([r] + rest, [], ""), Config([r] + kept, [], ""), Config(kept, [], "");
    forall i | 0 <= i < |d.repos|
      ensures RepoFine(d, i, canonical)
    {
      if i == 0 {
        assert RepoFine(c, 0, canonical);
      } else {
        assert RepoFine(k, i - 1, canonical);
        assert kept[i - 1] in rest;
        var j :| 0 <= j < |rest| && rest[j] == kept[i - 1];
        assert RepoFine(c, j + 1, canonical) && c.repos[0] == r;
        assert forall l :: 1 <= l < i ==> d.repos[l] == k.repos[l - 1];
      }
    }
  }

  /** Removing keeps a valid configuration valid. */
  lemma {:induction false} RemovedValid(c: Config, id: string, canonical: string -> string)
    requires Valid(c, canonical)
    ensures Valid(Removed(c, id), canonical)
  {
    if Known(c, id) {
      var d := Removed(c, id);
      forall i | 0 <= i < |c.repos|
        ensures RepoFine(Config(c.repos, [], ""), i, canonical)
      {
        assert RepoFine(c, i, canonical);
      }
      RemovedRepos(c.repos, id, canonical);
      forall i | 0 <= i < |d.repos|
        ensures RepoFine(d, i, canonical)
      {
        assert RepoFine(Config(d.repos, [], ""), i, canonical);
      }
      forall i, x | 0 <= i < |d.workspaces| && x in d.workspaces[i].repos
        ensures Known(d, x)
      {
        assert x in c.workspaces[i].repos && Known(c, x);
        var r :| r in c.repos && r.id == x;
        assert r in d.repos;
      }
      if c.defaultWorkspace != "" {
        var i :| 0 <= i < |c.workspaces| && c.workspaces[i].name == c.defaultWorkspace;
        assert d.workspaces[i].name == c.defaultWorkspace;
      }
    }
  }

  // ---------------------------------------------------------------- runs

  datatype Op = Add(repo: Repo, workspace: string) | Remove(id: string) | Ensure(name: string)

  function Step(c: Config, op: Op): Config {
    match op
    case Add(r, workspace) => Added(c, r, if workspace == "" then Active(c.(repos := c.repos + [r])) else workspace)
    case Remove(id) => Removed(c, id)
    case Ensure(name) => Ensured(c, name)
  }

  function Run(c: Config, ops: seq<Op>): Config
    decreases |ops|
  {
    if ops == [] then c else Run(Step(c, ops[0]), ops[1..])
  }

  /** Every registration of the run passed its checks, with a relative documentation folder. */
  ghost predicate Admitted(c: Config, ops: seq<Op>, canonical: string -> string)
    decreases |ops|
  {
    ops == [] ||
    ((ops[0].Add? ==> Addable(c, ops[0].repo, canonical) && !IsAbs(ops[0].repo.docsFolder)) && Admitted(Step(c, ops[0]), ops[1..], canonical))
  }

  /** Any run of registrations, removals and new workspaces keeps the validators silent. */
  lemma {:induction false} RunKeepsValid(c: Config, ops: seq<Op>, canonical: string -> string)
    requires Valid(c, canonical) && Admitted(c, ops, canonical)
    ensures Valid(Run(c, ops), canonical)
    decreases |ops|
  {
    if ops != [] {
      match ops[0] {
        case Add(r, workspace) => AddedValid(c, r, if workspace == "" then Active(c.(repos := c.repos + [r])) else workspace, canonical);
        case Remove(id) => RemovedValid(c, id, canonical);
        case Ensure(name) =>
          EnsuredFine(c, name);
          forall i | 0 <= i < |c.repos|
            ensures RepoFine(Ensured(c, name), i, canonical)
          {
            assert RepoFine(c, i, canonical);
          }
      }
      RunKeepsValid(Step(c, ops[0]), ops[1..], canonical);
    }
  }

  // ---------------------------------------------------------------- membership

  lemma {:induction false} AttachedNamed(ws: seq<Workspace>, name: string, id: string)
    requires forall i, j :: 0 <= i < j < |ws| ==> ws[i].name != ws[j].name
    ensures Named(Attached(ws, name, id), name).None? <==> Named(ws, name).None?
    ensures Named(ws, name).Some? ==>
              var w := Named(Attached(ws, name, id), name).value;
              if Named(ws, name).value.repos == [] then w.repos == [] else id in w.repos
  {
    if ws != [] {
      assert forall i, j :: 0 <= i < j < |ws[1..]| ==> ws[1..][i] == ws[i + 1] && ws[1..][j] == ws[j + 1];
      AttachedNamed(ws[1..], name, id);
    }
  }

  /** An added repository is shown by the workspace it joined. */
  lemma {:induction false} AddedIsShown(c: Config, r: Repo, workspace: string)
    requires ValidWorkspaces(c) && r.enabled && workspace != ""
    ensures Shows(Added(c, r, workspace), workspace, r)
  {
    var more := c.(repos := c.repos + [r]);
    MoreRepos(c, r);
    EnsuredFine(more, workspace);
    AttachedNamed(Ensured(more, workspace).workspaces, workspace, r.id);
  }

  /** A removed id is in no workspace and names no repository. */
  lemma {:induction false} RemovedIsGone(c: Config, id: string)
    requires Known(c, id)
    ensures !Known(Removed(c, id), id)
    ensures forall w :: w in Removed(c, id).workspaces ==> id !in w.repos
  {
    var d := Removed(c, id);
    forall w | w in d.workspaces
      ensures id !in w.repos
    {
      var i :| 0 <= i < |d.workspaces| && d.workspaces[i] == w;
    }
  }

  /** A workspace that listed members stands for every repository after a removal exactly when the removed one
      was its only member. */
  lemma {:induction false} LastMemberWidens(c: Config, id: string, i: nat)
    requires Known(c, id) && i < |c.workspaces| && c.workspaces[i].repos != []
    ensures Removed(c, id).workspaces[i].repos == [] <==> forall x :: x in c.workspaces[i].repos ==> x == id
  {
    var kept := Removed(c, id).workspaces[i].repos;
    assert kept == WithoutId(c.workspaces[i].repos, id);
    if kept != [] {
      assert kept[0] in kept;
    }
  }

  // ---------------------------------------------------------------- field by field

  /** The workspace commands act on: the configured default, else the first one, else the one with the usual name. */
  ghost predicate ActsOn(c: Config, name: string) {
    && (c.defaultWorkspace != "" ==> name == c.defaultWorkspace)
    && (c.defaultWorkspace == "" && c.workspaces != [] ==> name == c.workspaces[0].name)
    && (c.defaultWorkspace == "" && c.workspaces == [] ==> name == "default")
  }

  /** The first workspace of a name that lists members. */
  ghost predicate FirstListing(ws: seq<Workspace>, name: string, i: nat) {
    && i < |ws| && ws[i].name == name && ws[i].repos != []
    && forall k :: 0 <= k < i && ws[k].name == name ==> ws[k].repos == []
  }

  /** An id joins a workspace: the first one of that name that lists members lists it too, once; one that no entry
      names is new and lists nothing; every other one stays as it is. */
  ghost predicate Joined(before: seq<Workspace>, after: seq<Workspace>, name: string, id: string) {
    && (if name == "" || exists w :: w in before && w.name == name then |after| == |before|
        else |after| == |before| + 1 && after[|before|] == Workspace(name, []))
    && forall i :: 0 <= i < |before| && i < |after| ==>
         after[i] == if FirstListing(before, name, i) && id !in before[i].repos then before[i].(repos := before[i].repos + [id]) else before[i]
  }

  lemma {:induction false} AttachedJoins(ws: seq<Workspace>, name: string, id: string, i: nat)
    requires i < |ws|
    ensures Attached(ws, name, id)[i]
            == if FirstListing(ws, name, i) && id !in ws[i].repos then ws[i].(repos := ws[i].repos + [id]) else ws[i]
  {
    if ws[0].name == name && ws[0].repos != [] {
      assert i > 0 ==> !FirstListing(ws, name, i);
    } else if i > 0 {
      AttachedJoins(ws[1..], name, id, i - 1);
      assert FirstListing(ws, name, i) <==> FirstListing(ws[1..], name, i - 1) by {
        assert forall k :: 1 <= k < |ws| ==> ws[k] == ws[1..][k - 1];
        assert forall k :: 0 <= k < |ws| - 1 ==> ws[1..][k] == ws[k + 1];
      }
    }
  }

  /** A registration puts the repository last, and its id into the workspace asked for or the one acted on. */
  lemma {:induction false} AddedJoins(c: Config, r: Repo, workspace: string) returns (name: string)
    ensures Step(c, Add(r, workspace)).repos == c.repos + [r] && Step(c, Add(r, workspace)).defaultWorkspace == c.defaultWorkspace
    ensures if workspace != "" then name == workspace else ActsOn(c, name)
    ensures Joined(c.workspaces, Step(c, Add(r, workspace)).workspaces, name, r.id)
  {
    var more := c.(repos := c.repos + [r]);
    name := if workspace == "" then Active(more) else workspace;
    var ensured, after := Ensured(more, name).workspaces, Step(c, Add(r, workspace)).workspaces;
    forall i | 0 <= i < |c.workspaces|
      ensures after[i] == if FirstListing(c.workspaces, name, i) && r.id !in c.workspaces[i].repos
                          then c.workspaces[i].(repos := c.workspaces[i].repos + [r.id]) else c.workspaces[i]
    {
      AttachedJoins(ensured, name, r.id, i);
    }
    if |ensured| > |c.workspaces| {
      AttachedJoins(ensured, name, r.id, |c.workspaces|);
    }
  }

  ghost predicate FirstNamed(ws: seq<Workspace>, name: string, i: nat) {
    i < |ws| && ws[i].name == name && forall k :: 0 <= k < i ==> ws[k].name != name
  }

  /** A workspace shows an enabled repository when it lists it, or lists nothing, or is not there; an empty name
      stands for the one acted on, and the first of a name counts. */
  ghost predicate Displays(c: Config, name: string, r: Repo) {
    && r.enabled
    && forall which, i: nat ::
         (if name != "" then which == name else ActsOn(c, which)) && FirstNamed(c.workspaces, which, i)
         ==> c.workspaces[i].repos == [] || r.id in c.workspaces[i].repos
  }

  lemma {:induction false} NamedFirst(ws: seq<Workspace>, name: string) returns (i: nat)
    requires Named(ws, name).Some?
    ensures FirstNamed(ws, name, i) && ws[i] == Named(ws, name).value
  {
    if ws[0].name == name {
      i := 0;
    } else {
      i := NamedFirst(ws[1..], name);
      assert forall k :: 1 <= k <= i + 1 ==> ws[k] == ws[1..][k - 1];
      i := i + 1;
    }
  }

  lemma {:induction false} ShowsDisplays(c: Config, name: string, r: Repo)
    ensures Shows(c, name, r) <==> Displays(c, name, r)
  {
    var which := if name == "" then Active(c) else name;
    assert ActsOn(c, Active(c));
    if Named(c.workspaces, which).Some? {
      var i := NamedFirst(c.workspaces, which);
      OneFirst(c.workspaces, which, i);
    }
  }

  lemma OneFirst(ws: seq<Workspace>, name: string, i: nat)
    requires FirstNamed(ws, name, i)
    ensures forall k: nat :: FirstNamed(ws, name, k) ==> k == i
  {
  }

  /** What a workspace lists is the part of the registered repositories it displays, in registration order. */
  lemma {:induction false} ShownPart(c: Config, name: string, rs: seq<Repo>, keep: Repo -> bool)
    requires forall r :: keep(r) <==> Displays(c, name, r)
    ensures Part(rs, ShownIn(c, name, rs), keep)
  {
    if rs != [] {
      var n := |rs| - 1;
      ShownPart(c, name, rs[..n], keep);
      ShowsDisplays(c, name, rs[n]);
      PartGrows(rs[..n], ShownIn(c, name, rs[..n]), keep, rs[n]);
      assert rs == rs[..n] + [rs[n]];
    }
  }

  lemma {:induction false} ReposWithout(rs: seq<Repo>, r: Repo, id: string)
    ensures WithoutRepo(rs + [r], id) == WithoutRepo(rs, id) + if r.id != id then [r] else []
  {
    if rs == [] {
      assert (rs + [r])[1..] == [];
    } else {
      assert (rs + [r])[1..] == rs[1..] + [r];
      ReposWithout(rs[1..], r, id);
    }
  }

  lemma {:induction false} IdsWithout(ids: seq<string>, x: string, id: string)
    ensures WithoutId(ids + [x], id) == WithoutId(ids, id) + if x != id then [x] else []
  {
    if ids == [] {
      assert (ids + [x])[1..] == [];
    } else {
      assert (ids + [x])[1..] == ids[1..] + [x];
      IdsWithout(ids[1..], x, id);
    }
  }

  lemma {:induction false} ReposPart(rs: seq<Repo>, id: string, keep: Repo -> bool)
    requires forall r :: keep(r) <==> r.id != id
    ensures Part(rs, WithoutRepo(rs, id), keep)
  {
    if rs != [] {
      var n := |rs| - 1;
      ReposPart(rs[..n], id, keep);
      ReposWithout(rs[..n], rs[n], id);
      PartGrows(rs[..n], WithoutRepo(rs[..n], id), keep, rs[n]);
      assert rs == rs[..n] + [rs[n]];
    }
  }

  lemma {:induction false} IdsPart(ids: seq<string>, id: string, keep: string -> bool)
    requires forall x :: keep(x) <==> x != id
    ensures Part(ids, WithoutId(ids, id), keep)
  {
    if ids != [] {
      var n := |ids| - 1;
      IdsPart(ids[..n], id, keep);
      IdsWithout(ids[..n], ids[n], id);
      PartGrows(ids[..n], WithoutId(ids[..n], id), keep, ids[n]);
      assert ids == ids[..n] + [ids[n]];
    }
  }

  /** A removal leaves the other repositories, and in every workspace the other ids, in their order. */
  lemma {:induction false} RemovedParts(c: Config, id: string, others: Repo -> bool, otherIds: string -> bool)
    requires (forall r :: others(r) <==> r.id != id) && forall x :: otherIds(x) <==> x != id
    ensures var d := Removed(c, id);
            && d.defaultWorkspace == c.defaultWorkspace && |d.workspaces| == |c.workspaces|
            && (!Known(c, id) ==> d == c)
            && (Known(c, id) ==> Part(c.repos, d.repos, others))
            && forall i :: 0 <= i < |c.workspaces| && Known(c, id) ==>
                 d.workspaces[i].name == c.workspaces[i].name && Part(c.workspaces[i].repos, d.workspaces[i].repos, otherIds)
  {
    ReposPart(c.repos, id, others);
    forall i | 0 <= i < |c.workspaces|
      ensures Part(c.workspaces[i].repos, WithoutId(c.workspaces[i].repos, id), otherIds)
    {
      IdsPart(c.workspaces[i].repos, id, otherIds);
    }
  }
}
