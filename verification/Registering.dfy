/** The configuration object: registering, removing and listing repositories. */
module Registering {
  import opened Text
  import opened Registry

  // ---------------------------------------------------------------- a free id

  function Candidate(base: string, n: nat): string {
    base + "-" + Decimal(n)
  }

  lemma CandidatesDiffer(base: string, m: nat, n: nat)
    requires m != n
    ensures Candidate(base, m) != Candidate(base, n) && Candidate(base, m) != base
  {
    var p := base + "-";
    assert Candidate(base, m) == p + Decimal(m) && Candidate(base, n) == p + Decimal(n);
    assert Candidate(base, m)[|p|..] == Decimal(m) && Candidate(base, n)[|p|..] == Decimal(n);
    assert |Candidate(base, m)| > |base|;
    if Decimal(m) == Decimal(n) {
      DecimalInjective(m, n);
    }
  }

  lemma {:induction false} SubsetCount(a: set<string>, b: set<string>)
    requires a <= b
    ensures |a| <= |b|
  {
    if a != {} {
      var x :| x in a;
      SubsetCount(a - {x}, b - {x});
    }
  }

  ghost function Ids(repos: seq<Repo>): set<string> {
    set r | r in repos :: r.id
  }

  lemma {:induction false} IdsCount(repos: seq<Repo>)
    ensures |Ids(repos)| <= |repos|
  {
    if repos != [] {
      var n := |repos| - 1;
      IdsCount(repos[..n]);
      assert repos == repos[..n] + [repos[n]];
      assert Ids(repos) == Ids(repos[..n]) + {repos[n].id};
    }
  }

  predicate Taken(repos: seq<Repo>, id: string) {
    exists r :: r in repos && r.id == id
  }

  /** The base when no repository has it, else its first numbered variant, counting from 2, that none has. */
  ghost predicate FreeFor(repos: seq<Repo>, base: string, id: string) {
    && !Taken(repos, id)
    && if !Taken(repos, base) then id == base
       else exists n: nat :: n >= 2 && id == base + "-" + Decimal(n) && forall m :: 2 <= m < n ==> Taken(repos, base + "-" + Decimal(m))
  }

  lemma {:induction false} FoundFree(repos: seq<Repo>, base: string, n: nat, id: string)
    requires n >= 2 && id == Candidate(base, n) && id !in Ids(repos) && base in Ids(repos)
    requires forall m :: 2 <= m < n ==> Candidate(base, m) in Ids(repos)
    ensures id != "" && FreeFor(repos, base, id)
  {
    forall m | 2 <= m < n
      ensures Taken(repos, base + "-" + Decimal(m))
    {
      assert Candidate(base, m) in Ids(repos);
    }
    assert id == base + "-" + Decimal(n);
  }

  /** freeID: the base if it is free, else the first numbered one that is. It is found within one try more than
      there are repositories. */
  method FreeId(repos: seq<Repo>, base: string) returns (id: string, ghost tries: nat)
    requires base != ""
    ensures id != "" && FreeFor(repos, base, id)
    ensures tries <= |repos| + 1
  {
    var taken := set r | r in repos :: r.id;
    tries := 1;
    IdsCount(repos);
    assert taken == Ids(repos);
    if base !in taken {
      assert !Taken(repos, base);
      return base, tries;
    }
    var n := 2;
    ghost var tried := {base};
    while Candidate(base, n) in taken
      invariant n >= 2 && tries == n - 1 && tried <= taken && |tried| == n - 1
      invariant forall m :: 2 <= m < n ==> Candidate(base, m) in taken
      invariant forall x :: x in tried ==> x == base || exists m :: 2 <= m < n && x == Candidate(base, m)
      decreases |taken| - |tried|
    {
      forall x | x in tried
        ensures x != Candidate(base, n)
      {
        if x == base {
          CandidatesDiffer(base, n, n + 1);
        } else {
          var m :| 2 <= m < n && x == Candidate(base, m);
          CandidatesDiffer(base, m, n);
        }
      }
      ghost var more := tried + {Candidate(base, n)};
      SubsetCount(more, taken);
      tried, tries := more, n;
      n := n + 1;
    }
    SubsetCount(tried, taken);
    tries := n;
    id := Candidate(base, n);
    FoundFree(repos, base, n, id);
  }

  // ---------------------------------------------------------------- folders

  /** A cleaned folder stays inside the repository. */
  predicate Inside(folder: string) {
    folder != "" && folder != ".." && !HasPrefix(folder, "../") && !IsAbs(folder)
  }

  /** What an entry of a list stands for: its trimmed and cleaned text, unless that is empty or escapes. */
  function FolderOf(entry: string, clean: string -> string): Option<string> {
    var text := TrimSpace(entry);
    if text == "" || !Inside(clean(text)) then None else Some(clean(text))
  }

  /** What the entries of a list stand for, each where it comes first. */
  function Firsts(list: seq<string>, read: string -> Option<string>): seq<string> {
    if list == [] then []
    else
      var before, x := Firsts(list[..|list| - 1], read), read(list[|list| - 1]);
      if x.None? || x.value in before then before else before + [x.value]
  }

  /** Everything an entry stands for is there once, and nothing else. */
  lemma {:induction false} FirstsMembers(list: seq<string>, read: string -> Option<string>)
    ensures var out := Firsts(list, read);
            && (forall i, j :: 0 <= i < j < |out| ==> out[i] != out[j])
            && (forall f :: f in out <==> exists k :: 0 <= k < |list| && read(list[k]) == Some(f))
  {
    if list != [] {
      var n := |list| - 1;
      FirstsMembers(list[..n], read);
      assert forall k :: 0 <= k < n ==> list[..n][k] == list[k];
    }
  }

  /** What the first entries make stands in front: the order is that of the first entries. */
  lemma {:induction false} FirstsGrow(list: seq<string>, read: string -> Option<string>, k: nat)
    requires k <= |list|
    ensures Firsts(list[..k], read) <= Firsts(list, read)
  {
    if k < |list| {
      var n := |list| - 1;
      FirstsGrow(list[..n], read, k);
      assert list[..n][..k] == list[..k];
    } else {
      assert list[..k] == list;
    }
  }

  function Reader(clean: string -> string): string -> Option<string> {
    (entry: string) => FolderOf(entry, clean)
  }

  function Cleaned(folders: seq<string>, clean: string -> string): seq<string> {
    Firsts(folders, Reader(clean))
  }

  /** The cleaned folders are those of the entries that stay inside, each once, in the order of their first entries. */
  lemma {:induction false} CleanedMeans(folders: seq<string>, clean: string -> string, k: nat)
    requires k <= |folders|
    ensures forall i, j :: 0 <= i < j < |Cleaned(folders, clean)| ==> Cleaned(folders, clean)[i] != Cleaned(folders, clean)[j]
    ensures forall f :: f in Cleaned(folders, clean) <==> exists l :: 0 <= l < |folders| && StandsFor(folders[l], clean, f)
    ensures Cleaned(folders[..k], clean) <= Cleaned(folders, clean)
  {
    FirstsMembers(folders, Reader(clean));
    FirstsGrow(folders, Reader(clean), k);
    forall l, f | 0 <= l < |folders|
      ensures Reader(clean)(folders[l]) == Some(f) <==> StandsFor(folders[l], clean, f)
    {
      FolderMeans(folders[l], clean, f);
    }
  }

  /** The folder is the cleaned text of the entry, which is not empty and does not lead out of the repository. */
  predicate StandsFor(entry: string, clean: string -> string, f: string) {
    && TrimSpace(entry) != "" && f == clean(TrimSpace(entry)) && f != ""
    && f != ".." && !(|f| >= 3 && f[0] == '.' && f[1] == '.' && f[2] == '/') && f[0] != '/'
  }

  lemma FolderMeans(entry: string, clean: string -> string, f: string)
    ensures FolderOf(entry, clean) == Some(f) <==> StandsFor(entry, clean, f)
  {
    assert |f| >= 3 ==> (f[..3] == "../" <==> f[0] == '.' && f[1] == '.' && f[2] == '/');
  }

  /** cleanFolders. */
  method CleanFolders(folders: seq<string>, clean: string -> string) returns (out: seq<string>)
    requires forall s :: s != "" ==> clean(s) != ""
    ensures out == Cleaned(folders, clean)
  {
    out := [];
    for k := 0 to |folders|
      invariant out == Firsts(folders[..k], Reader(clean))
    {
      assert folders[..k + 1][..k] == folders[..k];
      ghost var x := FolderOf(folders[k], clean);
      var folder := TrimSpace(folders[k]);
      if folder == "" {
        continue;
      }
      folder := clean(folder);
      if folder == ".." || HasPrefix(folder, "../") || IsAbs(folder) || folder in out {
        continue;
      }
      out := out + [folder];
    }
    assert folders[..|folders|] == folders;
  }

  const PREFERRED_DOCS := "docs"

  /** The documentation folder of a registration: the one asked for, the first declared one, the detected one, or
      the usual one. It is absolute exactly when an absolute one was asked for, which nothing refuses. */
  method ChooseDocs(asked: string, declared: seq<string>, detected: string, clean: string -> string) returns (docs: string)
    requires (forall f :: f in declared ==> Inside(f)) && !IsAbs(detected)
    ensures IsAbs(docs) <==> TrimSpace(asked) != "" && IsAbs(clean(TrimSpace(asked)))
    ensures TrimSpace(asked) != "" ==> docs == clean(TrimSpace(asked))
    ensures TrimSpace(asked) == "" && declared != [] ==> docs == declared[0]
    ensures TrimSpace(asked) == "" && declared == [] ==> docs == if detected != "" then detected else "docs"
  {
    docs := TrimSpace(asked);
    if docs != "" {
      docs := clean(docs);
    } else if |declared| > 0 {
      docs := declared[0];
      assert docs in declared;
    } else if detected != "" {
      docs := detected;
    } else {
      docs := PREFERRED_DOCS;
    }
  }

  /** The other folders of a list, in its order. */
  ghost predicate Others(folders: seq<string>, rest: seq<string>, head: string) {
    Part(folders, rest, (f: string) => f != head)
  }

  /** withFolder: the folder at the head of the list, once; an escaping one leaves the list alone. */
  method WithFolder(folders: seq<string>, folder: string, clean: string -> string) returns (out: seq<string>)
    requires forall s :: s != "" ==> clean(s) != ""
    requires forall i, j :: 0 <= i < j < |folders| ==> folders[i] != folders[j]
    ensures forall i, j :: 0 <= i < j < |out| ==> out[i] != out[j]
    ensures TrimSpace(folder) != "" && Inside(clean(TrimSpace(folder))) ==>
              out != [] && out[0] == clean(TrimSpace(folder)) && Others(folders, out[1..], clean(TrimSpace(folder)))
    ensures !(TrimSpace(folder) != "" && Inside(clean(TrimSpace(folder)))) ==> out == folders
  {
    var head := CleanFolders([folder], clean);
    CleanOne(folder, clean);
    if |head| == 0 {
      return folders;
    }
    var rest := Without(head[0], folders);
    out := [head[0]] + rest;
    assert out[1..] == rest;
  }

  /** One folder cleans to itself or to nothing. */
  lemma {:induction false} CleanOne(folder: string, clean: string -> string)
    ensures var text := TrimSpace(folder);
            Cleaned([folder], clean) == if text != "" && Inside(clean(text)) then [clean(text)] else []
  {
    assert [folder][..0] == [];
    assert Firsts([], Reader(clean)) == [];
    assert Reader(clean)(folder) == FolderOf(folder, clean);
  }

  method Without(head: string, folders: seq<string>) returns (out: seq<string>)
    requires forall i, j :: 0 <= i < j < |folders| ==> folders[i] != folders[j]
    ensures Others(folders, out, head) && forall i, j :: 0 <= i < j < |out| ==> out[i] != out[j]
    ensures head !in out
  {
    out := [];
    for k := 0 to |folders|
      invariant Others(folders[..k], out, head)
      invariant forall i, j :: 0 <= i < j < |out| ==> out[i] != out[j]
    {
      assert folders[..k + 1] == folders[..k] + [folders[k]];
      assert folders[k] !in folders[..k];
      if folders[k] != head {
        PartGrows(folders[..k], out, (f: string) => f != head, folders[k]);
        out := out + [folders[k]];
      } else {
        PartStays(folders[..k], out, (f: string) => f != head, folders[k]);
      }
    }
    assert folders[..|folders|] == folders;
  }

  // ---------------------------------------------------------------- the configuration

  datatype AddResult = Registered(repo: Repo) | AlreadyRegistered(id: string) | UnknownRole

  /** What a caller asks for and what detection found; the two texts are already trimmed and cleaned. */
  datatype Request = Request(path: string, id: string, fallbackId: string, role: string, docsFolder: string, docsFolders: seq<string>, workspace: string)

  class Configuration {
    var repos: seq<Repo>
    var workspaces: seq<Workspace>
    var defaultWorkspace: string

    constructor (c: Config)
      ensures Now() == c
    {
      repos, workspaces, defaultWorkspace := c.repos, c.workspaces, c.defaultWorkspace;
    }

    function Now(): Config
      reads this
    {
      Config(repos, workspaces, defaultWorkspace)
    }

    method WorkspaceNamed(name: string) returns (r: Option<Workspace>)
      ensures r == Named(workspaces, name)
    {
      for i := 0 to |workspaces|
        invariant Named(workspaces, name) == Named(workspaces[i..], name)
      {
        assert workspaces[i..][0] == workspaces[i] && workspaces[i..][1..] == workspaces[i + 1..];
        if workspaces[i].name == name {
          return Some(workspaces[i]);
        }
      }
      r := None;
    }

    method ActiveWorkspace() returns (name: string)
      ensures name == Active(Now())
    {
      if defaultWorkspace != "" {
        return defaultWorkspace;
      }
      if |workspaces| > 0 {
        return workspaces[0].name;
      }
      return DEFAULT_WORKSPACE;
    }

    method EnsureWorkspace(name: string)
      modifies this`workspaces
      ensures Now() == Ensured(old(Now()), name)
    {
      if name == "" {
        return;
      }
      var known := WorkspaceNamed(name);
      if known.Some? {
        return;
      }
      workspaces := workspaces + [Workspace(name, [])];
    }

    method Attach(name: string, id: string)
      modifies this`workspaces
      ensures workspaces == Attached(old(workspaces), name, id)
    {
      for i := 0 to |workspaces|
        invariant workspaces == old(workspaces)
        invariant forall k :: 0 <= k < i ==> !(workspaces[k].name == name && workspaces[k].repos != [])
      {
        var w := workspaces[i];
        if w.name != name || |w.repos| == 0 {
          continue;
        }
        AttachedAt(workspaces, name, id, i);
        if id in w.repos {
          assert workspaces[i := w] == workspaces;
          return;
        }
        workspaces := workspaces[i := w.(repos := w.repos + [id])];
        return;
      }
      AttachedNowhere(workspaces, name, id);
    }

    /** AddRepoWithOptions, the registry part: a path is registered once, under a free id, in the workspace asked
        for or the active one. */
    method AddRepo(req: Request, canonical: string -> string) returns (r: AddResult)
      requires IsAbs(req.path) && req.fallbackId != ""
      modifies this
      ensures !r.Registered? ==> Now() == old(Now())
      ensures r.AlreadyRegistered? <==> exists x :: x in old(repos) && canonical(x.path) == canonical(req.path)
      ensures r.AlreadyRegistered? ==> exists x :: x in old(repos) && canonical(x.path) == canonical(req.path) && x.id == r.id
      ensures r.UnknownRole? <==> !r.AlreadyRegistered? && req.role != "project" && req.role != "team"
      ensures r.Registered? ==>
                && r.repo.path == req.path && r.repo.role == req.role && r.repo.docsFolders == req.docsFolders
                && FreeFor(old(repos), if req.id != "" then req.id else req.fallbackId, r.repo.id)
      ensures r.Registered? ==>
                && Addable(old(Now()), r.repo, canonical) && r.repo.enabled && r.repo.docsFolder == req.docsFolder
                && Now() == Step(old(Now()), Add(r.repo, req.workspace))
      ensures r.Registered? && Valid(old(Now()), canonical) ==> (Valid(Now(), canonical) <==> !IsAbs(req.docsFolder))
      ensures r.Registered? && Valid(old(Now()), canonical) ==>
                Shows(Now(), if req.workspace == "" then Active(old(Now())) else req.workspace, r.repo)
    {
      var same := Registered(req.path, canonical);
      if same.Some? {
        return AlreadyRegistered(same.value.id);
      }
      if !ValidRole(req.role) {
        return UnknownRole;
      }
      ghost var before := Now();
      var id, _ := FreeId(repos, if req.id != "" then req.id else req.fallbackId);
      var repo := Repo(id, req.path, req.role, req.docsFolder, req.docsFolders, true);
      repos := repos + [repo];
      var workspace := req.workspace;
      if workspace == "" {
        workspace := ActiveWorkspace();
      }
      EnsureWorkspace(workspace);
      Attach(workspace, repo.id);
      if Valid(before, canonical) {
        AddedValid(before, repo, workspace, canonical);
        AddedIsShown(before, repo, workspace);
      }
      r := AddResult.Registered(repo);
    }

    method Registered(path: string, canonical: string -> string) returns (same: Option<Repo>)
      ensures same.Some? <==> exists x :: x in repos && canonical(x.path) == canonical(path)
      ensures same.Some? ==> same.value in repos && canonical(same.value.path) == canonical(path)
    {
      for i := 0 to |repos|
        invariant forall x :: x in repos[..i] ==> canonical(x.path) != canonical(path)
      {
        assert repos[..i + 1] == repos[..i] + [repos[i]];
        if canonical(repos[i].path) == canonical(path) {
          return Some(repos[i]);
        }
      }
      assert repos[..|repos|] == repos;
      same := None;
    }

    /** RemoveRepo: drops a repository from the list and from every workspace. */
    method RemoveRepo(id: string) returns (found: bool)
      modifies this
      ensures found <==> Known(old(Now()), id)
      ensures Now() == Removed(old(Now()), id)
    {
      var kept := KeptRepos(id);
      found := |kept| != |repos|;
      KeptShorter(repos, id);
      if !found {
        return;
      }
      repos := kept;
      ghost var before := workspaces;
      for i := 0 to |workspaces|
        invariant |workspaces| == |before| && repos == kept && defaultWorkspace == old(defaultWorkspace)
        invariant forall k :: 0 <= k < i ==> workspaces[k] == before[k].(repos := WithoutId(before[k].repos, id))
        invariant forall k :: i <= k < |before| ==> workspaces[k] == before[k]
      {
        var ids := KeptIds(workspaces[i].repos, id);
        workspaces := workspaces[i := workspaces[i].(repos := ids)];
      }
      assert workspaces == Removed(old(Now()), id).workspaces;
    }

    method KeptRepos(id: string) returns (kept: seq<Repo>)
      ensures kept == WithoutRepo(repos, id)
    {
      kept := [];
      for i := 0 to |repos|
        invariant kept == WithoutRepo(repos[..i], id)
      {
        ReposWithout(repos[..i], repos[i], id);
        assert repos[..i + 1] == repos[..i] + [repos[i]];
        if repos[i].id != id {
          kept := kept + [repos[i]];
        }
      }
      assert repos[..|repos|] == repos;
    }

    method KeptIds(ids: seq<string>, id: string) returns (kept: seq<string>)
      ensures kept == WithoutId(ids, id)
    {
      kept := [];
      for i := 0 to |ids|
        invariant kept + WithoutId(ids[i..], id) == WithoutId(ids, id)
      {
        assert ids[i..][0] == ids[i] && ids[i..][1..] == ids[i + 1..];
        if ids[i] != id {
          kept := kept + [ids[i]];
        }
      }
    }

    /** The enabled repositories of a workspace, in registration order. */
    method WorkspaceRepos(name: string) returns (out: seq<Repo>)
      ensures out == ShownIn(Now(), name, repos)
      ensures forall r :: r in out <==> r in repos && Shows(Now(), name, r)
    {
      var which := name;
      if which == "" {
        which := ActiveWorkspace();
      }
      var ws := WorkspaceNamed(which);
      out := [];
      for i := 0 to |repos|
        invariant out == ShownIn(Now(), name, repos[..i])
        invariant forall r :: r in out <==> r in repos[..i] && Shows(Now(), name, r)
      {
        assert repos[..i + 1] == repos[..i] + [repos[i]] && repos[..i + 1][..i] == repos[..i];
        if repos[i].enabled && (ws.None? || |ws.value.repos| == 0 || repos[i].id in ws.value.repos) {
          out := out + [repos[i]];
        }
      }
      assert repos[..|repos|] == repos;
    }
  }

  lemma {:induction false} KeptShorter(rs: seq<Repo>, id: string)
    ensures |WithoutRepo(rs, id)| <= |rs|
    ensures |WithoutRepo(rs, id)| != |rs| <==> exists r :: r in rs && r.id == id
  {
    if rs != [] {
      KeptShorter(rs[1..], id);
      assert rs == [rs[0]] + rs[1..];
    }
  }

  lemma {:induction false} AttachedAt(ws: seq<Workspace>, name: string, id: string, i: nat)
    requires i < |ws| && ws[i].name == name && ws[i].repos != []
    requires forall k :: 0 <= k < i ==> !(ws[k].name == name && ws[k].repos != [])
    ensures Attached(ws, name, id) == ws[i := if id in ws[i].repos then ws[i] else ws[i].(repos := ws[i].repos + [id])]
  {
    if i > 0 {
      AttachedAt(ws[1..], name, id, i - 1);
      UpdateBelow(ws, i, if id in ws[i].repos then ws[i] else ws[i].(repos := ws[i].repos + [id]));
    }
  }

  lemma UpdateBelow<T>(s: seq<T>, i: nat, x: T)
    requires 0 < i < |s|
    ensures [s[0]] + s[1..][i - 1 := x] == s[i := x]
  {
  }

  lemma {:induction false} AttachedNowhere(ws: seq<Workspace>, name: string, id: string)
    requires forall k :: 0 <= k < |ws| ==> !(ws[k].name == name && ws[k].repos != [])
    ensures Attached(ws, name, id) == ws
  {
    if ws != [] {
      AttachedNowhere(ws[1..], name, id);
    }
  }
}
