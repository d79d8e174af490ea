/** The files of a backlog and the scan that projects them. */
module Backlog {
  import opened Text
  import opened Ids
  import opened Sorting
  import opened Items
  import opened FileTx
  import Allocation
  import YamlPath

  type Scanned = Allocation.Scanned

  /** A file as its reader sees it: an item that parses, one that does not but may still show an id, a YAML
      document, or anything else. */
  datatype Doc =
    | ItemDoc(item: Item)
    | Broken(text: string, id: string, title: string, created: Option<int>)
    | Yaml(root: YamlPath.Node)
    | Plain(text: string)

  /** Where the items of a backlog live and how names and ids are read. */
  datatype Layout = Layout(
    dirs: seq<string>,
    project: string,
    isItemName: string -> bool,
    idOfName: string -> string,
    parse: string -> Option<ItemId>)
  {
    predicate IsItem(p: string) {
      DirName(p) in dirs && isItemName(p)
    }

    /** The id of a file: the one it declares, or else the one its name carries. */
    function IdOf(p: string, doc: Doc): string {
      var declared := match doc
        case ItemDoc(item) => item.id
        case Broken(_, id, _, _) => id
        case Yaml(_) => ""
        case Plain(_) => "";
      if declared != "" then declared else idOfName(p)
    }

    function ScanOf(p: string, doc: Doc): Scanned {
      var id := IdOf(p, doc);
      match doc
      case ItemDoc(item) => Allocation.Scanned(p, id, parse(id), item.title, item.created)
      case Broken(_, _, title, created) => Allocation.Scanned(p, id, parse(id), title, created)
      case Yaml(_) => Allocation.Scanned(p, id, parse(id), "", None)
      case Plain(_) => Allocation.Scanned(p, id, parse(id), "", None)
    }

    /** Item files, project.yaml and the temporary names of atomic writes do not meet. */
    ghost predicate Valid() {
      && !IsItem(project)
      && forall p :: !IsItem(TempOf(p)) && TempOf(p) != project
    }
  }

  const FOLDERS := ["epics", "milestones", "specs", "stories", "tasks"]

  function FolderPaths(backlog: string, names: seq<string>): (r: seq<string>)
    ensures forall dir :: dir in r ==> dir != "." && exists i :: 0 <= i < |names| && dir == backlog + "/" + names[i]
  {
    if names == [] then []
    else
      assert (backlog + "/" + names[0])[|backlog|] == '/';
      [backlog + "/" + names[0]] + FolderPaths(backlog, names[1..])
  }

  /** The layout of the backlog in a folder. */
  function LayoutOf(backlog: string): Layout {
    Layout(FolderPaths(backlog, FOLDERS),
           backlog + "/project.yaml", (p: string) => IsItemFileName(BaseName(p)), IdFromFileName, ParseItemId)
  }

  lemma ItemNamesEnd(p: string)
    ensures IsItemFileName(BaseName(p)) ==> p != "" && p[|p| - 1] == 'd'
  {
    var name := BaseName(p);
    if HasSuffix(name, ".md") {
      assert name[|name| - 3..][2] == 'd';
    }
  }

  lemma LastOf(s: string, end: string)
    requires end != ""
    ensures (s + end)[|s + end| - 1] == end[|end| - 1]
  {
  }

  lemma {:induction false} FolderIs(backlog: string, names: seq<string>, dir: string)
    ensures dir in FolderPaths(backlog, names) <==> exists i :: 0 <= i < |names| && dir == backlog + "/" + names[i]
  {
    if names != [] {
      FolderIs(backlog, names[1..], dir);
      if i :| 1 <= i < |names| && dir == backlog + "/" + names[i] {
        assert names[1..][i - 1] == names[i];
      }
    }
  }

  /** The five folders of a backlog. */
  predicate ItemFolder(backlog: string, dir: string) {
    || dir == backlog + "/" + "epics" || dir == backlog + "/" + "milestones" || dir == backlog + "/" + "specs"
    || dir == backlog + "/" + "stories" || dir == backlog + "/" + "tasks"
  }

  lemma FoldersAre(backlog: string, dir: string)
    ensures dir in FolderPaths(backlog, FOLDERS) <==> ItemFolder(backlog, dir)
  {
    FolderIs(backlog, FOLDERS, dir);
    assert FOLDERS[0] == "epics" && FOLDERS[1] == "milestones" && FOLDERS[2] == "specs" && FOLDERS[3] == "stories" && FOLDERS[4] == "tasks";
  }

  /** The item files: those in the five folders that end in `.md` and are not hidden. */
  lemma ItemFileMeans(backlog: string, dir: string, name: string)
    requires dir != "." && '/' !in name
    ensures LayoutOf(backlog).IsItem(JoinPath(dir, name))
            <==> ItemFolder(backlog, dir) && |name| >= 3 && name[|name| - 3..] == ".md" && name[0] != '.'
  {
    SplitJoined(dir, name);
    FoldersAre(backlog, dir);
    Hidden(name);
  }

  lemma Hidden(name: string)
    ensures IsItemFileName(name) <==> |name| >= 3 && name[|name| - 3..] == ".md" && name[0] != '.'
  {
    assert |name| >= 1 ==> (name[..1] == "." <==> name[0] == '.');
  }

  /** The id a scan reads off a file: the one it declares, and the one its name starts with if it declares none. */
  lemma ScanMeans(layout: Layout, p: string, doc: Doc)
    ensures var x := layout.ScanOf(p, doc);
            && x.path == p && x.parsed == layout.parse(x.id)
            && (doc.ItemDoc? && doc.item.id != "" ==> x.id == doc.item.id)
            && (doc.Broken? && doc.id != "" ==> x.id == doc.id)
            && ((doc.ItemDoc? && doc.item.id == "") || (doc.Broken? && doc.id == "") || doc.Yaml? || doc.Plain? ==> x.id == layout.idOfName(p))
            && (doc.ItemDoc? ==> x.title == doc.item.title && x.created == doc.item.created)
            && (doc.Broken? ==> x.title == doc.title && x.created == doc.created)
  {
  }

  lemma LayoutValid(backlog: string)
    ensures LayoutOf(backlog).Valid()
  {
    var layout := LayoutOf(backlog);
    ItemNamesEnd(layout.project);
    LastOf(backlog, "/project.yaml");
    forall p
      ensures !layout.IsItem(TempOf(p)) && TempOf(p) != layout.project
    {
      ItemNamesEnd(TempOf(p));
      LastOf(p, ".tmp");
    }
  }

  /** The scan: every item file that has an id, once, in path order. */
  ghost predicate IsScan(layout: Layout, files: map<string, Doc>, items: seq<Scanned>) {
    && (forall i, j :: 0 <= i < j < |items| ==> Less(items[i].path, items[j].path))
    && (forall x :: x in items ==>
          layout.IsItem(x.path) && x.path in files && x.id != "" && x == layout.ScanOf(x.path, files[x.path]))
    && (forall p :: p in files && layout.IsItem(p) && layout.IdOf(p, files[p]) != "" ==> layout.ScanOf(p, files[p]) in items)
  }

  predicate PathLess(a: Scanned, b: Scanned) {
    Less(a.path, b.path)
  }

  lemma PathOrder()
    ensures WeakOrder(PathLess)
  {
    forall a: Scanned, b: Scanned | PathLess(a, b)
      ensures !PathLess(b, a)
    {
      LessAsymmetric(a.path, b.path);
    }
    forall a: Scanned, b: Scanned, c: Scanned | !PathLess(a, b) && !PathLess(b, c)
      ensures !PathLess(a, c)
    {
      LessNegativelyTransitive(a.path, b.path, c.path);
    }
  }

  /** scanItems: lists the five folders, reads every item file in them and sorts what it found. */
  method ScanItems(fs: Store<Doc>, layout: Layout) returns (items: Option<seq<Scanned>>)
    modifies fs`clock
    ensures if items.Some? then fs.clock.faults == old(fs.clock.faults) else fs.clock.faults > old(fs.clock.faults)
    ensures items.Some? ==> IsScan(layout, fs.files, items.value)
  {
    var paths := ListItemFiles(fs, layout);
    if paths.None? {
      return None;
    }
    var out := ReadAll(fs, layout, paths.value);
    if out.None? {
      return None;
    }
    PathOrder();
    SortSorted(PathLess, out.value);
    var sorted := Sort(PathLess, out.value);
    SortedPaths(out.value, sorted);
    items := Some(sorted);
  }

  method ListItemFiles(fs: Store<Doc>, layout: Layout) returns (paths: Option<set<string>>)
    modifies fs`clock
    ensures if paths.Some? then fs.clock.faults == old(fs.clock.faults) else fs.clock.faults > old(fs.clock.faults)
    ensures paths.Some? ==> forall p :: p in paths.value <==> p in fs.files && layout.IsItem(p)
  {
    var found: set<string> := {};
    for i := 0 to |layout.dirs|
      invariant forall p :: p in found <==> p in fs.files && DirName(p) in layout.dirs[..i] && layout.isItemName(p)
      invariant fs.clock.faults == old(fs.clock.faults)
    {
      assert layout.dirs[..i + 1] == layout.dirs[..i] + [layout.dirs[i]];
      var listed := fs.ReadDir(layout.dirs[i]);
      if listed.None? {
        return None;
      }
      found := found + set p | p in listed.value && layout.isItemName(p);
    }
    assert layout.dirs[..|layout.dirs|] == layout.dirs;
    paths := Some(found);
  }

  method ReadAll(fs: Store<Doc>, layout: Layout, paths: set<string>) returns (out: Option<seq<Scanned>>)
    requires forall p :: p in paths ==> p in fs.files
    modifies fs`clock
    ensures if out.Some? then fs.clock.faults == old(fs.clock.faults) else fs.clock.faults > old(fs.clock.faults)
    ensures out.Some? ==>
              && (forall x :: x in out.value ==> x.path in paths && x.id != "" && x == layout.ScanOf(x.path, fs.files[x.path]))
              && (forall p :: p in paths && layout.IdOf(p, fs.files[p]) != "" ==> layout.ScanOf(p, fs.files[p]) in out.value)
              && (forall i, j :: 0 <= i < j < |out.value| ==> out.value[i].path != out.value[j].path)
  {
    var left := paths;
    var items: seq<Scanned> := [];
    while left != {}
      invariant left <= paths && fs.clock.faults == old(fs.clock.faults)
      invariant forall x :: x in items ==> x.path in paths - left && x.id != "" && x == layout.ScanOf(x.path, fs.files[x.path])
      invariant forall p :: p in paths - left && layout.IdOf(p, fs.files[p]) != "" ==> layout.ScanOf(p, fs.files[p]) in items
      invariant forall i, j :: 0 <= i < j < |items| ==> items[i].path != items[j].path
      decreases left
    {
      var p :| p in left;
      var read := fs.ReadFile(p);
      if !read.Data? {
        return None;
      }
      var x := layout.ScanOf(p, read.data);
      if x.id != "" {
        assert forall i :: 0 <= i < |items| ==> items[i] in items && items[i].path != p;
        items := items + [x];
      }
      left := left - {p};
    }
    out := Some(items);
  }

  lemma SortedPaths(items: seq<Scanned>, sorted: seq<Scanned>)
    requires multiset(items) == multiset(sorted) && Sorted(PathLess, sorted)
    requires forall i, j :: 0 <= i < j < |items| ==> items[i].path != items[j].path
    ensures forall i, j :: 0 <= i < j < |sorted| ==> Less(sorted[i].path, sorted[j].path)
  {
    forall i, j | 0 <= i < j < |sorted|
      ensures Less(sorted[i].path, sorted[j].path)
    {
      assert !PathLess(sorted[j], sorted[i]);
      LessConnected(sorted[i].path, sorted[j].path);
      if sorted[i].path == sorted[j].path {
        assert sorted[i] in multiset(sorted) && sorted[j] in multiset(sorted);
        assert sorted[i] in items && sorted[j] in items;
        assert sorted[i] == sorted[j];
        AtMostOnce(items, sorted[i]);
        CountedTwice(sorted, i, j);
      }
    }
  }

  lemma {:induction false} AtMostOnce(s: seq<Scanned>, x: Scanned)
    requires forall i, j :: 0 <= i < j < |s| ==> s[i].path != s[j].path
    ensures multiset(s)[x] <= 1
  {
    if s != [] {
      assert s == [s[0]] + s[1..];
      AtMostOnce(s[1..], x);
      if x == s[0] {
        assert x !in s[1..];
      }
    }
  }
}
