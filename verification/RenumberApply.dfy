/** Executing a renumbering plan: every file is prepared in memory, staged, and committed as one transaction. */
module RenumberApply {
  import opened Text
  import opened Sorting
  import opened Items
  import opened FileTx
  import opened Backlog
  import opened RenumberPlan
  import YamlPath

  /** What becomes of a document that does not parse when ids in it are renumbered as plain text. */
  type RawRewrite = (Doc, map<string, string>) -> Option<Doc>

  /** The mapping a plan records; a later step of the same id wins. */
  function MappingOf(plan: seq<Renumber>): (m: map<string, string>)
    ensures forall id :: id in m <==> exists i :: 0 <= i < |plan| && plan[i].oldId == id
  {
    if plan == [] then map[]
    else
      var n := |plan| - 1;
      MappingOf(plan[..n])[plan[n].oldId := plan[n].newId]
  }

  /** The step a mapping's entry comes from: the last one of its id. */
  lemma {:induction false} MappingHolds(plan: seq<Renumber>, id: string) returns (i: nat)
    requires id in MappingOf(plan)
    ensures i < |plan| && plan[i].oldId == id && plan[i].newId == MappingOf(plan)[id]
    ensures forall k :: i < k < |plan| ==> plan[k].oldId != id
  {
    var n := |plan| - 1;
    if plan[n].oldId == id {
      i := n;
    } else {
      i := MappingHolds(plan[..n], id);
    }
  }

  ghost function PathsIn(plan: seq<Renumber>): set<string> {
    set i | 0 <= i < |plan| :: plan[i].path
  }

  /** A plan that names each file once and never maps an id to itself. */
  ghost predicate WellFormed(plan: seq<Renumber>) {
    && (forall i :: 0 <= i < |plan| ==> plan[i].oldId != plan[i].newId)
    && (forall i, j :: 0 <= i < j < |plan| ==> plan[i].path != plan[j].path)
  }

  // ---------------------------------------------------------------- what is written

  function RenamedItem(item: Item, newId: string, mapping: map<string, string>): Item {
    Rewritten(item.(id := newId), mapping)
  }

  /** The renumbered files, under their new names. */
  ghost function Renamed(files: map<string, Doc>, plan: seq<Renumber>, mapping: map<string, string>): map<string, Doc> {
    if plan == [] then map[]
    else
      var n := |plan| - 1;
      var r := plan[n];
      if r.path in files && files[r.path].ItemDoc?
      then Renamed(files, plan[..n], mapping)[r.newPath := ItemDoc(RenamedItem(files[r.path].item, r.newId, mapping))]
      else Renamed(files, plan[..n], mapping)
  }

  /** What another item file becomes: its references repointed, or its text rewritten when it does not parse. */
  ghost function Repointed(p: string, doc: Doc, mapping: map<string, string>, raw: RawRewrite): Option<Doc> {
    if doc.ItemDoc? then
      if Updates(p, doc.item, mapping) == {} then None else Some(ItemDoc(Rewritten(doc.item, mapping)))
    else raw(doc, mapping)
  }

  /** The other scanned files that change. */
  ghost function Others(layout: Layout, files: map<string, Doc>, keep: set<string>, mapping: map<string, string>, raw: RawRewrite): map<string, Doc> {
    map p | p in files && layout.IsItem(p) && layout.IdOf(p, files[p]) != "" && p !in keep
            && Repointed(p, files[p], mapping, raw).Some?
      :: Repointed(p, files[p], mapping, raw).value
  }

  /** project.yaml with the redirects recorded, when there is one and it changes. */
  ghost function Recorded(layout: Layout, files: map<string, Doc>, olds: seq<string>, mapping: map<string, string>): map<string, Doc>
    requires forall o :: o in olds ==> o in mapping
  {
    if layout.project in files && files[layout.project].Yaml? && files[layout.project].root.Mapping?
       && YamlPath.RecordAll(files[layout.project].root, olds, mapping).Some?
       && YamlPath.Alters(files[layout.project].root, olds, mapping)
    then map[layout.project := Yaml(YamlPath.RecordAll(files[layout.project].root, olds, mapping).value)]
    else map[]
  }

  ghost function PathsLeft(plan: seq<Renumber>): set<string> {
    set i | 0 <= i < |plan| && plan[i].newPath != plan[i].path :: plan[i].path
  }

  /** The files after the whole plan. */
  ghost function Applied(layout: Layout, files: map<string, Doc>, plan: seq<Renumber>, olds: seq<string>, raw: RawRewrite): map<string, Doc>
    requires forall o :: o in olds ==> o in MappingOf(plan)
  {
    var mapping := MappingOf(plan);
    files + (Renamed(files, plan, mapping) + Others(layout, files, PathsIn(plan), mapping, raw) + Recorded(layout, files, olds, mapping))
    - PathsLeft(plan)
  }

  /** The new names are item files, and no step writes a path that another one removes. */
  ghost predicate Sane(layout: Layout, plan: seq<Renumber>) {
    && (forall i :: 0 <= i < |plan| ==> layout.IsItem(plan[i].path) && layout.IsItem(plan[i].newPath))
    && (forall i, j :: 0 <= i < |plan| && 0 <= j < |plan| ==> plan[i].newPath != plan[j].path)
  }

  /** The ids of a mapping in order. */
  ghost predicate SortedIds(olds: seq<string>, ids: set<string>) {
    && (forall o :: o in olds <==> o in ids)
    && (forall i, j :: 0 <= i < j < |olds| ==> Less(olds[i], olds[j]))
  }

  /** The redirect table can take the plan's mapping, or there is no project.yaml. */
  ghost predicate TableTakes(layout: Layout, files: map<string, Doc>, olds: seq<string>, mapping: map<string, string>) {
    layout.project in files ==>
      files[layout.project].Yaml? && files[layout.project].root.Mapping? && (forall o :: o in olds ==> o in mapping)
      && YamlPath.RecordAll(files[layout.project].root, olds, mapping).Some?
  }

  /** The renumbered files are there and parse. */
  ghost predicate Present(files: map<string, Doc>, plan: seq<Renumber>) {
    forall i :: 0 <= i < |plan| ==> plan[i].path in files && files[plan[i].path].ItemDoc?
  }

  /** What ApplyRenumber asks of a plan. */
  ghost predicate Acceptable(layout: Layout, files: map<string, Doc>, plan: seq<Renumber>, olds: seq<string>) {
    WellFormed(plan) && Present(files, plan) && TableTakes(layout, files, olds, MappingOf(plan))
  }

  // ---------------------------------------------------------------- stages

  /** Refuses a plan with an identity step or a file listed twice. */
  method CheckPlan(plan: seq<Renumber>) returns (ok: bool, mapping: map<string, string>, paths: set<string>)
    ensures ok <==> WellFormed(plan)
    ensures ok ==> mapping == MappingOf(plan) && paths == PathsIn(plan)
  {
    mapping, paths := map[], {};
    for i := 0 to |plan|
      invariant mapping == MappingOf(plan[..i]) && paths == PathsIn(plan[..i])
      invariant WellFormed(plan[..i])
    {
      var r := plan[i];
      assert plan[..i + 1][..i] == plan[..i];
      assert forall k :: 0 <= k < i ==> plan[..i][k] == plan[k] && plan[..i + 1][k] == plan[k];
      if r.oldId == r.newId {
        return false, mapping, paths;
      }
      if r.path in paths {
        return false, mapping, paths;
      }
      PathsGrow(plan, i);
      mapping := mapping[r.oldId := r.newId];
      paths := paths + {r.path};
    }
    assert plan[..|plan|] == plan;
    ok := true;
  }

  lemma PathsGrow(plan: seq<Renumber>, i: nat)
    requires i < |plan|
    ensures PathsIn(plan[..i + 1]) == PathsIn(plan[..i]) + {plan[i].path}
  {
    var init, next := plan[..i], plan[..i + 1];
    forall p | p in PathsIn(next)
      ensures p in PathsIn(init) || p == plan[i].path
    {
      var k :| 0 <= k < |next| && next[k].path == p;
      assert k < i ==> init[k].path == p;
    }
    forall p | p in PathsIn(init)
      ensures p in PathsIn(next)
    {
      var k :| 0 <= k < |init| && init[k].path == p;
      assert next[k].path == p;
    }
    assert next[i].path == plan[i].path;
  }

  /** Stage 1: the renumbered files themselves. */
  method StageRenamed(fs: Store<Doc>, plan: seq<Renumber>, mapping: map<string, string>, tx: Tx<Doc>) returns (ok: bool)
    requires tx.Staging() && tx.writes == [] && tx.removes == []
    modifies tx`writes, tx`removes, fs`clock
    ensures tx.Staging()
    ensures ok ==> Written(tx.writes) == Renamed(fs.files, plan, mapping)
    ensures ok ==> PathSet(tx.removes) == PathsLeft(plan)
    ensures ok ==> Present(fs.files, plan) && fs.clock.faults == old(fs.clock.faults)
    ensures !ok ==> fs.clock.faults > old(fs.clock.faults) || !Present(fs.files, plan)
  {
    for i := 0 to |plan|
      invariant tx.Staging() && fs.clock.faults == old(fs.clock.faults)
      invariant Written(tx.writes) == Renamed(fs.files, plan[..i], mapping)
      invariant PathSet(tx.removes) == PathsLeft(plan[..i])
      invariant forall k :: 0 <= k < i ==> plan[k].path in fs.files && fs.files[plan[k].path].ItemDoc?
    {
      assert plan[..i + 1][..i] == plan[..i];
      PathsLeftGrow(plan, i);
      ok := StageOne(fs, plan[i], mapping, tx);
      if !ok {
        return;
      }
    }
    assert plan[..|plan|] == plan;
    ok := true;
  }

  method StageOne(fs: Store<Doc>, r: Renumber, mapping: map<string, string>, tx: Tx<Doc>) returns (ok: bool)
    requires tx.Staging()
    modifies tx`writes, tx`removes, fs`clock
    ensures tx.Staging()
    ensures if ok then fs.clock.faults == old(fs.clock.faults) else fs.clock.faults > old(fs.clock.faults) || !(r.path in fs.files && fs.files[r.path].ItemDoc?)
    ensures ok ==> r.path in fs.files && fs.files[r.path].ItemDoc?
    ensures ok ==> Written(tx.writes) == old(Written(tx.writes))[r.newPath := ItemDoc(RenamedItem(fs.files[r.path].item, r.newId, mapping))]
    ensures ok ==> tx.removes == old(tx.removes) + if r.newPath != r.path then [r.path] else []
  {
    var read := fs.ReadFile(r.path);
    if !read.Data? || !read.data.ItemDoc? {
      return false;
    }
    var draft := new Draft(r.newPath, read.data.item.(id := r.newId));
    var _ := draft.RewriteReferences(mapping);
    tx.Write(r.newPath, ItemDoc(draft.item));
    if r.newPath != r.path {
      tx.StageRemove(r.path);
    }
    ok := true;
  }

  lemma PathsLeftGrow(plan: seq<Renumber>, i: nat)
    requires i < |plan|
    ensures PathsLeft(plan[..i + 1]) == PathsLeft(plan[..i]) + if plan[i].newPath != plan[i].path then {plan[i].path} else {}
  {
    var init, next := plan[..i], plan[..i + 1];
    forall p | p in PathsLeft(next)
      ensures p in PathsLeft(init) || (plan[i].newPath != plan[i].path && p == plan[i].path)
    {
      var k :| 0 <= k < |next| && next[k].newPath != next[k].path && next[k].path == p;
      assert k < i ==> init[k].newPath != init[k].path && init[k].path == p;
    }
    forall p | p in PathsLeft(init)
      ensures p in PathsLeft(next)
    {
      var k :| 0 <= k < |init| && init[k].newPath != init[k].path && init[k].path == p;
      assert next[k].newPath != next[k].path && next[k].path == p;
    }
    assert next[i] == plan[i];
  }

  /** Stage 2: every other scanned file that names a renumbered id. */
  method StageOthers(fs: Store<Doc>, layout: Layout, items: seq<Scanned>, keep: set<string>, mapping: map<string, string>,
                     raw: RawRewrite, tx: Tx<Doc>) returns (ok: bool, ghost written: map<string, Doc>)
    requires tx.Staging() && IsScan(layout, fs.files, items)
    modifies tx`writes, fs`clock
    ensures if ok then fs.clock.faults == old(fs.clock.faults) else fs.clock.faults > old(fs.clock.faults)
    ensures tx.Staging()
    ensures ok ==> Written(tx.writes) == old(Written(tx.writes)) + written
    ensures ok ==> written == Others(layout, fs.files, keep, mapping, raw)
  {
    var paths := seq(|items|, i requires 0 <= i < |items| => items[i].path);
    ScannedPaths(layout, fs.files, items, paths);
    ok := StageEach(fs, paths, keep, mapping, raw, tx);
    written := Changed(fs.files, PathSet(paths) - keep, Repointing(mapping, raw));
    OthersChanged(layout, fs.files, paths, keep, mapping, raw);
  }

  /** The paths of a scan are the item files that have an id. */
  lemma ScannedPaths(layout: Layout, files: map<string, Doc>, items: seq<Scanned>, paths: seq<string>)
    requires IsScan(layout, files, items)
    requires |paths| == |items| && forall i :: 0 <= i < |items| ==> paths[i] == items[i].path
    ensures forall p :: p in paths <==> p in files && layout.IsItem(p) && layout.IdOf(p, files[p]) != ""
  {
    ScanCovers(layout, files, items);
    forall p
      ensures p in paths <==> exists k :: 0 <= k < |items| && items[k].path == p
    {
      if k :| 0 <= k < |items| && items[k].path == p {
        assert paths[k] == p;
      }
    }
  }

  lemma OthersChanged(layout: Layout, files: map<string, Doc>, paths: seq<string>, keep: set<string>, mapping: map<string, string>, raw: RawRewrite)
    requires forall p :: p in paths <==> p in files && layout.IsItem(p) && layout.IdOf(p, files[p]) != ""
    ensures Changed(files, PathSet(paths) - keep, Repointing(mapping, raw)) == Others(layout, files, keep, mapping, raw)
  {
  }

  method StageEach(fs: Store<Doc>, paths: seq<string>, keep: set<string>, mapping: map<string, string>, raw: RawRewrite, tx: Tx<Doc>)
    returns (ok: bool)
    requires tx.Staging() && forall p :: p in paths ==> p in fs.files
    modifies tx`writes, fs`clock
    ensures if ok then fs.clock.faults == old(fs.clock.faults) else fs.clock.faults > old(fs.clock.faults)
    ensures tx.Staging()
    ensures ok ==> Written(tx.writes)
                   == old(Written(tx.writes)) + Changed(fs.files, PathSet(paths) - keep, Repointing(mapping, raw))
  {
    ghost var start := Written(tx.writes);
    ghost var change := Repointing(mapping, raw);
    ghost var done: set<string> := {};
    ghost var acc: map<string, Doc> := map[];
    for i := 0 to |paths|
      invariant tx.Staging() && fs.clock.faults == old(fs.clock.faults)
      invariant done == PathSet(paths[..i]) - keep && done <= fs.files.Keys
      invariant acc == Changed(fs.files, done, change)
      invariant Written(tx.writes) == start + acc
    {
      assert paths[..i + 1] == paths[..i] + [paths[i]];
      if paths[i] !in keep {
        ok := StageRepointed(fs, paths[i], mapping, raw, tx);
        if !ok {
          return;
        }
        ChangedGrows(fs.files, done, paths[i], change);
        AddAssociates(start, acc, Changed(fs.files, {paths[i]}, change));
        done := done + {paths[i]};
        acc := Changed(fs.files, done, change);
      }
    }
    assert paths[..|paths|] == paths;
    ok := true;
  }

  lemma AddAssociates(a: map<string, Doc>, b: map<string, Doc>, c: map<string, Doc>)
    ensures (a + b) + c == a + (b + c)
  {
  }

  ghost function Repointing(mapping: map<string, string>, raw: RawRewrite): (string, Doc) -> Option<Doc> {
    (p: string, doc: Doc) => Repointed(p, doc, mapping, raw)
  }

  /** The files among some paths that change, and what they become. */
  ghost function Changed(files: map<string, Doc>, paths: set<string>, change: (string, Doc) -> Option<Doc>): map<string, Doc>
    requires paths <= files.Keys
  {
    map p | p in paths && change(p, files[p]).Some? :: change(p, files[p]).value
  }

  lemma ChangedGrows(files: map<string, Doc>, paths: set<string>, p: string, change: (string, Doc) -> Option<Doc>)
    requires paths <= files.Keys && p in files
    ensures Changed(files, paths + {p}, change) == Changed(files, paths, change) + Changed(files, {p}, change)
  {
  }

  lemma ChangedOne(files: map<string, Doc>, p: string, change: (string, Doc) -> Option<Doc>, doc: Option<Doc>)
    requires p in files && change(p, files[p]) == doc
    ensures Changed(files, {p}, change) == if doc.Some? then map[p := doc.value] else map[]
  {
  }

  /** Reads one file and stages its new content, if it has any. */
  method StageRepointed(fs: Store<Doc>, p: string, mapping: map<string, string>, raw: RawRewrite, tx: Tx<Doc>) returns (ok: bool)
    requires tx.Staging() && p in fs.files
    modifies tx`writes, fs`clock
    ensures if ok then fs.clock.faults == old(fs.clock.faults) else fs.clock.faults > old(fs.clock.faults)
    ensures tx.Staging()
    ensures ok ==> Written(tx.writes) == old(Written(tx.writes)) + Changed(fs.files, {p}, Repointing(mapping, raw))
  {
    var read := fs.ReadFile(p);
    if !read.Data? {
      return false;
    }
    var doc := RepointDoc(p, read.data, mapping, raw);
    ChangedOne(fs.files, p, Repointing(mapping, raw), doc);
    if doc.Some? {
      tx.Write(p, doc.value);
    }
    ok := true;
  }

  /** The scan lists exactly the item files that have an id. */
  lemma ScanCovers(layout: Layout, files: map<string, Doc>, items: seq<Scanned>)
    requires IsScan(layout, files, items)
    ensures forall p :: (exists k :: 0 <= k < |items| && items[k].path == p) <==>
                          (p in files && layout.IsItem(p) && layout.IdOf(p, files[p]) != "")
  {
    forall p | p in files && layout.IsItem(p) && layout.IdOf(p, files[p]) != ""
      ensures exists k :: 0 <= k < |items| && items[k].path == p
    {
      var x := layout.ScanOf(p, files[p]);
      var k :| 0 <= k < |items| && items[k] == x;
      assert items[k].path == p;
    }
    forall k | 0 <= k < |items|
      ensures items[k].path in files && layout.IsItem(items[k].path) && layout.IdOf(items[k].path, files[items[k].path]) != ""
    {
      assert items[k] in items;
    }
  }

  method RepointDoc(p: string, doc: Doc, mapping: map<string, string>, raw: RawRewrite) returns (r: Option<Doc>)
    ensures r == Repointed(p, doc, mapping, raw)
  {
    if !doc.ItemDoc? {
      return raw(doc, mapping);
    }
    var draft := new Draft(p, doc.item);
    var updates := draft.RewriteReferences(mapping);
    if updates == {} {
      return None;
    }
    return Some(ItemDoc(draft.item));
  }

  /** Stage 4: the redirect table, one edit per old id in order. */
  method StageRedirects(fs: Store<Doc>, layout: Layout, mapping: map<string, string>, tx: Tx<Doc>)
    returns (ok: bool, ghost olds: seq<string>)
    requires tx.Staging()
    modifies tx`writes, fs`clock
    ensures tx.Staging()
    ensures SortedIds(olds, mapping.Keys)
    ensures if ok then fs.clock.faults == old(fs.clock.faults) else fs.clock.faults > old(fs.clock.faults) || !TableTakes(layout, fs.files, olds, mapping)
    ensures ok ==> Written(tx.writes) == old(Written(tx.writes)) + Recorded(layout, fs.files, olds, mapping)
    ensures ok ==> TableTakes(layout, fs.files, olds, mapping)
  {
    var sorted := SortIds(mapping.Keys);
    olds := sorted;
    var read := fs.ReadFile(layout.project);
    if read.NotExist? {
      return true, olds;
    }
    if !read.Data? || !read.data.Yaml? || !read.data.root.Mapping? {
      return false, olds;
    }
    var current, changed := read.data.root, false;
    var i := 0;
    assert sorted[0..] == sorted;
    while i < |sorted|
      invariant 0 <= i <= |sorted| && current.Mapping?
      invariant YamlPath.RecordAll(current, sorted[i..], mapping) == YamlPath.RecordAll(read.data.root, sorted, mapping)
      invariant YamlPath.Alters(read.data.root, sorted, mapping) <==> changed || YamlPath.Alters(current, sorted[i..], mapping)
    {
      assert sorted[i..][0] == sorted[i] && sorted[i..][1..] == sorted[i + 1..];
      var next := YamlPath.SetPath(current, YamlPath.RedirectPath(sorted[i]), mapping[sorted[i]]);
      if next.None? {
        return false, olds;
      }
      if next.value != current {
        current, changed := next.value, true;
      }
      i := i + 1;
    }
    if changed {
      tx.Write(layout.project, Yaml(current));
    }
    ok := true;
  }

  method SortIds(ids: set<string>) returns (olds: seq<string>)
    ensures SortedIds(olds, ids)
  {
    olds := [];
    var left := ids;
    while left != {}
      invariant left <= ids
      invariant forall o :: o in olds <==> o in ids - left
      invariant forall i, j :: 0 <= i < j < |olds| ==> Less(olds[i], olds[j])
      invariant forall o, l :: o in olds && l in left ==> Less(o, l)
      decreases left
    {
      var least := Least(left);
      forall o, l | o in olds + [least] && l in left - {least}
        ensures Less(o, l)
      {
        LessConnected(least, l);
      }
      olds := olds + [least];
      left := left - {least};
    }
  }

  method Least(ids: set<string>) returns (least: string)
    requires ids != {}
    ensures least in ids && forall l :: l in ids ==> !Less(l, least)
  {
    least :| least in ids;
    var left := ids - {least};
    LessIrreflexive(least);
    while left != {}
      invariant left <= ids && least in ids
      invariant forall l :: l in ids - left ==> !Less(l, least)
      decreases left
    {
      var x :| x in left;
      if Less(x, least) {
        forall l | l in ids - (left - {x})
          ensures !Less(l, x)
        {
          if l == x {
            LessIrreflexive(x);
          } else if Less(l, x) {
            LessTransitive(l, x, least);
          }
        }
        least := x;
      }
      left := left - {x};
    }
  }

  lemma LessIrreflexive(s: string)
    ensures !Less(s, s)
  {
    if Less(s, s) {
      LessAsymmetric(s, s);
    }
  }

  /** ApplyRenumber: prepares the whole plan in memory, then commits it. On success the files are the applied
      plan; on a failure whose undo went through they are as before, and so they are after a single fault.
      Temporary files aside. Without a fault it succeeds exactly on an acceptable plan. */
  method ApplyRenumber(fs: Store<Doc>, layout: Layout, plan: seq<Renumber>, raw: RawRewrite)
    returns (ok: bool, clean: bool, ghost olds: seq<string>, ghost temps: set<string>)
    requires layout.Valid()
    modifies fs
    ensures forall p :: layout.IsItem(p) || p == layout.project ==> p !in temps
    ensures SortedIds(olds, MappingOf(plan).Keys)
    ensures plan == [] ==> ok && fs.files == old(fs.files)
    ensures ok && plan != [] ==> Acceptable(layout, old(fs.files), plan, olds) && fs.clock.faults == old(fs.clock.faults)
    ensures !ok ==> fs.clock.faults > old(fs.clock.faults) || !Acceptable(layout, old(fs.files), plan, olds)
    ensures !ok && !clean ==> fs.clock.faults >= old(fs.clock.faults) + 2
    ensures ok && plan != [] && Sane(layout, plan) ==> Agree(fs.files, Applied(layout, old(fs.files), plan, olds, raw), temps)
    ensures !ok && clean && Sane(layout, plan) ==> Agree(fs.files, old(fs.files), temps)
  {
    clean, temps := true, {};
    if plan == [] {
      return true, true, [], {};
    }
    var tx := new Tx(fs);
    ok, olds := StageAll(fs, layout, plan, raw, tx);
    if ok {
      temps := tx.Temps();
      ghost var failed;
      if Sane(layout, plan) {
        tx.ApartUndoes(fs.files);
      }
      ok, clean, failed := tx.Commit();
    }
  }

  /** Everything up to the commit: nothing on disk changes here. */
  method StageAll(fs: Store<Doc>, layout: Layout, plan: seq<Renumber>, raw: RawRewrite, tx: Tx<Doc>)
    returns (ok: bool, ghost olds: seq<string>)
    requires layout.Valid() && tx.Staging() && tx.writes == [] && tx.removes == []
    modifies tx`writes, tx`removes, fs`clock
    ensures tx.Staging() && SortedIds(olds, MappingOf(plan).Keys)
    ensures ok ==> Acceptable(layout, fs.files, plan, olds) && fs.clock.faults == old(fs.clock.faults)
    ensures !ok ==> fs.clock.faults > old(fs.clock.faults) || !Acceptable(layout, fs.files, plan, olds)
    ensures ok ==> tx.Outcome(fs.files) == Applied(layout, fs.files, plan, olds, raw)
    ensures ok ==> forall p :: layout.IsItem(p) || p == layout.project ==> p !in tx.Temps()
    ensures ok && Sane(layout, plan) ==> tx.TempsFree() && tx.Apart()
  {
    olds := SortIds(MappingOf(plan).Keys);
    var fine, mapping, paths := CheckPlan(plan);
    if !fine {
      return false, olds;
    }
    ok := StageRenamed(fs, plan, mapping, tx);
    if !ok {
      return;
    }
    var items := ScanItems(fs, layout);
    if items.None? {
      return false, olds;
    }
    ghost var others;
    ok, others := StageOthers(fs, layout, items.value, paths, mapping, raw, tx);
    if !ok {
      return;
    }
    ok, olds := StageRedirects(fs, layout, mapping, tx);
    if ok {
      TempsApart(layout, tx, fs.files, plan, others, Recorded(layout, fs.files, olds, mapping), mapping);
    }
  }

  /** The staged paths are item files and project.yaml, so no temporary name meets them. */
  lemma TempsApart(layout: Layout, tx: Tx<Doc>, files: map<string, Doc>, plan: seq<Renumber>, others: map<string, Doc>,
                   recorded: map<string, Doc>, mapping: map<string, string>)
    requires layout.Valid()
    requires Written(tx.writes) == Renamed(files, plan, mapping) + others + recorded
    requires (forall p :: p in others ==> layout.IsItem(p) && p !in PathsIn(plan)) && recorded.Keys <= {layout.project}
    requires PathSet(tx.removes) == PathsLeft(plan)
    ensures forall p :: layout.IsItem(p) || p == layout.project ==> p !in tx.Temps()
    ensures Sane(layout, plan) ==> tx.TempsFree() && tx.Apart()
  {
    forall p | layout.IsItem(p) || p == layout.project
      ensures p !in tx.Temps()
    {
    }
    if Sane(layout, plan) {
      WrittenKeys(tx.writes);
      forall p | p in Renamed(files, plan, mapping)
        ensures exists i :: 0 <= i < |plan| && plan[i].newPath == p
      {
        var i := RenamedKey(files, plan, mapping, p);
      }
    }
  }

  lemma {:induction false} RenamedKey(files: map<string, Doc>, plan: seq<Renumber>, mapping: map<string, string>, p: string) returns (i: nat)
    requires p in Renamed(files, plan, mapping)
    ensures i < |plan| && plan[i].newPath == p
  {
    var n := |plan| - 1;
    if p == plan[n].newPath {
      i := n;
    } else {
      i := RenamedKey(files, plan[..n], mapping, p);
    }
  }
}
