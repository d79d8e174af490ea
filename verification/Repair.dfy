/** The collision repair end to end: find, plan and apply. */
module Repair {
  import opened Text
  import opened Ids
  import opened Sorting
  import opened Items
  import opened Wikilinks
  import opened FileTx
  import opened Backlog
  import opened Duplicates
  import opened RenumberPlan
  import opened RenumberApply
  import opened AllocationRuns
  import Allocation
  import Allocator
  import YamlPath

  // ---------------------------------------------------------------- before and after

  ghost function ItemPaths(layout: Layout, files: map<string, Doc>): set<string> {
    set p | p in files && layout.IsItem(p)
  }

  /** Every item file parses and has an id, and no file name carries a different one. */
  ghost predicate Sound(layout: Layout, files: map<string, Doc>) {
    forall p :: p in files && layout.IsItem(p) ==>
      files[p].ItemDoc? && files[p].item.id != "" && (layout.idOfName(p) == "" || layout.idOfName(p) == files[p].item.id)
  }

  /** No id is claimed by two item files. */
  ghost predicate Unique(layout: Layout, files: map<string, Doc>) {
    forall p, q :: p in files && q in files && layout.IsItem(p) && layout.IsItem(q) && p != q ==>
      layout.IdOf(p, files[p]) != layout.IdOf(q, files[q])
  }

  /** What makes a plan a repair of these files. */
  ghost predicate Repairs(layout: Layout, files: map<string, Doc>, plan: seq<Renumber>) {
    && (forall i :: 0 <= i < |plan| ==>
          && plan[i].path in files && layout.IsItem(plan[i].path) && plan[i].oldId == layout.IdOf(plan[i].path, files[plan[i].path])
          && layout.IsItem(plan[i].newPath) && layout.idOfName(plan[i].newPath) == plan[i].newId
          && plan[i].newId != "" && CleanTarget(plan[i].newId))
    && (forall i, j :: 0 <= i < j < |plan| ==> plan[i].path != plan[j].path && plan[i].newId != plan[j].newId)
    && (forall i, p :: 0 <= i < |plan| && p in files && layout.IsItem(p) ==> plan[i].newId != layout.IdOf(p, files[p]))
    && (forall p, q :: p in ItemPaths(layout, files) - PathsIn(plan) && q in ItemPaths(layout, files) - PathsIn(plan) && p != q ==>
          layout.IdOf(p, files[p]) != layout.IdOf(q, files[q]))
  }

  // ---------------------------------------------------------------- the applied plan

  lemma NewPathsFresh(layout: Layout, files: map<string, Doc>, plan: seq<Renumber>)
    requires Sound(layout, files) && Repairs(layout, files, plan)
    ensures forall i :: 0 <= i < |plan| ==> plan[i].newPath !in files
    ensures forall i, j :: 0 <= i < j < |plan| ==> plan[i].newPath != plan[j].newPath
    ensures Sane(layout, plan)
  {
    assert forall p :: p in files && layout.IsItem(p) ==> layout.IdOf(p, files[p]) == files[p].item.id;
  }

  lemma {:induction false} RenamedAt(files: map<string, Doc>, plan: seq<Renumber>, mapping: map<string, string>, i: nat)
    requires i < |plan|
    requires forall k :: 0 <= k < |plan| ==> plan[k].path in files && files[plan[k].path].ItemDoc?
    requires forall j, k :: 0 <= j < k < |plan| ==> plan[j].newPath != plan[k].newPath
    ensures plan[i].newPath in Renamed(files, plan, mapping)
    ensures Renamed(files, plan, mapping)[plan[i].newPath] == ItemDoc(RenamedItem(files[plan[i].path].item, plan[i].newId, mapping))
  {
    var n := |plan| - 1;
    if i < n {
      RenamedAt(files, plan[..n], mapping, i);
    }
  }

  /** The keys of the renamed files are the new names. */
  lemma RenamedKeys(files: map<string, Doc>, plan: seq<Renumber>, mapping: map<string, string>)
    ensures forall p :: p in Renamed(files, plan, mapping) ==> exists i :: 0 <= i < |plan| && plan[i].newPath == p
  {
    forall p | p in Renamed(files, plan, mapping)
      ensures exists i :: 0 <= i < |plan| && plan[i].newPath == p
    {
      var i := RenamedKey(files, plan, mapping, p);
    }
  }

  ghost predicate Ready(layout: Layout, files: map<string, Doc>, plan: seq<Renumber>, olds: seq<string>) {
    layout.Valid() && Sound(layout, files) && Repairs(layout, files, plan) && forall o :: o in olds <==> o in MappingOf(plan)
  }

  lemma OthersAt(layout: Layout, files: map<string, Doc>, keep: set<string>, mapping: map<string, string>, raw: RawRewrite, p: string)
    ensures var others := Others(layout, files, keep, mapping, raw);
            && (p in others ==> p in files && layout.IsItem(p) && p !in keep)
            && (p in files && layout.IsItem(p) && p !in keep && files[p].ItemDoc? && files[p].item.id != "" ==>
                  ItemDoc(Rewritten(files[p].item, mapping)) == if p in others then others[p] else files[p])
  {
    if p in files && files[p].ItemDoc? && Updates(p, files[p].item, mapping) == {} {
      NoUpdatesNoChange(p, files[p].item, mapping);
    }
  }

  /** What one path holds after three layers of writes and a removal. */
  lemma Layered<D>(files: map<string, D>, a: map<string, D>, b: map<string, D>, c: map<string, D>, left: set<string>, p: string)
    ensures var after := files + (a + b + c) - left;
            if p in left then p !in after
            else if p in c then p in after && after[p] == c[p]
            else if p in b then p in after && after[p] == b[p]
            else if p in a then p in after && after[p] == a[p]
            else Same(after, files, p)
  {
  }

  /** The layers of the applied plan at one path. */
  lemma AppliedLayers(layout: Layout, files: map<string, Doc>, plan: seq<Renumber>, olds: seq<string>, raw: RawRewrite, p: string)
    requires Ready(layout, files, plan, olds)
    ensures var after, mapping := Applied(layout, files, plan, olds, raw), MappingOf(plan);
            var renamed, others := Renamed(files, plan, mapping), Others(layout, files, PathsIn(plan), mapping, raw);
            if p in PathsIn(plan) then p !in after
            else if p == layout.project then p in files ==> p in after
            else if p in others then p in after && after[p] == others[p]
            else if p in renamed then p in after && after[p] == renamed[p]
            else Same(after, files, p)
  {
    var mapping := MappingOf(plan);
    EveryPathLeaves(layout, files, plan);
    RecordedKeys(layout, files, olds, mapping);
    Layered(files, Renamed(files, plan, mapping), Others(layout, files, PathsIn(plan), mapping, raw),
      Recorded(layout, files, olds, mapping), PathsLeft(plan), p);
  }

  lemma EveryPathLeaves(layout: Layout, files: map<string, Doc>, plan: seq<Renumber>)
    requires layout.Valid() && Sound(layout, files) && Repairs(layout, files, plan)
    ensures PathsLeft(plan) == PathsIn(plan) && layout.project !in PathsIn(plan)
  {
    NewPathsFresh(layout, files, plan);
    assert forall i :: 0 <= i < |plan| ==> plan[i].newPath != plan[i].path;
  }

  lemma RecordedKeys(layout: Layout, files: map<string, Doc>, olds: seq<string>, mapping: map<string, string>)
    requires forall o :: o in olds ==> o in mapping
    ensures Recorded(layout, files, olds, mapping).Keys <= {layout.project}
  {
  }

  /** A renumbered file is gone from its old name and rewritten under its new one. */
  lemma AppliedRenamed(layout: Layout, files: map<string, Doc>, plan: seq<Renumber>, olds: seq<string>, raw: RawRewrite, i: nat)
    requires Ready(layout, files, plan, olds) && i < |plan|
    ensures var after := Applied(layout, files, plan, olds, raw);
            && plan[i].path !in after && plan[i].newPath in after
            && after[plan[i].newPath] == ItemDoc(RenamedItem(files[plan[i].path].item, plan[i].newId, MappingOf(plan)))
  {
    NewPathsFresh(layout, files, plan);
    var mapping := MappingOf(plan);
    RenamedAt(files, plan, mapping, i);
    OthersAt(layout, files, PathsIn(plan), mapping, raw, plan[i].newPath);
    AppliedLayers(layout, files, plan, olds, raw, plan[i].newPath);
    AppliedLayers(layout, files, plan, olds, raw, plan[i].path);
  }

  /** Any other item file stays, with its references repointed. */
  lemma AppliedKept(layout: Layout, files: map<string, Doc>, plan: seq<Renumber>, olds: seq<string>, raw: RawRewrite, p: string)
    requires Ready(layout, files, plan, olds) && p in files && layout.IsItem(p) && p !in PathsIn(plan)
    ensures var after := Applied(layout, files, plan, olds, raw);
            p in after && after[p] == ItemDoc(Rewritten(files[p].item, MappingOf(plan)))
  {
    NewPathsFresh(layout, files, plan);
    var mapping := MappingOf(plan);
    RenamedKeys(files, plan, mapping);
    OthersAt(layout, files, PathsIn(plan), mapping, raw, p);
    AppliedLayers(layout, files, plan, olds, raw, p);
  }

  /** There are no further item files, and no further file changes. */
  lemma AppliedElsewhere(layout: Layout, files: map<string, Doc>, plan: seq<Renumber>, olds: seq<string>, raw: RawRewrite, p: string)
    requires Ready(layout, files, plan, olds)
    ensures var after := Applied(layout, files, plan, olds, raw);
            && (p in after && layout.IsItem(p) && !(p in files && p !in PathsIn(plan)) ==> exists i :: 0 <= i < |plan| && plan[i].newPath == p)
            && (!layout.IsItem(p) && p != layout.project ==> Same(after, files, p))
  {
    NewPathsFresh(layout, files, plan);
    var mapping := MappingOf(plan);
    RenamedKeys(files, plan, mapping);
    OthersAt(layout, files, PathsIn(plan), mapping, raw, p);
    AppliedLayers(layout, files, plan, olds, raw, p);
  }

  // ---------------------------------------------------------------- the repaired backlog

  /** What a repair owes: no id is claimed twice, as many item files as before, no reference to a replaced id
      anywhere, every file that keeps its id unchanged but for repointed references, every other one renamed
      and renumbered, each reference leading to the successor of what it led to, and every replaced id in the
      redirect table. */
  ghost predicate Repaired(layout: Layout, before: map<string, Doc>, after: map<string, Doc>, plan: seq<Renumber>) {
    var mapping := MappingOf(plan);
    && Unique(layout, after)
    && |ItemPaths(layout, after)| == |ItemPaths(layout, before)|
    && NamesNoOldId(layout, after, mapping.Keys)
    && Carried(layout, before, after, plan, mapping)
    && Followed(layout, before, after, plan, mapping)
    && (layout.project in before ==> Redirects(layout, after, mapping))
  }

  /** No item file refers to one of the ids. */
  ghost predicate NamesNoOldId(layout: Layout, files: map<string, Doc>, ids: set<string>) {
    forall p :: p in files && layout.IsItem(p) ==> files[p].ItemDoc? && NamesNone(files[p].item, ids)
  }

  /** Each item file is where it belongs: kept in place, or moved to its new name under its new id; both with
      their references repointed. There is no further item file. */
  ghost predicate Carried(layout: Layout, before: map<string, Doc>, after: map<string, Doc>, plan: seq<Renumber>, mapping: map<string, string>) {
    && (forall p :: p in before && layout.IsItem(p) && p !in PathsIn(plan) ==>
          p in after && before[p].ItemDoc? && after[p] == ItemDoc(Rewritten(before[p].item, mapping)))
    && (forall i :: 0 <= i < |plan| ==>
          && plan[i].path !in after && plan[i].newPath in after && plan[i].path in before && before[plan[i].path].ItemDoc?
          && after[plan[i].newPath] == ItemDoc(RenamedItem(before[plan[i].path].item, plan[i].newId, mapping)))
    && (forall p :: p in after && layout.IsItem(p) ==>
          (p in before && p !in PathsIn(plan)) || exists i :: 0 <= i < |plan| && plan[i].newPath == p)
  }

  /** Each item, wherever it is afterwards, has its own id or the planned one, and the references it had: those to
      replaced ids lead to the ids that the mapping has for them, and all else is the same. */
  ghost predicate Followed(layout: Layout, before: map<string, Doc>, after: map<string, Doc>, plan: seq<Renumber>, mapping: map<string, string>) {
    && (forall p :: p in before && layout.IsItem(p) && p !in PathsIn(plan) ==>
          p in after && before[p].ItemDoc? && ItemFollowed(before[p], after[p], before[p].item.id, mapping))
    && (forall i :: 0 <= i < |plan| ==>
          plan[i].path in before && plan[i].newPath in after
          && ItemFollowed(before[plan[i].path], after[plan[i].newPath], plan[i].newId, mapping))
  }

  ghost predicate ItemFollowed(before: Doc, after: Doc, id: string, mapping: map<string, string>) {
    before.ItemDoc? && after.ItemDoc? && after.item.id == id && PointsOn(before.item, after.item, mapping)
  }

  lemma CarriedFollows(layout: Layout, before: map<string, Doc>, after: map<string, Doc>, plan: seq<Renumber>, mapping: map<string, string>)
    requires Carried(layout, before, after, plan, mapping) && RepairMapping(mapping)
    ensures Followed(layout, before, after, plan, mapping)
  {
    forall p | p in before && layout.IsItem(p) && p !in PathsIn(plan)
      ensures p in after && before[p].ItemDoc? && ItemFollowed(before[p], after[p], before[p].item.id, mapping)
    {
      RewrittenPointsOn(before[p].item, mapping);
    }
    forall i | 0 <= i < |plan|
      ensures plan[i].path in before && plan[i].newPath in after
              && ItemFollowed(before[plan[i].path], after[plan[i].newPath], plan[i].newId, mapping)
    {
      RewrittenPointsOn(before[plan[i].path].item.(id := plan[i].newId), mapping);
    }
  }

  /** The redirect table leads from every replaced id to its successor. */
  ghost predicate Redirects(layout: Layout, files: map<string, Doc>, mapping: map<string, string>) {
    layout.project in files && files[layout.project].Yaml?
    && forall id :: id in mapping ==> YamlPath.Reads(files[layout.project].root, ["id_allocation", "redirects", id], mapping[id])
  }

  lemma AppliedCarries(layout: Layout, files: map<string, Doc>, plan: seq<Renumber>, olds: seq<string>, raw: RawRewrite)
    requires Ready(layout, files, plan, olds)
    ensures Carried(layout, files, Applied(layout, files, plan, olds, raw), plan, MappingOf(plan))
  {
    var after := Applied(layout, files, plan, olds, raw);
    forall p | p in files && layout.IsItem(p) && p !in PathsIn(plan)
      ensures p in after && files[p].ItemDoc? && after[p] == ItemDoc(Rewritten(files[p].item, MappingOf(plan)))
    {
      AppliedKept(layout, files, plan, olds, raw, p);
    }
    forall i | 0 <= i < |plan|
      ensures plan[i].path !in after && plan[i].newPath in after && plan[i].path in files && files[plan[i].path].ItemDoc?
      ensures after[plan[i].newPath] == ItemDoc(RenamedItem(files[plan[i].path].item, plan[i].newId, MappingOf(plan)))
    {
      AppliedRenamed(layout, files, plan, olds, raw, i);
    }
    forall p | p in after && layout.IsItem(p)
      ensures (p in files && p !in PathsIn(plan)) || exists i :: 0 <= i < |plan| && plan[i].newPath == p
    {
      AppliedElsewhere(layout, files, plan, olds, raw, p);
    }
  }

  /** New ids are never old ones. */
  lemma NewIdsUnmapped(layout: Layout, files: map<string, Doc>, plan: seq<Renumber>)
    requires Repairs(layout, files, plan)
    ensures forall i, k :: 0 <= i < |plan| && 0 <= k < |plan| ==> plan[i].newId != plan[k].oldId
  {
    forall i, k | 0 <= i < |plan| && 0 <= k < |plan|
      ensures plan[i].newId != plan[k].oldId
    {
      assert plan[k].oldId == layout.IdOf(plan[k].path, files[plan[k].path]);
    }
  }

  lemma PlanMapping(layout: Layout, files: map<string, Doc>, plan: seq<Renumber>)
    requires Sound(layout, files) && Repairs(layout, files, plan)
    ensures RepairMapping(MappingOf(plan))
  {
    var mapping := MappingOf(plan);
    NewIdsUnmapped(layout, files, plan);
    forall id | id in mapping
      ensures id != "" && CleanTarget(mapping[id]) && mapping[id] !in mapping
    {
      var i := MappingHolds(plan, id);
      assert forall k :: 0 <= k < |plan| ==> plan[k].oldId != plan[i].newId;
    }
  }

  /** Every item file of a carried backlog is one of the kept or one of the renumbered ones. */
  lemma CarriedItem(layout: Layout, before: map<string, Doc>, after: map<string, Doc>, plan: seq<Renumber>, mapping: map<string, string>, p: string)
    returns (kept: bool, i: nat)
    requires Carried(layout, before, after, plan, mapping) && RepairMapping(mapping)
    requires p in after && layout.IsItem(p)
    ensures after[p].ItemDoc? && NamesNone(after[p].item, mapping.Keys)
    ensures kept ==> p in before && p !in PathsIn(plan) && before[p].ItemDoc? && after[p].item.id == before[p].item.id
    ensures !kept ==> i < |plan| && plan[i].newPath == p && after[p].item.id == plan[i].newId
  {
    kept := p in before && p !in PathsIn(plan);
    i := 0;
    if kept {
      RewrittenNamesNoOldId(before[p].item, mapping);
    } else {
      i :| 0 <= i < |plan| && plan[i].newPath == p;
      RewrittenNamesNoOldId(before[plan[i].path].item.(id := plan[i].newId), mapping);
    }
  }

  /** The id of an item file of a carried backlog: its old one, or the planned one. */
  lemma CarriedId(layout: Layout, before: map<string, Doc>, after: map<string, Doc>, plan: seq<Renumber>, mapping: map<string, string>, p: string)
    returns (kept: bool, i: nat)
    requires Sound(layout, before) && Repairs(layout, before, plan)
    requires Carried(layout, before, after, plan, mapping) && RepairMapping(mapping)
    requires p in after && layout.IsItem(p)
    ensures kept ==> p in ItemPaths(layout, before) - PathsIn(plan) && p in before && layout.IdOf(p, after[p]) == layout.IdOf(p, before[p])
    ensures !kept ==> i < |plan| && plan[i].newPath == p && layout.IdOf(p, after[p]) == plan[i].newId
  {
    kept, i := CarriedItem(layout, before, after, plan, mapping, p);
    if kept {
      assert layout.IdOf(p, after[p]) == after[p].item.id;
    } else {
      NewIdNamed(layout, before, plan, i);
      assert layout.IdOf(p, after[p]) == after[p].item.id;
    }
  }

  lemma NewIdNamed(layout: Layout, files: map<string, Doc>, plan: seq<Renumber>, i: nat)
    requires Repairs(layout, files, plan) && i < |plan|
    ensures plan[i].newId != ""
  {
  }

  /** A new id is no id of the old files. */
  lemma NewIdNotOld(layout: Layout, files: map<string, Doc>, plan: seq<Renumber>, i: nat, p: string)
    requires Repairs(layout, files, plan) && i < |plan| && p in ItemPaths(layout, files) - PathsIn(plan)
    ensures p in files && plan[i].newId != layout.IdOf(p, files[p])
  {
  }

  lemma NewIdsApart(layout: Layout, files: map<string, Doc>, plan: seq<Renumber>, i: nat, j: nat)
    requires Repairs(layout, files, plan) && i < |plan| && j < |plan| && i != j
    ensures plan[i].newId != plan[j].newId
  {
    if j < i {
      assert plan[j].newId != plan[i].newId;
    }
  }

  lemma KeptIdsApart(layout: Layout, files: map<string, Doc>, plan: seq<Renumber>, p: string, q: string)
    requires Repairs(layout, files, plan) && p != q
    requires p in ItemPaths(layout, files) - PathsIn(plan) && q in ItemPaths(layout, files) - PathsIn(plan)
    ensures p in files && q in files && layout.IdOf(p, files[p]) != layout.IdOf(q, files[q])
  {
  }

  /** Two item files of a carried backlog claim different ids. */
  lemma CarriedApart(layout: Layout, before: map<string, Doc>, after: map<string, Doc>, plan: seq<Renumber>, mapping: map<string, string>,
                     p: string, q: string)
    requires Sound(layout, before) && Repairs(layout, before, plan)
    requires Carried(layout, before, after, plan, mapping) && RepairMapping(mapping)
    requires p in after && layout.IsItem(p) && q in after && layout.IsItem(q) && p != q
    ensures layout.IdOf(p, after[p]) != layout.IdOf(q, after[q])
  {
    var keptP, i := CarriedId(layout, before, after, plan, mapping, p);
    var keptQ, j := CarriedId(layout, before, after, plan, mapping, q);
    IdsApart(layout, before, plan, p, q, keptP, i, keptQ, j);
  }

  lemma IdsApart(layout: Layout, before: map<string, Doc>, plan: seq<Renumber>, p: string, q: string, keptP: bool, i: nat, keptQ: bool, j: nat)
    requires Repairs(layout, before, plan) && p != q
    requires if keptP then p in ItemPaths(layout, before) - PathsIn(plan) else i < |plan| && plan[i].newPath == p
    requires if keptQ then q in ItemPaths(layout, before) - PathsIn(plan) else j < |plan| && plan[j].newPath == q
    ensures (keptP ==> p in before) && (keptQ ==> q in before)
    ensures (if keptP then layout.IdOf(p, before[p]) else plan[i].newId) != (if keptQ then layout.IdOf(q, before[q]) else plan[j].newId)
  {
    if keptP && keptQ {
      KeptIdsApart(layout, before, plan, p, q);
    } else if keptP {
      NewIdNotOld(layout, before, plan, j, p);
    } else if keptQ {
      NewIdNotOld(layout, before, plan, i, q);
    } else {
      NewIdsApart(layout, before, plan, i, j);
    }
  }

  lemma {:induction false} DistinctCount(s: seq<string>)
    requires forall i, j :: 0 <= i < j < |s| ==> s[i] != s[j]
    ensures |set x | x in s| == |s|
  {
    if s != [] {
      var n := |s| - 1;
      DistinctCount(s[..n]);
      assert s == s[..n] + [s[n]];
      assert (set x | x in s) == (set x | x in s[..n]) + {s[n]};
      assert s[n] !in s[..n];
    }
  }

  ghost predicate Swapped(from: set<string>, to: set<string>, out: seq<string>, into: seq<string>, p: string) {
    p in to <==> (p in from && p !in out) || p in into
  }

  /** Swapping as many elements in as out keeps the size. */
  lemma SwapCount(from: set<string>, to: set<string>, out: seq<string>, into: seq<string>)
    requires |out| == |into|
    requires forall i, j :: 0 <= i < j < |out| ==> out[i] != out[j] && into[i] != into[j]
    requires forall i :: 0 <= i < |out| ==> out[i] in from && into[i] !in from
    requires forall p :: Swapped(from, to, out, into, p)
    ensures |to| == |from|
  {
    DistinctCount(out);
    DistinctCount(into);
    var leaving, coming := set p | p in out, set p | p in into;
    assert to == (from - leaving) + coming by {
      assert forall p :: Swapped(from, to, out, into, p) ==> (p in to <==> p in (from - leaving) + coming);
    }
    assert leaving <= from && (from - leaving) !! coming;
  }

  /** Which item files a carried backlog has. */
  lemma CarriedPath(layout: Layout, before: map<string, Doc>, after: map<string, Doc>, plan: seq<Renumber>, mapping: map<string, string>, p: string)
    requires Repairs(layout, before, plan) && Carried(layout, before, after, plan, mapping)
    ensures p in ItemPaths(layout, after)
            <==> (p in ItemPaths(layout, before) && p !in PathsIn(plan)) || exists i :: 0 <= i < |plan| && plan[i].newPath == p
  {
  }

  /** There are as many item files as before. */
  lemma CarriedCount(layout: Layout, before: map<string, Doc>, after: map<string, Doc>, plan: seq<Renumber>, mapping: map<string, string>)
    requires Sound(layout, before) && Repairs(layout, before, plan)
    requires Carried(layout, before, after, plan, mapping)
    ensures |ItemPaths(layout, after)| == |ItemPaths(layout, before)|
  {
    var out, into := PlanPaths(plan);
    NewPathsFresh(layout, before, plan);
    PlanSwaps(layout, before, plan, out, into);
    forall p
      ensures Swapped(ItemPaths(layout, before), ItemPaths(layout, after), out, into, p)
    {
      SwappedPath(layout, before, after, plan, mapping, out, into, p);
    }
    SwapCount(ItemPaths(layout, before), ItemPaths(layout, after), out, into);
  }

  lemma PlanPaths(plan: seq<Renumber>) returns (out: seq<string>, into: seq<string>)
    ensures |out| == |into| == |plan|
    ensures forall i :: 0 <= i < |plan| ==> out[i] == plan[i].path && into[i] == plan[i].newPath
  {
    out := seq(|plan|, i requires 0 <= i < |plan| => plan[i].path);
    into := seq(|plan|, i requires 0 <= i < |plan| => plan[i].newPath);
  }

  lemma SwappedPath(layout: Layout, before: map<string, Doc>, after: map<string, Doc>, plan: seq<Renumber>, mapping: map<string, string>,
                    out: seq<string>, into: seq<string>, p: string)
    requires Repairs(layout, before, plan) && Carried(layout, before, after, plan, mapping)
    requires |out| == |into| == |plan|
    requires forall i :: 0 <= i < |plan| ==> out[i] == plan[i].path && into[i] == plan[i].newPath
    ensures Swapped(ItemPaths(layout, before), ItemPaths(layout, after), out, into, p)
  {
    CarriedPath(layout, before, after, plan, mapping, p);
    PathsListed(plan, out, into, p);
  }

  /** A plan takes distinct item files out and puts distinct new ones in. */
  lemma PlanSwaps(layout: Layout, files: map<string, Doc>, plan: seq<Renumber>, out: seq<string>, into: seq<string>)
    requires Repairs(layout, files, plan)
    requires forall i :: 0 <= i < |plan| ==> plan[i].newPath !in files
    requires forall i, j :: 0 <= i < j < |plan| ==> plan[i].newPath != plan[j].newPath
    requires |out| == |into| == |plan|
    requires forall i :: 0 <= i < |plan| ==> out[i] == plan[i].path && into[i] == plan[i].newPath
    ensures forall i :: 0 <= i < |out| ==> out[i] in ItemPaths(layout, files) && into[i] !in ItemPaths(layout, files)
    ensures forall i, j :: 0 <= i < j < |out| ==> out[i] != out[j] && into[i] != into[j]
  {
    forall i, j | 0 <= i < j < |out|
      ensures out[i] != out[j] && into[i] != into[j]
    {
      assert plan[i].path != plan[j].path;
    }
  }

  lemma PathsListed(plan: seq<Renumber>, out: seq<string>, into: seq<string>, p: string)
    requires |out| == |into| == |plan|
    requires forall i :: 0 <= i < |plan| ==> out[i] == plan[i].path && into[i] == plan[i].newPath
    ensures p in out <==> p in PathsIn(plan)
    ensures p in into <==> exists i :: 0 <= i < |plan| && plan[i].newPath == p
  {
    if i :| 0 <= i < |plan| && plan[i].path == p {
      assert out[i] == p;
    }
    if i :| 0 <= i < |plan| && plan[i].newPath == p {
      assert into[i] == p;
    }
  }

  lemma AppliedRedirects(layout: Layout, files: map<string, Doc>, plan: seq<Renumber>, olds: seq<string>, raw: RawRewrite)
    requires Ready(layout, files, plan, olds)
    requires layout.project in files && files[layout.project].Yaml? && files[layout.project].root.Mapping?
    requires YamlPath.RecordAll(files[layout.project].root, olds, MappingOf(plan)).Some?
    ensures Redirects(layout, Applied(layout, files, plan, olds, raw), MappingOf(plan))
  {
    var mapping, root := MappingOf(plan), files[layout.project].root;
    ProjectRecorded(layout, files, plan, olds, raw);
    forall id | id in mapping
      ensures YamlPath.Reads(YamlPath.RecordAll(root, olds, mapping).value, YamlPath.RedirectPath(id), mapping[id])
    {
      YamlPath.RecordsEveryPair(root, olds, mapping, id);
    }
  }

  /** project.yaml ends up with every pair recorded, rewritten or already so. */
  lemma ProjectRecorded(layout: Layout, files: map<string, Doc>, plan: seq<Renumber>, olds: seq<string>, raw: RawRewrite)
    requires Ready(layout, files, plan, olds)
    requires layout.project in files && files[layout.project].Yaml? && files[layout.project].root.Mapping?
    requires YamlPath.RecordAll(files[layout.project].root, olds, MappingOf(plan)).Some?
    ensures var after := Applied(layout, files, plan, olds, raw);
            layout.project in after && after[layout.project] == Yaml(YamlPath.RecordAll(files[layout.project].root, olds, MappingOf(plan)).value)
  {
    var mapping, root := MappingOf(plan), files[layout.project].root;
    EveryPathLeaves(layout, files, plan);
    OthersAt(layout, files, PathsIn(plan), mapping, raw, layout.project);
    ProjectNotRenamed(layout, files, plan, mapping);
    if !YamlPath.Alters(root, olds, mapping) {
      YamlPath.UnalteredStays(root, olds, mapping);
    }
    Layered(files, Renamed(files, plan, mapping), Others(layout, files, PathsIn(plan), mapping, raw),
      Recorded(layout, files, olds, mapping), PathsLeft(plan), layout.project);
  }

  lemma ProjectNotRenamed(layout: Layout, files: map<string, Doc>, plan: seq<Renumber>, mapping: map<string, string>)
    requires layout.Valid() && Repairs(layout, files, plan)
    ensures layout.project !in Renamed(files, plan, mapping) && !layout.IsItem(layout.project)
  {
    RenamedKeys(files, plan, mapping);
  }

  lemma CarriedUnique(layout: Layout, before: map<string, Doc>, after: map<string, Doc>, plan: seq<Renumber>, mapping: map<string, string>)
    requires Sound(layout, before) && Repairs(layout, before, plan)
    requires Carried(layout, before, after, plan, mapping) && RepairMapping(mapping)
    ensures Unique(layout, after) && NamesNoOldId(layout, after, mapping.Keys)
  {
    forall p, q | p in after && q in after && layout.IsItem(p) && layout.IsItem(q) && p != q
      ensures layout.IdOf(p, after[p]) != layout.IdOf(q, after[q])
    {
      CarriedApart(layout, before, after, plan, mapping, p, q);
    }
    forall p | p in after && layout.IsItem(p)
      ensures after[p].ItemDoc? && NamesNone(after[p].item, mapping.Keys)
    {
      var _, _ := CarriedItem(layout, before, after, plan, mapping, p);
    }
  }

  /** Applying a plan that repairs the files repairs them. */
  lemma AppliedRepairs(layout: Layout, files: map<string, Doc>, plan: seq<Renumber>, olds: seq<string>, raw: RawRewrite)
    requires Ready(layout, files, plan, olds) && TableTakes(layout, files, olds, MappingOf(plan))
    ensures Repaired(layout, files, Applied(layout, files, plan, olds, raw), plan)
  {
    var after := Applied(layout, files, plan, olds, raw);
    AppliedCarries(layout, files, plan, olds, raw);
    PlanMapping(layout, files, plan);
    CarriedUnique(layout, files, after, plan, MappingOf(plan));
    CarriedCount(layout, files, after, plan, MappingOf(plan));
    CarriedFollows(layout, files, after, plan, MappingOf(plan));
    if layout.project in files {
      AppliedRedirects(layout, files, plan, olds, raw);
    }
  }
}
