/** The whole repair as one call: scan, find, plan, apply. */
module RepairRun {
  import opened Text
  import opened Items
  import opened FileTx
  import opened Backlog
  import opened Duplicates
  import opened RenumberPlan
  import opened RenumberApply
  import opened Repair
  import opened RepairPlan
  import opened AllocationRuns
  import opened Allocator
  import Allocation
  import Ids
  import YamlPath

  /** Files that agree on every item path and on project.yaml are repaired alike. */
  lemma RepairedElsewhere(layout: Layout, before: map<string, Doc>, applied: map<string, Doc>, after: map<string, Doc>,
                          plan: seq<Renumber>, temps: set<string>)
    requires Repaired(layout, before, applied, plan) && Agree(after, applied, temps)
    requires forall p :: layout.IsItem(p) || p == layout.project ==> p !in temps
    requires Sane(layout, plan)
    ensures Repaired(layout, before, after, plan)
  {
    assert forall p :: layout.IsItem(p) || p == layout.project ==> Same(after, applied, p);
    IdsAlike(layout, applied, after, MappingOf(plan).Keys);
    CarriedAlike(layout, before, applied, after, plan, MappingOf(plan));
    FollowedAlike(layout, before, applied, after, plan, MappingOf(plan));
  }

  lemma CarriedAlike(layout: Layout, before: map<string, Doc>, applied: map<string, Doc>, after: map<string, Doc>,
                     plan: seq<Renumber>, mapping: map<string, string>)
    requires Carried(layout, before, applied, plan, mapping) && Sane(layout, plan)
    requires forall p :: layout.IsItem(p) ==> Same(after, applied, p)
    ensures Carried(layout, before, after, plan, mapping)
  {
  }

  lemma IdsAlike(layout: Layout, applied: map<string, Doc>, after: map<string, Doc>, ids: set<string>)
    requires Unique(layout, applied) && NamesNoOldId(layout, applied, ids)
    requires forall p :: layout.IsItem(p) ==> Same(after, applied, p)
    ensures Unique(layout, after) && NamesNoOldId(layout, after, ids) && ItemPaths(layout, after) == ItemPaths(layout, applied)
  {
    assert forall p :: p in ItemPaths(layout, after) ==> Same(after, applied, p);
    assert forall p :: p in ItemPaths(layout, applied) ==> Same(after, applied, p);
  }

  lemma FollowedAlike(layout: Layout, before: map<string, Doc>, applied: map<string, Doc>, after: map<string, Doc>,
                      plan: seq<Renumber>, mapping: map<string, string>)
    requires Followed(layout, before, applied, plan, mapping) && Sane(layout, plan)
    requires forall p :: layout.IsItem(p) ==> Same(after, applied, p)
    ensures Followed(layout, before, after, plan, mapping)
  {
  }

  /** Files without a duplicate have distinct ids. */
  lemma NothingToRepair(layout: Layout, files: map<string, Doc>, items: seq<Scanned>)
    requires Sound(layout, files) && IsScan(layout, files, items) && IsReport(items, [])
    ensures Unique(layout, files)
  {
    forall p, q | p in files && q in files && layout.IsItem(p) && layout.IsItem(q) && p != q
      ensures layout.IdOf(p, files[p]) != layout.IdOf(q, files[q])
    {
      KeptApart(layout, files, items, [], [], p, q);
    }
  }

  /** What a repair may rely on: sound files, an allocator without a block, and names the layout reads back. */
  ghost predicate Repairable(layout: Layout, files: map<string, Doc>, cfg: Allocation.Config, user: string, rules: Rules) {
    Sound(layout, files) && NoBlock(cfg, user) && Names(layout, cfg.key, rules)
  }

  /** Applying a plan over a scan repairs the files. */
  lemma PlannedRepairs(layout: Layout, files: map<string, Doc>, cfg: Allocation.Config, user: string, s: Allocation.State, items: seq<Scanned>,
                       dups: seq<Duplicate>, codes: seq<Ids.TypeCode>, rules: Rules, plan: seq<Renumber>, olds: seq<string>, raw: RawRewrite)
    requires layout.Valid() && RepairPlan.Planned(layout, files, cfg, user, s, items, dups, codes, rules, plan)
    requires SortedIds(olds, MappingOf(plan).Keys)
    ensures Sane(layout, plan)
    ensures TableTakes(layout, files, olds, MappingOf(plan)) ==>
              Repaired(layout, files, Applied(layout, files, plan, olds, raw), plan) && Acceptable(layout, files, plan, olds)
  {
    PlanRepairs(layout, files, cfg, user, s, items, dups, codes, rules, plan);
    NewPathsFresh(layout, files, plan);
    if TableTakes(layout, files, olds, MappingOf(plan)) {
      AppliedRepairs(layout, files, plan, olds, raw);
      RepairAcceptable(layout, files, plan, olds);
    }
  }

  /** Every item file that leads the claimants of its id keeps its name and its id. */
  ghost predicate LeadersKept(layout: Layout, before: map<string, Doc>, after: map<string, Doc>, plan: seq<Renumber>) {
    forall p :: p in before && layout.IsItem(p) && Leads(layout, before, p) ==>
      p !in PathsIn(plan) && p in after && layout.IdOf(p, after[p]) == layout.IdOf(p, before[p])
  }

  lemma LeadersAfter(layout: Layout, files: map<string, Doc>, after: map<string, Doc>, cfg: Allocation.Config, user: string, s: Allocation.State,
                     items: seq<Scanned>, dups: seq<Duplicate>, codes: seq<Ids.TypeCode>, rules: Rules, plan: seq<Renumber>)
    requires RepairPlan.Planned(layout, files, cfg, user, s, items, dups, codes, rules, plan)
    requires Repaired(layout, files, after, plan)
    ensures LeadersKept(layout, files, after, plan)
  {
    forall p | p in files && layout.IsItem(p) && Leads(layout, files, p)
      ensures p !in PathsIn(plan) && p in after && layout.IdOf(p, after[p]) == layout.IdOf(p, files[p])
    {
      LeadersStay(layout, files, cfg, user, s, items, dups, codes, rules, plan, p);
      KeptId(layout, files, after, plan, MappingOf(plan), p);
    }
  }

  lemma KeptId(layout: Layout, before: map<string, Doc>, after: map<string, Doc>, plan: seq<Renumber>, mapping: map<string, string>, p: string)
    requires Carried(layout, before, after, plan, mapping) && p in before && layout.IsItem(p) && p !in PathsIn(plan)
    ensures p in after && layout.IdOf(p, after[p]) == layout.IdOf(p, before[p])
  {
  }

  /** Every id in the backlog has a type code the planner can count in. */
  ghost predicate Coded(layout: Layout, files: map<string, Doc>, rules: Rules) {
    forall p :: p in files && layout.IsItem(p) ==> rules.codeOf(layout.IdOf(p, files[p])).Some?
  }

  ghost predicate Renumberable(layout: Layout, files: map<string, Doc>, cfg: Allocation.Config, user: string, rules: Rules) {
    Repairable(layout, files, cfg, user, rules) && Coded(layout, files, rules)
  }

  lemma LosersCoded(layout: Layout, files: map<string, Doc>, items: seq<Scanned>, dups: seq<Duplicate>, rules: Rules)
    requires Coded(layout, files, rules) && IsScan(layout, files, items) && IsReport(items, dups)
    ensures forall l :: l in Losers(dups) ==> rules.codeOf(l.id).Some?
  {
    LosersScanned(items, dups);
    forall i | 0 <= i < |Losers(dups)|
      ensures rules.codeOf(Losers(dups)[i].id).Some?
    {
      ScannedCoded(layout, files, items, rules, Losers(dups)[i].file);
    }
  }

  lemma ScannedCoded(layout: Layout, files: map<string, Doc>, items: seq<Scanned>, rules: Rules, x: Scanned)
    requires Coded(layout, files, rules) && IsScan(layout, files, items) && x in items
    ensures rules.codeOf(x.id).Some?
  {
  }

  /** A plan that repairs the files is acceptable when the redirect table can take it. */
  lemma RepairAcceptable(layout: Layout, files: map<string, Doc>, plan: seq<Renumber>, olds: seq<string>)
    requires Sound(layout, files) && Repairs(layout, files, plan) && TableTakes(layout, files, olds, MappingOf(plan))
    ensures Acceptable(layout, files, plan, olds)
  {
    forall i | 0 <= i < |plan|
      ensures plan[i].oldId != plan[i].newId
    {
      assert plan[i].path in files && layout.IsItem(plan[i].path);
    }
  }

  /** Finds the duplicates of a backlog, plans their renumbering and applies the plan. When everything goes
      through, the backlog is repaired and the file that leads the claimants of an id keeps it; when something
      fails and the undo goes through, or only one operation failed, no file besides the temporary ones is
      different. Without a fault a backlog whose ids have type codes is always repaired, unless the redirect table
      cannot take the new pairs. */
  method RepairDuplicates(fs: Store<Doc>, layout: Layout, alloc: Allocator, rules: Rules, raw: RawRewrite)
    returns (ok: bool, clean: bool, ghost plan: seq<Renumber>, ghost olds: seq<string>, ghost temps: set<string>)
    requires layout.Valid() && alloc.Valid()
    modifies fs, alloc`reserved
    ensures forall p :: layout.IsItem(p) || p == layout.project ==> p !in temps
    ensures Repairable(layout, old(fs.files), alloc.cfg, alloc.user, rules) && ok && plan != [] ==>
              Repaired(layout, old(fs.files), fs.files, plan) && LeadersKept(layout, old(fs.files), fs.files, plan)
    ensures Repairable(layout, old(fs.files), alloc.cfg, alloc.user, rules) && ok && plan == [] ==>
              fs.files == old(fs.files) && Unique(layout, fs.files)
    ensures Repairable(layout, old(fs.files), alloc.cfg, alloc.user, rules) && !ok && (clean || fs.clock.faults <= old(fs.clock.faults) + 1) ==>
              Agree(fs.files, old(fs.files), temps)
    ensures Renumberable(layout, old(fs.files), alloc.cfg, alloc.user, rules) && !ok && fs.clock.faults == old(fs.clock.faults) ==>
              !TableTakes(layout, old(fs.files), olds, MappingOf(plan))
  {
    clean, plan, olds, temps := true, [], [], {};
    ghost var files, s := fs.files, alloc.Now();
    var items := ScanItems(fs, layout);
    if items.None? {
      return false, true, [], [], {};
    }
    var dups := DuplicatesOf(items.value);
    if Coded(layout, files, rules) {
      LosersCoded(layout, files, items.value, dups, rules);
    }
    var steps, codes := PlanRenumber(dups, alloc, items.value, rules);
    if steps.None? {
      return false, true, [], [], {};
    }
    plan := steps.value;
    ok, clean, olds, temps := ApplyRenumber(fs, layout, steps.value, raw);
    if Repairable(layout, files, alloc.cfg, alloc.user, rules) {
      PlannedRepairs(layout, files, alloc.cfg, alloc.user, s, items.value, dups, codes, rules, plan, olds, raw);
      if ok && plan != [] {
        RepairedElsewhere(layout, files, Applied(layout, files, plan, olds, raw), fs.files, plan, temps);
        LeadersAfter(layout, files, fs.files, alloc.cfg, alloc.user, s, items.value, dups, codes, rules, plan);
      } else if ok {
        if dups != [] {
          SomeLoser(items.value, dups);
        }
        NothingToRepair(layout, files, items.value);
      }
    }
  }

  /** A report that is not empty asks at least one file to give up its id. */
  lemma SomeLoser(items: seq<Scanned>, dups: seq<Duplicate>)
    requires IsReport(items, dups) && dups != []
    ensures Losers(dups) != []
  {
    assert dups[0] in dups;
    assert |Group(items, dups[0].id)| == |Claims(items, dups[0].id)|;
    var i := IsLoser(dups, 0, 1);
  }
}
