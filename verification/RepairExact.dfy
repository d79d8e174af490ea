/** What a renumbering writes down for a file, and what it reports, read off the file and the mapping. */
module RepairExact {
  import opened Text
  import opened Ids
  import opened Items
  import opened Wikilinks
  import opened Backlog
  import opened Duplicates
  import opened RenumberPlan
  import opened RepairPlan
  import opened Allocation
  import opened AllocationRuns

  // ---------------------------------------------------------------- file names

  /** A file named after its old id keeps its slug under the new one. */
  lemma SlugSurvives(dir: string, oldId: string, newId: string, slug: string, title: string, slugify: string -> string)
    requires dir != "." && '/' !in oldId && '/' !in slug && slug != ""
    ensures RenumberedPath(JoinPath(dir, oldId + "-" + slug + ".md"), oldId, newId, title, slugify)
            == JoinPath(dir, newId + "-" + slug + ".md")
  {
    var name, base := oldId + "-" + slug + ".md", oldId + "-" + slug;
    SplitJoined(dir, name);
    assert name == base + ".md" && name[|base|..] == ".md" && name[..|base|] == base;
    assert base == (oldId + "-") + slug && base[..|oldId| + 1] == oldId + "-" && base[|oldId| + 1..] == slug;
    assert TrimSuffix(name, ".md") == base && TrimPrefix(base, oldId + "-") == slug;
  }

  /** A file whose name has no slug behind its old id gets the title's. */
  lemma SlugMade(dir: string, base: string, oldId: string, newId: string, title: string, slugify: string -> string)
    requires dir != "." && '/' !in base && (!HasPrefix(base, oldId + "-") || base == oldId + "-")
    ensures RenumberedPath(JoinPath(dir, base + ".md"), oldId, newId, title, slugify) == JoinPath(dir, newId + "-" + slugify(title) + ".md")
  {
    var name := base + ".md";
    SplitJoined(dir, name);
    assert name[|base|..] == ".md" && name[..|base|] == base;
    assert TrimSuffix(name, ".md") == base;
    assert base == oldId + "-" ==> TrimPrefix(base, oldId + "-") == "";
  }

  // ---------------------------------------------------------------- ids

  /** The step gives its file an id of the old one's type code, under the project key, with a number no scanned file
      and no redirect has. */
  ghost predicate KeepsCode(cfg: Config, items: seq<Scanned>, r: Renumber, n: nat) {
    var was := ParseItemId(r.oldId);
    && was.Some? && ParseItemId(r.newId) == Some(ItemId(cfg.key, was.value.code, n))
    && n !in ScannedNumbers(cfg, items, was.value.code) && n !in RedirectNumbers(cfg, was.value.code)
  }

  predicate SameCode(a: string, b: string) {
    var x, y := ParseItemId(a), ParseItemId(b);
    x.Some? && y.Some? && x.value.code == y.value.code
  }

  lemma StepKeepsCode(layout: Layout, cfg: Config, items: seq<Scanned>, loser: Loser, code: TypeCode, n: nat, r: Renumber)
    requires layout.parse == ParseItemId && NamesStep(layout, cfg.key, loser, code, n, r)
    requires CodeOfId(loser.id) == Some(code) && n !in InUse(cfg, items)(code)
    ensures KeepsCode(cfg, items, r, n) && ParseItemId(r.oldId).value.code == code
  {
  }

  /** Under the rules of a project every step of a plan does, and the numbers of one code increase along the plan. */
  lemma PlannedIds(backlog: string, slugify: string -> string, files: map<string, Doc>, cfg: Config, user: string, s: State,
                   items: seq<Scanned>, dups: seq<Duplicate>, codes: seq<TypeCode>, plan: seq<Renumber>) returns (numbers: seq<nat>)
    requires RepairPlan.Planned(LayoutOf(backlog), files, cfg, user, s, items, dups, codes, RulesFor(cfg.key, slugify), plan)
    ensures |numbers| == |plan| && forall i :: 0 <= i < |plan| ==> KeepsCode(cfg, items, plan[i], numbers[i])
    ensures forall i, j :: 0 <= i < j < |plan| && SameCode(plan[i].oldId, plan[j].oldId) ==> numbers[i] < numbers[j]
  {
    var rules, losers := RulesFor(cfg.key, slugify), Losers(dups);
    numbers := PlannedSteps(LayoutOf(backlog), files, cfg, user, s, items, dups, codes, rules, plan);
    forall i | 0 <= i < |plan|
      ensures KeepsCode(cfg, items, plan[i], numbers[i]) && ParseItemId(plan[i].oldId).value.code == codes[i]
    {
      assert rules.codeOf(losers[i].id) == Some(codes[i]);
      StepKeepsCode(LayoutOf(backlog), cfg, items, losers[i], codes[i], numbers[i], plan[i]);
    }
  }

  // ---------------------------------------------------------------- reports

  /** What is reported: each field, link and wikilink that names a renumbered id, with the id that replaces it. */
  lemma UpdatesMean(path: string, it: Item, mapping: map<string, string>, u: Update)
    ensures u in Updates(path, it, mapping)
            <==> u.path == path && u.oldId in mapping && u.newId == mapping[u.oldId]
                 && ((u.oldId != "" && u.field == "parent" && it.parent == u.oldId)
                     || (u.oldId != "" && u.field == "epic" && it.epic == u.oldId)
                     || (u.oldId != "" && u.field == "milestone" && it.milestone == u.oldId)
                     || (u.field == "links" && exists i :: 0 <= i < |it.links| && it.links[i].target == u.oldId)
                     || (u.field == "body" && u.oldId in Targets(it.body)))
  {
    if u.field == "links" && u.path == path && u.oldId in mapping && u.newId == mapping[u.oldId]
       && exists i :: 0 <= i < |it.links| && it.links[i].target == u.oldId {
      var i :| 0 <= i < |it.links| && it.links[i].target == u.oldId;
      assert u == Update(path, "links", it.links[i].target, mapping[it.links[i].target]);
      assert u in LinkUpdates(path, it.links, mapping);
    }
    if u.field == "body" && u.path == path && u.oldId in mapping && u.newId == mapping[u.oldId] && u.oldId in Targets(it.body) {
      assert u.oldId in Renumbered(Targets(it.body), mapping);
      assert u in BodyUpdates(path, it.body, mapping);
    }
  }
}
