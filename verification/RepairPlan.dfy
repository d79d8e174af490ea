/** Every plan made over a scan repairs the scanned files, and the plan is the same whatever order the files
    were listed in. */
module RepairPlan {
  import opened Text
  import opened Ids
  import opened Sorting
  import opened Wikilinks
  import opened Backlog
  import opened Duplicates
  import opened RenumberPlan
  import opened RenumberApply
  import opened Repair
  import opened Allocation
  import opened AllocationRuns

  // ---------------------------------------------------------------- names

  /** What a step writes down: the loser's file, and a new id of the right number whose file name carries it. */
  ghost predicate NamesStep(layout: Layout, key: string, loser: Loser, code: TypeCode, n: nat, r: Renumber) {
    && r.oldId == loser.id && r.path == loser.file.path && r.keeper == loser.keeper
    && layout.parse(r.newId) == Some(ItemId(key, code, n)) && r.newId != "" && CleanTarget(r.newId)
    && layout.IsItem(r.newPath) && layout.idOfName(r.newPath) == r.newId
  }

  ghost predicate Names(layout: Layout, key: string, rules: Rules) {
    forall loser: Loser, code: TypeCode, n: nat :: layout.IsItem(loser.file.path) ==>
      NamesStep(layout, key, loser, code, n, rules.step(loser, code, n))
  }

  lemma CleanText(id: string)
    requires id != "" && forall c :: c in id ==> IdCharacter(c) || c == '-'
    ensures CleanTarget(id)
  {
    assert forall i :: 0 <= i < |id| ==> id[i] in id;
    assert id[0] in id && id[|id| - 1] in id;
    TrimmedIsFixed(id);
  }

  lemma IdIsClean(id: string)
    requires ParseItemId(id).Some?
    ensures id != "" && CleanTarget(id)
  {
    IdCharacters(id);
    CleanText(id);
  }

  lemma CutHasNoSlash(base: string, prefix: string)
    requires '/' !in base
    ensures '/' !in TrimPrefix(base, prefix) && '/' !in TrimSuffix(base, prefix)
  {
  }

  /** A renumbered file stays in its folder and carries its new id. */
  lemma RenumberedPathNames(p: string, oldId: string, newId: string, title: string, slugify: string -> string)
    requires ParseItemId(newId).Some? && DirName(p) != "." && '/' !in slugify(title)
    ensures var q := RenumberedPath(p, oldId, newId, title, slugify);
            DirName(q) == DirName(p) && IsItemFileName(BaseName(q)) && IdFromFileName(q) == newId
  {
    var base := TrimSuffix(BaseName(p), ".md");
    CutHasNoSlash(BaseName(p), ".md");
    var cut := TrimPrefix(base, oldId + "-");
    CutHasNoSlash(base, oldId + "-");
    var slug := if cut == base || cut == "" then slugify(title) else cut;
    NameCarriesId(DirName(p), newId, slug);
  }

  /** The rules of a project with a valid key name files as the layout reads them. */
  lemma RulesName(backlog: string, key: string, slugify: string -> string)
    requires ValidProjectKey(key) && forall title :: '/' !in slugify(title)
    ensures Names(LayoutOf(backlog), key, RulesFor(key, slugify))
  {
    var layout, rules := LayoutOf(backlog), RulesFor(key, slugify);
    forall loser: Loser, code: TypeCode, n: nat | layout.IsItem(loser.file.path)
      ensures NamesStep(layout, key, loser, code, n, rules.step(loser, code, n))
    {
      StepNames(backlog, key, slugify, loser, code, n);
    }
  }

  lemma StepNames(backlog: string, key: string, slugify: string -> string, loser: Loser, code: TypeCode, n: nat)
    requires ValidProjectKey(key) && forall title :: '/' !in slugify(title)
    requires DirName(loser.file.path) in LayoutOf(backlog).dirs
    ensures NamesStep(LayoutOf(backlog), key, loser, code, n, StepFor(key, loser, code, n, slugify))
  {
    var newId := FormatItemId(key, code, n);
    ParseFormat(key, code, n);
    IdIsClean(newId);
    RenumberedPathNames(loser.file.path, loser.id, newId, loser.file.title, slugify);
  }

  // ---------------------------------------------------------------- losers

  ghost predicate DistinctFiles(items: seq<Scanned>) {
    forall i, j :: 0 <= i < j < |items| ==> items[i].path != items[j].path
  }

  lemma ScanDistinct(layout: Layout, files: map<string, Doc>, items: seq<Scanned>)
    requires IsScan(layout, files, items)
    ensures DistinctFiles(items)
  {
    forall i, j | 0 <= i < j < |items|
      ensures items[i].path != items[j].path
    {
      LessIrreflexive(items[i].path);
    }
  }

  /** A group lists each file once. */
  lemma GroupDistinct(items: seq<Scanned>, id: string)
    requires DistinctFiles(items)
    ensures DistinctFiles(Group(items, id))
  {
    var group := Group(items, id);
    forall i, j | 0 <= i < j < |group|
      ensures group[i].path != group[j].path
    {
      assert group[i] in group && group[j] in group;
      if group[i].path == group[j].path {
        assert group[i] == group[j];
        CountedTwice(group, i, j);
        ClaimsCount(items, id, group[i]);
        AtMostOnce(items, group[i]);
      }
    }
  }

  lemma {:induction false} LosersOfAt(d: Duplicate, from: nat, k: nat)
    requires 1 <= from && k < |LosersOf(d, from)|
    ensures from + k < |d.files| && LosersOf(d, from)[k] == Loser(d.id, d.files[0].path, d.files[from + k])
    decreases k
  {
    if k > 0 {
      LosersOfAt(d, from + 1, k - 1);
    }
  }

  lemma {:induction false} LosersOfCount(d: Duplicate, from: nat)
    requires 1 <= from
    ensures |LosersOf(d, from)| == if from <= |d.files| then |d.files| - from else 0
    decreases |d.files| - from
  {
    if from < |d.files| {
      LosersOfCount(d, from + 1);
    }
  }

  /** Where a loser comes from: a file of a group other than its first. */
  lemma {:induction false} LoserAt(dups: seq<Duplicate>, i: nat) returns (g: nat, k: nat)
    requires i < |Losers(dups)|
    ensures g < |dups| && 1 <= k < |dups[g].files| && Losers(dups)[i] == Loser(dups[g].id, dups[g].files[0].path, dups[g].files[k])
  {
    var first := LosersOf(dups[0], 1);
    if i < |first| {
      LosersOfAt(dups[0], 1, i);
      g, k := 0, i + 1;
    } else {
      g, k := LoserAt(dups[1..], i - |first|);
      g := g + 1;
    }
  }

  /** Every file of a group other than its first is a loser. */
  lemma {:induction false} IsLoser(dups: seq<Duplicate>, g: nat, k: nat) returns (i: nat)
    requires g < |dups| && 1 <= k < |dups[g].files|
    ensures i < |Losers(dups)| && Losers(dups)[i] == Loser(dups[g].id, dups[g].files[0].path, dups[g].files[k])
    decreases g
  {
    var first := LosersOf(dups[0], 1);
    LosersOfCount(dups[0], 1);
    if g == 0 {
      LosersOfAt(dups[0], 1, k - 1);
      i := k - 1;
    } else {
      i := IsLoser(dups[1..], g - 1, k);
      i := i + |first|;
    }
  }

  /** The files the losers hold are distinct, one for each position. */
  lemma {:induction false} LosersDistinct(items: seq<Scanned>, dups: seq<Duplicate>)
    requires forall d :: d in dups ==> d.files == Group(items, d.id)
    requires DistinctFiles(items) && forall i, j :: 0 <= i < j < |dups| ==> dups[i].id != dups[j].id
    ensures forall i, j :: 0 <= i < j < |Losers(dups)| ==> Losers(dups)[i].file.path != Losers(dups)[j].file.path
    decreases |dups|
  {
    if dups != [] {
      var first, rest := LosersOf(dups[0], 1), Losers(dups[1..]);
      LosersDistinct(items, dups[1..]);
      GroupDistinct(items, dups[0].id);
      forall i, j | 0 <= i < j < |first|
        ensures first[i].file.path != first[j].file.path
      {
        LosersOfAt(dups[0], 1, i);
        LosersOfAt(dups[0], 1, j);
      }
      forall i, j | 0 <= i < |first| && 0 <= j < |rest|
        ensures first[i].file.path != rest[j].file.path
      {
        FirstApart(items, dups, i, j);
      }
      JoinedDistinct(first, rest);
    }
  }

  /** The losers of the first group are apart from those of the others. */
  lemma FirstApart(items: seq<Scanned>, dups: seq<Duplicate>, i: nat, j: nat)
    requires forall d :: d in dups ==> d.files == Group(items, d.id)
    requires DistinctFiles(items) && forall i, j :: 0 <= i < j < |dups| ==> dups[i].id != dups[j].id
    requires dups != [] && i < |LosersOf(dups[0], 1)| && j < |Losers(dups[1..])|
    ensures LosersOf(dups[0], 1)[i].file.path != Losers(dups[1..])[j].file.path
  {
    LosersOfAt(dups[0], 1, i);
    var g, k := LoserAt(dups[1..], j);
    assert dups[1..][g] == dups[g + 1];
    ApartAcross(items, dups[0].id, 1 + i, dups[g + 1].id, k);
  }

  lemma JoinedDistinct(first: seq<Loser>, rest: seq<Loser>)
    requires forall i, j :: 0 <= i < j < |first| ==> first[i].file.path != first[j].file.path
    requires forall i, j :: 0 <= i < j < |rest| ==> rest[i].file.path != rest[j].file.path
    requires forall i, j :: 0 <= i < |first| && 0 <= j < |rest| ==> first[i].file.path != rest[j].file.path
    ensures forall i, j :: 0 <= i < j < |first + rest| ==> (first + rest)[i].file.path != (first + rest)[j].file.path
  {
    forall i, j | 0 <= i < j < |first + rest|
      ensures (first + rest)[i].file.path != (first + rest)[j].file.path
    {
    }
  }

  /** Files of different groups are different files. */
  lemma ApartAcross(items: seq<Scanned>, a: string, i: nat, b: string, j: nat)
    requires DistinctFiles(items) && a != b && i < |Group(items, a)| && j < |Group(items, b)|
    ensures Group(items, a)[i].path != Group(items, b)[j].path
  {
    var x, y := Group(items, a)[i], Group(items, b)[j];
    assert x in Group(items, a) && y in Group(items, b);
    assert x in items && y in items && x.id == a && y.id == b;
  }

  // ---------------------------------------------------------------- the plan repairs

  /** A plan over a scan of sound files, made without a user block. */
  ghost predicate Planned(layout: Layout, files: map<string, Doc>, cfg: Config, user: string, s: State, items: seq<Scanned>,
                          dups: seq<Duplicate>, codes: seq<TypeCode>, rules: Rules, plan: seq<Renumber>) {
    && Sound(layout, files) && IsScan(layout, files, items) && IsReport(items, dups)
    && NoBlock(cfg, user) && Names(layout, cfg.key, rules)
    && IsPlan(cfg, user, s, items, Losers(dups), codes, rules, plan)
  }

  /** What a planned step is: one loser of the scan, and a number nobody uses. */
  ghost predicate Stepwise(layout: Layout, key: string, used: TypeCode -> set<int>, items: seq<Scanned>, losers: seq<Loser>,
                           codes: seq<TypeCode>, numbers: seq<nat>, plan: seq<Renumber>) {
    && |plan| == |losers| == |codes| == |numbers|
    && (forall i :: 0 <= i < |plan| ==> losers[i].file in items && losers[i].file.id == losers[i].id)
    && (forall i :: 0 <= i < |plan| ==> NamesStep(layout, key, losers[i], codes[i], numbers[i], plan[i]))
    && (forall i :: 0 <= i < |plan| ==> numbers[i] !in used(codes[i]))
    && (forall i, j :: 0 <= i < j < |plan| && codes[i] == codes[j] ==> numbers[i] < numbers[j])
  }

  lemma LosersScanned(items: seq<Scanned>, dups: seq<Duplicate>)
    requires IsReport(items, dups)
    ensures forall i :: 0 <= i < |Losers(dups)| ==> Losers(dups)[i].file in items && Losers(dups)[i].file.id == Losers(dups)[i].id
  {
    forall i | 0 <= i < |Losers(dups)|
      ensures Losers(dups)[i].file in items && Losers(dups)[i].file.id == Losers(dups)[i].id
    {
      var g, k := LoserAt(dups, i);
      var d := dups[g];
      assert d in dups && d.files[k] in Group(items, d.id);
    }
  }

  lemma PlannedSteps(layout: Layout, files: map<string, Doc>, cfg: Config, user: string, s: State, items: seq<Scanned>,
                     dups: seq<Duplicate>, codes: seq<TypeCode>, rules: Rules, plan: seq<Renumber>) returns (numbers: seq<nat>)
    requires Planned(layout, files, cfg, user, s, items, dups, codes, rules, plan)
    ensures Stepwise(layout, cfg.key, InUse(cfg, items), items, Losers(dups), codes, numbers, plan)
  {
    var losers := Losers(dups);
    LosersScanned(items, dups);
    ReserveAllFresh(cfg, user, s, items, codes);
    var r := ReserveAll(cfg, user, s, items, codes).value;
    numbers := AssignedSteps(layout, cfg.key, InUse(cfg, items), items, losers, codes, r.numbers, r.state.reserved, rules, plan);
  }

  lemma AssignedSteps(layout: Layout, key: string, used: TypeCode -> set<int>, items: seq<Scanned>, losers: seq<Loser>, codes: seq<TypeCode>,
                      given: seq<int>, reserved: map<TypeCode, int>, rules: Rules, plan: seq<Renumber>) returns (numbers: seq<nat>)
    requires Names(layout, key, rules) && forall x :: x in items ==> layout.IsItem(x.path)
    requires forall i :: 0 <= i < |losers| ==> losers[i].file in items && losers[i].file.id == losers[i].id
    requires Fresh(used, codes, given, reserved) && Assigned(losers, codes, given, rules, plan)
    ensures Stepwise(layout, key, used, items, losers, codes, numbers, plan)
  {
    numbers := seq(|given|, i requires 0 <= i < |given| => given[i]);
    forall i | 0 <= i < |plan|
      ensures NamesStep(layout, key, losers[i], codes[i], numbers[i], plan[i])
    {
      assert layout.IsItem(losers[i].file.path);
      assert NamesStep(layout, key, losers[i], codes[i], numbers[i], rules.step(losers[i], codes[i], numbers[i]));
    }
  }

  /** An id with an unused number of the project is the id of no scanned file. */
  lemma UnusedId(cfg: Config, items: seq<Scanned>, parse: string -> Option<ItemId>, code: TypeCode, n: nat, newId: string, k: nat)
    requires parse(newId) == Some(ItemId(cfg.key, code, n)) && n !in ScannedNumbers(cfg, items, code)
    requires k < |items| && items[k].parsed == parse(items[k].id)
    ensures newId != items[k].id
  {
    assert Counts(cfg.key, code, items[k].parsed) ==> items[k].parsed.value.number in ScannedNumbers(cfg, items, code);
  }

  /** A planned id is the id of no scanned file. */
  lemma NewIdUnused(layout: Layout, files: map<string, Doc>, cfg: Config, items: seq<Scanned>, losers: seq<Loser>,
                    codes: seq<TypeCode>, numbers: seq<nat>, plan: seq<Renumber>, i: nat, k: nat)
    requires Stepwise(layout, cfg.key, InUse(cfg, items), items, losers, codes, numbers, plan)
    requires i < |plan| && k < |items| && items[k].parsed == layout.parse(items[k].id)
    ensures plan[i].newId != items[k].id
  {
    var used := InUse(cfg, items);
    assert NamesStep(layout, cfg.key, losers[i], codes[i], numbers[i], plan[i]);
    assert numbers[i] !in used(codes[i]);
    UnusedId(cfg, items, layout.parse, codes[i], numbers[i], plan[i].newId, k);
  }

  lemma NewIdsDistinct(layout: Layout, key: string, used: TypeCode -> set<int>, items: seq<Scanned>, losers: seq<Loser>,
                       codes: seq<TypeCode>, numbers: seq<nat>, plan: seq<Renumber>, i: nat, j: nat)
    requires Stepwise(layout, key, used, items, losers, codes, numbers, plan) && i < j < |plan|
    ensures plan[i].newId != plan[j].newId
  {
    assert NamesStep(layout, key, losers[i], codes[i], numbers[i], plan[i]);
    assert NamesStep(layout, key, losers[j], codes[j], numbers[j], plan[j]);
  }

  /** A file is scanned at some position. */
  lemma ScannedAt(layout: Layout, files: map<string, Doc>, items: seq<Scanned>, p: string) returns (k: nat)
    requires Sound(layout, files) && IsScan(layout, files, items) && p in files && layout.IsItem(p)
    ensures k < |items| && items[k].path == p && items[k].id == layout.IdOf(p, files[p]) != ""
    ensures items[k].parsed == layout.parse(items[k].id)
  {
    assert layout.IdOf(p, files[p]) != "";
    k :| 0 <= k < |items| && items[k] == layout.ScanOf(p, files[p]);
  }

  /** A file claiming an id is at some place of the id's group. */
  lemma PlaceInGroup(items: seq<Scanned>, id: string, x: Scanned) returns (k: nat)
    requires x in items && x.id == id
    ensures k < |Group(items, id)| && Group(items, id)[k] == x
  {
    assert x in Claims(items, id);
    assert x in Group(items, id);
    k :| 0 <= k < |Group(items, id)| && Group(items, id)[k] == x;
  }

  /** Of two files claiming one id, at least one is renumbered. */
  lemma OneLeaves(items: seq<Scanned>, dups: seq<Duplicate>, i: nat, j: nat) returns (l: nat)
    requires IsReport(items, dups) && i < j < |items| && items[i].id == items[j].id != "" && items[i].path != items[j].path
    ensures l < |Losers(dups)| && (Losers(dups)[l].file.path == items[i].path || Losers(dups)[l].file.path == items[j].path)
  {
    var id := items[i].id;
    TwoClaims(items, i, j);
    var g := ReportedAt(items, dups, id);
    var a := PlaceInGroup(items, id, items[i]);
    var b := PlaceInGroup(items, id, items[j]);
    l := IsLoser(dups, g, if a > 0 then a else b);
  }

  lemma ReportedAt(items: seq<Scanned>, dups: seq<Duplicate>, id: string) returns (g: nat)
    requires IsReport(items, dups) && id != "" && |Claims(items, id)| >= 2
    ensures g < |dups| && dups[g].id == id && dups[g].files == Group(items, id)
  {
    g :| 0 <= g < |dups| && dups[g].id == id;
    assert dups[g] in dups;
  }

  /** Files the plan leaves alone have distinct ids. */
  lemma KeptApart(layout: Layout, files: map<string, Doc>, items: seq<Scanned>, dups: seq<Duplicate>, plan: seq<Renumber>, p: string, q: string)
    requires Sound(layout, files) && IsScan(layout, files, items) && IsReport(items, dups)
    requires Follows(plan, Losers(dups))
    requires p in files && layout.IsItem(p) && q in files && layout.IsItem(q) && p != q
    requires p !in PathsIn(plan) && q !in PathsIn(plan)
    ensures layout.IdOf(p, files[p]) != layout.IdOf(q, files[q])
  {
    var i := ScannedAt(layout, files, items, p);
    var j := ScannedAt(layout, files, items, q);
    assert i != j;
    ClaimsApart(items, dups, plan, i, j);
  }

  /** The plan moves the losers' files, one each. */
  ghost predicate Follows(plan: seq<Renumber>, losers: seq<Loser>) {
    |plan| == |losers| && forall i :: 0 <= i < |plan| ==> plan[i].path == losers[i].file.path
  }

  lemma ClaimsApart(items: seq<Scanned>, dups: seq<Duplicate>, plan: seq<Renumber>, i: nat, j: nat)
    requires IsReport(items, dups) && i < |items| && j < |items| && items[i].path != items[j].path && items[i].id != ""
    requires Follows(plan, Losers(dups))
    requires items[i].path !in PathsIn(plan) && items[j].path !in PathsIn(plan)
    ensures items[i].id != items[j].id
  {
    if items[i].id == items[j].id {
      var l: nat;
      if i < j {
        l := OneLeaves(items, dups, i, j);
      } else {
        l := OneLeaves(items, dups, j, i);
      }
    }
  }

  /** A plan made over a scan of sound files repairs them. */
  lemma PlanRepairs(layout: Layout, files: map<string, Doc>, cfg: Config, user: string, s: State, items: seq<Scanned>,
                    dups: seq<Duplicate>, codes: seq<TypeCode>, rules: Rules, plan: seq<Renumber>)
    requires Planned(layout, files, cfg, user, s, items, dups, codes, rules, plan)
    ensures Repairs(layout, files, plan)
  {
    var numbers := PlannedSteps(layout, files, cfg, user, s, items, dups, codes, rules, plan);
    var losers := Losers(dups);
    ScanDistinct(layout, files, items);
    ReportIdsDiffer(items, dups);
    LosersDistinct(items, dups);
    forall i | 0 <= i < |plan|
      ensures NamesStep(layout, cfg.key, losers[i], codes[i], numbers[i], plan[i])
      ensures plan[i].path in files && layout.IsItem(plan[i].path) && plan[i].oldId == layout.IdOf(plan[i].path, files[plan[i].path])
    {
      assert losers[i].file in items;
    }
    forall i, p | 0 <= i < |plan| && p in files && layout.IsItem(p)
      ensures plan[i].newId != layout.IdOf(p, files[p])
    {
      var k := ScannedAt(layout, files, items, p);
      NewIdUnused(layout, files, cfg, items, losers, codes, numbers, plan, i, k);
    }
    forall i, j | 0 <= i < j < |plan|
      ensures plan[i].path != plan[j].path && plan[i].newId != plan[j].newId
    {
      NewIdsDistinct(layout, cfg.key, InUse(cfg, items), items, losers, codes, numbers, plan, i, j);
    }
    forall p, q | p in ItemPaths(layout, files) - PathsIn(plan) && q in ItemPaths(layout, files) - PathsIn(plan) && p != q
      ensures layout.IdOf(p, files[p]) != layout.IdOf(q, files[q])
    {
      KeptApart(layout, files, items, dups, plan, p, q);
    }
  }

  lemma ReportIdsDiffer(items: seq<Scanned>, dups: seq<Duplicate>)
    requires IsReport(items, dups)
    ensures forall i, j :: 0 <= i < j < |dups| ==> dups[i].id != dups[j].id
    ensures forall d :: d in dups ==> d.files == Group(items, d.id)
  {
    forall i, j | 0 <= i < j < |dups|
      ensures dups[i].id != dups[j].id
    {
      LessIrreflexive(dups[i].id);
    }
  }

  /** The first file of a group is no loser. */
  lemma FirstIsNoLoser(items: seq<Scanned>, dups: seq<Duplicate>, g: nat, i: nat)
    requires IsReport(items, dups) && DistinctFiles(items) && g < |dups| && i < |Losers(dups)|
    ensures dups[g].files == Group(items, dups[g].id) && |dups[g].files| >= 2
    ensures Losers(dups)[i].file.path != dups[g].files[0].path
  {
    ReportIdsDiffer(items, dups);
    assert dups[g] in dups;
    GroupDistinct(items, dups[g].id);
    var h, k := LoserAt(dups, i);
    assert dups[h] in dups;
    if h != g {
      ApartAcross(items, dups[g].id, 0, dups[h].id, k);
    }
  }

  /** The keeper of every group, the first by the tie-break, is not in the plan: it keeps its file and its id. */
  lemma KeepersStay(layout: Layout, files: map<string, Doc>, cfg: Config, user: string, s: State, items: seq<Scanned>,
                    dups: seq<Duplicate>, codes: seq<TypeCode>, rules: Rules, plan: seq<Renumber>, g: nat)
    requires Planned(layout, files, cfg, user, s, items, dups, codes, rules, plan) && g < |dups|
    ensures |dups[g].files| >= 2
    ensures var keeper := dups[g].files[0];
            && keeper.path in files && layout.IsItem(keeper.path) && keeper.path !in PathsIn(plan)
            && layout.IdOf(keeper.path, files[keeper.path]) == dups[g].id
            && forall f :: f in dups[g].files ==> !Older(f, keeper)
  {
    var d := dups[g];
    forall f | f in d.files
      ensures TieLess(f, d.files[0]) <==> Older(f, d.files[0])
    {
      TieMeans(f, d.files[0]);
    }
    assert d in dups && d.files == Group(items, d.id);
    assert d.files[0] in Group(items, d.id);
    FirstLeads(items, d.id);
    var numbers := PlannedSteps(layout, files, cfg, user, s, items, dups, codes, rules, plan);
    ScanDistinct(layout, files, items);
    forall i | 0 <= i < |plan|
      ensures plan[i].path != d.files[0].path
    {
      assert NamesStep(layout, cfg.key, Losers(dups)[i], codes[i], numbers[i], plan[i]);
      FirstIsNoLoser(items, dups, g, i);
    }
  }

  /** First by the tie-break among the files that claim its id, or the only one that does. */
  ghost predicate Leads(layout: Layout, files: map<string, Doc>, p: string)
    requires p in files
  {
    forall q :: q in files && layout.IsItem(q) && q != p && layout.IdOf(q, files[q]) == layout.IdOf(p, files[p]) ==>
      Older(layout.ScanOf(p, files[p]), layout.ScanOf(q, files[q]))
  }

  /** No file that leads is in the plan. */
  lemma LeadersStay(layout: Layout, files: map<string, Doc>, cfg: Config, user: string, s: State, items: seq<Scanned>,
                    dups: seq<Duplicate>, codes: seq<TypeCode>, rules: Rules, plan: seq<Renumber>, p: string)
    requires Planned(layout, files, cfg, user, s, items, dups, codes, rules, plan)
    requires p in files && Leads(layout, files, p)
    ensures p !in PathsIn(plan)
  {
    var numbers := PlannedSteps(layout, files, cfg, user, s, items, dups, codes, rules, plan);
    ScanDistinct(layout, files, items);
    forall i | 0 <= i < |plan|
      ensures plan[i].path != p
    {
      assert NamesStep(layout, cfg.key, Losers(dups)[i], codes[i], numbers[i], plan[i]);
      if Losers(dups)[i].file.path == p {
        LoserTrails(layout, files, items, dups, i);
      }
    }
  }

  lemma LoserTrails(layout: Layout, files: map<string, Doc>, items: seq<Scanned>, dups: seq<Duplicate>, i: nat)
    requires IsScan(layout, files, items) && IsReport(items, dups) && DistinctFiles(items) && i < |Losers(dups)|
    ensures var p := Losers(dups)[i].file.path; p in files && !Leads(layout, files, p)
  {
    var g, k := LoserAt(dups, i);
    assert dups[g] in dups;
    BehindFirst(items, dups[g].id, k);
    Trails(layout, files, items, dups[g].files[k], dups[g].files[0]);
  }

  lemma BehindFirst(items: seq<Scanned>, id: string, k: nat)
    requires DistinctFiles(items) && 1 <= k < |Group(items, id)|
    ensures var x, y := Group(items, id)[k], Group(items, id)[0];
            x in items && y in items && x.id == y.id == id && x.path != y.path && !TieLess(x, y)
  {
    var x, y := Group(items, id)[k], Group(items, id)[0];
    GroupDistinct(items, id);
    FirstLeads(items, id);
    assert x in Group(items, id) && y in Group(items, id);
  }

  lemma Trails(layout: Layout, files: map<string, Doc>, items: seq<Scanned>, x: Scanned, y: Scanned)
    requires IsScan(layout, files, items) && x in items && y in items && x.id == y.id && x.path != y.path && !TieLess(x, y)
    ensures x.path in files && !Leads(layout, files, x.path)
  {
    assert x == layout.ScanOf(x.path, files[x.path]) && y == layout.ScanOf(y.path, files[y.path]);
    assert layout.IsItem(y.path);
    TieMeans(x, y);
  }

  lemma FirstLeads(items: seq<Scanned>, id: string)
    requires Claims(items, id) != []
    ensures forall f :: f in Group(items, id) ==> !TieLess(f, Group(items, id)[0])
  {
    TieOrder();
    SortSorted(TieLess, Claims(items, id));
    var group := Group(items, id);
    forall f | f in group
      ensures !TieLess(f, group[0])
    {
      var k :| 0 <= k < |group| && group[k] == f;
    }
  }

  // ---------------------------------------------------------------- order independence

  /** The numbers handed out depend on which files there are, not on their order. */
  lemma SameNumbers(cfg: Config, items: seq<Scanned>, items': seq<Scanned>, code: TypeCode)
    requires multiset(items) == multiset(items')
    ensures ScannedNumbers(cfg, items, code) == ScannedNumbers(cfg, items', code)
  {
    NumbersAmong(cfg, items, items', code);
    NumbersAmong(cfg, items', items, code);
  }

  lemma NumbersAmong(cfg: Config, items: seq<Scanned>, items': seq<Scanned>, code: TypeCode)
    requires multiset(items) == multiset(items')
    ensures ScannedNumbers(cfg, items, code) <= ScannedNumbers(cfg, items', code)
  {
    forall n | n in ScannedNumbers(cfg, items, code)
      ensures n in ScannedNumbers(cfg, items', code)
    {
      var i :| 0 <= i < |items| && Counts(cfg.key, code, items[i].parsed) && items[i].parsed.value.number == n;
      assert items[i] in multiset(items');
      var k :| 0 <= k < |items'| && items'[k] == items[i];
    }
  }

  lemma {:induction false} SameReservations(cfg: Config, user: string, s: State, items: seq<Scanned>, items': seq<Scanned>, codes: seq<TypeCode>)
    requires multiset(items) == multiset(items')
    ensures ReserveAll(cfg, user, s, items, codes) == ReserveAll(cfg, user, s, items', codes)
  {
    if codes != [] {
      SameReservations(cfg, user, s, items, items', codes[..|codes| - 1]);
      forall code
        ensures ScannedNumbers(cfg, items, code) == ScannedNumbers(cfg, items', code)
      {
        SameNumbers(cfg, items, items', code);
      }
    }
  }

  /** Two plans over the same files, listed in any two orders, are the same plan. */
  lemma PlanIgnoresOrder(cfg: Config, user: string, s: State, items: seq<Scanned>, items': seq<Scanned>, dups: seq<Duplicate>, dups': seq<Duplicate>,
                         codes: seq<TypeCode>, codes': seq<TypeCode>, rules: Rules, plan: seq<Renumber>, plan': seq<Renumber>)
    requires multiset(items) == multiset(items') && Duplicates.DistinctPaths(items)
    requires IsReport(items, dups) && IsReport(items', dups')
    requires IsPlan(cfg, user, s, items, Losers(dups), codes, rules, plan)
    requires IsPlan(cfg, user, s, items', Losers(dups'), codes', rules, plan')
    ensures plan == plan'
  {
    ReportUnique(items, items', dups, dups');
    SameCodes(Losers(dups), codes, codes', rules);
    SameReservations(cfg, user, s, items, items', codes);
  }

  lemma SameCodes(losers: seq<Loser>, codes: seq<TypeCode>, codes': seq<TypeCode>, rules: Rules)
    requires |codes| == |codes'| == |losers|
    requires forall i :: 0 <= i < |losers| ==> rules.codeOf(losers[i].id) == Some(codes[i]) == Some(codes'[i])
    ensures codes == codes'
  {
  }
}
