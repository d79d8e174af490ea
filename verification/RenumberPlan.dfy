/** Planning a renumbering: every file but the keeper of its group receives the next free id. */
module RenumberPlan {
  import opened Text
  import opened Ids
  import opened Allocation
  import opened AllocationRuns
  import opened Allocator
  import opened Duplicates

  /** One step of a plan: the file that loses the contested id and the id it receives. */
  datatype Renumber = Renumber(oldId: string, newId: string, path: string, newPath: string, keeper: string)

  /** A file that has to give up its id. */
  datatype Loser = Loser(id: string, keeper: string, file: Scanned)

  function LosersOf(d: Duplicate, from: nat): seq<Loser>
    requires 1 <= from
    decreases |d.files| - from
  {
    if from >= |d.files| then []
    else [Loser(d.id, d.files[0].path, d.files[from])] + LosersOf(d, from + 1)
  }

  /** The losers of every group, group by group, in tie-break order. */
  function Losers(dups: seq<Duplicate>): seq<Loser> {
    if dups == [] then [] else LosersOf(dups[0], 1) + Losers(dups[1..])
  }

  /** A file keeps its slug; only the id in front of it changes. Without a slug the title makes one. */
  function RenumberedPath(p: string, oldId: string, newId: string, title: string, slugify: string -> string): string {
    var base := TrimSuffix(BaseName(p), ".md");
    var cut := TrimPrefix(base, oldId + "-");
    var slug := if cut == base || cut == "" then slugify(title) else cut;
    JoinPath(DirName(p), newId + "-" + slug + ".md")
  }

  /** What successive reservations of some codes over one scan leave behind: the allocator's state and the
      numbers handed out. */
  datatype Reservation = Reservation(state: State, numbers: seq<int>)

  ghost function ReserveAll(cfg: Config, user: string, s: State, items: seq<Scanned>, codes: seq<TypeCode>): (r: Option<Reservation>)
    ensures r.Some? ==> |r.value.numbers| == |codes|
  {
    if codes == [] then Some(Reservation(s, []))
    else
      var n := |codes| - 1;
      match ReserveAll(cfg, user, s, items, codes[..n])
      case None => None
      case Some(before) =>
        var (s', g) := Step(cfg, user, before.state, Reserve(ItemTypeFor(codes[n])), items);
        if g.Nothing? then None else Some(Reservation(s', before.numbers + [g.number]))
  }

  /** One reservation of a user without a block. */
  lemma ReserveOnce(cfg: Config, user: string, s: State, items: seq<Scanned>, code: TypeCode) returns (n: nat)
    requires NoBlock(cfg, user)
    ensures Step(cfg, user, s, Reserve(ItemTypeFor(code)), items) == (s.(reserved := s.reserved[code := n]), Given(code, n))
    ensures n > 0 && n !in ScannedNumbers(cfg, items, code) && n !in RedirectNumbers(cfg, code)
    ensures code in s.reserved ==> s.reserved[code] < n
  {
    var t := ItemTypeFor(code);
    AboveEverything(cfg, user, s, items, t, code);
    var e := Event(Reserve(t), items);
    StepRaises(cfg, user, s, e);
    GivenExceedsAllSeen(cfg, user, s, e);
    n := NextNumber(cfg, user, s, items, t, code).value;
  }

  /** The numbers of a code that are in use. */
  ghost function InUse(cfg: Config, items: seq<Scanned>): TypeCode -> set<int> {
    (code: TypeCode) => ScannedNumbers(cfg, items, code) + RedirectNumbers(cfg, code)
  }

  /** Numbers are positive, not in use, remembered, and increase per code. */
  ghost predicate Fresh(used: TypeCode -> set<int>, codes: seq<TypeCode>, numbers: seq<int>, reserved: map<TypeCode, int>) {
    && |numbers| == |codes|
    && (forall i :: 0 <= i < |codes| ==>
          numbers[i] > 0 && numbers[i] !in used(codes[i]) && codes[i] in reserved && numbers[i] <= reserved[codes[i]])
    && (forall i, j :: 0 <= i < j < |codes| && codes[i] == codes[j] ==> numbers[i] < numbers[j])
  }

  lemma FreshGrows(used: TypeCode -> set<int>, codes: seq<TypeCode>, numbers: seq<int>, reserved: map<TypeCode, int>, code: TypeCode, n: int)
    requires Fresh(used, codes, numbers, reserved)
    requires n > 0 && n !in used(code) && (code in reserved ==> reserved[code] < n)
    ensures Fresh(used, codes + [code], numbers + [n], reserved[code := n])
  {
  }

  /** Whatever is reserved over one scan is fresh. */
  lemma {:induction false} ReserveAllFresh(cfg: Config, user: string, s: State, items: seq<Scanned>, codes: seq<TypeCode>)
    requires NoBlock(cfg, user)
    ensures var r := ReserveAll(cfg, user, s, items, codes);
            r.Some? && Fresh(InUse(cfg, items), codes, r.value.numbers, r.value.state.reserved)
  {
    if codes != [] {
      var k := |codes| - 1;
      ReserveAllFresh(cfg, user, s, items, codes[..k]);
      var before := ReserveAll(cfg, user, s, items, codes[..k]).value;
      var n := ReserveOnce(cfg, user, before.state, items, codes[k]);
      FreshGrows(InUse(cfg, items), codes[..k], before.numbers, before.state.reserved, codes[k], n);
      assert codes == codes[..k] + [codes[k]];
    }
  }

  /** Each loser gets the id of its number. */
  function StepFor(key: string, loser: Loser, code: TypeCode, n: int, slugify: string -> string): Renumber {
    var newId := FormatItemId(key, code, n);
    Renumber(loser.id, newId, loser.file.path,
             RenumberedPath(loser.file.path, loser.id, newId, loser.file.title, slugify), loser.keeper)
  }

  /** The code inside an id; nothing when the id does not follow the grammar. */
  function CodeOfId(id: string): Option<TypeCode> {
    match ParseItemId(id)
    case None => None
    case Some(p) => Some(p.code)
  }

  /** How a plan reads an id and what it writes down for a loser. */
  datatype Rules = Rules(codeOf: string -> Option<TypeCode>, step: (Loser, TypeCode, int) -> Renumber)

  function RulesFor(key: string, slugify: string -> string): Rules {
    Rules(CodeOfId, (loser: Loser, code: TypeCode, n: int) => StepFor(key, loser, code, n, slugify))
  }

  /** A plan over a scan: the losers in order, each with the next number of its id's code. */
  ghost predicate IsPlan(cfg: Config, user: string, s: State, items: seq<Scanned>, losers: seq<Loser>, codes: seq<TypeCode>,
                         rules: Rules, plan: seq<Renumber>) {
    var r := ReserveAll(cfg, user, s, items, codes);
    r.Some? && Assigned(losers, codes, r.value.numbers, rules, plan)
  }

  /** Every loser has the step its code and number make. */
  ghost predicate Assigned(losers: seq<Loser>, codes: seq<TypeCode>, numbers: seq<int>, rules: Rules, plan: seq<Renumber>) {
    && |plan| == |losers| == |codes| == |numbers|
    && (forall i :: 0 <= i < |losers| ==> rules.codeOf(losers[i].id) == Some(codes[i]))
    && (forall i :: 0 <= i < |losers| ==> plan[i] == rules.step(losers[i], codes[i], numbers[i]))
  }

  lemma AssignedGrows(losers: seq<Loser>, codes: seq<TypeCode>, numbers: seq<int>, rules: Rules, plan: seq<Renumber>,
                      loser: Loser, code: TypeCode, n: int)
    requires Assigned(losers, codes, numbers, rules, plan) && rules.codeOf(loser.id) == Some(code)
    ensures Assigned(losers + [loser], codes + [code], numbers + [n], rules, plan + [rules.step(loser, code, n)])
  {
  }

  lemma ReserveNextGrows(cfg: Config, user: string, s: State, items: seq<Scanned>, codes: seq<TypeCode>, code: TypeCode,
                         s': State, n: int)
    requires ReserveAll(cfg, user, s, items, codes).Some?
    requires Step(cfg, user, ReserveAll(cfg, user, s, items, codes).value.state, Reserve(ItemTypeFor(code)), items) == (s', Given(code, n))
    ensures ReserveAll(cfg, user, s, items, codes + [code])
            == Some(Reservation(s', ReserveAll(cfg, user, s, items, codes).value.numbers + [n]))
  {
    assert (codes + [code])[..|codes|] == codes;
  }

  /** PlanRenumber: one reservation per loser, group by group. Nothing comes back when an id does not follow
      the grammar or the user's ranges run out; nothing is written either way. */
  method PlanRenumber(dups: seq<Duplicate>, alloc: Allocator, items: seq<Scanned>, rules: Rules)
    returns (plan: Option<seq<Renumber>>, ghost codes: seq<TypeCode>)
    requires alloc.Valid()
    modifies alloc`reserved
    ensures plan.Some? ==> IsPlan(alloc.cfg, alloc.user, old(alloc.Now()), items, Losers(dups), codes, rules, plan.value)
    ensures plan.None? ==> !NoBlock(alloc.cfg, alloc.user) || exists l :: l in Losers(dups) && rules.codeOf(l.id).None?
  {
    plan, codes := PlanLosers(Losers(dups), alloc, items, rules);
  }

  method PlanLosers(losers: seq<Loser>, alloc: Allocator, items: seq<Scanned>, rules: Rules)
    returns (plan: Option<seq<Renumber>>, ghost codes: seq<TypeCode>)
    requires alloc.Valid()
    modifies alloc`reserved
    ensures plan.Some? ==> IsPlan(alloc.cfg, alloc.user, old(alloc.Now()), items, losers, codes, rules, plan.value)
    ensures plan.None? ==> !NoBlock(alloc.cfg, alloc.user) || exists l :: l in losers && rules.codeOf(l.id).None?
  {
    var made: seq<Renumber> := [];
    codes := [];
    ghost var s := alloc.Now();
    for i := 0 to |losers|
      invariant Planned(alloc, s, items, losers[..i], codes, rules, made)
    {
      var code := rules.codeOf(losers[i].id);
      if code.None? {
        assert losers[i] in losers;
        return None, codes;
      }
      var step := PlanOne(losers[i], code.value, alloc, items, rules, s, losers[..i], codes, made);
      if step.None? {
        return None, codes;
      }
      assert losers[..i + 1] == losers[..i] + [losers[i]];
      made := made + [step.value];
      codes := codes + [code.value];
    }
    assert losers[..|losers|] == losers;
    plan := Some(made);
  }

  /** The plan so far, and the allocator in the state its reservations left. */
  ghost predicate Planned(alloc: Allocator, s: State, items: seq<Scanned>, losers: seq<Loser>, codes: seq<TypeCode>,
                          rules: Rules, plan: seq<Renumber>)
    reads alloc
  {
    && IsPlan(alloc.cfg, alloc.user, s, items, losers, codes, rules, plan)
    && ReserveAll(alloc.cfg, alloc.user, s, items, codes).value.state == alloc.Now()
  }

  /** One reservation and the step it makes. */
  method PlanOne(loser: Loser, code: TypeCode, alloc: Allocator, items: seq<Scanned>, rules: Rules,
                 ghost s: State, ghost losers: seq<Loser>, ghost codes: seq<TypeCode>, ghost plan: seq<Renumber>)
    returns (step: Option<Renumber>)
    requires alloc.Valid() && rules.codeOf(loser.id) == Some(code) && Planned(alloc, s, items, losers, codes, rules, plan)
    modifies alloc`reserved
    ensures step.Some? ==> Planned(alloc, s, items, losers + [loser], codes + [code], rules, plan + [step.value])
    ensures step.None? ==> !NoBlock(alloc.cfg, alloc.user)
  {
    ghost var was := alloc.Now();
    ghost var numbers := ReserveAll(alloc.cfg, alloc.user, s, items, codes).value.numbers;
    ReserveGives(alloc.cfg, alloc.user, was, items, code);
    var g := alloc.ReserveNext(items, ItemTypeFor(code));
    if g.Nothing? {
      return None;
    }
    ReserveNextGrows(alloc.cfg, alloc.user, s, items, codes, code, alloc.Now(), g.number);
    AssignedGrows(losers, codes, numbers, rules, plan, loser, code, g.number);
    step := Some(rules.step(loser, code, g.number));
  }

  lemma ReserveGives(cfg: Config, user: string, s: State, items: seq<Scanned>, code: TypeCode)
    ensures var g := Step(cfg, user, s, Reserve(ItemTypeFor(code)), items).1;
            (g.Given? ==> g.code == code) && (g.Nothing? ==> !NoBlock(cfg, user))
  {
    if NoBlock(cfg, user) {
      var _ := ReserveOnce(cfg, user, s, items, code);
    }
  }
}
