/** The candidates of a board: which they are, that no reference occurs twice, and that the order in which
    repositories and items are listed decides nothing but their order. */
module BoardCards {
  import opened Text
  import opened Ids
  import opened Boards

  /** The candidates of one project of the scope. */
  ghost predicate Supplies(b: Board, input: Input, key: string, c: Candidate) {
    var source := SourceOf(input.sources, key);
    && Planned(c)
    && if source.Some? then exists it :: it in source.value.items && c == LiveCandidate(b, key, source.value.cfg, it)
       else key in input.snapshots && exists e :: e in input.snapshots[key].entries && c == RemoteCandidate(b, input, key, input.snapshots[key].cfg, e)
  }

  lemma {:induction false} LiveOfMembers(b: Board, s: Source, items: seq<Item>, c: Candidate)
    ensures c in LiveOf(b, s, items) <==> Planned(c) && exists it :: it in items && c == LiveCandidate(b, s.project, s.cfg, it)
  {
    if items != [] {
      var n := |items| - 1;
      LiveOfMembers(b, s, items[..n], c);
      assert items == items[..n] + [items[n]];
      assert forall it :: it in items <==> it in items[..n] || it == items[n];
    }
  }

  lemma {:induction false} RemoteOfMembers(b: Board, input: Input, key: string, cfg: Option<Workflow>, entries: seq<Entry>, c: Candidate)
    ensures c in RemoteOf(b, input, key, cfg, entries)
            <==> Planned(c) && exists e :: e in entries && c == RemoteCandidate(b, input, key, cfg, e)
  {
    if entries != [] {
      var n := |entries| - 1;
      RemoteOfMembers(b, input, key, cfg, entries[..n], c);
      assert entries == entries[..n] + [entries[n]];
      assert forall e :: e in entries <==> e in entries[..n] || e == entries[n];
    }
  }

  lemma SomeLast(scope: seq<string>, p: string -> bool)
    requires scope != []
    ensures (exists key :: key in scope && p(key)) <==> (exists key :: key in scope[..|scope| - 1] && p(key)) || p(scope[|scope| - 1])
  {
    var n := |scope| - 1;
    assert scope == scope[..n] + [scope[n]];
    assert forall key :: key in scope <==> key in scope[..n] || key == scope[n];
  }

  /** What a cloned project supplies, and what a snapshot does. */
  ghost function Supplier(b: Board, input: Input, cloned: bool, c: Candidate): string -> bool {
    (key: string) => SourceOf(input.sources, key).Some? == cloned && Supplies(b, input, key, c)
  }

  lemma LiveSupplied(b: Board, input: Input, key: string, c: Candidate)
    requires SourceOf(input.sources, key).Some?
    ensures c in LiveOf(b, SourceOf(input.sources, key).value, SourceOf(input.sources, key).value.items) <==> Supplier(b, input, true, c)(key)
  {
    var source := SourceOf(input.sources, key).value;
    LiveOfMembers(b, source, source.items, c);
  }

  lemma RemoteSupplied(b: Board, input: Input, key: string, c: Candidate)
    requires SourceOf(input.sources, key).None? && key in input.snapshots
    ensures c in RemoteOf(b, input, key, input.snapshots[key].cfg, input.snapshots[key].entries) <==> Supplier(b, input, false, c)(key)
  {
    RemoteOfMembers(b, input, key, input.snapshots[key].cfg, input.snapshots[key].entries, c);
  }

  lemma {:induction false} LiveInMembers(b: Board, input: Input, scope: seq<string>, c: Candidate)
    ensures c in LiveIn(b, input, scope) <==> exists key :: key in scope && Supplier(b, input, true, c)(key)
    decreases |scope|
  {
    if scope != [] {
      var n := |scope| - 1;
      LiveInMembers(b, input, scope[..n], c);
      SomeLast(scope, Supplier(b, input, true, c));
      if SourceOf(input.sources, scope[n]).Some? {
        LiveSupplied(b, input, scope[n], c);
      }
    }
  }

  lemma {:induction false} RemoteInMembers(b: Board, input: Input, scope: seq<string>, c: Candidate)
    ensures c in RemoteIn(b, input, scope) <==> exists key :: key in scope && Supplier(b, input, false, c)(key)
    decreases |scope|
  {
    if scope != [] {
      var n := |scope| - 1;
      RemoteInMembers(b, input, scope[..n], c);
      SomeLast(scope, Supplier(b, input, false, c));
      if SourceOf(input.sources, scope[n]).None? && scope[n] in input.snapshots {
        RemoteSupplied(b, input, scope[n], c);
      }
    }
  }

  /** The candidates are exactly what the projects of the scope supply. */
  lemma CandidatesAre(b: Board, input: Input, c: Candidate)
    ensures c in Candidates(b, input) <==> exists key :: key in b.Scope(input.declared) && Supplies(b, input, key, c)
  {
    var scope := b.Scope(input.declared);
    LiveInMembers(b, input, scope, c);
    RemoteInMembers(b, input, scope, c);
    forall key
      ensures Supplies(b, input, key, c) <==> Supplier(b, input, true, c)(key) || Supplier(b, input, false, c)(key)
    {
    }
  }

  // ---------------------------------------------------------------- no reference twice

  ghost predicate ItemsApart(items: seq<Item>) {
    forall i, j :: 0 <= i < j < |items| ==> items[i].id != items[j].id
  }

  ghost predicate EntriesApart(entries: seq<Entry>) {
    forall i, j :: 0 <= i < j < |entries| ==> entries[i].item.id != entries[j].item.id
  }

  /** Distinct project keys that contain no slash, and distinct item ids in each project. */
  ghost predicate WellSupplied(b: Board, input: Input) {
    && Unrepeated(b.Scope(input.declared)) && (forall key :: key in b.Scope(input.declared) ==> '/' !in key)
    && (forall s :: s in input.sources ==> ItemsApart(s.items))
    && (forall key :: key in input.snapshots ==> EntriesApart(input.snapshots[key].entries))
  }

  /** The project is the part of the reference before the slash. */
  predicate Named(c: Candidate) {
    Before(c.card.ref, '/') == c.card.project
  }

  ghost predicate RefsApart(cands: seq<Candidate>) {
    forall i, j :: 0 <= i < j < |cands| ==> cands[i].card.ref != cands[j].card.ref
  }

  lemma RefText(key: string, id: string, other: string)
    requires '/' !in key
    ensures Before(Ref(key, id).Text(), '/') == key
    ensures Ref(key, id).Text() == Ref(key, other).Text() ==> id == other
  {
    CutJoined(key, '/', id);
    CutJoined(key, '/', other);
    assert Ref(key, id).Text() == key + ['/'] + id && Ref(key, other).Text() == key + ['/'] + other;
  }

  /** A block of candidates of one project, apart and named. */
  ghost predicate Block(key: string, cands: seq<Candidate>) {
    RefsApart(cands) && forall c :: c in cands ==> c.card.project == key && Named(c)
  }

  lemma {:induction false} LiveBlock(b: Board, s: Source, items: seq<Item>)
    requires ItemsApart(items) && '/' !in s.project
    ensures Block(s.project, LiveOf(b, s, items))
    ensures forall c :: c in LiveOf(b, s, items) ==> exists it :: it in items && c.card.ref == Ref(s.project, it.id).Text()
  {
    if items != [] {
      var n := |items| - 1;
      var init := LiveOf(b, s, items[..n]);
      LiveBlock(b, s, items[..n]);
      var last := LiveCandidate(b, s.project, s.cfg, items[n]);
      RefText(s.project, items[n].id, items[n].id);
      forall c | c in init
        ensures c.card.ref != last.card.ref && exists it :: it in items && c.card.ref == Ref(s.project, it.id).Text()
      {
        var it :| it in items[..n] && c.card.ref == Ref(s.project, it.id).Text();
        RefText(s.project, it.id, items[n].id);
        assert it in items;
      }
      assert items[n] in items;
    }
  }

  lemma {:induction false} RemoteBlock(b: Board, input: Input, key: string, cfg: Option<Workflow>, entries: seq<Entry>)
    requires EntriesApart(entries) && '/' !in key
    ensures Block(key, RemoteOf(b, input, key, cfg, entries))
    ensures forall c :: c in RemoteOf(b, input, key, cfg, entries) ==> exists e :: e in entries && c.card.ref == Ref(key, e.item.id).Text()
  {
    if entries != [] {
      var n := |entries| - 1;
      var init := RemoteOf(b, input, key, cfg, entries[..n]);
      RemoteBlock(b, input, key, cfg, entries[..n]);
      var last := RemoteCandidate(b, input, key, cfg, entries[n]);
      RefText(key, entries[n].item.id, entries[n].item.id);
      forall c | c in init
        ensures c.card.ref != last.card.ref && exists e :: e in entries && c.card.ref == Ref(key, e.item.id).Text()
      {
        var e :| e in entries[..n] && c.card.ref == Ref(key, e.item.id).Text();
        RefText(key, e.item.id, entries[n].item.id);
        assert e in entries;
      }
      assert entries[n] in entries;
    }
  }

  /** Candidates of some projects, apart and named. */
  ghost predicate Blocks(keys: set<string>, cands: seq<Candidate>) {
    RefsApart(cands) && forall c :: c in cands ==> c.card.project in keys && Named(c)
  }

  lemma BlocksJoin(ks: set<string>, a: seq<Candidate>, ls: set<string>, b: seq<Candidate>)
    requires Blocks(ks, a) && Blocks(ls, b) && ks !! ls
    ensures Blocks(ks + ls, a + b)
  {
    forall i, j | 0 <= i < j < |a + b|
      ensures (a + b)[i].card.ref != (a + b)[j].card.ref
    {
      if i < |a| <= j {
        assert a[i] in a && b[j - |a|] in b;
      }
    }
  }

  /** The keys of a scope that are, or are not, cloned. */
  ghost function Keys(input: Input, scope: seq<string>, cloned: bool): set<string> {
    set key | key in scope && SourceOf(input.sources, key).Some? == cloned
  }

  lemma {:induction false} LiveBlocks(b: Board, input: Input, scope: seq<string>)
    requires Unrepeated(scope) && (forall key :: key in scope ==> '/' !in key) && forall s :: s in input.sources ==> ItemsApart(s.items)
    ensures Blocks(Keys(input, scope, true), LiveIn(b, input, scope))
    decreases |scope|
  {
    if scope != [] {
      var n := |scope| - 1;
      var key := scope[n];
      LiveBlocks(b, input, scope[..n]);
      assert scope == scope[..n] + [key];
      assert key !in scope[..n];
      var source := SourceOf(input.sources, key);
      if source.Some? {
        LiveBlock(b, source.value, source.value.items);
        assert Keys(input, scope, true) == Keys(input, scope[..n], true) + {key};
        BlocksJoin(Keys(input, scope[..n], true), LiveIn(b, input, scope[..n]), {key}, LiveOf(b, source.value, source.value.items));
      } else {
        assert Keys(input, scope, true) == Keys(input, scope[..n], true);
      }
    }
  }

  lemma {:induction false} RemoteBlocks(b: Board, input: Input, scope: seq<string>)
    requires Unrepeated(scope) && (forall key :: key in scope ==> '/' !in key)
    requires forall key :: key in input.snapshots ==> EntriesApart(input.snapshots[key].entries)
    ensures Blocks(Keys(input, scope, false), RemoteIn(b, input, scope))
    decreases |scope|
  {
    if scope != [] {
      var n := |scope| - 1;
      var key := scope[n];
      RemoteBlocks(b, input, scope[..n]);
      assert scope == scope[..n] + [key];
      assert key !in scope[..n];
      if SourceOf(input.sources, key).None? && key in input.snapshots {
        var snap := input.snapshots[key];
        RemoteBlock(b, input, key, snap.cfg, snap.entries);
        assert Keys(input, scope, false) == Keys(input, scope[..n], false) + {key};
        BlocksJoin(Keys(input, scope[..n], false), RemoteIn(b, input, scope[..n]), {key}, RemoteOf(b, input, key, snap.cfg, snap.entries));
      } else {
        assert Keys(input, scope[..n], false) <= Keys(input, scope, false);
      }
    }
  }

  /** No two candidates have the same reference. */
  lemma CandidatesApart(b: Board, input: Input)
    requires WellSupplied(b, input)
    ensures RefsApart(Candidates(b, input))
  {
    var scope := b.Scope(input.declared);
    LiveBlocks(b, input, scope);
    RemoteBlocks(b, input, scope);
    BlocksJoin(Keys(input, scope, true), LiveIn(b, input, scope), Keys(input, scope, false), RemoteIn(b, input, scope));
  }

  // ---------------------------------------------------------------- the same supply, listed differently

  /** The same repositories with the same items, and the same snapshots, each listed in any order. */
  ghost predicate SameSupply(input: Input, other: Input) {
    && other.declared == input.declared && other.sprint == input.sprint && other.parse == input.parse
    && (forall key :: SameSource(SourceOf(input.sources, key), SourceOf(other.sources, key)))
    && other.snapshots.Keys == input.snapshots.Keys
    && (forall key :: key in input.snapshots ==>
          other.snapshots[key].cfg == input.snapshots[key].cfg
          && forall e :: e in input.snapshots[key].entries <==> e in other.snapshots[key].entries)
  }

  ghost predicate SameSource(a: Option<Source>, b: Option<Source>) {
    && (a.Some? <==> b.Some?)
    && (a.Some? ==> b.value.project == a.value.project && b.value.cfg == a.value.cfg
                    && forall it :: it in a.value.items <==> it in b.value.items)
  }

  ghost predicate SourcesApart(sources: seq<Source>) {
    forall i, j :: 0 <= i < j < |sources| ==> sources[i].project != sources[j].project
  }

  /** With one source per project, the order of the sources does not matter. */
  lemma SourcesPermuted(sources: seq<Source>, other: seq<Source>, key: string)
    requires SourcesApart(sources) && SourcesApart(other) && forall s :: s in sources <==> s in other
    ensures SourceOf(sources, key) == SourceOf(other, key)
  {
    var a, b := SourceOf(sources, key), SourceOf(other, key);
    if a.Some? && b.Some? {
      var i :| 0 <= i < |sources| && sources[i] == a.value;
      var j :| 0 <= j < |sources| && sources[j] == b.value;
    }
  }

  lemma SuppliesAlike(b: Board, input: Input, other: Input, key: string, c: Candidate)
    requires SameSupply(input, other) && Supplies(b, input, key, c)
    ensures Supplies(b, other, key, c)
  {
    var source := SourceOf(input.sources, key);
    if source.Some? {
      var it :| it in source.value.items && c == LiveCandidate(b, key, source.value.cfg, it);
      assert SameSource(source, SourceOf(other.sources, key));
      assert it in SourceOf(other.sources, key).value.items;
    } else {
      var e :| e in input.snapshots[key].entries && c == RemoteCandidate(b, input, key, input.snapshots[key].cfg, e);
      assert SameSource(source, SourceOf(other.sources, key));
      assert e in other.snapshots[key].entries;
      assert RemoteCandidate(b, input, key, input.snapshots[key].cfg, e) == RemoteCandidate(b, other, key, input.snapshots[key].cfg, e);
    }
  }

  lemma SupplySymmetric(input: Input, other: Input)
    requires SameSupply(input, other)
    ensures SameSupply(other, input)
  {
    forall key
      ensures SameSource(SourceOf(other.sources, key), SourceOf(input.sources, key))
    {
      assert SameSource(SourceOf(input.sources, key), SourceOf(other.sources, key));
    }
  }

  /** The same supply offers the same candidates. */
  lemma SameCandidates(b: Board, input: Input, other: Input, c: Candidate)
    requires SameSupply(input, other)
    ensures c in Candidates(b, input) <==> c in Candidates(b, other)
  {
    CandidatesAre(b, input, c);
    CandidatesAre(b, other, c);
    SupplySymmetric(input, other);
    if c in Candidates(b, input) {
      var key :| key in b.Scope(input.declared) && Supplies(b, input, key, c);
      SuppliesAlike(b, input, other, key, c);
    }
    if c in Candidates(b, other) {
      var key :| key in b.Scope(other.declared) && Supplies(b, other, key, c);
      SuppliesAlike(b, other, input, key, c);
    }
  }
}
