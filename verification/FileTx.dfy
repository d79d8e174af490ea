/** The file transaction of a repair: staged writes and removals, commit, and rollback, over a file
    store in which any operation may fail without effect. */
module FileTx {
  import opened Text

  datatype ReadResult<+D> = Data(data: D) | NotExist | Failed

  datatype RemoveResult = Removed | WasMissing | RemoveFailed

  /** How many operations a store has seen, and how many of them were faulty. */
  datatype Clock = Clock(ops: nat, faults: nat) {
    function Tick(fault: bool): Clock {
      Clock(ops + 1, faults + if fault then 1 else 0)
    }
  }

  ghost predicate Lone(faulty: nat -> bool, n: nat) {
    faulty(n) && forall k :: k != n ==> !faulty(k)
  }

  /** The file part of core.FS. Each operation either does its work or reports a fault and changes no file; a
      schedule, which may be any, says which operations are faulty. */
  class Store<D> {
    var files: map<string, D>
    var clock: Clock
    const faulty: nat -> bool

    constructor (files: map<string, D>, faulty: nat -> bool)
      ensures this.files == files && this.faulty == faulty && clock == Clock(0, 0)
    {
      this.files, this.clock, this.faulty := files, Clock(0, 0), faulty;
    }

    /** No fault among the next operations. */
    ghost predicate Quiet(start: nat, n: nat) {
      forall k :: start <= k < start + n ==> !faulty(k)
    }

    /** The schedule has a single fault. */
    ghost predicate OnlyAt(n: nat) {
      Lone(faulty, n)
    }

    method ReadFile(p: string) returns (r: ReadResult<D>)
      modifies this`clock
      ensures (r.Failed? <==> faulty(old(clock.ops))) && clock == old(clock).Tick(r.Failed?)
      ensures r.Data? ==> p in files && r.data == files[p]
      ensures r.NotExist? ==> p !in files
    {
      if faulty(clock.ops) {
        r := Failed;
      } else if p in files {
        r := Data(files[p]);
      } else {
        r := NotExist;
      }
      clock := clock.Tick(r.Failed?);
    }

    method WriteFile(p: string, data: D) returns (ok: bool)
      modifies this
      ensures files == if ok then old(files)[p := data] else old(files)
      ensures ok == !faulty(old(clock.ops)) && clock == old(clock).Tick(!ok)
    {
      ok := !faulty(clock.ops);
      if ok {
        files := files[p := data];
      }
      clock := clock.Tick(!ok);
    }

    method Remove(p: string) returns (r: RemoveResult)
      modifies this
      ensures files == if r.Removed? then old(files) - {p} else old(files)
      ensures r.Removed? ==> p in old(files)
      ensures r.WasMissing? ==> p !in old(files)
      ensures (r.RemoveFailed? <==> faulty(old(clock.ops))) && clock == old(clock).Tick(r.RemoveFailed?)
    {
      if faulty(clock.ops) {
        r := RemoveFailed;
      } else if p in files {
        files, r := files - {p}, Removed;
      } else {
        r := WasMissing;
      }
      clock := clock.Tick(r.RemoveFailed?);
    }

    method Rename(from: string, to: string) returns (ok: bool)
      modifies this
      ensures ok ==> from in old(files) && files == old(files)[to := old(files)[from]] - {from}
      ensures !ok ==> files == old(files)
      ensures ok == (from in old(files) && !faulty(old(clock.ops))) && clock == old(clock).Tick(faulty(old(clock.ops)))
    {
      ok := from in files && !faulty(clock.ops);
      if ok {
        files := files[to := files[from]] - {from};
      }
      clock := clock.Tick(faulty(clock.ops));
    }

    /** The paths of the files directly inside a folder; a missing folder is an empty one. */
    method ReadDir(dir: string) returns (r: Option<set<string>>)
      modifies this`clock
      ensures r.None? == faulty(old(clock.ops)) && clock == old(clock).Tick(r.None?)
      ensures r.Some? ==> r.value == set p | p in files && DirName(p) == dir
    {
      r := None;
      if !faulty(clock.ops) {
        r := Some(set p | p in files && DirName(p) == dir);
      }
      clock := clock.Tick(r.None?);
    }

    /** Creating a folder changes no file. */
    method MkdirAll(p: string) returns (ok: bool)
      modifies this`clock
      ensures ok == !faulty(old(clock.ops)) && clock == old(clock).Tick(!ok)
    {
      ok := !faulty(clock.ops);
      clock := clock.Tick(!ok);
    }
  }

  /** A path holds the same in both: the same data, or nothing. */
  ghost predicate Same<D>(a: map<string, D>, b: map<string, D>, p: string) {
    (p in a <==> p in b) && (p in a ==> a[p] == b[p])
  }

  /** The files agree on every path besides the given ones. */
  ghost predicate Agree<D>(a: map<string, D>, b: map<string, D>, besides: set<string>) {
    forall p :: p !in besides ==> Same(a, b, p)
  }

  function PathSet(paths: seq<string>): set<string> {
    set p | p in paths
  }

  function TempOf(p: string): string {
    p + ".tmp"
  }

  lemma TempInjective(p: string, q: string)
    ensures TempOf(p) != p
    ensures TempOf(p) == TempOf(q) ==> p == q
  {
    assert TempOf(p)[..|p|] == p && TempOf(q)[..|q|] == q;
  }

  /** Writes a file through a temporary one: all of it, or nothing but the temporary. */
  method WriteFileAtomic<D>(fs: Store<D>, p: string, data: D) returns (ok: bool)
    modifies fs
    ensures Agree(fs.files, if ok then old(fs.files)[p := data] else old(fs.files), {TempOf(p)})
    ensures if ok then fs.clock.faults == old(fs.clock.faults) else fs.clock.faults > old(fs.clock.faults)
    ensures (ok ==> fs.clock.ops == old(fs.clock.ops) + 2) && (fs.Quiet(old(fs.clock.ops), 2) ==> ok)
  {
    TempInjective(p, p);
    var tmp := TempOf(p);
    ok := fs.WriteFile(tmp, data);
    if !ok {
      return;
    }
    ok := fs.Rename(tmp, p);
    if !ok {
      var _ := fs.Remove(tmp);
    }
  }

  // ---------------------------------------------------------------- staging

  datatype Staged<+D> = Staged(path: string, data: D)

  /** What a list of writes leaves behind, the last write of a path winning. */
  function Written<D>(ws: seq<Staged<D>>): map<string, D> {
    if ws == [] then map[]
    else Written(ws[..|ws| - 1])[ws[|ws| - 1].path := ws[|ws| - 1].data]
  }

  predicate DistinctPaths<D>(ws: seq<Staged<D>>) {
    forall i, j :: 0 <= i < j < |ws| ==> ws[i].path != ws[j].path
  }

  function PathsOf<D>(ws: seq<Staged<D>>): set<string> {
    set i | 0 <= i < |ws| :: ws[i].path
  }

  lemma {:induction false} WrittenKeys<D>(ws: seq<Staged<D>>)
    ensures Written(ws).Keys == PathsOf(ws)
  {
    if ws != [] {
      var init := ws[..|ws| - 1];
      WrittenKeys(init);
      forall p | p in PathsOf(ws)
        ensures p in Written(ws)
      {
        var i :| 0 <= i < |ws| && ws[i].path == p;
        if i < |ws| - 1 {
          assert init[i].path == p;
        }
      }
    }
  }

  /** When every entry carries the value of `m`, so does the outcome, in whatever order and however often. */
  lemma {:induction false} WrittenAgrees<D>(ws: seq<Staged<D>>, m: map<string, D>)
    requires forall i :: 0 <= i < |ws| ==> ws[i].path in m && m[ws[i].path] == ws[i].data
    ensures forall p :: p in Written(ws) ==> p in m && Written(ws)[p] == m[p]
  {
    if ws != [] {
      WrittenAgrees(ws[..|ws| - 1], m);
    }
  }

  lemma WrittenAppend<D>(ws: seq<Staged<D>>, w: Staged<D>)
    ensures Written(ws + [w]) == Written(ws)[w.path := w.data]
    ensures PathsOf(ws + [w]) == PathsOf(ws) + {w.path}
  {
    assert (ws + [w])[..|ws|] == ws;
    WrittenKeys(ws);
    WrittenKeys(ws + [w]);
  }

  lemma PathsAppend<D>(ws: seq<Staged<D>>, w: Staged<D>)
    ensures PathsOf(ws + [w]) == PathsOf(ws) + {w.path}
  {
    WrittenAppend(ws, w);
  }

  /** Replacing the data of an entry in place is an overwrite of its path. */
  lemma {:induction false} WrittenReplace<D>(ws: seq<Staged<D>>, i: nat, data: D)
    requires DistinctPaths(ws) && i < |ws|
    ensures Written(ws[i := Staged(ws[i].path, data)]) == Written(ws)[ws[i].path := data]
  {
    var n := |ws| - 1;
    var now := ws[i := Staged(ws[i].path, data)];
    if i < n {
      WrittenReplace(ws[..n], i, data);
      assert now[..n] == ws[..n][i := Staged(ws[i].path, data)];
    } else {
      assert now[..n] == ws[..n];
    }
  }

  /** fileTx: the staged operations and, once committing, what has to be undone. */
  class Tx<D> {
    const fs: Store<D>
    var writes: seq<Staged<D>>
    var removes: seq<string>
    var created: seq<string>
    var restored: seq<Staged<D>>

    constructor (fs: Store<D>)
      ensures this.fs == fs && Staging() && writes == [] && removes == []
    {
      this.fs := fs;
      writes, removes, created, restored := [], [], [], [];
    }

    /** Staged write paths stay distinct; nothing has been applied yet. */
    ghost predicate Staging()
      reads this
    {
      DistinctPaths(writes) && created == [] && restored == []
    }

    ghost function Outcome(files: map<string, D>): map<string, D>
      reads this
    {
      files + Written(writes) - PathSet(removes)
    }

    /** The temporary names the commit uses. */
    ghost function Temps(): set<string>
      reads this
    {
      set i | 0 <= i < |writes| :: TempOf(writes[i].path)
    }

    /** No staged operation names a temporary file of another one. */
    ghost predicate TempsFree()
      reads this
    {
      Temps() !! PathsOf(writes) && Temps() !! PathSet(removes)
    }

    method Write(p: string, data: D)
      requires Staging()
      modifies this`writes
      ensures Staging()
      ensures Written(writes) == old(Written(writes))[p := data]
      ensures PathsOf(writes) == old(PathsOf(writes)) + {p}
      ensures p !in old(PathsOf(writes)) ==> writes == old(writes) + [Staged(p, data)]
    {
      for i := 0 to |writes|
        invariant writes == old(writes)
        invariant forall j :: 0 <= j < i ==> writes[j].path != p
      {
        if writes[i].path == p {
          WrittenReplace(writes, i, data);
          writes := writes[i := Staged(p, data)];
          WrittenKeys(writes);
          WrittenKeys(old(writes));
          return;
        }
      }
      WrittenAppend(writes, Staged(p, data));
      writes := writes + [Staged(p, data)];
    }

    method StageRemove(p: string)
      requires Staging()
      modifies this`removes
      ensures removes == old(removes) + [p]
    {
      removes := removes + [p];
    }

    /** Applies everything, or undoes what it did. The files besides the temporaries end up as the whole outcome
        on success. After a failure whose undo operations all went through they are what `Undone` says of the
        removals done before it, and so as they were whenever the staged lists are undoable. It fails only after a
        fault, and needs a second one for the undo to fail: one fault never leaves half a commit. A single fault
        right before a removal makes the commit fail there. */
    method Commit() returns (ok: bool, clean: bool, ghost failed: nat)
      requires Staging()
      modifies this`created, this`restored, fs
      ensures TempsFree() && ok ==> Agree(fs.files, Outcome(old(fs.files)), Temps())
      ensures failed <= |removes|
      ensures TempsFree() && !ok && clean ==>
                Agree(fs.files, Undone(old(fs.files), Written(writes), removes[..failed]), Temps())
      ensures TempsFree() && CanUndo(old(fs.files)) && !ok && clean ==> Agree(fs.files, old(fs.files), Temps())
      ensures ok ==> fs.clock.faults == old(fs.clock.faults)
      ensures !ok ==> fs.clock.faults > old(fs.clock.faults) && (clean || fs.clock.faults >= old(fs.clock.faults) + 2)
      ensures TempsFree() ==> forall k :: 0 <= k < |removes| && fs.OnlyAt(old(fs.clock.ops) + OpsUntil(old(fs.files), k)) ==>
                !ok && clean && failed == k
    {
      ghost var before, start := fs.files, fs.clock.ops + 4 * |writes|;
      ok, clean, failed := Run();
      if !ok && CanUndo(before) {
        UndoneBefore(before, Written(writes), removes, failed);
      }
      if TempsFree() {
        forall k | 0 <= k < |removes| && fs.OnlyAt(start + RemovalOps(Present(before), removes[..k]))
          ensures !ok && clean && failed == k
        {
          StopsAlone(before, start, ok, clean, failed, k);
        }
      }
    }

    lemma StopsAlone(before: map<string, D>, start: nat, ok: bool, clean: bool, failed: nat, k: nat)
      requires failed <= |removes| && Stops(before, start, ok, clean, failed)
      requires k < |removes| && fs.OnlyAt(start + RemovalOps(Present(before), removes[..k]))
      ensures !ok && clean && failed == k
    {
      LoneStops(fs.faulty, Present(before), removes, start, if ok then |removes| else failed, k);
    }

    /** The loops of the commit and, after a fault, the undo. */
    method Run() returns (ok: bool, clean: bool, ghost failed: nat)
      requires Staging()
      modifies this`created, this`restored, fs
      ensures TempsFree() && ok ==> Agree(fs.files, Outcome(old(fs.files)), Temps())
      ensures failed <= |removes| && (!ok && failed == |removes| ==> failed == 0)
      ensures TempsFree() && !ok && clean ==>
                Agree(fs.files, Undone(old(fs.files), Written(writes), removes[..failed]), Temps())
      ensures ok ==> fs.clock.faults == old(fs.clock.faults)
      ensures !ok ==> fs.clock.faults > old(fs.clock.faults) && (clean || fs.clock.faults >= old(fs.clock.faults) + 2)
      ensures TempsFree() && fs.Quiet(old(fs.clock.ops), 4 * |writes|) ==>
                Stops(old(fs.files), old(fs.clock.ops) + 4 * |writes|, ok, clean, failed)
    {
      clean, failed := false, 0;
      ghost var before := fs.files;
      ok := WriteStaged();
      if ok {
        ok, failed := RemoveStaged(before);
      }
      if !ok {
        clean := Rollback();
      }
    }

    /** The removals stop at the failed one, and the undo goes through when no fault follows. */
    ghost predicate Stops(before: map<string, D>, start: nat, ok: bool, clean: bool, failed: nat)
      requires failed <= |removes|
      reads this, fs
    {
      && Stopped(fs.faulty, Present(before), removes, start, if ok then |removes| else failed)
      && (!ok ==> (forall n :: n > start + RemovalOps(Present(before), removes[..failed]) ==> !fs.faulty(n)) ==> clean)
    }

    /** The operations of a commit before it reads the file of its k-th removal. */
    ghost function OpsUntil(before: map<string, D>, k: nat): nat
      requires k <= |removes|
      reads this
    {
      4 * |writes| + RemovalOps(Present(before), removes[..k])
    }

    /** A caller's check of the staged lists: no file that is written anew and removed, but by the last removal,
        would come back changed. */
    ghost predicate CanUndo(before: map<string, D>)
      reads this
    {
      Undoable(before, Written(writes), removes)
    }

    /** The write loop of the commit. */
    method WriteStaged() returns (ok: bool)
      requires Staging()
      modifies this`created, this`restored, fs
      ensures TempsFree() ==> LeadsBack(old(fs.files), [])
      ensures TempsFree() && ok ==> Agree(fs.files, old(fs.files) + Written(writes), Temps())
      ensures TempsFree() && ok ==> CreatesNew(old(fs.files), Written(writes), created)
      ensures if ok then fs.clock.faults == old(fs.clock.faults) else fs.clock.faults > old(fs.clock.faults)
      ensures (ok ==> fs.clock.ops == old(fs.clock.ops) + 4 * |writes|) && (fs.Quiet(old(fs.clock.ops), 4 * |writes|) ==> ok)
    {
      ok := true;
      ghost var before := fs.files;
      var i := 0;
      while i < |writes|
        invariant 0 <= i <= |writes|
        invariant TempsFree() ==> Agree(fs.files, before + Written(writes[..i]), Temps())
        invariant TempsFree() ==> Recoverable(fs.files, before, restored, created, Temps())
        invariant TempsFree() ==> Touched(restored, created) == PathsOf(writes[..i])
        invariant ok && fs.clock.faults == old(fs.clock.faults) && fs.clock.ops == old(fs.clock.ops) + 4 * i
      {
        NextWrite(i);
        ghost var files := fs.files;
        ok := Put(writes[i], before);
        if !ok {
          if TempsFree() {
            RecoverableLeads(before);
          }
          return;
        }
        if TempsFree() {
          AgreeWritten(files, fs.files, before, Written(writes[..i]), writes[i], Temps());
        }
        i := i + 1;
      }
      assert writes[..i] == writes;
      if TempsFree() {
        RecoverableLeads(before);
        CreatedAre(fs.files, before, restored, created, Temps(), writes);
      }
    }

    lemma RecoverableLeads(before: map<string, D>)
      requires Recoverable(fs.files, before, restored, created, Temps())
      ensures LeadsBack(before, [])
    {
      UndoComplete(fs.files, before, restored, created, Temps());
      assert Undone(before, Written(writes), []) == before;
    }

    /** The undo lists lead back to what a clean undo leaves once some removals are done. */
    ghost predicate LeadsBack(before: map<string, D>, gone: seq<string>)
      reads this, fs
    {
      Agree(fs.files + Written(restored) - PathSet(created), Undone(before, Written(writes), gone), Temps())
    }

    /** The removal loop of the commit; `failed` is the removal that failed. */
    method RemoveStaged(ghost before: map<string, D>) returns (ok: bool, ghost failed: nat)
      requires TempsFree() ==> Agree(fs.files, before + Written(writes), Temps())
      requires TempsFree() ==> LeadsBack(before, []) && CreatesNew(before, Written(writes), created)
      modifies this`restored, fs
      ensures failed <= |removes| && (!ok ==> failed < |removes|)
      ensures TempsFree() && !ok ==> LeadsBack(before, removes[..failed])
      ensures TempsFree() && ok ==> Agree(fs.files, Outcome(before), Temps())
      ensures if ok then fs.clock.faults == old(fs.clock.faults) else fs.clock.faults > old(fs.clock.faults)
      ensures TempsFree() ==> Stopped(fs.faulty, Present(before), removes, old(fs.clock.ops), if ok then |removes| else failed)
      ensures TempsFree() && !ok ==> fs.clock.ops > old(fs.clock.ops) + RemovalOps(Present(before), removes[..failed])
    {
      ok, failed := true, 0;
      ghost var start := fs.clock.ops;
      var i := 0;
      while i < |removes|
        invariant failed <= i <= |removes|
        invariant ok && fs.clock.faults == old(fs.clock.faults)
        invariant TempsFree() ==> Removing(before, start, i)
      {
        failed := i;
        ok := RemoveNext(before, start, i);
        if !ok {
          return;
        }
        i := i + 1;
      }
      assert removes[..i] == removes;
    }

    /** The files there are once all writes are done. */
    ghost function Present(before: map<string, D>): set<string>
      reads this`writes
    {
      (before + Written(writes)).Keys
    }

    /** The first removals are done, without a fault in any of them. */
    ghost predicate Removing(before: map<string, D>, start: nat, i: nat)
      requires i <= |removes|
      reads this, fs
    {
      && Agree(fs.files, before + Written(writes) - PathSet(removes[..i]), Temps())
      && LeadsBack(before, removes[..i]) && CreatesNew(before, Written(writes), created)
      && fs.clock.ops == start + RemovalOps(Present(before), removes[..i]) && fs.Quiet(start, RemovalOps(Present(before), removes[..i]))
    }

    /** The next removal, or the fault that stops it. */
    method RemoveNext(ghost before: map<string, D>, ghost start: nat, i: nat) returns (ok: bool)
      requires i < |removes| && (TempsFree() ==> Removing(before, start, i))
      modifies this`restored, fs
      ensures if ok then fs.clock.faults == old(fs.clock.faults) else fs.clock.faults > old(fs.clock.faults)
      ensures TempsFree() && ok ==> Removing(before, start, i + 1)
      ensures TempsFree() && !ok ==> LeadsBack(before, removes[..i]) && fs.clock.ops > old(fs.clock.ops)
      ensures TempsFree() && !ok ==> Stopped(fs.faulty, Present(before), removes, start, i)
    {
      ghost var files, undo, at := fs.files, restored, fs.clock.ops;
      if TempsFree() {
        StillThere(files, before, i);
      }
      ok := Drop(removes[i]);
      NextOps(Present(before), removes, i);
      if TempsFree() && ok {
        NextGone(before, files, undo, i);
      }
    }

    /** What one more removal did to the files and the undo list. */
    lemma NextGone(before: map<string, D>, files: map<string, D>, undo: seq<Staged<D>>, i: nat)
      requires TempsFree() && i < |removes| && CreatesNew(before, Written(writes), created)
      requires Agree(files, before + Written(writes) - PathSet(removes[..i]), Temps())
      requires Agree(files + Written(undo) - PathSet(created), Undone(before, Written(writes), removes[..i]), Temps())
      requires fs.files == files - {removes[i]} && restored == undo + if removes[i] in files then [Staged(removes[i], files[removes[i]])] else []
      ensures Agree(fs.files, before + Written(writes) - PathSet(removes[..i + 1]), Temps()) && LeadsBack(before, removes[..i + 1])
    {
      NextRemove(i);
      StillThere(files, before, i);
      AgreeRemoved(files, before + Written(writes), PathSet(removes[..i]), removes[i], Temps());
      DropUndone(files, before, Written(writes), undo, created, removes, i, Temps());
    }

    lemma NextRemove(i: nat)
      requires i < |removes|
      ensures forall p :: p in removes[..i + 1] <==> p in removes[..i] || p == removes[i]
    {
      assert removes[..i + 1] == removes[..i] + [removes[i]];
    }

    /** A path about to be removed is no temporary one, and nothing has touched it unless it is also written. */
    lemma StillThere(files: map<string, D>, before: map<string, D>, i: nat)
      requires TempsFree() && i < |removes|
      requires Agree(files, before + Written(writes) - PathSet(removes[..i]), Temps())
      ensures removes[i] !in Temps()
      ensures removes[i] in files <==> removes[i] in before + Written(writes) && removes[i] !in removes[..i]
    {
      WrittenKeys(writes);
      assert removes[i] in set q | q in removes;
      assert Same(files, before + Written(writes) - PathSet(removes[..i]), removes[i]);
    }

    lemma NextWrite(i: nat)
      requires DistinctPaths(writes) && i < |writes|
      ensures Written(writes[..i + 1]) == Written(writes[..i])[writes[i].path := writes[i].data]
      ensures PathsOf(writes[..i + 1]) == PathsOf(writes[..i]) + {writes[i].path}
      ensures writes[i].path in PathsOf(writes) && writes[i].path !in PathsOf(writes[..i])
      ensures TempOf(writes[i].path) in Temps()
    {
      assert writes[..i + 1] == writes[..i] + [writes[i]];
      WrittenAppend(writes[..i], writes[i]);
    }

    /** One staged write: the undo entry first, then the folder, then the file. */
    method Put(w: Staged<D>, ghost before: map<string, D>) returns (ok: bool)
      modifies this`created, this`restored, fs
      ensures Agree(fs.files, if ok then old(fs.files)[w.path := w.data] else old(fs.files), {TempOf(w.path)})
      ensures TempOf(w.path) in Temps() && w.path !in Temps() && w.path !in old(Touched(restored, created))
              && old(Recoverable(fs.files, before, restored, created, Temps()))
              ==> Recoverable(fs.files, before, restored, created, Temps())
      ensures ok ==> Touched(restored, created) == old(Touched(restored, created)) + {w.path}
      ensures if ok then fs.clock.faults == old(fs.clock.faults) else fs.clock.faults > old(fs.clock.faults)
      ensures (ok ==> fs.clock.ops == old(fs.clock.ops) + 4) && (fs.Quiet(old(fs.clock.ops), 4) ==> ok)
    {
      var noted := Note(w.path, before);
      if !noted {
        return false;
      }
      ok := fs.MkdirAll(DirName(w.path));
      if ok {
        ghost var files := fs.files;
        ok := WriteFileAtomic(fs, w.path, w.data);
        if TempOf(w.path) in Temps() && Recoverable(files, before, restored, created, Temps()) {
          OnlyWritten(files, fs.files, w, ok);
          StillRecoverable(files, fs.files, before, restored, created, Temps(), w.path, TempOf(w.path));
        }
      }
    }

    /** Remembers how a path looks before it is written. */
    method Note(p: string, ghost before: map<string, D>) returns (ok: bool)
      modifies this`created, this`restored, fs`clock
      ensures ok == !fs.faulty(old(fs.clock.ops)) && fs.clock == old(fs.clock).Tick(!ok)
      ensures ok ==> Touched(restored, created) == old(Touched(restored, created)) + {p}
      ensures p !in Temps() && p !in old(Touched(restored, created)) && old(Recoverable(fs.files, before, restored, created, Temps()))
              ==> Recoverable(fs.files, before, restored, created, Temps())
    {
      var previous := fs.ReadFile(p);
      ok := !previous.Failed?;
      if previous.Data? {
        RestoreMore(fs.files, before, restored, created, Temps(), p, previous.data);
        restored := restored + [Staged(p, previous.data)];
      } else if previous.NotExist? {
        CreateMore(fs.files, before, restored, created, Temps(), p);
        created := created + [p];
      }
    }

    /** One staged removal: the file is read, removed and only then remembered. */
    method Drop(p: string) returns (ok: bool)
      modifies this`restored, fs
      ensures fs.files == if ok then old(fs.files) - {p} else old(fs.files)
      ensures ok ==> restored == old(restored) + if p in old(fs.files) then [Staged(p, old(fs.files)[p])] else []
      ensures !ok ==> restored == old(restored)
      ensures if ok then fs.clock.faults == old(fs.clock.faults) else fs.clock.faults > old(fs.clock.faults)
      ensures ok <==> fs.Quiet(old(fs.clock.ops), if p in old(fs.files) then 2 else 1)
      ensures if ok then fs.clock.ops == old(fs.clock.ops) + (if p in old(fs.files) then 2 else 1) else fs.clock.ops > old(fs.clock.ops)
    {
      var previous := fs.ReadFile(p);
      if previous.NotExist? {
        return true;
      }
      if previous.Failed? {
        return false;
      }
      var r := fs.Remove(p);
      ok := r.Removed?;
      if ok {
        restored := restored + [Staged(p, previous.data)];
      }
    }

    /** Restores every file the commit had already changed; `clean` when every undo went through. */
    method Rollback() returns (clean: bool)
      modifies fs
      ensures clean ==> fs.files == old(fs.files) + Written(restored) - PathSet(created)
      ensures if clean then fs.clock.faults == old(fs.clock.faults) else fs.clock.faults > old(fs.clock.faults)
      ensures (forall n :: n >= old(fs.clock.ops) ==> !fs.faulty(n)) ==> clean
    {
      clean := Restore();
      var gone := DeleteCreated();
      clean := clean && gone;
    }

    method Restore() returns (clean: bool)
      modifies fs
      ensures clean ==> fs.files == old(fs.files) + Written(restored)
      ensures if clean then fs.clock.faults == old(fs.clock.faults) else fs.clock.faults > old(fs.clock.faults)
      ensures fs.clock.ops >= old(fs.clock.ops) && ((forall n :: n >= old(fs.clock.ops) ==> !fs.faulty(n)) ==> clean)
    {
      clean := true;
      for i := 0 to |restored|
        invariant clean ==> fs.files == old(fs.files) + Written(restored[..i])
        invariant if clean then fs.clock.faults == old(fs.clock.faults) else fs.clock.faults > old(fs.clock.faults)
        invariant fs.clock.ops >= old(fs.clock.ops) && ((forall n :: n >= old(fs.clock.ops) ==> !fs.faulty(n)) ==> clean)
      {
        RestoreStep(old(fs.files), restored, i);
        var ok := fs.WriteFile(restored[i].path, restored[i].data);
        clean := clean && ok;
      }
      assert restored[..|restored|] == restored;
    }

    method DeleteCreated() returns (clean: bool)
      modifies fs
      ensures clean ==> fs.files == old(fs.files) - PathSet(created)
      ensures if clean then fs.clock.faults == old(fs.clock.faults) else fs.clock.faults > old(fs.clock.faults)
      ensures fs.clock.ops >= old(fs.clock.ops) && ((forall n :: n >= old(fs.clock.ops) ==> !fs.faulty(n)) ==> clean)
    {
      clean := true;
      for i := 0 to |created|
        invariant clean ==> fs.files == old(fs.files) - PathSet(created[..i])
        invariant if clean then fs.clock.faults == old(fs.clock.faults) else fs.clock.faults > old(fs.clock.faults)
        invariant fs.clock.ops >= old(fs.clock.ops) && ((forall n :: n >= old(fs.clock.ops) ==> !fs.faulty(n)) ==> clean)
      {
        assert created[..i + 1] == created[..i] + [created[i]];
        var r := fs.Remove(created[i]);
        clean := clean && !r.RemoveFailed?;
      }
      assert created[..|created|] == created;
    }

    /** No path is both written and removed. */
    ghost predicate Apart()
      reads this
    {
      PathsOf(writes) !! PathSet(removes)
    }

    lemma ApartUndoes(before: map<string, D>)
      requires Apart()
      ensures CanUndo(before)
    {
      WrittenKeys(writes);
      assert forall i :: 0 <= i < |removes| ==> removes[i] in set p | p in removes;
    }
  }

  ghost function Touched<D>(restored: seq<Staged<D>>, created: seq<string>): set<string> {
    PathsOf(restored) + PathSet(created)
  }

  /** The undo lists lead from `files` back to `before`: every entry carries the file's old state, and
      every file they do not name is still as it was. */
  ghost predicate Recoverable<D>(files: map<string, D>, before: map<string, D>, restored: seq<Staged<D>>,
                                 created: seq<string>, temps: set<string>) {
    && (forall i :: 0 <= i < |restored| ==> restored[i].path in before && before[restored[i].path] == restored[i].data)
    && (forall p :: p in created ==> p !in before)
    && Agree(files, before, Touched(restored, created) + temps)
  }

  /** One more write brings the files as far as one more staged entry does. */
  lemma AgreeWritten<D>(files: map<string, D>, after: map<string, D>, before: map<string, D>, written: map<string, D>,
                        w: Staged<D>, temps: set<string>)
    requires Agree(files, before + written, temps) && Agree(after, files[w.path := w.data], {TempOf(w.path)}) && TempOf(w.path) in temps
    ensures Agree(after, before + written[w.path := w.data], temps)
  {
    forall q | q !in temps
      ensures Same(after, before + written[w.path := w.data], q)
    {
      assert Same(files, before + written, q) && Same(after, files[w.path := w.data], q);
    }
  }

  lemma RestoreStep<D>(files: map<string, D>, ws: seq<Staged<D>>, i: nat)
    requires i < |ws|
    ensures files + Written(ws[..i + 1]) == (files + Written(ws[..i]))[ws[i].path := ws[i].data]
  {
    assert ws[..i + 1] == ws[..i] + [ws[i]];
    WrittenAppend(ws[..i], ws[i]);
  }

  lemma AgreeRemoved<D>(files: map<string, D>, goal: map<string, D>, gone: set<string>, p: string, temps: set<string>)
    requires Agree(files, goal - gone, temps)
    ensures Agree(files - {p}, goal - (gone + {p}), temps)
  {
    forall q | q !in temps
      ensures Same(files - {p}, goal - (gone + {p}), q)
    {
      assert Same(files, goal - gone, q);
    }
  }

  lemma OnlyWritten<D>(files: map<string, D>, after: map<string, D>, w: Staged<D>, ok: bool)
    requires Agree(after, if ok then files[w.path := w.data] else files, {TempOf(w.path)})
    ensures forall q :: q != w.path && q != TempOf(w.path) ==> Same(after, files, q)
  {
    forall q | q != w.path && q != TempOf(w.path)
      ensures Same(after, files, q)
    {
      assert Same(after, if ok then files[w.path := w.data] else files, q);
    }
  }

  lemma RestoreMore<D>(files: map<string, D>, before: map<string, D>, restored: seq<Staged<D>>, created: seq<string>,
                       temps: set<string>, p: string, data: D)
    requires p in files && files[p] == data
    ensures Touched(restored + [Staged(p, data)], created) == Touched(restored, created) + {p}
    ensures p !in temps && p !in Touched(restored, created) && Recoverable(files, before, restored, created, temps)
            ==> Recoverable(files, before, restored + [Staged(p, data)], created, temps)
  {
    PathsAppend(restored, Staged(p, data));
    if p !in temps && p !in Touched(restored, created) && Recoverable(files, before, restored, created, temps) {
      assert Same(files, before, p);
    }
  }

  lemma CreateMore<D>(files: map<string, D>, before: map<string, D>, restored: seq<Staged<D>>, created: seq<string>,
                      temps: set<string>, p: string)
    requires p !in files
    ensures Touched(restored, created + [p]) == Touched(restored, created) + {p}
    ensures p !in temps && p !in Touched(restored, created) && Recoverable(files, before, restored, created, temps)
            ==> Recoverable(files, before, restored, created + [p], temps)
  {
    assert (set q | q in created + [p]) == PathSet(created) + {p};
    if p !in temps && p !in Touched(restored, created) && Recoverable(files, before, restored, created, temps) {
      assert Same(files, before, p);
    }
  }

  /** Changing a remembered path, or a temporary one, leaves the old state recoverable. */
  lemma StillRecoverable<D>(files: map<string, D>, after: map<string, D>, before: map<string, D>, restored: seq<Staged<D>>,
                            created: seq<string>, temps: set<string>, p: string, temp: string)
    requires Recoverable(files, before, restored, created, temps) && p in Touched(restored, created) && temp in temps
    requires forall q :: q != p && q != temp ==> Same(after, files, q)
    ensures Recoverable(after, before, restored, created, temps)
  {
    forall q | q !in Touched(restored, created) + temps
      ensures Same(after, before, q)
    {
      assert Same(after, files, q) && Same(files, before, q);
    }
  }

  lemma UndoComplete<D>(files: map<string, D>, before: map<string, D>, restored: seq<Staged<D>>,
                        created: seq<string>, temps: set<string>)
    requires Recoverable(files, before, restored, created, temps)
    ensures Agree(files + Written(restored) - PathSet(created), before, temps)
  {
    WrittenKeys(restored);
    WrittenAgrees(restored, before);
    var now := files + Written(restored) - PathSet(created);
    forall p | p !in temps
      ensures Same(now, before, p)
    {
      assert p !in Touched(restored, created) ==> Same(files, before, p);
    }
  }

  // ---------------------------------------------------------------- what an undo leaves

  /** What a clean undo leaves once some removals are done: a file that was written anew and then removed comes
      back with the staged data, since its last undo entry carries that; every other file comes back as it was. */
  function Undone<D>(before: map<string, D>, staged: map<string, D>, gone: seq<string>): map<string, D> {
    before + map p | p in staged && p in before && p in gone :: staged[p]
  }

  /** No file that existed, is written with other data and removed, besides the one the last removal names. */
  ghost predicate Undoable<D>(before: map<string, D>, staged: map<string, D>, removes: seq<string>) {
    forall i :: 0 <= i < |removes| - 1 && removes[i] in staged && removes[i] in before ==> staged[removes[i]] == before[removes[i]]
  }

  lemma UndoneBefore<D>(before: map<string, D>, staged: map<string, D>, removes: seq<string>, k: nat)
    requires Undoable(before, staged, removes) && k <= |removes| && (k == |removes| ==> k == 0)
    ensures Undone(before, staged, removes[..k]) == before
  {
    forall p | p in staged && p in before && p in removes[..k]
      ensures staged[p] == before[p]
    {
      var i :| 0 <= i < k && removes[..k][i] == p;
      assert removes[i] == p;
    }
  }

  /** A clean undo restores the old files, wherever among the removals a fault strikes, exactly when the staged
      lists are undoable. */
  lemma UndoneExactly<D>(before: map<string, D>, staged: map<string, D>, removes: seq<string>)
    ensures (forall k :: 0 <= k < |removes| ==> Undone(before, staged, removes[..k]) == before) <==> Undoable(before, staged, removes)
  {
    if Undoable(before, staged, removes) {
      forall k | 0 <= k < |removes|
        ensures Undone(before, staged, removes[..k]) == before
      {
        UndoneBefore(before, staged, removes, k);
      }
    }
    if i :| 0 <= i < |removes| - 1 && removes[i] in staged && removes[i] in before && staged[removes[i]] != before[removes[i]] {
      assert removes[..i + 1][i] == removes[i];
      assert Undone(before, staged, removes[..i + 1])[removes[i]] == staged[removes[i]];
    }
  }

  /** The files that had to be made are those the staged writes name and the old files lack. */
  ghost predicate CreatesNew<D>(before: map<string, D>, staged: map<string, D>, created: seq<string>) {
    forall p :: p in created <==> p in staged && p !in before
  }

  lemma CreatedAre<D>(files: map<string, D>, before: map<string, D>, restored: seq<Staged<D>>, created: seq<string>, temps: set<string>,
                      writes: seq<Staged<D>>)
    requires Recoverable(files, before, restored, created, temps) && Touched(restored, created) == PathsOf(writes)
    ensures CreatesNew(before, Written(writes), created)
  {
    WrittenKeys(writes);
    forall p
      ensures p in created <==> p in Written(writes) && p !in before
    {
      assert p in Written(writes) <==> p in Touched(restored, created);
      if p in PathsOf(restored) {
        var i :| 0 <= i < |restored| && restored[i].path == p;
      }
    }
  }

  /** One more removal leads back to what one more removal leaves. */
  lemma DropUndone<D>(files: map<string, D>, before: map<string, D>, staged: map<string, D>, restored: seq<Staged<D>>, created: seq<string>,
                      removes: seq<string>, i: nat, temps: set<string>)
    requires i < |removes| && removes[i] !in temps && CreatesNew(before, staged, created)
    requires Agree(files, before + staged - PathSet(removes[..i]), temps)
    requires Agree(files + Written(restored) - PathSet(created), Undone(before, staged, removes[..i]), temps)
    ensures var p := removes[i];
            var more := restored + if p in files then [Staged(p, files[p])] else [];
            Agree(files - {p} + Written(more) - PathSet(created), Undone(before, staged, removes[..i + 1]), temps)
  {
    var p := removes[i];
    var more := restored + if p in files then [Staged(p, files[p])] else [];
    if p in files {
      WrittenAppend(restored, Staged(p, files[p]));
    } else {
      assert more == restored;
    }
    forall q | q !in temps
      ensures Same(files - {p} + Written(more) - PathSet(created), Undone(before, staged, removes[..i + 1]), q)
    {
      assert Same(files + Written(restored) - PathSet(created), Undone(before, staged, removes[..i]), q);
      assert Same(files, before + staged - PathSet(removes[..i]), q);
      assert q in removes[..i + 1] <==> q in removes[..i] || q == p by {
        assert removes[..i + 1] == removes[..i] + [p];
      }
    }
  }

  // ---------------------------------------------------------------- where a fault strikes

  /** The operations of some removals: one for a file that is not there, two for one that is. */
  function RemovalOps(present: set<string>, removes: seq<string>): nat {
    if removes == [] then 0
    else
      var n := |removes| - 1;
      RemovalOps(present, removes[..n]) + if removes[n] in present && removes[n] !in removes[..n] then 2 else 1
  }

  lemma NextOps(present: set<string>, removes: seq<string>, i: nat)
    requires i < |removes|
    ensures RemovalOps(present, removes[..i + 1])
            == RemovalOps(present, removes[..i]) + if removes[i] in present && removes[i] !in removes[..i] then 2 else 1
  {
    assert removes[..i + 1][..i] == removes[..i];
  }

  lemma {:induction false} OpsGrow(present: set<string>, removes: seq<string>, i: nat, k: nat)
    requires i <= k <= |removes|
    ensures RemovalOps(present, removes[..i]) <= RemovalOps(present, removes[..k])
    decreases k - i
  {
    if i < k {
      NextOps(present, removes, i);
      OpsGrow(present, removes, i + 1, k);
    }
  }

  /** The removals went on without a fault up to the i-th, and a fault stopped that one, if it is one. */
  ghost predicate Stopped(faulty: nat -> bool, present: set<string>, removes: seq<string>, start: nat, i: nat)
    requires i <= |removes|
  {
    && (forall n :: start <= n < start + RemovalOps(present, removes[..i]) ==> !faulty(n))
    && (i < |removes| ==> exists n :: start + RemovalOps(present, removes[..i]) <= n < start + RemovalOps(present, removes[..i + 1]) && faulty(n))
  }

  /** A single fault right before a removal is what stops it. */
  lemma LoneStops(faulty: nat -> bool, present: set<string>, removes: seq<string>, start: nat, i: nat, k: nat)
    requires i <= |removes| && Stopped(faulty, present, removes, start, i)
    requires k < |removes| && Lone(faulty, start + RemovalOps(present, removes[..k]))
    ensures i == k
  {
    NextOps(present, removes, k);
    if k < i {
      OpsGrow(present, removes, k + 1, i);
    } else if i < k {
      OpsGrow(present, removes, i + 1, k);
    }
  }

  lemma OneRemoval<D>(p: string, q: string, first: D, staged: D)
    ensures [p, q][..1] == [p] && RemovalOps((map[p := first] + map[p := staged]).Keys, [p]) == 2
    ensures p in Undone(map[p := first], map[p := staged], [p]) && Undone(map[p := first], map[p := staged], [p])[p] == staged
  {
    assert [p][..0] == [];
  }

  /** A commit that loses the old file: it is written anew and removed, a second removal faults, and the undo,
      which goes through, leaves the staged data. */
  method UndoLosesOld<D(==)>(p: string, q: string, first: D, staged: D) returns (files: map<string, D>, ok: bool, clean: bool)
    requires p != q && q != TempOf(p) && first != staged
    ensures !ok && clean && p in files && files[p] == staged
  {
    var fs := new Store(map[p := first], n => n == 6);
    var tx := new Tx(fs);
    tx.Write(p, staged);
    tx.StageRemove(p);
    tx.StageRemove(q);
    TempInjective(p, p);
    OneRemoval(p, q, first, staged);
    ghost var before, written := fs.files, Written(tx.writes);
    assert tx.removes == [p, q] && tx.writes == [Staged(p, staged)] && written == map[p := staged];
    assert tx.Temps() == {TempOf(p)} && tx.TempsFree();
    assert tx.OpsUntil(before, 1) == 6 && fs.OnlyAt(0 + 6);
    ghost var failed;
    ok, clean, failed := tx.Commit();
    assert tx.OpsUntil(before, 1) == 6 && failed == 1;
    assert Agree(fs.files, Undone(before, written, [p]), {TempOf(p)});
    assert Same(fs.files, Undone(before, written, [p]), p);
    files := fs.files;
  }
}
