/** The dry-run file system: buffered writes over a read-only base, and the list of changes it reports. */
module Overlay {
  import opened Text
  import opened MemoryFS

  // ---------------------------------------------------------------- the buffer as a value

  /** What the overlay holds besides the base. */
  datatype Buffer<+D> = Buffer(written: map<Path, D>, removed: set<Path>, dirs: set<Path>, order: seq<Path>)

  /** What a reader sees: the base without what was removed, under what was written. */
  function View<D>(base: map<Path, D>, b: Buffer<D>): map<Path, D> {
    (base - b.removed) + b.written
  }

  function Recorded(order: seq<Path>, p: Path): seq<Path> {
    if p in order then order else order + [p]
  }

  function Wrote<D>(b: Buffer<D>, p: Path, data: D): Buffer<D> {
    Buffer(b.written[p := data], b.removed - {p}, b.dirs, Recorded(b.order, p))
  }

  function Deleted<D>(b: Buffer<D>, p: Path): Buffer<D> {
    Buffer(b.written - {p}, b.removed + {p}, b.dirs, Recorded(b.order, p))
  }

  function Made<D>(b: Buffer<D>, p: Path): Buffer<D> {
    Buffer(b.written, b.removed - Upward(p), b.dirs + Upward(p), b.order)
  }

  function Stepped<D>(base: map<Path, D>, b: Buffer<D>, op: Op<D>): Buffer<D> {
    match op
    case Write(p, data) => Wrote(b, p, data)
    case Delete(p) => Deleted(b, p)
    case Move(from, to) => if from in View(base, b) then Deleted(Wrote(b, to, View(base, b)[from]), from) else b
    case Mkdir(p) => Made(b, p)
  }

  function Ran<D>(base: map<Path, D>, ops: seq<Op<D>>): Buffer<D> {
    if ops == [] then Buffer(map[], {}, {}, [])
    else Stepped(base, Ran(base, ops[..|ops| - 1]), ops[|ops| - 1])
  }

  /** A path is written or removed, never both, and only once in the order of first touches. */
  ghost predicate Sound<D>(b: Buffer<D>) {
    && b.written.Keys !! b.removed
    && (forall p :: p in b.written || p in b.removed ==> p in b.order)
    && (forall i, j :: 0 <= i < j < |b.order| ==> b.order[i] != b.order[j])
  }

  lemma StepSound<D>(base: map<Path, D>, b: Buffer<D>, op: Op<D>)
    requires Sound(b)
    ensures Sound(Stepped(base, b, op))
  {
  }

  /** The paths an operation touches. */
  ghost predicate Touches<D>(base: map<Path, D>, b: Buffer<D>, op: Op<D>, p: Path) {
    match op
    case Write(q, _) => p == q
    case Delete(q) => p == q
    case Move(from, to) => from in View(base, b) && (p == to || p == from)
    case Mkdir(_) => false
  }

  /** The touched paths are listed once, those of earlier operations first, and of a move the new one before the old
      one. A new folder is remembered with every folder above it, and nothing else adds a folder. */
  lemma StepListed<D>(base: map<Path, D>, b: Buffer<D>, op: Op<D>)
    ensures var after := Stepped(base, b, op);
            && b.order <= after.order
            && (forall p :: p in after.order <==> p in b.order || Touches(base, b, op, p))
            && (op.Move? && op.from in View(base, b) && op.from !in b.order && op.to !in b.order && op.from != op.to ==>
                  after.order == b.order + [op.to, op.from])
            && (forall d :: d in after.dirs <==> d in b.dirs || (op.Mkdir? && d != [] && (d == op.path || Below(op.path, d))))
  {
    if op.Mkdir? {
      forall d
        ensures d in Upward(op.path) <==> d != [] && (d == op.path || Below(op.path, d))
      {
        UpwardIs(op.path, d);
      }
    }
  }

  // ---------------------------------------------------------------- simulation

  /** A buffered file operation does to the view what the operation does to files. */
  lemma FileStepSimulates<D>(base: map<Path, D>, b: Buffer<D>, op: Op<D>)
    requires Sound(b) && !op.Mkdir?
    ensures View(base, Stepped(base, b, op)) == Effect(View(base, b), op)
  {
    match op
    case Write(p, data) => WroteView(base, b, p, data);
    case Delete(p) => DeletedView(base, b, p);
    case Move(from, to) =>
      if from in View(base, b) {
        WroteView(base, b, to, View(base, b)[from]);
        DeletedView(base, Wrote(b, to, View(base, b)[from]), from);
      }
  }

  lemma WroteView<D>(base: map<Path, D>, b: Buffer<D>, p: Path, data: D)
    ensures View(base, Wrote(b, p, data)) == View(base, b)[p := data]
  {
  }

  lemma DeletedView<D>(base: map<Path, D>, b: Buffer<D>, p: Path)
    ensures View(base, Deleted(b, p)) == View(base, b) - {p}
  {
  }

  /** Making a folder leaves the view alone exactly when neither it nor a folder above it is a base file that
      was removed: such a file would come back. */
  lemma MkdirStepSimulates<D>(base: map<Path, D>, b: Buffer<D>, p: Path)
    requires Sound(b)
    ensures View(base, Made(b, p)) == View(base, b) <==> forall d :: d in Upward(p) && d in b.removed ==> d !in base
  {
    if d :| d in Upward(p) && d in b.removed && d in base {
      assert d in View(base, Made(b, p)) && d !in View(base, b);
    }
  }

  /** No folder to be made is a base file. */
  ghost predicate Makeable<D>(base: map<Path, D>, ops: seq<Op<D>>) {
    forall i, d :: 0 <= i < |ops| && ops[i].Mkdir? && d in Upward(ops[i].path) ==> d !in base
  }

  /** Any run of file writes, removals, moves and new folders reads through the overlay as it does on the base. */
  lemma {:induction false} RunSimulates<D>(base: map<Path, D>, ops: seq<Op<D>>)
    requires Makeable(base, ops)
    ensures Sound(Ran(base, ops)) && View(base, Ran(base, ops)) == Effects(base, ops)
  {
    if ops == [] {
      assert base - {} == base;
    } else {
      var n := |ops| - 1;
      var b := Ran(base, ops[..n]);
      assert forall i :: 0 <= i < n ==> ops[..n][i] == ops[i];
      RunSimulates(base, ops[..n]);
      StepSound(base, b, ops[n]);
      if ops[n].Mkdir? {
        MkdirStepSimulates(base, b, ops[n].path);
      } else {
        FileStepSimulates(base, b, ops[n]);
      }
    }
  }

  // ---------------------------------------------------------------- the change list

  datatype Change<+D> = Change(path: Path, data: Option<D>)

  /** What is reported about one touched path: its removal if the base has it, its new content if it has any. */
  function ChangeOf<D>(known: Path -> bool, b: Buffer<D>, p: Path): seq<Change<D>> {
    if p in b.removed then (if known(p) then [Change(p, None)] else [])
    else if p in b.written then [Change(p, Some(b.written[p]))]
    else []
  }

  function ChangesOf<D>(known: Path -> bool, b: Buffer<D>, order: seq<Path>): seq<Change<D>> {
    if order == [] then []
    else ChangesOf(known, b, order[..|order| - 1]) + ChangeOf(known, b, order[|order| - 1])
  }

  /** What is reported, entry by entry: the removal of a touched path that the base knows and the buffer removed, and
      the new content of a touched path that the buffer wrote and did not remove; in the order of the touches. */
  lemma {:induction false} ChangesMean<D>(known: Path -> bool, b: Buffer<D>, order: seq<Path>, c: Change<D>)
    ensures c in ChangesOf(known, b, order)
            <==> c.path in order && if c.path in b.removed then known(c.path) && c.data.None?
                                    else c.path in b.written && c.data == Some(b.written[c.path])
  {
    if order != [] {
      var n := |order| - 1;
      ChangesMean(known, b, order[..n], c);
      assert order == order[..n] + [order[n]];
      assert c.path in order <==> c.path in order[..n] || c.path == order[n];
    }
  }

  lemma {:induction false} ChangesOrdered<D>(known: Path -> bool, b: Buffer<D>, order: seq<Path>, i: nat, j: nat)
    requires i < j < |ChangesOf(known, b, order)|
    ensures InOrder(order, ChangesOf(known, b, order)[i].path, ChangesOf(known, b, order)[j].path)
  {
    var n := |order| - 1;
    var before := ChangesOf(known, b, order[..n]);
    assert forall k :: 0 <= k < n ==> order[..n][k] == order[k];
    if j < |before| {
      ChangesOrdered(known, b, order[..n], i, j);
      var k, l :| 0 <= k < l < n && order[..n][k] == before[i].path && order[..n][l] == before[j].path;
      assert order[k] == before[i].path && order[l] == before[j].path;
    } else {
      assert before[i] in before;
      ChangesMean(known, b, order[..n], before[i]);
      var k :| 0 <= k < n && order[..n][k] == before[i].path;
      assert order[k] == before[i].path && order[n] == ChangesOf(known, b, order)[j].path;
    }
  }

  function Replayed<D>(files: map<Path, D>, cs: seq<Change<D>>): map<Path, D> {
    if cs == [] then files
    else
      var c := cs[|cs| - 1];
      var before := Replayed(files, cs[..|cs| - 1]);
      if c.data.Some? then before[c.path := c.data.value] else before - {c.path}
  }

  lemma {:induction false} ReplayOne<D>(files: map<Path, D>, cs: seq<Change<D>>, known: Path -> bool, b: Buffer<D>, p: Path)
    ensures var after := Replayed(files, cs + ChangeOf(known, b, p));
            var before := Replayed(files, cs);
            after == if p in b.removed then (if known(p) then before - {p} else before)
                     else if p in b.written then before[p := b.written[p]]
                     else before
  {
    var more := ChangeOf(known, b, p);
    if more != [] {
      assert (cs + more)[..|cs|] == cs;
    } else {
      assert cs + more == cs;
    }
  }

  ghost predicate Same<D>(a: map<Path, D>, b: map<Path, D>, p: Path) {
    (p in a <==> p in b) && (p in a ==> a[p] == b[p])
  }

  /** A touched path holds after the replay what the view holds; every other one what the base holds. */
  lemma {:induction false} ReplayAt<D>(base: map<Path, D>, known: Path -> bool, b: Buffer<D>, order: seq<Path>, p: Path)
    requires Sound(b) && (p in base ==> known(p))
    ensures Same(Replayed(base, ChangesOf(known, b, order)), if p in order then View(base, b) else base, p)
  {
    if order != [] {
      var n := |order| - 1;
      ReplayAt(base, known, b, order[..n], p);
      assert order == order[..n] + [order[n]];
      ReplayOne(base, ChangesOf(known, b, order[..n]), known, b, order[n]);
    }
  }

  /** Replaying the reported changes onto the base gives exactly what the overlay shows. */
  lemma {:induction false} ReplayIsView<D>(base: map<Path, D>, known: Path -> bool, b: Buffer<D>)
    requires Sound(b) && forall p :: p in base ==> known(p)
    ensures Replayed(base, ChangesOf(known, b, b.order)) == View(base, b)
  {
    forall p
      ensures Same(Replayed(base, ChangesOf(known, b, b.order)), View(base, b), p)
    {
      ReplayAt(base, known, b, b.order, p);
      UntouchedSame(base, b, p);
    }
    SameMaps(Replayed(base, ChangesOf(known, b, b.order)), View(base, b));
  }

  lemma UntouchedSame<D>(base: map<Path, D>, b: Buffer<D>, p: Path)
    requires Sound(b)
    ensures p !in b.order ==> Same(View(base, b), base, p)
  {
  }

  lemma SameMaps<D>(a: map<Path, D>, b: map<Path, D>)
    requires forall p :: Same(a, b, p)
    ensures a == b
  {
    assert forall p :: Same(a, b, p) ==> (p in a <==> p in b);
  }

  ghost predicate ReportsOnce<D>(cs: seq<Change<D>>, order: seq<Path>) {
    && (forall i :: 0 <= i < |cs| ==> cs[i].path in order)
    && (forall i, j :: 0 <= i < j < |cs| ==> cs[i].path != cs[j].path)
  }

  lemma ReportsMore<D>(cs: seq<Change<D>>, more: seq<Change<D>>, order: seq<Path>, p: Path)
    requires ReportsOnce(cs, order) && p !in order && |more| <= 1 && forall i :: 0 <= i < |more| ==> more[i].path == p
    ensures ReportsOnce(cs + more, order + [p])
  {
  }

  /** Each path is reported once at most. */
  lemma {:induction false} ChangesDistinct<D>(known: Path -> bool, b: Buffer<D>, order: seq<Path>)
    requires forall i, j :: 0 <= i < j < |order| ==> order[i] != order[j]
    ensures ReportsOnce(ChangesOf(known, b, order), order)
  {
    if order != [] {
      var n := |order| - 1;
      ChangesDistinct(known, b, order[..n]);
      ReportsMore(ChangesOf(known, b, order[..n]), ChangeOf(known, b, order[n]), order[..n], order[n]);
      assert order == order[..n] + [order[n]];
    }
  }

  // ---------------------------------------------------------------- listings

  /** A path or one below it. */
  predicate Under(q: Path, p: Path) {
    q == p || Below(q, p)
  }

  /** Something was removed or made at a path or below it. */
  ghost predicate Buried<D>(b: Buffer<D>, p: Path) {
    exists q :: (q in b.removed || q in b.dirs) && Under(q, p)
  }

  /** Something was written below a path. */
  ghost predicate Covered<D>(b: Buffer<D>, p: Path) {
    exists q :: q in b.written && Below(q, p)
  }

  predicate FileEntry(seen: map<string, bool>, name: string) {
    name in seen && !seen[name]
  }

  class OverlayFS<D> {
    const base: MemFS<D>
    var written: map<Path, D>
    var removed: set<Path>
    var dirs: set<Path>
    var order: seq<Path>

    constructor (base: MemFS<D>)
      ensures this.base == base && Now() == Buffer(map[], {}, {}, []) && Sound(Now())
    {
      this.base := base;
      written, removed, dirs, order := map[], {}, {}, [];
    }

    function Now(): Buffer<D>
      reads this
    {
      Buffer(written, removed, dirs, order)
    }

    ghost function Files(): map<Path, D>
      reads this, base
    {
      View(base.files, Now())
    }

    method ReadFile(p: Path) returns (r: Read<D>)
      ensures r == if p in Files() then Data(Files()[p]) else NotExist
    {
      if p in written {
        return Data(written[p]);
      }
      if p in removed {
        return NotExist;
      }
      r := base.ReadFile(p);
    }

    method Record(p: Path)
      modifies this`order
      ensures order == Recorded(old(order), p)
    {
      for i := 0 to |order|
        invariant order == old(order) && p !in order[..i]
      {
        assert order[..i + 1] == order[..i] + [order[i]];
        if order[i] == p {
          return;
        }
      }
      assert order[..|order|] == order;
      order := order + [p];
    }

    method WriteFile(p: Path, data: D)
      modifies this
      ensures Now() == Stepped(base.files, old(Now()), Write(p, data))
    {
      written := written[p := data];
      removed := removed - {p};
      Record(p);
    }

    method Remove(p: Path)
      modifies this
      ensures Now() == Stepped(base.files, old(Now()), Delete(p))
    {
      written := written - {p};
      removed := removed + {p};
      Record(p);
    }

    /** Reads the file, writes it under its new name and removes the old one. */
    method Rename(from: Path, to: Path) returns (ok: bool)
      requires Sound(Now())
      modifies this
      ensures Now() == Stepped(base.files, old(Now()), Move(from, to))
      ensures ok <==> from in old(Files())
    {
      var read := ReadFile(from);
      if read.NotExist? {
        return false;
      }
      WriteFile(to, read.data);
      Remove(from);
      ok := true;
    }

    method MkdirAll(p: Path)
      modifies this`dirs, this`removed
      ensures Now() == Stepped(base.files, old(Now()), Mkdir(p))
    {
      var dir := p;
      while dir != []
        invariant dirs + Upward(dir) == old(dirs) + Upward(p)
        invariant removed - Upward(dir) == old(removed) - Upward(p)
        decreases |dir|
      {
        dirs := dirs + {dir};
        removed := removed - {dir};
        dir := Parent(dir);
      }
    }

    /** The buffered state of a path first, then the base's. */
    method Stat(p: Path) returns (k: Kind)
      ensures k == File <==> p in Files() && (p in written || p !in dirs)
      ensures k == Folder <==> p !in written && p !in removed && (p in dirs || (p !in base.files && p in base.dirs))
    {
      if p in written {
        return File;
      }
      if p in removed {
        return Nothing;
      }
      if p in dirs {
        return Folder;
      }
      k := base.Stat(p);
    }

    /** Whether the base has a file or a folder of this name. */
    ghost function Known(): Path -> bool
      reads base
    {
      var files, dirs := base.files, base.dirs;
      (p: Path) => p in files || p in dirs
    }

    /** What the dry run would have done, in the order of the first touches. */
    method Changes() returns (cs: seq<Change<D>>)
      ensures cs == ChangesOf(Known(), Now(), order)
      ensures Sound(Now()) ==> Replayed(base.files, cs) == Files()
    {
      cs := [];
      for i := 0 to |order|
        invariant cs == ChangesOf(Known(), Now(), order[..i])
      {
        assert order[..i + 1][..i] == order[..i];
        var p := order[i];
        if p in removed {
          var k := base.Stat(p);
          if !k.Nothing? {
            cs := cs + [Change(p, None)];
          }
        } else if p in written {
          cs := cs + [Change(p, Some(written[p]))];
        }
      }
      assert order[..|order|] == order;
      if Sound(Now()) {
        ReplayIsView(base.files, Known(), Now());
      }
    }

    /** Merges the buffered entries into the listing of the base; each entry says whether it is a folder. Over a
        base where no file is a folder, a file is listed exactly when it can be seen, nothing was removed or made at
        its name or below, and nothing was written below. Where both a name and something below it were written, the
        order of a map decides whether the name is listed as a file. */
    method ReadDir(p: Path) returns (seen: map<string, bool>)
      requires base.Valid()
      ensures Forest(base.files.Keys, base.dirs) ==> forall name :: !(p + [name] in written && Covered(Now(), p + [name])) ==>
                (FileEntry(seen, name) <==> p + [name] in Files() && !Buried(Now(), p + [name]) && !Covered(Now(), p + [name]))
      ensures Forest(base.files.Keys, base.dirs) ==> forall name :: FileEntry(seen, name) ==> p + [name] in Files()
      ensures forall name, r :: name in seen && r in removed ==> !Under(r, p + [name])
    {
      var listed := base.ReadDir(p);
      var start := if listed.Some? then listed.value else map[];
      var below := ListWritten(p, start);
      var made := ListDirs(p, below);
      seen := HideRemoved(p, made);
      if Forest(base.files.Keys, base.dirs) {
        BaseListed(p, listed);
        forall name
          ensures !(p + [name] in written && Covered(Now(), p + [name])) ==>
                    (FileEntry(seen, name) <==> p + [name] in Files() && !Buried(Now(), p + [name]) && !Covered(Now(), p + [name]))
          ensures FileEntry(seen, name) ==> p + [name] in Files()
        {
          EntryStays(p, start, below, made, seen, name);
        }
      }
    }

    lemma BaseListed(p: Path, listed: Option<map<string, bool>>)
      requires base.Valid()
      requires listed.None? <==> p !in base.dirs
      requires listed.Some? ==> forall name :: name in listed.value && !listed.value[name] <==> p + [name] in base.files
      ensures forall name :: FileEntry(if listed.Some? then listed.value else map[], name) <==> p + [name] in base.files
    {
      forall name | p + [name] in base.files
        ensures p in base.dirs
      {
        assert Below(p + [name], p);
      }
    }

    /** What the written files make of one entry. */
    ghost predicate WrittenOver(p: Path, start: map<string, bool>, seen: map<string, bool>, name: string, done: set<Path>)
      reads this
    {
      var q := p + [name];
      && (FileEntry(seen, name) ==> FileEntry(start, name) || q in done)
      && (q !in written && (exists w :: w in done && Below(w, q)) ==> !FileEntry(seen, name))
      && (q in done && !Covered(Now(), q) ==> FileEntry(seen, name))
      && (FileEntry(start, name) && (forall w :: w in done ==> !Under(w, q)) ==> FileEntry(seen, name))
    }

    method ListWritten(p: Path, start: map<string, bool>) returns (seen: map<string, bool>)
      ensures forall name :: WrittenOver(p, start, seen, name, written.Keys)
    {
      seen := start;
      var left := written.Keys;
      while left != {}
        invariant left <= written.Keys
        invariant forall name :: WrittenOver(p, start, seen, name, written.Keys - left)
        decreases left
      {
        var w :| w in left;
        var name := Child(p, w);
        ghost var before := seen;
        if name.Some? {
          seen := seen[name.value := p + [name.value] != w];
        }
        forall n
          ensures WrittenOver(p, start, seen, n, written.Keys - (left - {w}))
        {
          OneWritten(p, start, before, seen, n, written.Keys - left, w);
          assert written.Keys - left + {w} == written.Keys - (left - {w});
        }
        left := left - {w};
      }
      assert written.Keys - left == written.Keys;
    }

    lemma OneWritten(p: Path, start: map<string, bool>, before: map<string, bool>, seen: map<string, bool>, n: string, done: set<Path>, w: Path)
      requires WrittenOver(p, start, before, n, done) && w in written && done <= written.Keys
      requires seen == match Child(p, w) case Some(name) => before[name := p + [name] != w] case None => before
      ensures WrittenOver(p, start, seen, n, done + {w})
    {
      ChildIs(p, w, n);
    }

    method ListDirs(p: Path, start: map<string, bool>) returns (seen: map<string, bool>)
      ensures forall name :: FileEntry(seen, name) <==> FileEntry(start, name) && forall d :: d in dirs ==> !Under(d, p + [name])
    {
      seen := start;
      var left := dirs;
      while left != {}
        invariant left <= dirs
        invariant forall name :: FileEntry(seen, name) <==> FileEntry(start, name) && forall d :: d in dirs - left ==> !Under(d, p + [name])
        decreases left
      {
        var d :| d in left;
        var name := Child(p, d);
        ghost var before := seen;
        if name.Some? {
          seen := seen[name.value := true];
        }
        forall n
          ensures FileEntry(seen, n) <==> FileEntry(before, n) && !Under(d, p + [n])
        {
          ChildIs(p, d, n);
        }
        left := left - {d};
      }
    }

    method HideRemoved(p: Path, start: map<string, bool>) returns (seen: map<string, bool>)
      ensures forall name :: FileEntry(seen, name) <==> FileEntry(start, name) && forall r :: r in removed ==> !Under(r, p + [name])
      ensures forall name, r :: name in seen && r in removed ==> !Under(r, p + [name])
    {
      seen := start;
      var left := removed;
      while left != {}
        invariant left <= removed
        invariant forall name :: FileEntry(seen, name) <==> FileEntry(start, name) && forall r :: r in removed - left ==> !Under(r, p + [name])
        invariant forall name, r :: name in seen && r in removed - left ==> !Under(r, p + [name])
        decreases left
      {
        var r :| r in left;
        var name := Child(p, r);
        ghost var before := seen;
        if name.Some? {
          seen := seen - {name.value};
        }
        forall n
          ensures n in seen <==> n in before && !Under(r, p + [n])
          ensures n in seen ==> seen[n] == before[n]
        {
          ChildIs(p, r, n);
        }
        forall n, other | n in seen && other in removed - (left - {r})
          ensures !Under(other, p + [n])
        {
          assert n in before && (other == r || other in removed - left);
        }
        left := left - {r};
      }
      assert removed - left == removed;
    }

    /** One entry through the three passes. */
    lemma EntryStays(p: Path, start: map<string, bool>, below: map<string, bool>, made: map<string, bool>, seen: map<string, bool>, name: string)
      requires FileEntry(start, name) <==> p + [name] in base.files
      requires WrittenOver(p, start, below, name, written.Keys)
      requires FileEntry(made, name) <==> FileEntry(below, name) && forall d :: d in dirs ==> !Under(d, p + [name])
      requires FileEntry(seen, name) <==> FileEntry(made, name) && forall r :: r in removed ==> !Under(r, p + [name])
      ensures !(p + [name] in written && Covered(Now(), p + [name])) ==>
                (FileEntry(seen, name) <==> p + [name] in Files() && !Buried(Now(), p + [name]) && !Covered(Now(), p + [name]))
      ensures FileEntry(seen, name) ==> p + [name] in Files()
    {
    }
  }

  /** A removal below a path hides it: once the only file of a folder is removed and a file takes the folder's
      place, the file can be read but is not listed. */
  method RemovalBelowHides() returns (seen: map<string, bool>, read: Read<string>)
    ensures "d" !in seen && read == Data("new")
  {
    var base := new MemFS(false);
    var _ := base.WriteFile(["d", "x"], "old");
    var fs := new OverlayFS(base);
    fs.Remove(["d", "x"]);
    fs.WriteFile(["d"], "new");
    read := fs.ReadFile(["d"]);
    seen := fs.ReadDir([]);
    assert ["d", "x"] in fs.removed && Below(["d", "x"], [] + ["d"]);
  }

  /** A dry run: the operations go through the overlay, the base is left alone, and the changes reported do to
      the base's files what the operations would have done. */
  method DryRun<D>(base: MemFS<D>, ops: seq<Op<D>>) returns (cs: seq<Change<D>>)
    ensures Makeable(base.files, ops) ==> Replayed(base.files, cs) == Effects(base.files, ops)
  {
    var fs := new OverlayFS(base);
    for i := 0 to |ops|
      invariant fs.base == base && Sound(fs.Now()) && fs.Now() == Ran(base.files, ops[..i])
    {
      assert ops[..i + 1][..i] == ops[..i];
      StepSound(base.files, fs.Now(), ops[i]);
      match ops[i] {
        case Write(p, data) => fs.WriteFile(p, data);
        case Delete(p) => fs.Remove(p);
        case Move(from, to) => var _ := fs.Rename(from, to);
        case Mkdir(p) => fs.MkdirAll(p);
      }
    }
    assert ops[..|ops|] == ops;
    cs := fs.Changes();
    if Makeable(base.files, ops) {
      RunSimulates(base.files, ops);
    }
  }
}
