/** The in-memory file system, the reference a dry run is compared with. Paths are clean and relative: the
    sequence of their segments, the empty one for the root. */
module MemoryFS {
  import opened Text

  type Path = seq<string>

  function Parent(p: Path): Path {
    if p == [] then [] else p[..|p| - 1]
  }

  /** Whether a path lies below another one. */
  predicate Below(p: Path, dir: Path) {
    |p| > |dir| && p[..|dir|] == dir
  }

  /** childName: the entry of a folder that a path belongs to. */
  function Child(dir: Path, p: Path): (r: Option<string>)
    ensures r.Some? <==> Below(p, dir)
    ensures r.Some? ==> p[..|dir| + 1] == dir + [r.value]
  {
    if Below(p, dir) then
      assert p[..|dir| + 1] == p[..|dir|] + [p[|dir|]];
      Some(p[|dir|])
    else None
  }

  lemma ChildIs(dir: Path, p: Path, name: string)
    ensures Child(dir, p) == Some(name) <==> p == dir + [name] || Below(p, dir + [name])
  {
    var q := dir + [name];
    if Child(dir, p) == Some(name) {
      assert p[..|q|] == q;
      assert |p| == |q| ==> p == p[..|q|];
    }
    if p == q || Below(p, q) {
      assert p[..|q|] == q && p[..|dir|] == q[..|dir|] == dir && p[|dir|] == q[|dir|];
    }
  }

  /** The folders a path needs: itself and every one above it, but the root. */
  function Upward(p: Path): set<Path> {
    if p == [] then {} else {p} + Upward(Parent(p))
  }

  lemma {:induction false} UpwardIs(p: Path, d: Path)
    ensures d in Upward(p) <==> d != [] && (d == p || Below(p, d))
  {
    if p != [] {
      UpwardIs(Parent(p), d);
      if d != p && |d| <= |p| - 1 {
        assert Parent(p)[..|d|] == p[..|d|];
        assert |d| == |p| - 1 ==> Parent(p)[..|d|] == Parent(p);
      }
    }
  }

  datatype Read<+D> = Data(data: D) | NotExist

  datatype Outcome = Done | Missing | NotEmpty | ReadOnlyMount

  datatype Kind = File | Folder | Nothing

  /** What the operations on files make of the files. */
  datatype Op<+D> = Write(path: Path, data: D) | Delete(path: Path) | Move(from: Path, to: Path) | Mkdir(path: Path)

  function Effect<D>(files: map<Path, D>, op: Op<D>): map<Path, D> {
    match op
    case Write(p, data) => files[p := data]
    case Delete(p) => files - {p}
    case Move(from, to) => if from in files then files[to := files[from]] - {from} else files
    case Mkdir(_) => files
  }

  function Effects<D>(files: map<Path, D>, ops: seq<Op<D>>): map<Path, D> {
    if ops == [] then files
    else Effect(Effects(files, ops[..|ops| - 1]), ops[|ops| - 1])
  }

  /** What an operation does, path by path: a write sets its path, a removal clears it, a move of a file sets the new
      path to its data and clears the old one, and nothing else changes. */
  lemma EffectAt<D>(files: map<Path, D>, op: Op<D>, q: Path)
    ensures var after := Effect(files, op);
            match op
            case Write(p, data) => (q == p ==> q in after && after[q] == data) && (q != p ==> Alike(files, after, q))
            case Delete(p) => (q == p ==> q !in after) && (q != p ==> Alike(files, after, q))
            case Move(from, to) =>
              if from !in files then Alike(files, after, q)
              else if q == from then q !in after
              else if q == to then q in after && after[q] == files[from]
              else Alike(files, after, q)
            case Mkdir(_) => Alike(files, after, q)
  {
  }

  ghost predicate Alike<D>(a: map<Path, D>, b: map<Path, D>, q: Path) {
    (q in a <==> q in b) && (q in a ==> a[q] == b[q])
  }

  /** MemFS: files, and the folders that are known to exist. */
  class MemFS<D> {
    var files: map<Path, D>
    var dirs: set<Path>
    const readOnly: bool

    constructor (readOnly: bool)
      ensures Valid() && files == map[] && this.readOnly == readOnly
    {
      files, dirs := map[], {[]};
      this.readOnly := readOnly;
    }

    /** The root exists, and so does every folder above a file. */
    ghost predicate Valid()
      reads this
    {
      [] in dirs && forall f, d :: f in files && Below(f, d) ==> d in dirs
    }

    method ReadFile(p: Path) returns (r: Read<D>)
      ensures r == if p in files then Data(files[p]) else NotExist
    {
      r := if p in files then Data(files[p]) else NotExist;
    }

    method Mkdirs(p: Path)
      requires Valid()
      modifies this`dirs
      ensures Valid() && dirs == old(dirs) + Upward(p)
    {
      var dir := p;
      while dir != []
        invariant [] in dirs && old(dirs) <= dirs
        invariant dirs + Upward(dir) == old(dirs) + Upward(p)
        decreases |dir|
      {
        dirs := dirs + {dir};
        dir := Parent(dir);
      }
    }

    method MkdirAll(p: Path) returns (r: Outcome)
      requires Valid()
      modifies this`dirs
      ensures Valid() && (r.Done? <==> !readOnly)
      ensures dirs == if readOnly then old(dirs) else old(dirs) + Upward(p)
    {
      if readOnly {
        return ReadOnlyMount;
      }
      Mkdirs(p);
      r := Done;
    }

    method WriteFile(p: Path, data: D) returns (r: Outcome)
      requires Valid()
      modifies this
      ensures Valid() && (r.Done? <==> !readOnly)
      ensures files == if readOnly then old(files) else old(files)[p := data]
      ensures dirs == if readOnly then old(dirs) else old(dirs) + Upward(Parent(p))
    {
      if readOnly {
        return ReadOnlyMount;
      }
      Mkdirs(Parent(p));
      FoldersAbove(p);
      files := files[p := data];
      r := Done;
    }

    /** Deletes a file or an empty folder. */
    method Remove(p: Path) returns (r: Outcome)
      requires Valid() && p != []
      modifies this
      ensures Valid()
      ensures files == if readOnly then old(files) else old(files) - {p}
      ensures r == if readOnly then ReadOnlyMount
                   else if p in old(files) then Done
                   else if p !in old(dirs) then Missing
                   else if exists f :: f in old(files) && Below(f, p) then NotEmpty
                   else Done
      ensures dirs == if r.Done? && p !in old(files) then old(dirs) - {p} else old(dirs)
    {
      if readOnly {
        return ReadOnlyMount;
      }
      if p in files {
        files := files - {p};
        return Done;
      }
      assert files - {p} == files;
      if p in dirs {
        if exists f :: f in files && Below(f, p) {
          return NotEmpty;
        }
        dirs := dirs - {p};
        return Done;
      }
      r := Missing;
    }

    /** Moves a file; a file moved onto itself is gone. Moving a folder is not modelled. */
    method Rename(from: Path, to: Path) returns (r: Outcome)
      requires Valid() && from !in dirs
      modifies this
      ensures Valid()
      ensures files == if readOnly || from !in old(files) then old(files) else old(files)[to := old(files)[from]] - {from}
      ensures r == if readOnly then ReadOnlyMount else if from in old(files) then Done else Missing
      ensures dirs == if r.Done? then old(dirs) + Upward(Parent(to)) else old(dirs)
    {
      if readOnly {
        return ReadOnlyMount;
      }
      if from !in files {
        return Missing;
      }
      var data := files[from];
      Mkdirs(Parent(to));
      FoldersAbove(to);
      files := files[to := data] - {from};
      r := Done;
    }

    method Stat(p: Path) returns (k: Kind)
      ensures k == if p in files then File else if p in dirs then Folder else Nothing
    {
      k := if p in files then File else if p in dirs then Folder else Nothing;
    }

    /** A folder entry that a file accounts for is a known folder, and no file itself. */
    lemma FolderListed(p: Path, name: string, fromFiles: map<string, bool>)
      requires Valid() && Forest(files.Keys, dirs)
      requires forall n :: n in fromFiles && fromFiles[n] ==> exists f :: f in files && Below(f, p + [n])
      ensures name in fromFiles && fromFiles[name] ==>
                p + [name] !in files && p + [name] in dirs && Child(p, p + [name]) == Some(name)
    {
      ChildIs(p, p + [name], name);
    }

    /** The entries of a folder, each with whether it is a folder; nothing for a folder that does not exist. */
    method ReadDir(p: Path) returns (r: Option<map<string, bool>>)
      requires Valid()
      ensures r.None? <==> p !in dirs
      ensures r.Some? && Forest(files.Keys, dirs) ==> forall name :: name in r.value && !r.value[name] <==> p + [name] in files
      ensures r.Some? && Forest(files.Keys, dirs) ==>
                forall name :: name in r.value && r.value[name] <==> p + [name] !in files && exists d :: d in dirs && Child(p, d) == Some(name)
    {
      if p !in dirs {
        return None;
      }
      var entries: map<string, bool> := map[];
      var left := files.Keys;
      while left != {}
        invariant left <= files.Keys
        invariant forall name :: name in entries <==> exists f :: f in files.Keys - left && Child(p, f) == Some(name)
        invariant forall name :: name in entries && !entries[name] ==> p + [name] in files
        invariant forall name :: name in entries && entries[name] ==> exists f :: f in files && Below(f, p + [name])
        decreases left
      {
        var f :| f in left;
        var name := Child(p, f);
        if name.Some? && name.value !in entries {
          ChildIs(p, f, name.value);
          entries := entries[name.value := |f| != |p| + 1];
          assert |f| == |p| + 1 ==> f == p + [name.value];
        }
        left := left - {f};
      }
      ghost var fromFiles := entries;
      left := dirs;
      while left != {}
        invariant left <= dirs
        invariant forall name :: name in fromFiles ==> name in entries && entries[name] == fromFiles[name]
        invariant forall name :: name in entries && name !in fromFiles ==> entries[name] && exists d :: d in dirs && Child(p, d) == Some(name)
        invariant forall d :: d in dirs - left && Child(p, d).Some? ==> Child(p, d).value in entries
        decreases left
      {
        var d :| d in left;
        var name := Child(p, d);
        if name.Some? && name.value !in entries {
          entries := entries[name.value := true];
        }
        left := left - {d};
      }
      if Forest(files.Keys, dirs) {
        forall name | p + [name] in files
          ensures name in entries && !entries[name]
        {
          ChildIs(p, p + [name], name);
          assert name in fromFiles;
        }
        forall name | name in entries && entries[name]
          ensures p + [name] !in files && exists d :: d in dirs && Child(p, d) == Some(name)
        {
          FolderListed(p, name, fromFiles);
        }
      }
      r := Some(entries);
    }
  }

  lemma FoldersAbove(p: Path)
    ensures forall d :: Below(p, d) && d != [] ==> d in Upward(Parent(p))
  {
    forall d | Below(p, d) && d != []
      ensures d in Upward(Parent(p))
    {
      UpwardIs(Parent(p), d);
      assert Parent(p)[..|d|] == p[..|d|];
      assert |d| == |p| - 1 ==> Parent(p)[..|d|] == Parent(p);
    }
  }

  /** No file is a folder or lies below another file. */
  ghost predicate Forest(files: set<Path>, dirs: set<Path>) {
    forall f, q :: f in files && q in files + dirs ==> !Below(q, f)
  }
}
