/** Setting one scalar at a key path of a YAML node tree, and the redirect table built from it. */
module YamlPath {
  import opened Text
  import opened Sorting

  datatype Node =
    | Mapping(entries: seq<Entry>)
    | Scalar(value: string, isNull: bool)
    | Other(text: string)

  datatype Entry = Entry(key: string, node: Node)

  /** yamlMapGet: the first entry of a key. */
  function Find(entries: seq<Entry>, key: string): Option<Node> {
    if entries == [] then None
    else if entries[0].key == key then Some(entries[0].node)
    else Find(entries[1..], key)
  }

  /** yamlMapSet: replaces the value of the first entry of a key, or appends the key. */
  function Put(entries: seq<Entry>, key: string, node: Node): seq<Entry> {
    if entries == [] then [Entry(key, node)]
    else if entries[0].key == key then [Entry(key, node)] + entries[1..]
    else [entries[0]] + Put(entries[1..], key, node)
  }

  lemma {:induction false} PutFind(entries: seq<Entry>, key: string, node: Node, other: string)
    ensures Find(Put(entries, key, node), other) == if other == key then Some(node) else Find(entries, other)
  {
    if entries != [] {
      PutFind(entries[1..], key, node, other);
    }
  }

  lemma {:induction false} PutSame(entries: seq<Entry>, key: string, node: Node)
    requires Find(entries, key) == Some(node)
    ensures Put(entries, key, node) == entries
  {
    if entries[0].key != key {
      PutSame(entries[1..], key, node);
    }
  }

  /** lookupYAMLPath: the node at a key path. */
  function Lookup(n: Node, keys: seq<string>): Option<Node>
    decreases |keys|
  {
    if keys == [] then Some(n)
    else if !n.Mapping? then None
    else
      match Find(n.entries, keys[0])
      case None => None
      case Some(child) => Lookup(child, keys[1..])
  }

  /** A null, or a scalar without text, gives way to a mapping. */
  predicate Blank(n: Node) {
    n.Scalar? && (n.isNull || n.value == "")
  }

  /** yamlEnsureMapping: the mapping under a key, empty when it is absent or blank; nothing for other nodes. */
  function EnsureMapping(entries: seq<Entry>, key: string): Option<Node> {
    match Find(entries, key)
    case None => Some(Mapping([]))
    case Some(n) => if n.Mapping? then Some(n) else if Blank(n) then Some(Mapping([])) else None
  }

  /** The leaf an edit leaves: a scalar that already reads so stays as it is. */
  function LeafFor(before: Option<Node>, value: string): Node {
    if before.Some? && before.value.Scalar? && before.value.value == value then before.value else Scalar(value, false)
  }

  /** setYAMLPath on the node tree of a document; nothing when a key on the way is no mapping. */
  function SetPath(n: Node, keys: seq<string>, value: string): (r: Option<Node>)
    requires n.Mapping? && |keys| > 0
    ensures r.Some? ==> r.value.Mapping?
    decreases |keys|
  {
    if |keys| == 1 then
      Some(Mapping(Put(n.entries, keys[0], LeafFor(Find(n.entries, keys[0]), value))))
    else
      match EnsureMapping(n.entries, keys[0])
      case None => None
      case Some(child) =>
        match SetPath(child, keys[1..], value)
        case None => None
        case Some(c) => Some(Mapping(Put(n.entries, keys[0], c)))
  }

  // ---------------------------------------------------------------- laws

  predicate Reads(n: Node, keys: seq<string>, value: string) {
    var r := Lookup(n, keys);
    r.Some? && r.value.Scalar? && r.value.value == value
  }

  /** Neither path is a prefix of the other. */
  predicate Diverge(p: seq<string>, q: seq<string>) {
    exists i :: 0 <= i < |p| && i < |q| && p[i] != q[i]
  }

  /** Put-get: afterwards the path reads as the value. */
  lemma {:induction false} SetThenGet(n: Node, keys: seq<string>, value: string)
    requires n.Mapping? && |keys| > 0 && SetPath(n, keys, value).Some?
    ensures Reads(SetPath(n, keys, value).value, keys, value)
    decreases |keys|
  {
    if |keys| == 1 {
      PutFind(n.entries, keys[0], LeafFor(Find(n.entries, keys[0]), value), keys[0]);
    } else {
      var child := EnsureMapping(n.entries, keys[0]).value;
      SetThenGet(child, keys[1..], value);
      PutFind(n.entries, keys[0], SetPath(child, keys[1..], value).value, keys[0]);
    }
  }

  lemma DivergeTail(p: seq<string>, q: seq<string>)
    requires Diverge(p, q) && p[0] == q[0]
    ensures Diverge(p[1..], q[1..])
  {
    var i :| 0 <= i < |p| && i < |q| && p[i] != q[i];
    assert p[1..][i - 1] != q[1..][i - 1];
  }

  /** Every path that is neither a prefix nor an extension of the edited one reads as before. */
  lemma {:induction false} OthersUnchanged(n: Node, keys: seq<string>, value: string, q: seq<string>)
    requires n.Mapping? && |keys| > 0 && SetPath(n, keys, value).Some? && Diverge(keys, q)
    ensures Lookup(SetPath(n, keys, value).value, q) == Lookup(n, q)
    decreases |keys|
  {
    if |keys| == 1 {
      PutFind(n.entries, keys[0], LeafFor(Find(n.entries, keys[0]), value), q[0]);
    } else {
      var child := EnsureMapping(n.entries, keys[0]).value;
      PutFind(n.entries, keys[0], SetPath(child, keys[1..], value).value, q[0]);
      if q[0] == keys[0] {
        DivergeTail(keys, q);
        OthersUnchanged(child, keys[1..], value, q[1..]);
      }
    }
  }

  /** Repeating an edit changes nothing. */
  lemma {:induction false} SetTwice(n: Node, keys: seq<string>, value: string)
    requires n.Mapping? && |keys| > 0 && SetPath(n, keys, value).Some?
    ensures SetPath(SetPath(n, keys, value).value, keys, value) == SetPath(n, keys, value)
    decreases |keys|
  {
    var m := SetPath(n, keys, value).value;
    if |keys| == 1 {
      var leaf := LeafFor(Find(n.entries, keys[0]), value);
      PutFind(n.entries, keys[0], leaf, keys[0]);
      PutSame(m.entries, keys[0], leaf);
    } else {
      var child := EnsureMapping(n.entries, keys[0]).value;
      var set_ := SetPath(child, keys[1..], value).value;
      PutFind(n.entries, keys[0], set_, keys[0]);
      SetTwice(child, keys[1..], value);
      PutSame(m.entries, keys[0], set_);
    }
  }

  /** An edit is refused exactly when some proper prefix of the path holds a node that is neither a mapping
      nor blank. */
  lemma {:induction false} RefusedExactly(n: Node, keys: seq<string>, value: string)
    requires n.Mapping? && |keys| > 0
    ensures SetPath(n, keys, value).None? <==> exists i :: 0 < i < |keys| && Blocks(n, keys[..i])
    decreases |keys|
  {
    if |keys| > 1 {
      var ensured := EnsureMapping(n.entries, keys[0]);
      LookupOne(n, keys[0]);
      assert keys[..1] == [keys[0]];
      assert ensured.None? <==> Blocks(n, keys[..1]);
      if ensured.Some? {
        RefusedExactly(ensured.value, keys[1..], value);
        forall i | 0 < i < |keys| - 1
          ensures Blocks(n, keys[..i + 1]) <==> Blocks(ensured.value, keys[1..][..i])
        {
          LookupStep(n, keys, i);
        }
        if i :| 0 < i < |keys[1..]| && Blocks(ensured.value, keys[1..][..i]) {
          assert Blocks(n, keys[..i + 1]);
        }
        if i :| 0 < i < |keys| && Blocks(n, keys[..i]) {
          assert Blocks(ensured.value, keys[1..][..i - 1]);
        }
      }
    }
  }

  lemma LookupOne(n: Node, key: string)
    requires n.Mapping?
    ensures Lookup(n, [key]) == Find(n.entries, key)
  {
    assert [key][1..] == [];
  }

  lemma LookupStep(n: Node, keys: seq<string>, i: nat)
    requires n.Mapping? && 0 < i < |keys| && EnsureMapping(n.entries, keys[0]).Some?
    ensures Lookup(n, keys[..i + 1]) == Lookup(EnsureMapping(n.entries, keys[0]).value, keys[1..][..i])
  {
    assert keys[..i + 1][1..] == keys[1..][..i] && keys[..i + 1][0] == keys[0];
  }

  /** The node at a path cannot be descended into. */
  predicate Blocks(n: Node, keys: seq<string>) {
    var r := Lookup(n, keys);
    r.Some? && !r.value.Mapping? && !(r.value.Scalar? && (r.value.isNull || r.value.value == ""))
  }

  // ---------------------------------------------------------------- the redirect table

  const ALLOCATION := "id_allocation"
  const REDIRECTS := "redirects"

  function RedirectPath(before: string): seq<string> {
    [ALLOCATION, REDIRECTS, before]
  }

  /** One edit per pair, in the given order of the old ids. */
  function RecordAll(n: Node, olds: seq<string>, mapping: map<string, string>): (r: Option<Node>)
    requires n.Mapping? && forall o :: o in olds ==> o in mapping
    ensures r.Some? ==> r.value.Mapping?
    decreases |olds|
  {
    if olds == [] then Some(n)
    else
      match SetPath(n, RedirectPath(olds[0]), mapping[olds[0]])
      case None => None
      case Some(m) => RecordAll(m, olds[1..], mapping)
  }

  /** Whether one of the edits changes the tree. */
  function Alters(n: Node, olds: seq<string>, mapping: map<string, string>): bool
    requires n.Mapping? && forall o :: o in olds ==> o in mapping
    decreases |olds|
  {
    if olds == [] then false
    else
      match SetPath(n, RedirectPath(olds[0]), mapping[olds[0]])
      case None => false
      case Some(m) => m != n || Alters(m, olds[1..], mapping)
  }

  lemma {:induction false} UnalteredStays(n: Node, olds: seq<string>, mapping: map<string, string>)
    requires n.Mapping? && forall o :: o in olds ==> o in mapping
    requires RecordAll(n, olds, mapping).Some? && !Alters(n, olds, mapping)
    ensures RecordAll(n, olds, mapping) == Some(n)
    decreases |olds|
  {
    if olds != [] {
      UnalteredStays(n, olds[1..], mapping);
    }
  }

  lemma RedirectsDiverge(a: string, b: string)
    requires a != b
    ensures Diverge(RedirectPath(a), RedirectPath(b))
  {
    assert RedirectPath(a)[2] != RedirectPath(b)[2];
  }

  /** Every path that meets none of the recorded pairs reads as before. */
  lemma {:induction false} RecordKeepsOthers(n: Node, olds: seq<string>, mapping: map<string, string>, q: seq<string>)
    requires n.Mapping? && (forall o :: o in olds ==> o in mapping) && RecordAll(n, olds, mapping).Some?
    requires forall o :: o in olds ==> Diverge(RedirectPath(o), q)
    ensures Lookup(RecordAll(n, olds, mapping).value, q) == Lookup(n, q)
    decreases |olds|
  {
    if olds != [] {
      OthersUnchanged(n, RedirectPath(olds[0]), mapping[olds[0]], q);
      RecordKeepsOthers(SetPath(n, RedirectPath(olds[0]), mapping[olds[0]]).value, olds[1..], mapping, q);
    }
  }

  /** Every pair is recorded. */
  lemma {:induction false} RecordsEveryPair(n: Node, olds: seq<string>, mapping: map<string, string>, o: string)
    requires n.Mapping? && (forall p :: p in olds ==> p in mapping) && RecordAll(n, olds, mapping).Some?
    requires o in olds
    ensures Reads(RecordAll(n, olds, mapping).value, RedirectPath(o), mapping[o])
    decreases |olds|
  {
    var m := SetPath(n, RedirectPath(olds[0]), mapping[olds[0]]).value;
    if o in olds[1..] {
      RecordsEveryPair(m, olds[1..], mapping, o);
    } else {
      SetThenGet(n, RedirectPath(o), mapping[o]);
      forall p | p in olds[1..]
        ensures Diverge(RedirectPath(p), RedirectPath(o))
      {
        RedirectsDiverge(p, o);
      }
      RecordKeepsOthers(m, olds[1..], mapping, RedirectPath(o));
    }
  }

  /** Earlier redirects of other ids survive. */
  lemma RecordKeepsEarlier(n: Node, olds: seq<string>, mapping: map<string, string>, o: string, target: string)
    requires n.Mapping? && (forall p :: p in olds ==> p in mapping) && RecordAll(n, olds, mapping).Some?
    requires o !in olds && Reads(n, RedirectPath(o), target)
    ensures Reads(RecordAll(n, olds, mapping).value, RedirectPath(o), target)
  {
    forall p | p in olds
      ensures Diverge(RedirectPath(p), RedirectPath(o))
    {
      RedirectsDiverge(p, o);
    }
    RecordKeepsOthers(n, olds, mapping, RedirectPath(o));
  }

  /** Recording the same mapping again leaves the tree as it is. */
  lemma {:induction false} RecordTwice(n: Node, olds: seq<string>, mapping: map<string, string>)
    requires n.Mapping? && (forall o :: o in olds ==> o in mapping && Reads(n, RedirectPath(o), mapping[o]))
    ensures RecordAll(n, olds, mapping) == Some(n)
  {
    if olds != [] {
      SetRead(n, RedirectPath(olds[0]), mapping[olds[0]]);
      RecordTwice(n, olds[1..], mapping);
    }
  }

  /** Setting what a path already reads changes nothing. */
  lemma {:induction false} SetRead(n: Node, keys: seq<string>, value: string)
    requires n.Mapping? && |keys| > 0 && Reads(n, keys, value)
    ensures SetPath(n, keys, value) == Some(n)
    decreases |keys|
  {
    var child := Find(n.entries, keys[0]).value;
    PutSame(n.entries, keys[0], child);
    assert Lookup(n, keys) == Lookup(child, keys[1..]);
    if |keys| > 1 {
      SetRead(child, keys[1..], value);
    }
  }

  /** A new key goes to the end. */
  lemma {:induction false} PutLast(entries: seq<Entry>, key: string, node: Node)
    requires forall i :: 0 <= i < |entries| ==> entries[i].key != key
    ensures Put(entries, key, node) == entries + [Entry(key, node)]
  {
    if entries != [] {
      PutLast(entries[1..], key, node);
      assert entries == [entries[0]] + entries[1..];
    }
  }

  /** A key that is there is replaced where it stands first. */
  lemma {:induction false} PutThere(entries: seq<Entry>, key: string, node: Node, i: nat)
    requires i < |entries| && entries[i].key == key && forall k :: 0 <= k < i ==> entries[k].key != key
    ensures Put(entries, key, node) == entries[i := Entry(key, node)]
  {
    if i > 0 {
      PutThere(entries[1..], key, node, i - 1);
      assert entries[i := Entry(key, node)] == [entries[0]] + entries[1..][i - 1 := Entry(key, node)];
    }
  }
}
