/** Finding ids claimed by more than one file, and the tie-break that picks the keeper. */
module Duplicates {
  import opened Text
  import opened Sorting
  import opened Allocation

  /** One id and the files claiming it, the keeper first. */
  datatype Duplicate = Duplicate(id: string, files: seq<Scanned>)

  /** R-RENUM-1: the earlier created wins, then the smaller path; a file without a date comes last. */
  predicate TieLess(a: Scanned, b: Scanned) {
    if a.created.None? != b.created.None? then b.created.None?
    else if a.created != b.created then a.created.value < b.created.value
    else Less(a.path, b.path)
  }

  /** The file came first: it has a date and the other has none, or an earlier one, or they have the same date or
      none and its path is smaller. */
  ghost predicate Older(a: Scanned, b: Scanned) {
    || (a.created.Some? && b.created.None?)
    || (a.created.Some? && b.created.Some? && a.created.value < b.created.value)
    || (a.created == b.created && Less(a.path, b.path))
  }

  lemma TieMeans(a: Scanned, b: Scanned)
    ensures TieLess(a, b) <==> Older(a, b)
  {
  }

  lemma TieOrder()
    ensures WeakOrder(TieLess)
  {
    forall a: Scanned, b: Scanned | TieLess(a, b)
      ensures !TieLess(b, a)
    {
      if Less(a.path, b.path) {
        LessAsymmetric(a.path, b.path);
      }
    }
    forall a: Scanned, b: Scanned, c: Scanned | !TieLess(a, b) && !TieLess(b, c)
      ensures !TieLess(a, c)
    {
      if !Less(a.path, b.path) && !Less(b.path, c.path) {
        LessNegativelyTransitive(a.path, b.path, c.path);
      }
    }
  }

  /** Scanned files are told apart by their paths. */
  ghost predicate DistinctPaths(items: seq<Scanned>) {
    forall x, y :: x in items && y in items && x != y ==> x.path != y.path
  }

  lemma TieSeparates(items: seq<Scanned>)
    requires DistinctPaths(items)
    ensures Separates(TieLess, items)
  {
    forall x, y | x in items && y in items && x != y
      ensures TieLess(x, y) || TieLess(y, x)
    {
      LessConnected(x.path, y.path);
    }
  }

  /** The scanned files claiming an id, in scan order. */
  function Claims(items: seq<Scanned>, id: string): (r: seq<Scanned>)
    ensures forall x :: x in r <==> x in items && x.id == id
  {
    if items == [] then []
    else (if items[0].id == id then [items[0]] else []) + Claims(items[1..], id)
  }

  lemma {:induction false} ClaimsAppend(items: seq<Scanned>, x: Scanned, id: string)
    ensures Claims(items + [x], id) == Claims(items, id) + if x.id == id then [x] else []
  {
    if items != [] {
      assert (items + [x])[1..] == items[1..] + [x];
      ClaimsAppend(items[1..], x, id);
    } else {
      assert (items + [x])[1..] == [];
    }
  }

  lemma {:induction false} ClaimsCount(items: seq<Scanned>, id: string, x: Scanned)
    ensures multiset(Claims(items, id))[x] == if x.id == id then multiset(items)[x] else 0
  {
    if items != [] {
      assert items == [items[0]] + items[1..];
      ClaimsCount(items[1..], id, x);
    }
  }

  lemma ClaimsForget(items: seq<Scanned>, items': seq<Scanned>, id: string)
    requires multiset(items) == multiset(items')
    ensures multiset(Claims(items, id)) == multiset(Claims(items', id))
  {
    forall x: Scanned
      ensures multiset(Claims(items, id))[x] == multiset(Claims(items', id))[x]
    {
      ClaimsCount(items, id, x);
      ClaimsCount(items', id, x);
    }
  }

  /** Which files claim an id, keeper first, as a report must list them. */
  function Group(items: seq<Scanned>, id: string): seq<Scanned> {
    Sort(TieLess, Claims(items, id))
  }

  /** The report: every id claimed by two files or more, once, in order, with its files in tie-break order. */
  ghost predicate IsReport(items: seq<Scanned>, dups: seq<Duplicate>) {
    && (forall i, j :: 0 <= i < j < |dups| ==> Less(dups[i].id, dups[j].id))
    && (forall d :: d in dups ==> d.id != "" && |Claims(items, d.id)| >= 2 && d.files == Group(items, d.id))
    && (forall id :: id != "" && |Claims(items, id)| >= 2 ==> exists i :: 0 <= i < |dups| && dups[i].id == id)
  }

  predicate IdLess(a: Duplicate, b: Duplicate) {
    Less(a.id, b.id)
  }

  lemma IdOrder()
    ensures WeakOrder(IdLess)
  {
    forall a: Duplicate, b: Duplicate | IdLess(a, b)
      ensures !IdLess(b, a)
    {
      LessAsymmetric(a.id, b.id);
    }
    forall a: Duplicate, b: Duplicate, c: Duplicate | !IdLess(a, b) && !IdLess(b, c)
      ensures !IdLess(a, c)
    {
      LessNegativelyTransitive(a.id, b.id, c.id);
    }
  }

  /** The report does not depend on the order in which the files were listed, nor on any map's order:
      two reports of permuted scans are equal. */
  lemma {:induction false} ReportUnique(items: seq<Scanned>, items': seq<Scanned>, dups: seq<Duplicate>, dups': seq<Duplicate>)
    requires multiset(items) == multiset(items') && DistinctPaths(items)
    requires IsReport(items, dups) && IsReport(items', dups')
    ensures dups == dups'
  {
    forall id
      ensures Group(items, id) == Group(items', id) && |Claims(items, id)| == |Claims(items', id)|
    {
      ClaimsForget(items, items', id);
      TieOrder();
      TieSeparates(Claims(items, id));
      SortForgets(TieLess, Claims(items, id), Claims(items', id));
      assert |Claims(items, id)| == |multiset(Claims(items, id))|;
    }
    SameMembers(items, items', dups, dups');
    SameMembers(items', items, dups', dups);
    SortedSetsEqual(dups, dups');
  }

  lemma SameMembers(items: seq<Scanned>, items': seq<Scanned>, dups: seq<Duplicate>, dups': seq<Duplicate>)
    requires IsReport(items, dups) && IsReport(items', dups')
    requires forall id :: Group(items, id) == Group(items', id) && |Claims(items, id)| == |Claims(items', id)|
    ensures forall d :: d in dups ==> d in dups'
  {
    forall d | d in dups
      ensures d in dups'
    {
      var i :| 0 <= i < |dups'| && dups'[i].id == d.id;
      assert dups'[i] in dups' && dups'[i].files == Group(items', d.id);
      assert dups'[i] == d;
    }
  }

  ghost predicate Ascending(a: seq<Duplicate>) {
    forall i, j :: 0 <= i < j < |a| ==> Less(a[i].id, a[j].id)
  }

  lemma FirstAgrees(a: seq<Duplicate>, b: seq<Duplicate>)
    requires Ascending(a) && Ascending(b) && a != [] && b != [] && a[0] in b && b[0] in a
    ensures a[0] == b[0]
  {
    var i :| 0 <= i < |b| && b[i] == a[0];
    var j :| 0 <= j < |a| && a[j] == b[0];
    if i > 0 && j > 0 {
      LessAsymmetric(b[0].id, b[i].id);
    }
  }

  lemma RestWithin(a: seq<Duplicate>, b: seq<Duplicate>)
    requires Ascending(a) && a != [] && b != [] && a[0] == b[0] && forall d :: d in a ==> d in b
    ensures forall d :: d in a[1..] ==> d in b[1..]
  {
    forall d | d in a[1..]
      ensures d in b[1..]
    {
      NotFirst(a, d);
      assert d in a && b == [b[0]] + b[1..];
    }
  }

  lemma AscendingTail(a: seq<Duplicate>)
    requires Ascending(a) && a != []
    ensures Ascending(a[1..]) && a == [a[0]] + a[1..]
  {
  }

  /** Two strictly ordered lists with the same members are the same list. */
  lemma {:induction false} SortedSetsEqual(a: seq<Duplicate>, b: seq<Duplicate>)
    requires Ascending(a) && Ascending(b)
    requires (forall d :: d in a ==> d in b) && (forall d :: d in b ==> d in a)
    ensures a == b
  {
    if a == [] {
      assert forall i :: 0 <= i < |b| ==> b[i] in b;
    } else {
      assert a[0] in b && b[0] in a;
      FirstAgrees(a, b);
      RestWithin(a, b);
      RestWithin(b, a);
      AscendingTail(a);
      AscendingTail(b);
      SortedSetsEqual(a[1..], b[1..]);
    }
  }

  lemma NotFirst(a: seq<Duplicate>, d: Duplicate)
    requires |a| > 0 && d in a[1..] && Ascending(a)
    ensures d != a[0]
  {
    var k :| 0 <= k < |a[1..]| && a[1..][k] == d;
    assert Less(a[0].id, a[k + 1].id);
    LessAsymmetric(a[0].id, a[k + 1].id);
  }

  /** The entries made for some ids, given who claims each: one for each id that is claimed twice or more. */
  ghost predicate Entries(claims: string -> seq<Scanned>, group: string -> seq<Scanned>, ids: set<string>, out: seq<Duplicate>) {
    && (forall d :: d in out ==> d.id in ids && d.id != "" && |claims(d.id)| >= 2 && d.files == group(d.id))
    && (forall id :: id in ids && id != "" && |claims(id)| >= 2 ==> exists d :: d in out && d.id == id)
    && (forall i, j :: 0 <= i < j < |out| ==> out[i].id != out[j].id)
  }

  ghost predicate Reported(items: seq<Scanned>, ids: set<string>, out: seq<Duplicate>) {
    Entries((id: string) => Claims(items, id), (id: string) => Group(items, id), ids, out)
  }

  lemma EntriesMore(claims: string -> seq<Scanned>, group: string -> seq<Scanned>, ids: set<string>, out: seq<Duplicate>, id: string)
    requires Entries(claims, group, ids, out) && id !in ids && id != "" && |claims(id)| >= 2
    ensures Entries(claims, group, ids + {id}, out + [Duplicate(id, group(id))])
  {
    var last := Duplicate(id, group(id));
    var more := out + [last];
    assert more[|out|] == last && forall d :: d in more <==> d in out || d == last;
    forall x | x in ids + {id} && x != "" && |claims(x)| >= 2
      ensures exists d :: d in more && d.id == x
    {
      if x == id {
        assert last in more;
      } else {
        var d :| d in out && d.id == x;
        assert d in more;
      }
    }
    assert forall i :: 0 <= i < |out| ==> out[i] in out && more[i] == out[i];
  }

  lemma EntriesSame(claims: string -> seq<Scanned>, group: string -> seq<Scanned>, ids: set<string>, out: seq<Duplicate>, id: string)
    requires Entries(claims, group, ids, out) && |claims(id)| < 2
    ensures Entries(claims, group, ids + {id}, out)
  {
  }

  /** duplicatesOf: groups by id in a map, walks the map in any order, sorts each group and then the report. */
  method DuplicatesOf(items: seq<Scanned>) returns (out: seq<Duplicate>)
    ensures IsReport(items, out)
  {
    var byId := GroupById(items);
    out := [];
    var left := byId.Keys;
    ghost var done: set<string> := {};
    while left != {}
      invariant left + done == byId.Keys && left !! done
      invariant Reported(items, done, out)
      decreases left
    {
      var id :| id in left;
      if |byId[id]| >= 2 {
        EntriesMore((x: string) => Claims(items, x), (x: string) => Group(items, x), done, out, id);
        out := out + [Duplicate(id, Sort(TieLess, byId[id]))];
      } else {
        EntriesSame((x: string) => Claims(items, x), (x: string) => Group(items, x), done, out, id);
      }
      left, done := left - {id}, done + {id};
    }
    ghost var unsorted := out;
    IdOrder();
    SortSorted(IdLess, out);
    out := Sort(IdLess, out);
    SortKeepsReport(items, done, unsorted, out);
  }

  lemma SortKeepsReport(items: seq<Scanned>, ids: set<string>, unsorted: seq<Duplicate>, out: seq<Duplicate>)
    requires Reported(items, ids, unsorted) && forall id :: id in ids <==> id != "" && Claims(items, id) != []
    requires multiset(out) == multiset(unsorted) && (forall x :: x in out <==> x in unsorted) && Sorted(IdLess, out)
    ensures IsReport(items, out)
  {
    forall id | id != "" && |Claims(items, id)| >= 2
      ensures exists i :: 0 <= i < |out| && out[i].id == id
    {
      assert id in ids;
      var d :| d in unsorted && d.id == id;
      assert d in out;
      var k :| 0 <= k < |out| && out[k] == d;
    }
    forall i, j | 0 <= i < j < |out|
      ensures Less(out[i].id, out[j].id)
    {
      IdsApart(unsorted, out, i, j);
      assert !IdLess(out[j], out[i]);
      LessConnected(out[i].id, out[j].id);
    }
  }

  lemma IdsApart(unsorted: seq<Duplicate>, out: seq<Duplicate>, i: nat, j: nat)
    requires forall k, l :: 0 <= k < l < |unsorted| ==> unsorted[k].id != unsorted[l].id
    requires multiset(out) == multiset(unsorted) && (forall x :: x in out <==> x in unsorted) && i < j < |out|
    ensures out[i].id != out[j].id
  {
    assert out[i] in unsorted && out[j] in unsorted;
    if out[i].id == out[j].id {
      var k :| 0 <= k < |unsorted| && unsorted[k] == out[i];
      var l :| 0 <= l < |unsorted| && unsorted[l] == out[j];
      OneEach(unsorted, out[i]);
      CountedTwice(out, i, j);
    }
  }

  lemma OneEach(s: seq<Duplicate>, d: Duplicate)
    requires forall i, j :: 0 <= i < j < |s| ==> s[i].id != s[j].id
    ensures multiset(s)[d] <= 1
  {
    if s != [] {
      assert s == [s[0]] + s[1..];
      OneEach(s[1..], d);
      if d == s[0] {
        assert d !in s[1..];
      }
    }
  }

  ghost predicate Grouped(items: seq<Scanned>, byId: map<string, seq<Scanned>>) {
    && (forall id :: id in byId <==> id != "" && Claims(items, id) != [])
    && (forall id :: id in byId ==> byId[id] == Claims(items, id))
  }

  lemma GroupedMore(items: seq<Scanned>, byId: map<string, seq<Scanned>>, x: Scanned)
    requires Grouped(items, byId)
    ensures Grouped(items + [x], if x.id == "" then byId else byId[x.id := (if x.id in byId then byId[x.id] else []) + [x]])
  {
    forall id
      ensures Claims(items + [x], id) == Claims(items, id) + if x.id == id then [x] else []
    {
      ClaimsAppend(items, x, id);
    }
  }

  method GroupById(items: seq<Scanned>) returns (byId: map<string, seq<Scanned>>)
    ensures Grouped(items, byId)
  {
    byId := map[];
    for i := 0 to |items|
      invariant Grouped(items[..i], byId)
    {
      assert items[..i + 1] == items[..i] + [items[i]];
      GroupedMore(items[..i], byId, items[i]);
      var id := items[i].id;
      if id != "" {
        byId := byId[id := (if id in byId then byId[id] else []) + [items[i]]];
      }
    }
    assert items[..|items|] == items;
  }

  // ---------------------------------------------------------------- what a report says

  /** Two scanned files claim the id. */
  ghost predicate Contested(items: seq<Scanned>, id: string) {
    id != "" && exists i, j :: 0 <= i < j < |items| && items[i].id == id && items[j].id == id
  }

  lemma {:induction false} TwoClaims(items: seq<Scanned>, i: nat, j: nat)
    requires i < j < |items| && items[i].id == items[j].id
    ensures |Claims(items, items[i].id)| >= 2
    decreases i
  {
    if i > 0 {
      TwoClaims(items[1..], i - 1, j - 1);
    } else {
      assert items[1..][j - 1] == items[j];
      assert items[j] in Claims(items[1..], items[i].id);
    }
  }

  lemma {:induction false} SomeClaim(items: seq<Scanned>, id: string) returns (i: nat)
    requires Claims(items, id) != []
    ensures i < |items| && items[i].id == id
  {
    i := 0;
    if items[0].id != id {
      i := SomeClaim(items[1..], id);
      i := i + 1;
    }
  }

  lemma {:induction false} ClaimedTwice(items: seq<Scanned>, id: string) returns (i: nat, j: nat)
    requires |Claims(items, id)| >= 2
    ensures i < j < |items| && items[i].id == id && items[j].id == id
  {
    if items[0].id == id {
      j := SomeClaim(items[1..], id);
      i, j := 0, j + 1;
    } else {
      i, j := ClaimedTwice(items[1..], id);
      i, j := i + 1, j + 1;
    }
  }

  lemma ContestedMeans(items: seq<Scanned>, id: string)
    ensures Contested(items, id) <==> id != "" && |Claims(items, id)| >= 2
  {
    if Contested(items, id) {
      var i, j :| 0 <= i < j < |items| && items[i].id == id && items[j].id == id;
      TwoClaims(items, i, j);
    }
    if |Claims(items, id)| >= 2 {
      var i, j := ClaimedTwice(items, id);
    }
  }

  /** A report has an entry for exactly the contested ids, in order, and lists in it exactly the files that claim the
      id, the older before the younger. */
  lemma ReportMeans(items: seq<Scanned>, dups: seq<Duplicate>, id: string)
    requires IsReport(items, dups)
    ensures (exists g :: 0 <= g < |dups| && dups[g].id == id) <==> Contested(items, id)
    ensures forall d, x :: d in dups ==> (x in d.files <==> x in items && x.id == d.id)
    ensures forall d, k, l :: d in dups && 0 <= k < l < |d.files| ==> !Older(d.files[l], d.files[k])
  {
    ContestedMeans(items, id);
    if g :| 0 <= g < |dups| && dups[g].id == id {
      assert dups[g] in dups;
    }
    TieOrder();
    forall d, k, l | d in dups && 0 <= k < l < |d.files|
      ensures !Older(d.files[l], d.files[k])
    {
      SortSorted(TieLess, Claims(items, d.id));
      TieMeans(d.files[l], d.files[k]);
    }
  }
}
