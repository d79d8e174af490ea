/** What the merge of a whole file puts where, read off the tables of the file and of the template. */
module TomlExact {
  import opened Text
  import opened TomlText
  import opened TomlKeys
  import opened TomlKeep
  import opened TomlShape
  import opened TomlMerge
  import opened TomlStable
  import opened TomlTwice

  /** The kept tables are those of the file that are not owned, in their order. */
  lemma {:induction false} UnownedPart(have: seq<Section>, owned: string -> bool, keep: Section -> bool)
    requires forall s :: keep(s) <==> !owned(s.name)
    ensures Part(have, Unowned(have, owned), keep)
  {
    if have != [] {
      var n := |have| - 1;
      UnownedPart(have[..n], owned, keep);
      PartGrows(have[..n], Unowned(have[..n], owned), keep, have[n]);
      assert have == have[..n] + [have[n]];
    }
  }

  /** The place of the owned tables is that of the first one in the file, above which every table is kept. */
  lemma {:induction false} AnchorMeans(have: seq<Section>, owned: string -> bool)
    ensures match Anchor(have, owned)
            case Some(at) => at < |have| && owned(have[at].name) && forall i :: 0 <= i < at ==> !owned(have[i].name)
            case None => forall i :: 0 <= i < |have| ==> !owned(have[i].name)
    ensures Anchor(have, owned).None? ==> |Unowned(have, owned)| == |have|
    decreases |have|
  {
    if have != [] {
      AnchorMeans(have[..|have| - 1], owned);
    }
  }

  /** The replacement is the owned tables of the template, and the appended tables are those neither owned nor in the
      file, each in the template's order. */
  lemma {:induction false} FoldParts(kept: seq<Section>, want: seq<Section>, r: Rules, ours: Section -> bool, more: Section -> bool)
    requires forall s :: ours(s) <==> s.name != "" && r.owned(s.name)
    requires forall s :: more(s) <==> s.name != "" && !r.owned(s.name) && forall i :: 0 <= i < |kept| ==> kept[i].name != s.name
    ensures Part(want, Fold(kept, want, r).replacement, ours) && Part(want, Fold(kept, want, r).appended, more)
  {
    if want != [] {
      var n := |want| - 1;
      var f := Fold(kept, want[..n], r);
      FoldParts(kept, want[..n], r, ours, more);
      FoldKeepsNames(kept, want[..n], r);
      SameNames(f.kept, kept, want[n].name);
      assert want == want[..n] + [want[n]];
      PartGrows(want[..n], f.replacement, ours, want[n]);
      PartGrows(want[..n], f.appended, more, want[n]);
      assert f.replacement + [] == f.replacement && f.appended + [] == f.appended;
    }
  }

  /** The merged file: the user's tables above the first owned one, the template's owned tables, the user's other
      tables, and the template's tables the file lacks. A user's table keeps its name, its lead and its header. */
  lemma {:induction false} MergedLayout(have: seq<Section>, want: seq<Section>, r: Rules, keep: Section -> bool, ours: Section -> bool, more: Section -> bool)
    returns (kept: seq<Section>, now: seq<Section>, mine: seq<Section>, added: seq<Section>, at: nat)
    requires (forall s :: keep(s) <==> !r.owned(s.name)) && (forall s :: ours(s) <==> s.name != "" && r.owned(s.name))
    requires forall s :: more(s) <==> s.name != "" && !r.owned(s.name) && forall t :: t in have ==> t.name != s.name
    ensures at <= |now| == |kept| && MergeSections(have, want, r).0 == now[..at] + mine + now[at..] + added
    ensures if exists t :: t in have && r.owned(t.name)
            then at < |have| && r.owned(have[at].name) && forall i :: 0 <= i < at ==> !r.owned(have[i].name)
            else at == |kept|
    ensures Part(have, kept, keep) && Part(want, mine, ours) && Part(want, added, more)
    ensures forall i :: 0 <= i < |kept| ==> now[i].name == kept[i].name && now[i].lead == kept[i].lead && now[i].header == kept[i].header
  {
    kept := Unowned(have, r.owned);
    var f, anchor := Fold(kept, want, r), Anchor(have, r.owned);
    now, mine, added := f.kept, f.replacement, f.appended;
    at := if anchor.Some? then anchor.value else |f.kept|;
    UnownedPart(have, r.owned, keep);
    AnchorMeans(have, r.owned);
    FoldKeepsNames(kept, want, r);
    forall s
      ensures more(s) <==> s.name != "" && !r.owned(s.name) && forall i :: 0 <= i < |kept| ==> kept[i].name != s.name
    {
      NamedAlike(have, kept, r.owned, keep, s.name);
    }
    FoldParts(kept, want, r, ours, more);
  }

  lemma NamedAlike(have: seq<Section>, kept: seq<Section>, owned: string -> bool, keep: Section -> bool, name: string)
    requires Part(have, kept, keep) && forall s :: keep(s) <==> !owned(s.name)
    ensures !owned(name) ==> ((forall t :: t in have ==> t.name != name) <==> forall i :: 0 <= i < |kept| ==> kept[i].name != name)
  {
    if i :| 0 <= i < |kept| && kept[i].name == name {
      assert kept[i] in kept;
    }
    if t :| t in have && t.name == name && !owned(name) {
      assert t in kept;
    }
  }

  /** The lines of the result: those of its tables without the empty ones at the end, and one empty line if there is
      no other. */
  lemma {:induction false} TrimmedTo(lines: seq<Line>) returns (n: nat)
    ensures n <= |lines| && TrimEnd(lines) == lines[..n]
    ensures (n > 0 ==> lines[n - 1].text != "") && forall i :: n <= i < |lines| ==> lines[i].text == ""
  {
    n := |lines|;
    if lines != [] && lines[|lines| - 1].text == "" {
      n := TrimmedTo(lines[..|lines| - 1]);
      assert lines[..|lines| - 1][..n] == lines[..n];
    } else {
      assert lines[..n] == lines;
    }
  }

  lemma ResultMeans(ss: seq<Section>) returns (n: nat)
    ensures n <= |Flatten(ss)| && ResultLines(ss) == if n == 0 then [Line("", Blank, 0)] else Flatten(ss)[..n]
    ensures (n > 0 ==> Flatten(ss)[n - 1].text != "") && forall i :: n <= i < |Flatten(ss)| ==> Flatten(ss)[i].text == ""
  {
    n := TrimmedTo(Flatten(ss));
  }

  // ---------------------------------------------------------------- reports

  /** A key both tables have, with values that differ, of which the user's counts as set. */
  ghost predicate Differs(body: seq<Line>, from: seq<Line>, keys: seq<string>, v: Values, d: Divergence) {
    && d.key in keys && Lookup(body, d.key) == Some(d.have) && Lookup(from, d.key) == Some(d.want)
    && v.of(d.have) != v.of(d.want) && !v.unset(v.of(d.have))
  }

  lemma {:induction false} ReportListed(body: seq<Line>, from: seq<Line>, keys: seq<string>, v: Values, d: Divergence)
    ensures d in AllReports(body, from, keys, v) <==> Differs(body, from, keys, v, d)
  {
    if keys != [] {
      var n := |keys| - 1;
      ReportListed(body, from, keys[..n], v, d);
      assert keys == keys[..n] + [keys[n]];
    }
  }

  /** The report is of a table of the template that is merged into the first kept one of its name, about a key whose
      value there is another. */
  ghost predicate Reported(kept: seq<Section>, want: seq<Section>, r: Rules, rep: Report, n: nat) {
    && n < |want| && want[n].name != "" && !r.owned(want[n].name) && rep.table == want[n].name
    && var at := FirstNamed(kept, want[n].name);
       at.Some? && Differs(kept[at.value].body, want[n].body, r.keysOf(rep.table), r.values(rep.table), rep.divergence)
  }

  lemma TaggedMembers(table: string, ds: seq<Divergence>, rep: Report)
    ensures rep in Tagged(table, ds) <==> rep.table == table && rep.divergence in ds
  {
    if rep.table == table && rep.divergence in ds {
      var i :| 0 <= i < |ds| && ds[i] == rep.divergence;
      assert Tagged(table, ds)[i] == rep;
    }
  }

  /** What one table of the template adds to the reports. */
  lemma {:induction false} TableReports(kept: seq<Section>, want: seq<Section>, r: Rules, n: nat, rep: Report)
    requires GoodTemplate(want, r) && n < |want| && forall i :: 0 <= i < |kept| ==> Tidy(kept[i].body)
    ensures rep in FoldOne(Fold(kept, want[..n], r), want[n], r).reports
            <==> rep in Fold(kept, want[..n], r).reports || Reported(kept, want, r, rep, n)
  {
    var s, f := want[n], Fold(kept, want[..n], r);
    FoldKeepsNames(kept, want[..n], r);
    SameNames(f.kept, kept, s.name);
    if s.name != "" && !r.owned(s.name) && FirstNamed(kept, s.name).Some? {
      var at := FirstNamed(kept, s.name).value;
      MergedReports(kept, want, r, n, at, rep);
    }
  }

  lemma {:induction false} MergedReports(kept: seq<Section>, want: seq<Section>, r: Rules, n: nat, at: nat, rep: Report)
    requires GoodTemplate(want, r) && n < |want| && forall i :: 0 <= i < |kept| ==> Tidy(kept[i].body)
    requires want[n].name != "" && !r.owned(want[n].name) && FirstNamed(kept, want[n].name) == Some(at)
    ensures at < |Fold(kept, want[..n], r).kept|
    ensures rep in MergeInto(Fold(kept, want[..n], r).kept[at], want[n], r).1 <==> Reported(kept, want, r, rep, n)
  {
    FoldKeepsNames(kept, want[..n], r);
    var into, keys, v := Fold(kept, want[..n], r).kept[at], r.keysOf(want[n].name), r.values(want[n].name);
    TaggedMembers(into.name, MergeKeys(into.body, want[n].body, keys, v).divergences, rep);
    if keys != [] {
      KeyedAt(kept, want, r, n, at);
      KeyReports(into.body, want[n].body, keys, v);
      ReportListed(into.body, want[n].body, keys, v, rep.divergence);
    }
  }

  lemma OneMore(kept: seq<Section>, want: seq<Section>, r: Rules, rep: Report, m: nat)
    ensures (exists n: nat :: n < m + 1 && Reported(kept, want, r, rep, n))
            <==> (exists n: nat :: n < m && Reported(kept, want, r, rep, n)) || Reported(kept, want, r, rep, m)
  {
  }

  /** One table of the template adds its reports to those before it. */
  ghost predicate AddsReports(kept: seq<Section>, want: seq<Section>, r: Rules, n: nat, rep: Report)
    requires n < |want|
  {
    rep in Fold(kept, want[..n + 1], r).reports <==> rep in Fold(kept, want[..n], r).reports || Reported(kept, want, r, rep, n)
  }

  lemma {:induction false} EachAdds(kept: seq<Section>, want: seq<Section>, r: Rules, rep: Report)
    requires GoodTemplate(want, r) && forall i :: 0 <= i < |kept| ==> Tidy(kept[i].body)
    ensures forall n: nat :: n < |want| ==> AddsReports(kept, want, r, n, rep)
  {
    forall n: nat | n < |want|
      ensures AddsReports(kept, want, r, n, rep)
    {
      FoldPrefix(kept, want, r, n);
      TableReports(kept, want, r, n, rep);
    }
  }

  lemma {:induction false} ReportsUpTo(kept: seq<Section>, want: seq<Section>, r: Rules, m: nat, rep: Report)
    requires m <= |want| && forall n: nat :: n < |want| ==> AddsReports(kept, want, r, n, rep)
    ensures rep in Fold(kept, want[..m], r).reports <==> exists n: nat :: n < m && Reported(kept, want, r, rep, n)
    decreases m
  {
    if m > 0 {
      ReportsUpTo(kept, want, r, m - 1, rep);
      assert AddsReports(kept, want, r, m - 1, rep);
      OneMore(kept, want, r, rep, m - 1);
    } else {
      assert want[..0] == [];
    }
  }

  /** The reports of a merge are exactly those. */
  lemma {:induction false} FoldReports(kept: seq<Section>, want: seq<Section>, r: Rules, rep: Report)
    requires GoodTemplate(want, r) && forall i :: 0 <= i < |kept| ==> Tidy(kept[i].body)
    ensures rep in Fold(kept, want, r).reports <==> exists n: nat :: Reported(kept, want, r, rep, n)
  {
    EachAdds(kept, want, r, rep);
    ReportsUpTo(kept, want, r, |want|, rep);
    assert want[..|want|] == want;
  }
}
