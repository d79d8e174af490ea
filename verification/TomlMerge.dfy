/** Folding a rendered template into an existing configuration, table by table. */
module TomlMerge {
  import opened Text
  import opened TomlText
  import opened TomlKeys
  import opened TomlKeep
  import opened TomlShape

  /** Which tables are owned outright, which keys are owned in the others, and how values are compared there. */
  datatype Rules = Rules(owned: string -> bool, keysOf: string -> seq<string>, values: string -> Values)

  /** One key reported, with its table. */
  datatype Report = Report(table: string, divergence: Divergence)

  /** The first table with a name; the root has none. */
  function FirstNamed(ss: seq<Section>, name: string): (r: Option<nat>)
    ensures r.Some? ==> r.value < |ss| && ss[r.value].name == name && forall i :: 0 <= i < r.value ==> ss[i].name != name
    ensures r.None? ==> forall i :: 0 <= i < |ss| ==> ss[i].name != name
  {
    if ss == [] then None
    else if ss[0].name == name then Some(0)
    else
      assert forall i :: 1 <= i < |ss| ==> ss[i] == ss[1..][i - 1];
      match FirstNamed(ss[1..], name)
      case None => None
      case Some(i) => Some(i + 1)
  }

  function Unowned(ss: seq<Section>, owned: string -> bool): (r: seq<Section>)
    ensures forall i :: 0 <= i < |r| ==> !owned(r[i].name)
    ensures |r| <= |ss|
  {
    if ss == [] then []
    else
      var n := |ss| - 1;
      Unowned(ss[..n], owned) + if owned(ss[n].name) then [] else [ss[n]]
  }

  lemma {:induction false} UnownedTidy(have: seq<Section>, owned: string -> bool)
    requires forall i :: 0 <= i < |have| ==> Tidy(have[i].body)
    ensures forall i :: 0 <= i < |Unowned(have, owned)| ==> Tidy(Unowned(have, owned)[i].body)
  {
    if have != [] {
      UnownedTidy(have[..|have| - 1], owned);
    }
  }

  /** How many kept tables stand before the first owned one. */
  function Anchor(ss: seq<Section>, owned: string -> bool): (r: Option<nat>)
    ensures r.Some? ==> r.value <= |Unowned(ss, owned)|
  {
    if ss == [] then None
    else
      var n := |ss| - 1;
      var before := Anchor(ss[..n], owned);
      if before.Some? then before
      else if owned(ss[n].name) then Some(|Unowned(ss[..n], owned)|)
      else None
  }

  function MergeInto(into: Section, from: Section, r: Rules): (Section, seq<Report>) {
    var m := MergeKeys(into.body, from.body, r.keysOf(into.name), r.values(into.name));
    (into.(body := m.body), Tagged(into.name, m.divergences))
  }

  function Tagged(table: string, ds: seq<Divergence>): seq<Report> {
    seq(|ds|, i requires 0 <= i < |ds| => Report(table, ds[i]))
  }

  /** The template's tables dealt with so far. */
  datatype Folded = Folded(kept: seq<Section>, replacement: seq<Section>, appended: seq<Section>, reports: seq<Report>)

  /** One table of the template: its preamble is skipped, an owned table replaces, an unknown one is appended,
      and the keys of any other are merged into the first table of that name. */
  function FoldOne(f: Folded, s: Section, r: Rules): Folded {
    if s.name == "" then f
    else if r.owned(s.name) then f.(replacement := f.replacement + [s])
    else
      match FirstNamed(f.kept, s.name)
      case None => f.(appended := f.appended + [s])
      case Some(at) =>
        var (merged, more) := MergeInto(f.kept[at], s, r);
        f.(kept := f.kept[at := merged], reports := f.reports + more)
  }

  function Fold(kept: seq<Section>, want: seq<Section>, r: Rules): Folded {
    if want == [] then Folded(kept, [], [], [])
    else FoldOne(Fold(kept, want[..|want| - 1], r), want[|want| - 1], r)
  }

  /** The tables of the result: the replacement goes where the first owned table was, else to the end. */
  function Assemble(anchor: Option<nat>, f: Folded): seq<Section>
    requires anchor.Some? ==> anchor.value <= |f.kept|
  {
    var at := if anchor.Some? then anchor.value else |f.kept|;
    f.kept[..at] + f.replacement + f.kept[at..] + f.appended
  }

  lemma {:induction false} FoldKeepsNames(kept: seq<Section>, want: seq<Section>, r: Rules)
    ensures |Fold(kept, want, r).kept| == |kept|
    ensures forall i :: 0 <= i < |kept| ==>
              var s := Fold(kept, want, r).kept[i]; s.name == kept[i].name && s.lead == kept[i].lead && s.header == kept[i].header
  {
    if want != [] {
      FoldKeepsNames(kept, want[..|want| - 1], r);
    }
  }

  lemma {:induction false} SameNames(a: seq<Section>, b: seq<Section>, name: string)
    requires |a| == |b| && forall i :: 0 <= i < |a| ==> a[i].name == b[i].name
    ensures FirstNamed(a, name) == FirstNamed(b, name)
  {
  }

  /** The merged tables and the reports. */
  function MergeSections(have: seq<Section>, want: seq<Section>, r: Rules): (seq<Section>, seq<Report>) {
    var f := Fold(Unowned(have, r.owned), want, r);
    FoldKeepsNames(Unowned(have, r.owned), want, r);
    (Assemble(Anchor(have, r.owned), f), f.reports)
  }

  // ---------------------------------------------------------------- the whole file

  /** The lines of the result: no empty line is left at the end, and an empty file is one empty line. */
  function TrimEnd(lines: seq<Line>): seq<Line> {
    if lines != [] && lines[|lines| - 1].text == "" then TrimEnd(lines[..|lines| - 1]) else lines
  }

  const EMPTY_LINE: Line := Line("", Blank, 0)

  function ResultLines(ss: seq<Section>): seq<Line> {
    var lines := TrimEnd(Flatten(ss));
    if lines == [] then [EMPTY_LINE] else lines
  }

  datatype Outcome = Accepted(lines: seq<Line>, reports: seq<Report>) | BadFile | BadTemplate

  function MergeFiles(existing: seq<Line>, rendered: seq<Line>, r: Rules): Outcome {
    match Parse(existing)
    case None => BadFile
    case Some(have) =>
      match Parse(rendered)
      case None => BadTemplate
      case Some(want) =>
        var (ss, reports) := MergeSections(have, want, r);
        Accepted(ResultLines(ss), reports)
  }

  /** mergePandoTOML. */
  method MergePandoToml(existing: seq<Line>, rendered: seq<Line>, r: Rules) returns (out: Outcome)
    ensures out == MergeFiles(existing, rendered, r)
  {
    var have := ParsePandoToml(existing);
    if have.None? {
      return BadFile;
    }
    var want := ParsePandoToml(rendered);
    if want.None? {
      return BadTemplate;
    }
    var kept, anchor := LiftOwned(have.value, r.owned);
    var f := FoldTemplate(kept, want.value, r);
    FoldKeepsNames(kept, want.value, r);
    var ss := Assemble(anchor, f);
    var lines := Flatten(ss);
    assert lines[..|lines|] == lines;
    var n := |lines|;
    while n > 0 && lines[n - 1].text == ""
      invariant 0 <= n <= |lines| && TrimEnd(lines[..n]) == TrimEnd(lines)
    {
      assert lines[..n][..n - 1] == lines[..n - 1];
      n := n - 1;
    }
    out := Accepted(if n == 0 then [EMPTY_LINE] else lines[..n], f.reports);
  }

  /** The kept tables, and where the first owned one stood. */
  method LiftOwned(have: seq<Section>, owned: string -> bool) returns (kept: seq<Section>, anchor: Option<nat>)
    ensures kept == Unowned(have, owned) && anchor == Anchor(have, owned)
  {
    kept, anchor := [], None;
    for i := 0 to |have|
      invariant kept == Unowned(have[..i], owned) && anchor == Anchor(have[..i], owned)
    {
      assert have[..i + 1][..i] == have[..i];
      if owned(have[i].name) {
        if anchor.None? {
          anchor := Some(|kept|);
        }
      } else {
        kept := kept + [have[i]];
      }
    }
    assert have[..|have|] == have;
  }

  /** The template's tables, one after the other; the first place of each kept name is looked up once. */
  method FoldTemplate(start: seq<Section>, want: seq<Section>, r: Rules) returns (f: Folded)
    ensures f == Fold(start, want, r)
  {
    f := Folded(start, [], [], []);
    for i := 0 to |want|
      invariant f == Fold(start, want[..i], r)
    {
      assert want[..i + 1][..i] == want[..i];
      var s := want[i];
      if s.name == "" {
        continue;
      }
      if r.owned(s.name) {
        f := f.(replacement := f.replacement + [s]);
        continue;
      }
      FoldKeepsNames(start, want[..i], r);
      SameNames(f.kept, start, s.name);
      var at := FirstNamed(start, s.name);
      if at.None? {
        f := f.(appended := f.appended + [s]);
      } else {
        var into := f.kept[at.value];
        var body, ds := MergeSectionKeys(into.body, s.body, r.keysOf(into.name), r.values(into.name));
        f := f.(kept := f.kept[at.value := into.(body := body)], reports := f.reports + Tagged(into.name, ds));
      }
    }
    assert want[..|want|] == want;
  }
}
