/** The rules the program merges its configuration by, and what they promise the user. */
module TomlAgent {
  import opened Text
  import opened TomlText
  import opened TomlKeys
  import opened TomlKeep
  import opened TomlShape
  import opened TomlMerge
  import opened TomlStable
  import opened TomlSettle
  import opened TomlTwice
  import opened TomlLoss

  // ---------------------------------------------------------------- the rules

  const AGUI := "AGUI"
  const AGUI_KEYS := ["Enabled", "Path", "Host", "Port", "Agents", "AllowedOrigins", "RequireToken", "FrontendTools",
                      "HumanInTheLoop", "AutoApprove", "MaxConcurrentRuns", "Persona", "Tools", "Mesnada"]

  /** agentOwnedKeys. */
  function OwnedKeys(table: string): seq<string> {
    if table == AGUI then AGUI_KEYS
    else if table == "ToolDiscovery" then ["Enabled", "Mode"]
    else if table == "MCPGateway" then ["Enabled"]
    else if table == "PersonaAutoSelect" then ["Enabled", "PersonaPath"]
    else if table == "Skills" then ["Enabled", "Paths"]
    else if table == "Remembrances" then ["Enabled", "KBPath", "KBAutoImport", "KBWatch"]
    else if table == "MCPServer" then ["HttpEnabled", "StdioEnabled"]
    else []
  }

  /** agentOwnedTables, with the mark of a plain table. */
  function OwnedTables(persona: string): seq<string> {
    ["[AGUI.Profiles." + persona, "[MCPServers.gintrack", "[MCPServers.gintrack.Auth", "[MCPServers.gintrack.Headers"]
  }

  /** A table's name without its first mark; the name of an array of tables keeps the second one. */
  function Unmarked(name: string): string {
    if name != "" && name[0] == '[' then name[1..] else name
  }

  predicate IsAgui(s: Section) {
    Unmarked(s.name) == AGUI
  }

  /** Values are compared as `of` reads them, and only [AGUI] has values that count as unset. */
  function AgentValues(name: string, of: seq<Line> -> string): Values {
    Values(of, (value: string) => Unmarked(name) == AGUI && IsZeroValue(value))
  }

  function AgentRules(persona: string, of: seq<Line> -> string): Rules {
    Rules((name: string) => name in OwnedTables(persona), (name: string) => OwnedKeys(Unmarked(name)), (name: string) => AgentValues(name, of))
  }

  // ---------------------------------------------------------------- nothing is lost

  /** What must survive of a table: all of it, but for the owned keys of [AGUI] that have a zero value. */
  function Lasting(s: Section, of: seq<Line> -> string): Section {
    if s.name == "[AGUI" || s.name == "AGUI" then s.(body := SetLines(s.body, AGUI_KEYS, ZeroValues(of))) else s
  }

  function ZeroValues(of: seq<Line> -> string): Values {
    Values(of, (value: string) =>
      value == "\"\"" || value == "0" || value == "0.0" || value == "false" || value == "[]" || value == "{}")
  }

  function AllLasting(ss: seq<Section>, of: seq<Line> -> string): (t: seq<Section>)
    ensures |t| == |ss| && forall i :: 0 <= i < |ss| ==> t[i] == Lasting(ss[i], of)
  {
    seq(|ss|, i requires 0 <= i < |ss| => Lasting(ss[i], of))
  }

  lemma {:induction false} OnlyAguiLoses(s: Section, persona: string, of: seq<Line> -> string)
    ensures SetPart(s, AgentRules(persona, of)) == Lasting(s, of)
  {
    AguiNamed(s.name);
    if IsAgui(s) {
      AguiUnset(s.name, of);
      SameUnset(s.body, AGUI_KEYS, AgentValues(s.name, of), ZeroValues(of));
    } else {
      AllLinesKept(s.body, OwnedKeys(Unmarked(s.name)), AgentValues(s.name, of));
    }
  }

  lemma AguiNamed(name: string)
    ensures Unmarked(name) == AGUI <==> name == "[AGUI" || name == "AGUI"
  {
    if Unmarked(name) == AGUI && name != "AGUI" {
      assert name == [name[0]] + name[1..];
    }
  }

  lemma AguiUnset(name: string, of: seq<Line> -> string)
    requires Unmarked(name) == AGUI
    ensures AgentValues(name, of).of == ZeroValues(of).of && forall x :: AgentValues(name, of).unset(x) <==> ZeroValues(of).unset(x)
  {
  }

  lemma {:induction false} SameKept(segs: seq<Seg>, keys: seq<string>, v: Values, w: Values)
    requires v.of == w.of && forall x :: v.unset(x) <==> w.unset(x)
    ensures Kept(segs, (s: Seg) => Droppable(keys, v, s)) == Kept(segs, (s: Seg) => Droppable(keys, w, s))
  {
    if segs != [] {
      SameKept(segs[1..], keys, v, w);
    }
  }

  lemma {:induction false} SameUnset(body: seq<Line>, keys: seq<string>, v: Values, w: Values)
    requires v.of == w.of && forall x :: v.unset(x) <==> w.unset(x)
    ensures SetLines(body, keys, v) == SetLines(body, keys, w)
  {
    SameKept(Segments(body), keys, v, w);
  }

  /** Every line of the tables that are not owned outright is in the result, in order, besides the owned keys of
      [AGUI] with a zero value and empty lines at the end of the file. */
  lemma {:induction false} AgentLosesNothing(existing: seq<Line>, rendered: seq<Line>, persona: string, of: seq<Line> -> string)
    requires Parse(existing).Some? && Parse(rendered).Some?
    requires forall i :: 0 <= i < |Parse(existing).value| ==> Tidy(Parse(existing).value[i].body)
    requires forall i :: 0 <= i < |Parse(rendered).value| ==> Tidy(Parse(rendered).value[i].body)
    ensures var r := AgentRules(persona, of);
            var out := MergeFiles(existing, rendered, r);
            out.Accepted? && Keeps(TrimEnd(Flatten(AllLasting(Unowned(Parse(existing).value, r.owned), of))), out.lines)
  {
    var r := AgentRules(persona, of);
    FileLosesNothing(existing, rendered, r);
    LastingParts(Unowned(Parse(existing).value, r.owned), persona, of);
  }

  lemma {:induction false} LastingParts(kept: seq<Section>, persona: string, of: seq<Line> -> string)
    ensures SetParts(kept, AgentRules(persona, of)) == AllLasting(kept, of)
  {
    forall i | 0 <= i < |kept|
      ensures SetPart(kept[i], AgentRules(persona, of)) == Lasting(kept[i], of)
    {
      OnlyAguiLoses(kept[i], persona, of);
    }
  }

  // ---------------------------------------------------------------- merging twice

  lemma {:induction false} OwnedKeysApart(table: string)
    ensures KeysApart(OwnedKeys(table))
  {
  }

  /** A template with bare keys and balanced brackets, whose tables are set off by blank lines, and which names a
      table with owned keys once. */
  ghost predicate SetApart(want: seq<Section>, persona: string) {
    && Plain(want) && (forall i :: 1 <= i < |want| ==> StartsBlank(want[i].lead))
    && (forall i, j :: 0 <= i < j < |want| && want[i].name == want[j].name ==> OwnedOrUnkeyed(want[i].name, persona))
  }

  predicate OwnedOrUnkeyed(name: string, persona: string) {
    name in OwnedTables(persona) || OwnedKeys(Unmarked(name)) == []
  }

  lemma {:induction false} RulesApart(persona: string, of: seq<Line> -> string)
    ensures var r := AgentRules(persona, of); !r.owned("") && forall name :: KeysApart(r.keysOf(name))
  {
    NotesNotOwned(persona);
    AllKeysApart();
  }

  lemma {:induction false} AllKeysApart()
    ensures forall name :: KeysApart(OwnedKeys(Unmarked(name)))
  {
    forall name
      ensures KeysApart(OwnedKeys(Unmarked(name)))
    {
      OwnedKeysApart(Unmarked(name));
    }
  }

  lemma {:induction false} AgentWellSet(want: seq<Section>, persona: string, of: seq<Line> -> string)
    requires SetApart(want, persona)
    ensures WellSet(want, AgentRules(persona, of))
  {
    var r := AgentRules(persona, of);
    RulesApart(persona, of);
    forall i, j | 0 <= i < j < |want| && want[i].name == want[j].name
      ensures r.owned(want[i].name) || r.keysOf(want[i].name) == []
    {
      assert OwnedOrUnkeyed(want[i].name, persona);
    }
  }

  /** Running the same merge again changes nothing exactly when the last owned table of the template is told apart
      from the table that stands below the owned ones of the file; otherwise the second run makes the file longer. */
  lemma {:induction false} AgentTwice(existing: seq<Line>, rendered: seq<Line>, persona: string, of: seq<Line> -> string)
    requires Parse(existing).Some? && Plain(Parse(existing).value)
    requires Parse(rendered).Some? && SetApart(Parse(rendered).value, persona)
    ensures var r := AgentRules(persona, of);
            && (MergeFiles(MergeFiles(existing, rendered, r).lines, rendered, r) == MergeFiles(existing, rendered, r)
                <==> Settles(Parse(existing).value, Parse(rendered).value, r))
            && (!Settles(Parse(existing).value, Parse(rendered).value, r) ==> Grows(existing, rendered, r))
  {
    AgentWellSet(Parse(rendered).value, persona, of);
    MergeTwice(existing, rendered, AgentRules(persona, of));
  }

  // ---------------------------------------------------------------- a file that grows

  const SERVER: string := "[MCPServers.gintrack"
  const NOTES: string := "[Remembrances"
  const SERVER_LINE: Line := Line("[MCPServers.gintrack]", Opens(Some(SERVER)), 0)
  const TIMEOUT: Line := Line("Timeout = '60s'", Key("Timeout"), 0)
  const STUB: Line := Line("# Type = 'bearer'", Comment, 0)
  const NOTES_LINE: Line := Line("[Remembrances]", Opens(Some(NOTES)), 0)
  const ENABLED: Line := Line("Enabled = true", Key("Enabled"), 0)

  /** A file whose tables have no blank line between them. */
  function CloseFile(): seq<Line> {
    [SERVER_LINE, TIMEOUT, NOTES_LINE, ENABLED]
  }

  /** The template of a run without a token: the server's table ends in a comment block under a blank line. */
  function StubTemplate(): seq<Line> {
    [EMPTY_LINE, SERVER_LINE, TIMEOUT, EMPTY_LINE, STUB, EMPTY_LINE, NOTES_LINE, ENABLED]
  }

  lemma {:induction false} OneKeyTidy(l: Line, q: seq<Line>)
    requires l.shape.Key? && l.delta == 0 && AllQuiet(q)
    ensures Tidy([l] + q)
  {
    var body := [l] + q;
    assert body[1..] == q && body[..1] == [l];
    QuietSegments(q);
    FillersFlat(q);
    OneKeyClosed(l);
    assert Segments(body) == [Entry(l.shape.name, [l])] + Fillers(q);
  }

  lemma {:induction false} OneKeyClosed(l: Line)
    requires l.shape.Key? && l.delta == 0
    ensures Closed(Entry(l.shape.name, [l]))
  {
    assert [l][1..] == [];
  }

  lemma {:induction false} FlattenTwo(a: Section, b: Section)
    ensures Flatten([ROOT, a, b]) == a.Lines() + b.Lines()
  {
    assert [ROOT, a, b][1..] == [a, b] && [a, b][1..] == [b] && [b][1..] == [];
    assert Flatten([b]) == b.Lines() + Flatten([]);
    assert Flatten([a, b]) == a.Lines() + Flatten([b]);
    assert ROOT.Lines() == [];
  }

  lemma {:induction false} PlainTwo(a: Section, b: Section)
    requires Tidy(a.body) && Tidy(b.body) && !EndingOf(a.body).Blanked? && !EndingOf(b.body).Blanked?
    ensures Plain([ROOT, a, b])
  {
    assert Segments([]) == [];
  }

  /** A root without a line and two tables, as they are laid out and read back. */
  lemma {:induction false} ReadTwo(a: Section, b: Section, lines: seq<Line>)
    requires Headed(a) && Headed(b) && Plain([ROOT, a, b]) && LeadCut(a.lead) == 0 && Junction(a.body, b.lead)
    requires lines == a.Lines() + b.Lines()
    ensures Parse(lines) == Some([ROOT, a, b])
  {
    var ss := [ROOT, a, b];
    FlattenTwo(a, b);
    JunctionIff(ROOT.body, a.lead);
    forall i, j | 0 <= i < |ss| && 0 <= j < |ss| && j == i + 1
      ensures Junction(ss[i].body, ss[j].lead)
    {
      assert i == 0 || i == 1;
    }
    forall i | 0 <= i < |ss|
      ensures Tidy(ss[i].body) && (i > 0 ==> Headed(ss[i]))
    {
    }
    ReadBack(ss);
  }

  lemma {:induction false} CloseFileRead() returns (a: Section, b: Section)
    ensures a == Section(SERVER, [], Some(SERVER_LINE), [TIMEOUT]) && b == Section(NOTES, [], Some(NOTES_LINE), [ENABLED])
    ensures Parse(CloseFile()) == Some([ROOT, a, b]) && Plain([ROOT, a, b])
  {
    a, b := Section(SERVER, [], Some(SERVER_LINE), [TIMEOUT]), Section(NOTES, [], Some(NOTES_LINE), [ENABLED]);
    OneKeyTidy(TIMEOUT, []);
    OneKeyTidy(ENABLED, []);
    assert [TIMEOUT] + [] == [TIMEOUT] && [ENABLED] + [] == [ENABLED];
    PlainTwo(a, b);
    JunctionIff(a.body, b.lead);
    ReadTwo(a, b, CloseFile());
  }

  lemma {:induction false} StubTidy(key: Line, blank: Line, note: Line)
    requires key.shape.Key? && key.delta == 0 && blank.shape.Blank? && note.shape.Comment?
    ensures Tidy([key, blank, note]) && EndingOf([key, blank, note]).Commented?
  {
    OneKeyTidy(key, [blank, note]);
    assert [key] + [blank, note] == [key, blank, note];
  }

  lemma {:induction false} StubLayout(blank: Line, h: Line, key: Line, note: Line, k: Line, last: Line, a: Section, b: Section)
    requires a.lead == [blank] && a.header == Some(h) && a.body == [key, blank, note]
    requires b.lead == [blank] && b.header == Some(k) && b.body == [last]
    ensures a.Lines() + b.Lines() == [blank, h, key, blank, note, blank, k, last]
  {
  }

  lemma {:induction false} StubTemplateRead() returns (a: Section, b: Section)
    ensures a == Section(SERVER, [EMPTY_LINE], Some(SERVER_LINE), [TIMEOUT, EMPTY_LINE, STUB])
    ensures b == Section(NOTES, [EMPTY_LINE], Some(NOTES_LINE), [ENABLED])
    ensures Parse(StubTemplate()) == Some([ROOT, a, b]) && Plain([ROOT, a, b])
  {
    a := Section(SERVER, [EMPTY_LINE], Some(SERVER_LINE), [TIMEOUT, EMPTY_LINE, STUB]);
    b := Section(NOTES, [EMPTY_LINE], Some(NOTES_LINE), [ENABLED]);
    StubTidy(TIMEOUT, EMPTY_LINE, STUB);
    OneKeyTidy(ENABLED, []);
    assert [ENABLED] + [] == [ENABLED];
    PlainTwo(a, b);
    BlankLead(EMPTY_LINE);
    JunctionIff(a.body, b.lead);
    StubLayout(EMPTY_LINE, SERVER_LINE, TIMEOUT, STUB, NOTES_LINE, ENABLED, a, b);
    ReadTwo(a, b, StubTemplate());
  }

  lemma {:induction false} BlankLead(blank: Line)
    requires blank.shape.Blank?
    ensures LeadCut([blank]) == 0 && StartsBlank([blank])
  {
    assert [blank][..1] == [blank] && [blank][..0] == [];
  }

  /** The comment block of the server's table is written once more by the second run, because that run reads it as
      the introduction of the table below. */
  lemma {:induction false} StubRepeats(persona: string, of: seq<Line> -> string)
    ensures var r := AgentRules(persona, of);
            && Grows(CloseFile(), StubTemplate(), r)
            && MergeFiles(MergeFiles(CloseFile(), StubTemplate(), r).lines, StubTemplate(), r) != MergeFiles(CloseFile(), StubTemplate(), r)
  {
    var r := AgentRules(persona, of);
    var a, b := CloseFileRead();
    var c, d := StubTemplateRead();
    NotesNotOwned(persona);
    NeverSettles(a, b, c, d, r);
    BlankLead(EMPTY_LINE);
    TwoSetApart(c, d, persona);
    AgentTwice(CloseFile(), StubTemplate(), persona, of);
  }

  lemma {:induction false} NotesNotOwned(persona: string)
    ensures NOTES !in OwnedTables(persona) && SERVER in OwnedTables(persona) && "" !in OwnedTables(persona)
  {
    assert NOTES[1] == 'R' && ("[AGUI.Profiles." + persona)[1] == 'A';
    assert |("[AGUI.Profiles." + persona)| > 0;
  }

  lemma {:induction false} TwoSetApart(c: Section, d: Section, persona: string)
    requires Plain([ROOT, c, d]) && StartsBlank(c.lead) && StartsBlank(d.lead) && c.name != d.name && c.name != "" && d.name != ""
    ensures SetApart([ROOT, c, d], persona)
  {
    var want := [ROOT, c, d];
    forall i, j | 0 <= i < j < |want|
      ensures want[i].name != want[j].name
    {
      assert i == 0 || (i == 1 && j == 2);
    }
  }

  lemma {:induction false} OursStep(want: seq<Section>, s: Section, owned: string -> bool)
    ensures Ours(want + [s], owned) == Ours(want, owned) + if s.name != "" && owned(s.name) then [s] else []
  {
    assert (want + [s])[..|want|] == want;
  }

  lemma {:induction false} LiftStep(have: seq<Section>, s: Section, owned: string -> bool)
    ensures Unowned(have + [s], owned) == Unowned(have, owned) + if owned(s.name) then [] else [s]
    ensures Anchor(have + [s], owned)
            == if Anchor(have, owned).Some? then Anchor(have, owned) else if owned(s.name) then Some(|Unowned(have, owned)|) else None
  {
    assert (have + [s])[..|have|] == have;
  }

  lemma {:induction false} OursOfTwo(c: Section, d: Section, owned: string -> bool)
    requires owned(c.name) && !owned(d.name) && c.name != ""
    ensures Ours([ROOT, c, d], owned) == [c]
  {
    assert [ROOT] + [c] == [ROOT, c] && [ROOT, c] + [d] == [ROOT, c, d] && [] + [ROOT] == [ROOT];
    OursStep([], ROOT, owned);
    OursStep([ROOT], c, owned);
    OursStep([ROOT, c], d, owned);
  }

  lemma {:induction false} LiftTwo(a: Section, b: Section, owned: string -> bool)
    requires !owned("") && owned(a.name) && !owned(b.name)
    ensures Unowned([ROOT, a, b], owned) == [ROOT, b] && Anchor([ROOT, a, b], owned) == Some(1)
  {
    assert [ROOT] + [a] == [ROOT, a] && [ROOT, a] + [b] == [ROOT, a, b] && [] + [ROOT] == [ROOT];
    LiftStep([], ROOT, owned);
    LiftStep([ROOT], a, owned);
    LiftStep([ROOT, a], b, owned);
  }

  lemma {:induction false} NeverSettles(a: Section, b: Section, c: Section, d: Section, r: Rules)
    requires !r.owned("") && r.owned(a.name) && !r.owned(b.name) && a.name == c.name != "" && b.name == d.name
    requires EndingOf(c.body).Commented? && b.lead == []
    ensures !Settles([ROOT, a, b], [ROOT, c, d], r)
  {
    OursOfTwo(c, d, r.owned);
    LiftTwo(a, b, r.owned);
    JunctionIff(c.body, b.lead);
  }

  // ---------------------------------------------------------------- a file that grows with every run

  function Stubs(n: nat): seq<Line> {
    if n == 0 then [] else Stubs(n - 1) + [STUB]
  }

  /** The server's table, some comment lines right below its last key, and the table below. */
  function StubbedFile(n: nat): seq<Line> {
    [EMPTY_LINE, SERVER_LINE, TIMEOUT] + Stubs(n) + [NOTES_LINE, ENABLED]
  }

  /** A template whose server table ends in a comment right below its last key. */
  function NoteTemplate(): seq<Line> {
    [EMPTY_LINE, SERVER_LINE, TIMEOUT, STUB, EMPTY_LINE, NOTES_LINE, ENABLED]
  }

  lemma {:induction false} StubsAreComments(n: nat)
    ensures (forall i :: 0 <= i < |Stubs(n)| ==> Stubs(n)[i] == STUB) && CommentCut(Stubs(n)) == 0
  {
    if n > 0 {
      StubsAreComments(n - 1);
      assert Stubs(n)[..|Stubs(n)| - 1] == Stubs(n - 1);
    }
  }

  lemma {:induction false} StubsTurn(n: nat)
    ensures [STUB] + Stubs(n) == Stubs(n + 1)
  {
    if n > 0 {
      StubsTurn(n - 1);
      assert [STUB] + Stubs(n) == ([STUB] + Stubs(n - 1)) + [STUB];
    }
  }

  function ServerTable(lead: seq<Line>, body: seq<Line>): Section {
    Section(SERVER, lead, Some(SERVER_LINE), body)
  }

  function NotesTable(lead: seq<Line>): Section {
    Section(NOTES, lead, Some(NOTES_LINE), [ENABLED])
  }

  lemma {:induction false} KeyBodies()
    ensures Tidy([TIMEOUT]) && Tidy([ENABLED]) && Tidy([TIMEOUT, STUB])
  {
    OneKeyTidy(TIMEOUT, []);
    OneKeyTidy(ENABLED, []);
    OneKeyTidy(TIMEOUT, [STUB]);
    assert [TIMEOUT] + [] == [TIMEOUT] && [ENABLED] + [] == [ENABLED] && [TIMEOUT] + [STUB] == [TIMEOUT, STUB];
  }

  lemma {:induction false} StubbedRead(n: nat)
    ensures Parse(StubbedFile(n)) == Some([ROOT, ServerTable([EMPTY_LINE], [TIMEOUT]), NotesTable(Stubs(n))])
  {
    var a, b := ServerTable([EMPTY_LINE], [TIMEOUT]), NotesTable(Stubs(n));
    StubsAreComments(n);
    KeyBodies();
    PlainTwo(a, b);
    BlankLead(EMPTY_LINE);
    AllComments(b.lead);
    JunctionIff(a.body, b.lead);
    LinesOfTwo([EMPTY_LINE], SERVER_LINE, [TIMEOUT], Stubs(n), NOTES_LINE, [ENABLED]);
    ReadTwo(a, b, StubbedFile(n));
  }

  lemma {:induction false} LinesOfTwo(lead: seq<Line>, h: Line, body: seq<Line>, more: seq<Line>, k: Line, last: seq<Line>)
    ensures (lead + [h] + body) + (more + [k] + last) == (lead + [h] + body) + more + ([k] + last)
  {
  }

  lemma {:induction false} NoteTemplateRead()
    ensures Parse(NoteTemplate()) == Some([ROOT, ServerTable([EMPTY_LINE], [TIMEOUT, STUB]), NotesTable([EMPTY_LINE])])
  {
    var a, b := ServerTable([EMPTY_LINE], [TIMEOUT, STUB]), NotesTable([EMPTY_LINE]);
    KeyBodies();
    PlainTwo(a, b);
    BlankLead(EMPTY_LINE);
    JunctionIff(a.body, b.lead);
    ReadTwo(a, b, NoteTemplate());
  }

  lemma {:induction false} TwoMerged(a: Section, b: Section, c: Section, d: Section, r: Rules)
    requires !r.owned("") && r.owned(a.name) && !r.owned(b.name) && a.name == c.name != "" && b.name == d.name != ""
    requires MergeInto(b, d, r) == (b, [])
    ensures MergeSections([ROOT, a, b], [ROOT, c, d], r) == ([ROOT, c, b], [])
  {
    LiftTwo(a, b, r.owned);
    FoldTwo(b, c, d, r);
    assert [ROOT, b][..1] + [c] + [ROOT, b][1..] + [] == [ROOT, c, b];
  }

  lemma {:induction false} FoldTwo(b: Section, c: Section, d: Section, r: Rules)
    requires c.name != "" && b.name == d.name != "" && r.owned(c.name) && !r.owned(d.name) && MergeInto(b, d, r) == (b, [])
    ensures Fold([ROOT, b], [ROOT, c, d], r) == Folded([ROOT, b], [c], [], [])
  {
    var kept := [ROOT, b];
    assert [ROOT, c, d][..2] == [ROOT, c] && [ROOT, c][..1] == [ROOT] && [ROOT][..0] == [];
    assert Fold(kept, [], r) == Folded(kept, [], [], []);
    assert Fold(kept, [ROOT], r) == Folded(kept, [], [], []);
    assert Fold(kept, [ROOT, c], r) == Folded(kept, [c], [], []);
    assert kept[1..][0] == b && FirstNamed(kept, d.name) == Some(1);
    FoldOneStill(Folded(kept, [c], [], []), d, r, 1);
  }

  /** Every run writes the comment once more: after each one the file has one line more than before. */
  lemma {:induction false} NoteForever(n: nat, persona: string, of: seq<Line> -> string)
    ensures MergeFiles(StubbedFile(n), NoteTemplate(), AgentRules(persona, of)) == Accepted(StubbedFile(n + 1), [])
    ensures |StubbedFile(n + 1)| == |StubbedFile(n)| + 1
  {
    var a, b := ServerTable([EMPTY_LINE], [TIMEOUT]), NotesTable(Stubs(n));
    var c, d := ServerTable([EMPTY_LINE], [TIMEOUT, STUB]), NotesTable([EMPTY_LINE]);
    StubbedRead(n);
    NoteTemplateRead();
    StubbedMerge(a, b, c, d, AgentRules(persona, of), persona, of);
    StubbedLines(n, b, c);
    FileOf(StubbedFile(n), NoteTemplate(), [ROOT, a, b], [ROOT, c, d], [ROOT, c, b], StubbedFile(n + 1), AgentRules(persona, of));
  }

  lemma {:induction false} StubbedMerge(a: Section, b: Section, c: Section, d: Section, r: Rules, persona: string, of: seq<Line> -> string)
    requires r == AgentRules(persona, of) && a.name == c.name == SERVER && b.name == d.name == NOTES && b.body == d.body
    ensures MergeSections([ROOT, a, b], [ROOT, c, d], r) == ([ROOT, c, b], [])
  {
    NotesNotOwned(persona);
    NotesAgree(b, d, r);
    TwoMerged(a, b, c, d, r);
  }

  lemma {:induction false} FileOf(existing: seq<Line>, rendered: seq<Line>, have: seq<Section>, want: seq<Section>,
                                  ss: seq<Section>, lines: seq<Line>, r: Rules)
    requires Parse(existing) == Some(have) && Parse(rendered) == Some(want) && MergeSections(have, want, r) == (ss, [])
    requires Flatten(ss) == lines && lines != [] && lines[|lines| - 1].text != ""
    ensures MergeFiles(existing, rendered, r) == Accepted(lines, [])
  {
  }

  lemma {:induction false} NotesAgree(b: Section, d: Section, r: Rules)
    requires b.name == d.name && b.body == d.body
    ensures MergeInto(b, d, r) == (b, [])
  {
    MergeWithItself(b.body, r.keysOf(b.name), r.values(b.name));
    assert Tagged(b.name, []) == [];
  }

  lemma {:induction false} StubbedLines(n: nat, b: Section, c: Section)
    requires b == NotesTable(Stubs(n)) && c == ServerTable([EMPTY_LINE], [TIMEOUT, STUB])
    ensures Flatten([ROOT, c, b]) == StubbedFile(n + 1)
  {
    FlattenTwo(c, b);
    StubsTurn(n);
    JoinedStubs([EMPTY_LINE, SERVER_LINE, TIMEOUT], STUB, Stubs(n), [NOTES_LINE, ENABLED]);
    assert c.Lines() == [EMPTY_LINE, SERVER_LINE, TIMEOUT] + [STUB];
    assert b.Lines() == Stubs(n) + [NOTES_LINE, ENABLED];
  }

  lemma {:induction false} JoinedStubs(x: seq<Line>, l: Line, y: seq<Line>, z: seq<Line>)
    ensures (x + [l]) + (y + z) == x + ([l] + y) + z
  {
  }
}
