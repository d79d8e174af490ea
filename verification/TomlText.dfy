/** A TOML file as lines: what each line is, the brackets it opens, and the split into tables
    (TOML v1.0.0, sections "Table" and "Array"). */
module TomlText {
  import opened Text

  /** What a line looks like once trimmed; a line that opens a table carries the table's marked name, when it
      can be read. */
  datatype Shape = Blank | Comment | Opens(table: Option<string>) | Key(name: string) | Other

  datatype AnyLine = Line(text: string, shape: Shape, delta: int)

  /** Blank lines and comments open no bracket, an empty line is blank, and a table's marked name is never
      empty. */
  predicate Proper(l: AnyLine) {
    && (l.text == "" ==> l.shape.Blank?)
    && (l.shape.Blank? || l.shape.Comment? ==> l.delta == 0)
    && (l.shape.Opens? && l.shape.table.Some? ==> l.shape.table.value != "")
  }

  type Line = l: AnyLine | Proper(l) witness Line("", Blank, 0)

  predicate Quiet(l: Line) {
    l.shape.Blank? || l.shape.Comment?
  }

  // ---------------------------------------------------------------- reading a line

  /** Brackets opened minus closed from a position on, outside strings and comments; `quote` is the open
      string's quote, or 0. */
  function DeltaFrom(s: string, i: nat, quote: char): int
    decreases |s| - i
  {
    if i >= |s| then 0
    else if quote != '\0' then
      if quote == '"' && s[i] == '\\' then DeltaFrom(s, i + 2, quote)
      else DeltaFrom(s, i + 1, if s[i] == quote then '\0' else quote)
    else if s[i] == '#' then 0
    else if s[i] == '\'' || s[i] == '"' then DeltaFrom(s, i + 1, s[i])
    else (if s[i] == '[' || s[i] == '{' then 1 else if s[i] == ']' || s[i] == '}' then -1 else 0) + DeltaFrom(s, i + 1, '\0')
  }

  /** tomlBracketDelta. */
  method BracketDelta(s: string) returns (delta: int)
    ensures delta == DeltaFrom(s, 0, '\0')
  {
    delta := 0;
    var quote := '\0';
    var i := 0;
    while i < |s|
      invariant delta + DeltaFrom(s, i, quote) == DeltaFrom(s, 0, '\0')
      decreases |s| - i
    {
      var c := s[i];
      if quote != '\0' {
        if quote == '"' && c == '\\' {
          i := i + 2;
          continue;
        }
        if c == quote {
          quote := '\0';
        }
        i := i + 1;
        continue;
      }
      if c == '\'' || c == '"' {
        quote := c;
      } else if c == '#' {
        return;
      } else if c == '[' || c == '{' {
        delta := delta + 1;
      } else if c == ']' || c == '}' {
        delta := delta - 1;
      }
      i := i + 1;
    }
  }

  /** Blanks in front of the end or of a comment count for nothing. */
  lemma {:induction false} QuietDelta(s: string, i: nat, n: nat)
    requires i <= n <= |s| && (forall k :: i <= k < n ==> IsSpace(s[k])) && (n < |s| ==> s[n] == '#')
    ensures DeltaFrom(s, i, '\0') == 0
    decreases n - i
  {
    if i < n {
      QuietDelta(s, i + 1, n);
    }
  }

  lemma {:induction false} LeadingBlanks(s: string)
    ensures forall k :: 0 <= k < |s| - |TrimLeft(s)| ==> IsSpace(s[k])
    ensures TrimLeft(s) != "" ==> s[|s| - |TrimLeft(s)|] == TrimLeft(s)[0]
  {
    if s != "" && IsSpace(s[0]) {
      LeadingBlanks(s[1..]);
      assert forall k :: 1 <= k < |s| ==> s[k] == s[1..][k - 1];
    }
  }

  lemma TrimmedStart(s: string)
    ensures TrimSpace(s) == "" ==> TrimLeft(s) == ""
    ensures TrimSpace(s) != "" ==> TrimLeft(s) != "" && TrimLeft(s)[0] == TrimSpace(s)[0]
  {
    var l := TrimLeft(s);
    var r := TrimRight(l);
    if l != "" {
      KeepsFirst(l);
      assert r[0] == l[..|r|][0];
    }
  }

  lemma {:induction false} KeepsFirst(l: string)
    requires l != "" && !IsSpace(l[0])
    ensures TrimRight(l) != ""
    decreases |l|
  {
    if IsSpace(l[|l| - 1]) {
      KeepsFirst(l[..|l| - 1]);
    }
  }

  lemma QuietText(text: string)
    requires TrimSpace(text) == "" || TrimSpace(text)[0] == '#'
    ensures DeltaFrom(text, 0, '\0') == 0
  {
    TrimmedStart(text);
    LeadingBlanks(text);
    QuietDelta(text, 0, |text| - |TrimLeft(text)|);
  }

  function ShapeOf(trimmed: string, headerOf: string -> Option<string>, keyOf: string -> Option<string>): Shape {
    if trimmed == "" then Blank
    else if trimmed[0] == '#' then Comment
    else if trimmed[0] == '[' then Opens(headerOf(trimmed))
    else
      match keyOf(trimmed)
      case Some(k) => Key(k)
      case None => Other
  }

  /** A line with its shape and brackets; the two patterns read a table name and a bare key. */
  method ReadLine(text: string, headerOf: string -> Option<string>, keyOf: string -> Option<string>) returns (l: Line)
    requires forall s :: headerOf(s).Some? ==> headerOf(s).value != ""
    ensures l.text == text && l.shape == ShapeOf(TrimSpace(text), headerOf, keyOf) && l.delta == DeltaFrom(text, 0, '\0')
    ensures l.shape.Blank? <==> TrimSpace(text) == ""
    ensures l.shape.Comment? <==> HasPrefix(TrimSpace(text), "#")
    ensures l.shape.Opens? <==> HasPrefix(TrimSpace(text), "[")
    ensures l.shape.Opens? ==> l.shape.table == headerOf(TrimSpace(text))
    ensures l.shape.Key? ==> keyOf(TrimSpace(text)) == Some(l.shape.name)
    ensures l.shape.Other? ==> keyOf(TrimSpace(text)).None?
  {
    var delta := BracketDelta(text);
    var trimmed := TrimSpace(text);
    if trimmed == "" || trimmed[0] == '#' {
      QuietText(text);
    }
    l := Line(text, ShapeOf(trimmed, headerOf, keyOf), delta);
  }

  // ---------------------------------------------------------------- tables

  /** One table as text; the first section of a file has no header and holds the root keys. */
  datatype Section = Section(name: string, lead: seq<Line>, header: Option<Line>, body: seq<Line>) {
    function Lines(): seq<Line> {
      lead + (if header.Some? then [header.value] else []) + body
    }
  }

  const ROOT := Section("", [], None, [])

  function Flatten(ss: seq<Section>): seq<Line> {
    if ss == [] then [] else ss[0].Lines() + Flatten(ss[1..])
  }

  /** Where the trailing comments of a body begin. */
  function CommentCut(body: seq<Line>): (n: nat)
    ensures n <= |body| && (n > 0 ==> !body[n - 1].shape.Comment?)
    ensures forall i :: n <= i < |body| ==> body[i].shape.Comment?
  {
    if body != [] && body[|body| - 1].shape.Comment? then CommentCut(body[..|body| - 1]) else |body|
  }

  /** Where the trailing blank lines of a body begin. */
  function BlankCut(body: seq<Line>): (n: nat)
    ensures n <= |body| && (n > 0 ==> !body[n - 1].shape.Blank?)
    ensures forall i :: n <= i < |body| ==> body[i].shape.Blank?
  {
    if body != [] && body[|body| - 1].shape.Blank? then BlankCut(body[..|body| - 1]) else |body|
  }

  /** Where the lines that introduce the next header begin: its comment block and the blank lines above it. */
  function LeadCut(body: seq<Line>): (n: nat)
    ensures n <= |body| && (n > 0 ==> !body[n - 1].shape.Blank?)
    ensures forall i :: n <= i < |body| ==> Quiet(body[i])
  {
    BlankCut(body[..CommentCut(body)])
  }

  /** takeLead: back over the comment block, then over the blank lines above it. */
  method TakeLead(body: seq<Line>) returns (kept: seq<Line>, lead: seq<Line>)
    ensures kept == body[..LeadCut(body)] && lead == body[LeadCut(body)..]
  {
    var cut := |body|;
    assert body[..cut] == body;
    while cut > 0 && body[cut - 1].shape.Comment?
      invariant 0 <= cut <= |body| && CommentCut(body[..cut]) == CommentCut(body)
    {
      CommentStep(body, cut);
      cut := cut - 1;
    }
    CommentStep(body, cut);
    ghost var top := cut;
    while cut > 0 && body[cut - 1].shape.Blank?
      invariant 0 <= cut <= top && BlankCut(body[..cut]) == BlankCut(body[..top])
    {
      BlankStep(body, cut);
      cut := cut - 1;
    }
    BlankStep(body, cut);
    kept, lead := body[..cut], body[cut..];
  }

  lemma CommentStep(body: seq<Line>, cut: nat)
    requires cut <= |body|
    ensures CommentCut(body[..cut]) == if cut > 0 && body[cut - 1].shape.Comment? then CommentCut(body[..cut - 1]) else cut
  {
    if cut > 0 {
      assert body[..cut][..cut - 1] == body[..cut - 1];
    }
  }

  lemma BlankStep(body: seq<Line>, cut: nat)
    requires cut <= |body|
    ensures BlankCut(body[..cut]) == if cut > 0 && body[cut - 1].shape.Blank? then BlankCut(body[..cut - 1]) else cut
  {
    if cut > 0 {
      assert body[..cut][..cut - 1] == body[..cut - 1];
    }
  }

  function Floor(n: int): nat {
    if n < 0 then 0 else n
  }

  /** The sections of the remaining lines, the first of them begun already. */
  function ParseFrom(lines: seq<Line>, current: Section, depth: nat): (r: Option<seq<Section>>)
    ensures r.Some? ==> r.value != []
    decreases |lines|
  {
    if lines == [] then Some([current])
    else if depth == 0 && lines[0].shape.Opens? then
      if lines[0].shape.table.None? then None
      else
        var cut := LeadCut(current.body);
        match ParseFrom(lines[1..], Section(lines[0].shape.table.value, current.body[cut..], Some(lines[0]), []), 0)
        case None => None
        case Some(rest) => Some([current.(body := current.body[..cut])] + rest)
    else ParseFrom(lines[1..], current.(body := current.body + [lines[0]]), Floor(depth + lines[0].delta))
  }

  function Parse(lines: seq<Line>): Option<seq<Section>> {
    ParseFrom(lines, ROOT, 0)
  }

  /** parsePandoTOML over the lines of the text; a table header that cannot be read refuses the file. */
  method ParsePandoToml(lines: seq<Line>) returns (r: Option<seq<Section>>)
    ensures r == Parse(lines)
  {
    var done: seq<Section>, current, depth := [], ROOT, 0;
    assert lines[0..] == lines;
    assert Parse(lines).Some? ==> done + Parse(lines).value == Parse(lines).value;
    for i := 0 to |lines|
      invariant depth >= 0
      invariant Parse(lines) == match ParseFrom(lines[i..], current, depth) case None => None case Some(rest) => Some(done + rest)
    {
      var line := lines[i];
      assert lines[i..][0] == line && lines[i..][1..] == lines[i + 1..];
      if depth == 0 && line.shape.Opens? {
        if line.shape.table.None? {
          return None;
        }
        var kept, lead := TakeLead(current.body);
        ghost var rest := ParseFrom(lines[i + 1..], Section(line.shape.table.value, lead, Some(line), []), 0);
        assert rest.Some? ==> done + ([current.(body := kept)] + rest.value) == (done + [current.(body := kept)]) + rest.value;
        done := done + [current.(body := kept)];
        current := Section(line.shape.table.value, lead, Some(line), []);
      } else {
        current := current.(body := current.body + [line]);
        depth := depth + line.delta;
        if depth < 0 {
          depth := 0;
        }
      }
    }
    r := Some(done + [current]);
  }

  lemma {:induction false} FlattenFrom(lines: seq<Line>, current: Section, depth: nat)
    requires ParseFrom(lines, current, depth).Some?
    ensures Flatten(ParseFrom(lines, current, depth).value) == current.Lines() + lines
    decreases |lines|
  {
    if lines == [] {
      assert Flatten([current]) == current.Lines() + Flatten([]);
    } else if depth == 0 && lines[0].shape.Opens? {
      var cut := LeadCut(current.body);
      var next := Section(lines[0].shape.table.value, current.body[cut..], Some(lines[0]), []);
      FlattenFrom(lines[1..], next, 0);
      var rest := ParseFrom(lines[1..], next, 0).value;
      var first := current.(body := current.body[..cut]);
      assert ([first] + rest)[1..] == rest;
      CutRejoins(current, cut, lines);
    } else {
      var more := current.(body := current.body + [lines[0]]);
      FlattenFrom(lines[1..], more, Floor(depth + lines[0].delta));
      assert lines == [lines[0]] + lines[1..];
      assert more.Lines() == current.Lines() + [lines[0]];
    }
  }

  lemma CutRejoins(current: Section, cut: nat, lines: seq<Line>)
    requires cut <= |current.body| && lines != []
    ensures current.(body := current.body[..cut]).Lines()
            + (Section("", current.body[cut..], Some(lines[0]), []).Lines() + lines[1..])
            == current.Lines() + lines
  {
    assert current.body == current.body[..cut] + current.body[cut..];
    assert lines == [lines[0]] + lines[1..];
  }

  /** Splitting a file into tables loses and moves nothing: the sections flatten to the very lines. */
  lemma ParseKeepsLines(lines: seq<Line>)
    requires Parse(lines).Some?
    ensures Flatten(Parse(lines).value) == lines
  {
    FlattenFrom(lines, ROOT, 0);
    assert ROOT.Lines() + lines == lines;
  }

  lemma {:induction false} FlattenJoin(a: seq<Section>, b: seq<Section>)
    ensures Flatten(a + b) == Flatten(a) + Flatten(b)
  {
    if a == [] {
      assert a + b == b;
    } else {
      assert (a + b)[0] == a[0] && (a + b)[1..] == a[1..] + b;
      FlattenJoin(a[1..], b);
    }
  }

  // ---------------------------------------------------------------- what the scans count

  predicate Plainly(c: char) {
    c != '#' && c != '\'' && c != '"'
  }

  /** The brackets a text opens less those it closes. */
  function Net(s: string): int {
    if s == "" then 0
    else (match s[0] case '[' => 1 case '{' => 1 case ']' => -1 case '}' => -1 case _ => 0) + Net(s[1..])
  }

  /** Without quotes and comments every bracket counts. */
  lemma {:induction false} PlainDelta(s: string, i: nat, n: nat)
    requires i <= n <= |s| && forall k :: i <= k < n ==> Plainly(s[k])
    ensures DeltaFrom(s, i, '\0') == Net(s[i..n]) + DeltaFrom(s, n, '\0')
    decreases n - i
  {
    if i < n {
      PlainDelta(s, i + 1, n);
      assert s[i..n][1..] == s[i + 1..n] && s[i..n][0] == s[i];
    } else {
      assert s[i..n] == "";
    }
  }

  /** Behind the sign of a comment nothing counts. */
  lemma CommentDelta(s: string, i: nat)
    requires i < |s| && s[i] == '#'
    ensures DeltaFrom(s, i, '\0') == 0
  {
  }

  /** Inside a string nothing counts: up to the next quote of the same kind, past escaped characters if the quote is
      a double one. */
  lemma {:induction false} QuotedDelta(s: string, i: nat, n: nat, quote: char)
    requires i <= n < |s| && s[n] == quote && (quote == '\'' || quote == '"')
    requires forall k :: i <= k < n ==> s[k] != quote && (quote == '"' ==> s[k] != '\\')
    ensures DeltaFrom(s, i, quote) == DeltaFrom(s, n + 1, '\0')
    decreases n - i
  {
    if i < n {
      QuotedDelta(s, i + 1, n, quote);
    }
  }

  lemma {:induction false} EscapedDelta(s: string, i: nat)
    requires i + 1 < |s| && s[i] == '\\'
    ensures DeltaFrom(s, i, '"') == DeltaFrom(s, i + 2, '"')
  {
  }

  /** Where the lead of the next table begins: above the comment lines that end the body, all of them, and above the
      blank lines over those, all of them. */
  lemma LeadMeans(body: seq<Line>) returns (m: nat)
    ensures LeadCut(body) <= m <= |body|
    ensures (forall i :: m <= i < |body| ==> body[i].shape.Comment?) && (m > 0 ==> !body[m - 1].shape.Comment?)
    ensures (forall i :: LeadCut(body) <= i < m ==> body[i].shape.Blank?) && (LeadCut(body) > 0 ==> !body[LeadCut(body) - 1].shape.Blank?)
  {
    m := CommentCut(body);
    assert forall i :: 0 <= i < m ==> body[..m][i] == body[i];
  }
}
