/** Item ids `<KEY>-<TYPECODE>-<NNNN>`, the file names that carry them and board references. */
module Ids {
  import opened Text

  datatype ItemType = Epic | Story | Task | Milestone | Spec | Comment

  datatype TypeCode = EP | US | T | M | SP

  datatype ItemId = ItemId(key: string, code: TypeCode, number: nat)

  function CodeText(c: TypeCode): string {
    match c
    case EP => "EP"
    case US => "US"
    case T => "T"
    case M => "M"
    case SP => "SP"
  }

  function CodeOf(text: string): (r: Option<TypeCode>)
    ensures r.Some? ==> CodeText(r.value) == text
    ensures forall c :: CodeText(c) == text ==> r == Some(c)
  {
    if text == "EP" then Some(EP)
    else if text == "US" then Some(US)
    else if text == "T" then Some(T)
    else if text == "M" then Some(M)
    else if text == "SP" then Some(SP)
    else None
  }

  /** The id code of an item type; a comment has none (R-ID-4). */
  function TypeCodeFor(t: ItemType): Option<TypeCode> {
    match t
    case Epic => Some(EP)
    case Story => Some(US)
    case Task => Some(T)
    case Milestone => Some(M)
    case Spec => Some(SP)
    case Comment => None
  }

  function ItemTypeFor(c: TypeCode): (t: ItemType)
    ensures TypeCodeFor(t) == Some(c)
  {
    match c
    case EP => Epic
    case US => Story
    case T => Task
    case M => Milestone
    case SP => Spec
  }

  predicate IsUpper(c: char) {
    'A' <= c <= 'Z'
  }

  /** The project key grammar: an upper-case letter, then one to nine upper-case letters or digits. */
  predicate ValidProjectKey(k: string) {
    2 <= |k| <= 10 && IsUpper(k[0]) && forall i :: 1 <= i < |k| ==> IsUpper(k[i]) || IsDigit(k[i])
  }

  predicate IdCharacter(c: char) {
    IsUpper(c) || IsDigit(c)
  }

  lemma KeyCharacters(k: string)
    requires ValidProjectKey(k)
    ensures forall c :: c in k ==> IdCharacter(c)
  {
  }

  lemma CodeCharacters(code: TypeCode)
    ensures forall c :: c in CodeText(code) ==> IdCharacter(c)
  {
  }

  function ParseItemId(s: string): Option<ItemId> {
    var key := Before(s, '-');
    match After(s, '-')
    case None => None
    case Some(rest) =>
      match After(rest, '-')
      case None => None
      case Some(digits) =>
        var code := CodeOf(Before(rest, '-'));
        if ValidProjectKey(key) && code.Some? && |digits| >= 4 && AllDigits(digits)
        then Some(ItemId(key, code.value, NatValue(digits)))
        else None
  }

  /** The `%04d` verb counts the sign of a negative number as one of the four places. */
  function FormatNumber(number: int): string {
    if number >= 0 then Padded(4, number) else "-" + Padded(3, -number)
  }

  function FormatItemId(key: string, code: TypeCode, number: int): string {
    key + "-" + CodeText(code) + "-" + FormatNumber(number)
  }

  /** Parsing undoes formatting, for every valid key and every number. */
  lemma ParseFormat(key: string, code: TypeCode, number: nat)
    requires ValidProjectKey(key)
    ensures ParseItemId(FormatItemId(key, code, number)) == Some(ItemId(key, code, number))
  {
    var digits := Padded(4, number);
    assert FormatItemId(key, code, number) == key + ['-'] + (CodeText(code) + ['-'] + digits);
    PaddedRoundTrip(4, number);
    ParseParts(key, code, digits);
  }

  lemma ParseParts(key: string, code: TypeCode, digits: string)
    requires ValidProjectKey(key) && |digits| >= 4 && AllDigits(digits)
    ensures ParseItemId(key + ['-'] + (CodeText(code) + ['-'] + digits)) == Some(ItemId(key, code, NatValue(digits)))
  {
    KeyCharacters(key);
    CutJoined(key, '-', CodeText(code) + ['-'] + digits);
    assert '-' !in CodeText(code);
    CutJoined(CodeText(code), '-', digits);
    assert CodeOf(CodeText(code)) == Some(code);
  }

  /** The letters of a type code. */
  predicate Spelled(c: TypeCode, letters: string) {
    match c
    case EP => letters == "EP"
    case US => letters == "US"
    case T => letters == "T"
    case M => letters == "M"
    case SP => letters == "SP"
  }

  /** The type each code stands for; a comment has none. */
  lemma TypeSpelled(t: ItemType, letters: string)
    ensures TypeCodeFor(t).Some? && Spelled(TypeCodeFor(t).value, letters)
            <==> (t.Epic? && letters == "EP") || (t.Story? && letters == "US") || (t.Task? && letters == "T")
                 || (t.Milestone? && letters == "M") || (t.Spec? && letters == "SP")
  {
  }

  predicate KeyGrammar(key: string) {
    && 2 <= |key| <= 10 && 'A' <= key[0] <= 'Z'
    && forall i :: 0 <= i < |key| ==> 'A' <= key[i] <= 'Z' || '0' <= key[i] <= '9'
  }

  /** The grammar of an id: the project key, the letters of the type and a number of at least four digits. */
  ghost predicate Spells(s: string, id: ItemId, letters: string, digits: string) {
    && s == id.key + "-" + letters + "-" + digits
    && KeyGrammar(id.key) && Spelled(id.code, letters)
    && |digits| >= 4 && AllDigits(digits) && NatValue(digits) == id.number
  }

  lemma KeyMeans(key: string)
    ensures ValidProjectKey(key) <==> KeyGrammar(key)
  {
  }

  lemma SpellingIs(c: TypeCode, letters: string)
    ensures Spelled(c, letters) <==> letters == CodeText(c)
  {
  }

  lemma FiveParts(key: string, letters: string, digits: string)
    ensures key + ['-'] + (letters + ['-'] + digits) == key + "-" + letters + "-" + digits
  {
  }

  lemma IdSpelled(s: string) returns (letters: string, digits: string)
    requires ParseItemId(s).Some?
    ensures Spells(s, ParseItemId(s).value, letters, digits)
  {
    var rest := After(s, '-').value;
    letters, digits := Before(rest, '-'), After(rest, '-').value;
    FiveParts(Before(s, '-'), letters, digits);
    KeyMeans(Before(s, '-'));
    SpellingIs(CodeOf(letters).value, letters);
  }

  lemma SpelledParses(s: string, id: ItemId, letters: string, digits: string)
    requires Spells(s, id, letters, digits)
    ensures ParseItemId(s) == Some(id)
  {
    KeyMeans(id.key);
    SpellingIs(id.code, letters);
    FiveParts(id.key, letters, digits);
    ParseParts(id.key, id.code, digits);
  }

  /** A text reads as an id exactly when it spells that id. */
  lemma ParsesExactly(s: string, id: ItemId)
    ensures ParseItemId(s) == Some(id) <==> exists letters, digits :: Spells(s, id, letters, digits)
  {
    if letters, digits :| Spells(s, id, letters, digits) {
      SpelledParses(s, id, letters, digits);
    }
    if ParseItemId(s) == Some(id) {
      var letters, digits := IdSpelled(s);
    }
  }

  /** A formatted number has four digits, and more only when it needs them. */
  lemma FormatWidth(number: nat)
    ensures var d := FormatNumber(number);
            |d| >= 4 && AllDigits(d) && NatValue(d) == number && (|d| > 4 ==> d[0] != '0')
  {
    PaddedRoundTrip(4, number);
    PaddedWidth(4, number);
  }

  /** The three dash-free parts of a well-formed id. */
  lemma IdParts(id: string) returns (key: string, code: string, digits: string)
    requires ParseItemId(id).Some?
    ensures id == key + ['-'] + (code + ['-'] + digits)
    ensures key != "" && IsUpper(key[0])
    ensures forall c :: c in key || c in code || c in digits ==> IdCharacter(c)
  {
    key := Before(id, '-');
    var rest := After(id, '-').value;
    code := Before(rest, '-');
    digits := After(rest, '-').value;
    KeyCharacters(key);
    CodeCharacters(CodeOf(code).value);
    assert code == CodeText(CodeOf(code).value);
  }

  lemma IdCharacters(id: string)
    requires ParseItemId(id).Some?
    ensures id != "" && IsUpper(id[0])
    ensures forall c :: c in id ==> IdCharacter(c) || c == '-'
  {
    var key, code, digits := IdParts(id);
    assert id[0] == key[0];
  }

  // ---------------------------------------------------------------- file names

  predicate IsItemFileName(name: string) {
    HasSuffix(name, ".md") && !HasPrefix(name, ".")
  }

  /** The id a file name starts with, or "" when it starts with none. */
  function IdFromFileName(p: string): (r: string)
    ensures r == "" || ParseItemId(r).Some?
  {
    IdOfBase(TrimSuffix(BaseName(p), ".md"))
  }

  function IdOfBase(base: string): (r: string)
    ensures r == "" || ParseItemId(r).Some?
  {
    match ThreeParts(base)
    case None => ""
    case Some(candidate) => if ParseItemId(candidate).Some? then candidate else ""
  }

  /** The first three dash-separated parts of a text, joined again. */
  function ThreeParts(base: string): Option<string> {
    match After(base, '-')
    case None => None
    case Some(rest) =>
      match After(rest, '-')
      case None => None
      case Some(tail) => Some(Before(base, '-') + "-" + Before(rest, '-') + "-" + Before(tail, '-'))
  }

  lemma ThreePartsJoined(key: string, code: string, digits: string, id: string, slug: string)
    requires '-' !in key && '-' !in code && '-' !in digits
    requires id == key + ['-'] + (code + ['-'] + digits)
    ensures ThreeParts(id + ['-'] + slug) == Some(id)
  {
    var tail := digits + ['-'] + slug;
    var rest := code + ['-'] + tail;
    assert id + ['-'] + slug == key + ['-'] + rest;
    assert id == key + "-" + code + "-" + digits;
    CutJoined(key, '-', rest);
    CutJoined(code, '-', tail);
    CutJoined(digits, '-', slug);
  }

  /** A file name built from a well-formed id and a slug carries exactly that id. */
  lemma NameCarriesId(dir: string, id: string, slug: string)
    requires ParseItemId(id).Some? && '/' !in slug && dir != "."
    ensures var p := JoinPath(dir, id + "-" + slug + ".md");
            && IdFromFileName(p) == id && DirName(p) == dir
            && BaseName(p) == id + "-" + slug + ".md" && IsItemFileName(BaseName(p))
  {
    IdCharacters(id);
    var name := id + "-" + slug + ".md";
    MarkdownName(id, slug);
    SplitJoined(dir, name);
    BaseCarriesId(id, slug);
  }

  lemma MarkdownName(id: string, slug: string)
    requires id != "" && id[0] != '.' && '/' !in id && '/' !in slug
    ensures var name := id + "-" + slug + ".md";
            && '/' !in name && TrimSuffix(name, ".md") == id + ['-'] + slug && IsItemFileName(name)
  {
    var name := id + "-" + slug + ".md";
    assert name[|name| - 3..] == ".md";
    assert name[0] == id[0];
  }

  lemma BaseCarriesId(id: string, slug: string)
    requires ParseItemId(id).Some?
    ensures IdOfBase(id + ['-'] + slug) == id
  {
    var key, code, digits := IdParts(id);
    ThreePartsJoined(key, code, digits, id, slug);
  }

  // ---------------------------------------------------------------- references

  /** A board reference `<projectKey>/<itemId>`. */
  datatype Ref = Ref(project: string, item: string) {
    function Text(): string {
      project + "/" + item
    }
  }

  function ParseRef(s: string): Option<Ref> {
    CutRef(TrimSpace(s))
  }

  function CutRef(raw: string): (r: Option<Ref>)
    ensures r.Some? ==> r.value.Text() == raw && '/' !in r.value.project
  {
    var key := Before(raw, '/');
    match After(raw, '/')
    case None => None
    case Some(id) =>
      var parsed := ParseItemId(id);
      if ValidProjectKey(key) && parsed.Some? && parsed.value.key == key then Some(Ref(key, id)) else None
  }

  /** A parsed reference renders as the trimmed text, and that text parses to the same reference. */
  lemma RefRoundTrip(s: string)
    requires ParseRef(s).Some?
    ensures var r := ParseRef(s).value; r.Text() == TrimSpace(s) && ParseRef(r.Text()) == Some(r)
  {
    TrimmedTwice(s);
  }

  lemma TrimmedTwice(s: string)
    ensures TrimSpace(TrimSpace(s)) == TrimSpace(s)
  {
    TrimmedIsFixed(TrimSpace(s));
  }

  lemma RefIsRead(s: string)
    requires ParseRef(s).Some?
    ensures '/' !in ParseRef(s).value.project && ParseRef(ParseRef(s).value.Text()) == ParseRef(s)
  {
    RefRoundTrip(s);
  }

  lemma CutRefIs(raw: string, r: Ref)
    requires raw == r.project + "/" + r.item && ParseItemId(r.item).Some? && ParseItemId(r.item).value.key == r.project
    ensures CutRef(raw) == Some(r)
  {
    var letters, digits := IdSpelled(r.item);
    KeyMeans(r.project);
    KeyHasNoSlash(r.project);
    assert raw == r.project + ['/'] + r.item;
    CutJoined(r.project, '/', r.item);
  }

  lemma KeyHasNoSlash(k: string)
    requires ValidProjectKey(k)
    ensures '/' !in k
  {
    KeyCharacters(k);
  }

  /** Which texts read as a reference: a project key, a slash and an id under that key, blanks around them aside. */
  lemma RefParsesExactly(s: string, r: Ref)
    ensures ParseRef(s) == Some(r)
            <==> TrimSpace(s) == r.project + "/" + r.item && ParseItemId(r.item).Some? && ParseItemId(r.item).value.key == r.project
  {
    if TrimSpace(s) == r.project + "/" + r.item && ParseItemId(r.item).Some? && ParseItemId(r.item).value.key == r.project {
      CutRefIs(TrimSpace(s), r);
    }
  }
}
