/** Strings as the repository's Go code sees them: byte order, trimming, cutting and decimal numbers. */
module Text {

  datatype Option<+T> = None | Some(value: T)

  lemma Regroup<T>(a: seq<T>, b: seq<T>, c: seq<T>)
    ensures (a + b) + c == a + (b + c)
  {
  }

  // ---------------------------------------------------------------- parts of a list

  /** One list is the part of another one that a test keeps, in its order. */
  ghost predicate Part<T(!new)>(rs: seq<T>, out: seq<T>, keep: T -> bool) {
    && (forall x :: x in out <==> x in rs && keep(x))
    && forall i, j :: 0 <= i < j < |out| ==> InOrder(rs, out[i], out[j])
  }

  ghost predicate InOrder<T>(rs: seq<T>, x: T, y: T) {
    exists k, l :: 0 <= k < l < |rs| && rs[k] == x && rs[l] == y
  }

  lemma {:induction false} PartGrows<T(!new)>(rs: seq<T>, out: seq<T>, keep: T -> bool, r: T)
    requires Part(rs, out, keep)
    ensures Part(rs + [r], out + if keep(r) then [r] else [], keep)
  {
    var rs', out' := rs + [r], out + if keep(r) then [r] else [];
    assert forall k :: 0 <= k < |rs| ==> rs'[k] == rs[k];
    assert rs'[|rs|] == r;
    forall x
      ensures x in out' <==> x in rs' && keep(x)
    {
      assert x in rs' <==> x in rs || x == r;
    }
    forall i, j | 0 <= i < j < |out'|
      ensures InOrder(rs', out'[i], out'[j])
    {
      if j < |out| {
        assert out'[i] == out[i] && out'[j] == out[j] && InOrder(rs, out[i], out[j]);
        var k, l :| 0 <= k < l < |rs| && rs[k] == out[i] && rs[l] == out[j];
        assert rs'[k] == out'[i] && rs'[l] == out'[j];
      } else {
        assert out[i] in rs;
        var k :| 0 <= k < |rs| && rs[k] == out[i];
        assert rs'[k] == out'[i] && rs'[|rs|] == out'[j];
      }
    }
  }

  /** A further element that is there already, or not kept, leaves the part as it is. */
  lemma {:induction false} PartStays<T(!new)>(rs: seq<T>, out: seq<T>, keep: T -> bool, r: T)
    requires Part(rs, out, keep) && (r in out || !keep(r))
    ensures Part(rs + [r], out, keep)
  {
    var rs' := rs + [r];
    assert forall k :: 0 <= k < |rs| ==> rs'[k] == rs[k];
    forall x
      ensures x in out <==> x in rs' && keep(x)
    {
      assert x in rs' <==> x in rs || x == r;
    }
    forall i, j | 0 <= i < j < |out|
      ensures InOrder(rs', out[i], out[j])
    {
      assert InOrder(rs, out[i], out[j]);
      var k, l :| 0 <= k < l < |rs| && rs[k] == out[i] && rs[l] == out[j];
      assert rs'[k] == out[i] && rs'[l] == out[j];
    }
  }

  // ---------------------------------------------------------------- order

  /** Go's `<` on strings. UTF-8 keeps code point order, so comparing characters is the same. */
  predicate Less(a: string, b: string) {
    if b == "" then false
    else if a == "" then true
    else a[0] < b[0] || (a[0] == b[0] && Less(a[1..], b[1..]))
  }

  lemma {:induction false} LessAsymmetric(a: string, b: string)
    requires Less(a, b)
    ensures !Less(b, a)
  {
    if a != "" && a[0] == b[0] {
      LessAsymmetric(a[1..], b[1..]);
    }
  }

  lemma {:induction false} LessTransitive(a: string, b: string, c: string)
    requires Less(a, b) && Less(b, c)
    ensures Less(a, c)
  {
    if a != "" && a[0] == b[0] && b[0] == c[0] {
      LessTransitive(a[1..], b[1..], c[1..]);
    }
  }

  lemma {:induction false} LessConnected(a: string, b: string)
    ensures a == b || Less(a, b) || Less(b, a)
  {
    if a != "" && b != "" && a[0] == b[0] {
      LessConnected(a[1..], b[1..]);
      assert a == [a[0]] + a[1..] && b == [b[0]] + b[1..];
    }
  }

  lemma LessNegativelyTransitive(a: string, b: string, c: string)
    requires !Less(a, b) && !Less(b, c)
    ensures !Less(a, c)
  {
    LessConnected(a, b);
    LessConnected(b, c);
    if Less(a, c) {
      if a != b {
        LessTransitive(b, a, c);
      }
    }
  }

  // ---------------------------------------------------------------- cutting

  /** The text before the first `sep`, or all of it. */
  function Before(s: string, sep: char): (r: string)
    ensures sep !in r && |r| <= |s|
    ensures |r| < |s| ==> s[|r|] == sep
    ensures s[..|r|] == r
    ensures sep !in s ==> r == s
  {
    if s == "" || s[0] == sep then "" else [s[0]] + Before(s[1..], sep)
  }

  /** strings.Cut: the text after the first `sep`, if there is one. */
  function After(s: string, sep: char): (r: Option<string>)
    ensures r.None? <==> sep !in s
    ensures r.Some? ==> s == Before(s, sep) + [sep] + r.value
  {
    var n := |Before(s, sep)|;
    if n < |s| then
      assert s == s[..n] + [s[n]] + s[n + 1..];
      Some(s[n + 1..])
    else None
  }

  lemma {:induction false} CutJoined(a: string, sep: char, b: string)
    requires sep !in a
    ensures Before(a + [sep] + b, sep) == a
    ensures After(a + [sep] + b, sep) == Some(b)
  {
    var s := a + [sep] + b;
    if a == "" {
      assert s[0] == sep;
      assert s[1..] == b;
    } else {
      assert s[0] == a[0] && s[1..] == a[1..] + [sep] + b;
      CutJoined(a[1..], sep, b);
      assert a == [a[0]] + a[1..];
      assert s[|a| + 1..] == b;
    }
  }

  /** The index one past the last `/`, so that the base name starts there. */
  function BaseStart(p: string): (n: nat)
    ensures n <= |p|
    ensures '/' !in p[n..]
    ensures n > 0 ==> p[n - 1] == '/'
  {
    if p == "" then 0
    else if p[|p| - 1] == '/' then |p|
    else
      var n := BaseStart(p[..|p| - 1]);
      assert p[n..] == p[..|p| - 1][n..] + [p[|p| - 1]];
      n
  }

  /** path.Base of a clean path. */
  function BaseName(p: string): (r: string)
    ensures '/' !in r
  {
    p[BaseStart(p)..]
  }

  /** path.Dir of a clean, relative path. */
  function DirName(p: string): string {
    var n := BaseStart(p);
    if n == 0 then "." else p[..n - 1]
  }

  /** path.Join of a clean folder and a name. */
  function JoinPath(dir: string, name: string): string {
    if dir == "." then name else dir + "/" + name
  }

  lemma BaseStartUnique(p: string, n: nat)
    requires n <= |p| && '/' !in p[n..]
    requires n > 0 ==> p[n - 1] == '/'
    ensures BaseStart(p) == n
  {
    var m := BaseStart(p);
    assert forall i :: m <= i < |p| ==> p[i] == p[m..][i - m];
    assert forall i :: n <= i < |p| ==> p[i] == p[n..][i - n];
  }

  lemma SplitJoined(dir: string, name: string)
    requires dir != "." && '/' !in name
    ensures DirName(JoinPath(dir, name)) == dir
    ensures BaseName(JoinPath(dir, name)) == name
  {
    var p := JoinPath(dir, name);
    assert p[|dir| + 1..] == name;
    BaseStartUnique(p, |dir| + 1);
  }

  predicate HasPrefix(s: string, pre: string) {
    |pre| <= |s| && s[..|pre|] == pre
  }

  predicate HasSuffix(s: string, suf: string) {
    |suf| <= |s| && s[|s| - |suf|..] == suf
  }

  function TrimPrefix(s: string, pre: string): string {
    if HasPrefix(s, pre) then s[|pre|..] else s
  }

  function TrimSuffix(s: string, suf: string): string {
    if HasSuffix(s, suf) then s[..|s| - |suf|] else s
  }

  // ---------------------------------------------------------------- trimming

  /** What trimming takes off: the white space of Unicode. */
  predicate IsSpace(c: char) {
    || c == ' ' || '\t' <= c <= '\r' || c == '\U{85}' || c == '\U{A0}' || c == '\U{1680}'
    || '\U{2000}' <= c <= '\U{200A}' || c == '\U{2028}' || c == '\U{2029}' || c == '\U{202F}' || c == '\U{205F}' || c == '\U{3000}'
  }

  function TrimLeft(s: string): (r: string)
    ensures r == "" || !IsSpace(r[0])
    ensures |r| <= |s| && s[|s| - |r|..] == r
  {
    if s != "" && IsSpace(s[0]) then TrimLeft(s[1..]) else s
  }

  function TrimRight(s: string): (r: string)
    ensures r == "" || !IsSpace(r[|r| - 1])
    ensures |r| <= |s| && s[..|r|] == r
  {
    if s != "" && IsSpace(s[|s| - 1]) then TrimRight(s[..|s| - 1]) else s
  }

  /** strings.TrimSpace. */
  function TrimSpace(s: string): (r: string)
    ensures r == "" || (!IsSpace(r[0]) && !IsSpace(r[|r| - 1]))
  {
    var l := TrimLeft(s);
    var r := TrimRight(l);
    assert r != "" ==> r[0] == l[..|r|][0] == l[0];
    r
  }

  /** Text without blanks at its ends is left as it is. */
  lemma TrimmedIsFixed(s: string)
    requires s == "" || (!IsSpace(s[0]) && !IsSpace(s[|s| - 1]))
    ensures TrimSpace(s) == s
  {
  }

  // ---------------------------------------------------------------- decimals

  const DIGITS := "0123456789"

  predicate IsDigit(c: char) {
    '0' <= c <= '9'
  }

  predicate AllDigits(s: string) {
    forall i :: 0 <= i < |s| ==> IsDigit(s[i])
  }

  /** strconv.Itoa of a natural number. */
  function Decimal(n: nat): (s: string)
    ensures |s| >= 1 && AllDigits(s)
  {
    if n < 10 then [DIGITS[n]] else Decimal(n / 10) + [DIGITS[n % 10]]
  }

  function DigitValue(c: char): (n: nat)
    requires IsDigit(c)
    ensures n < 10 && DIGITS[n] == c
  {
    var n := (c as int) - ('0' as int);
    assert n == 0 || n == 1 || n == 2 || n == 3 || n == 4 || n == 5 || n == 6 || n == 7 || n == 8 || n == 9;
    n
  }

  /** strconv.Atoi of a run of digits. */
  function NatValue(s: string): nat
    requires AllDigits(s)
  {
    if s == "" then 0 else 10 * NatValue(s[..|s| - 1]) + DigitValue(s[|s| - 1])
  }

  lemma DigitRoundTrip(n: nat)
    requires n < 10
    ensures IsDigit(DIGITS[n]) && DigitValue(DIGITS[n]) == n
  {
    assert n == 0 || n == 1 || n == 2 || n == 3 || n == 4 || n == 5 || n == 6 || n == 7 || n == 8 || n == 9;
  }

  lemma {:induction false} DecimalRoundTrip(n: nat)
    ensures NatValue(Decimal(n)) == n
  {
    var s := Decimal(n);
    DigitRoundTrip(n % 10);
    if n < 10 {
      assert s[..|s| - 1] == "";
    } else {
      assert s[..|s| - 1] == Decimal(n / 10);
      DecimalRoundTrip(n / 10);
    }
  }

  lemma DecimalInjective(m: nat, n: nat)
    requires Decimal(m) == Decimal(n)
    ensures m == n
  {
    DecimalRoundTrip(m);
    DecimalRoundTrip(n);
  }

  function Zeros(n: nat): (s: string)
    ensures |s| == n && AllDigits(s)
  {
    if n == 0 then "" else "0" + Zeros(n - 1)
  }

  /** The `%0*d` verb: zero padding to at least `width` digits. */
  function Padded(width: nat, n: nat): (s: string)
    ensures |s| >= width && |s| >= 1 && AllDigits(s)
  {
    var d := Decimal(n);
    if |d| < width then Zeros(width - |d|) + d else d
  }

  lemma {:induction false} LeadingZeros(k: nat, s: string)
    requires AllDigits(s)
    ensures AllDigits(Zeros(k) + s) && NatValue(Zeros(k) + s) == NatValue(s)
    decreases |s|, k
  {
    var t := Zeros(k) + s;
    if s == "" {
      if k > 0 {
        ZerosEnd(k);
        assert t == Zeros(k - 1) + "0";
        assert t[..|t| - 1] == Zeros(k - 1) + "";
        LeadingZeros(k - 1, "");
        DigitRoundTrip(0);
      }
    } else {
      assert t[..|t| - 1] == Zeros(k) + s[..|s| - 1];
      LeadingZeros(k, s[..|s| - 1]);
    }
  }

  lemma {:induction false} ZerosEnd(k: nat)
    requires k > 0
    ensures Zeros(k) == Zeros(k - 1) + "0"
  {
    if k > 1 {
      ZerosEnd(k - 1);
    }
  }

  lemma PaddedRoundTrip(width: nat, n: nat)
    ensures NatValue(Padded(width, n)) == n
  {
    DecimalRoundTrip(n);
    var d := Decimal(n);
    if |d| < width {
      LeadingZeros(width - |d|, d);
    }
  }

  lemma {:induction false} NoLeadingZero(n: nat)
    ensures n >= 1 ==> Decimal(n)[0] != '0'
  {
    if n >= 10 {
      NoLeadingZero(n / 10);
    }
  }

  /** Padding adds only the zeros that are missing. */
  lemma PaddedWidth(width: nat, n: nat)
    requires width >= 1
    ensures |Padded(width, n)| > width ==> Padded(width, n)[0] != '0'
  {
    NoLeadingZero(n);
  }
}
