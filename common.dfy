/** Shared vocabulary of the two converters: the failure values that stand for
    the Python exceptions the scripts let escape, and the few string operations
    they rely on (`str(n)`, `int(s)`, `" ".join`, `s.split(".")[0]`). */
module Common {

  datatype Option<+T> = None | Some(value: T)

  /** The exceptions the scripts raise; every one aborts the conversion of the
      current document. */
  datatype Error =
    | KeyError(key: string)          // a dict or attribute lookup on a missing key
    | MissingElement(path: string)   // `find` returned None and the result was used
    | IndexError(what: string)       // a string or child index out of range
    | ValueError(text: string)       // `int()` on a string that is not an integer

  datatype Result<+T> = Ok(value: T) | Err(error: Error) {
    predicate IsFailure() { Err? }
    function PropagateFailure<U>(): Result<U>
      requires Err?
    {
      Err(error)
    }
    function Extract(): T
      requires Ok?
    {
      value
    }
  }

  // ---------------------------------------------------------------------------
  // Decimal rendering and parsing of numbers

  function DigitChar(d: nat): (c: char)
    requires d < 10
    ensures '0' <= c <= '9'
  {
    (d + '0' as int) as char
  }

  predicate IsDigit(c: char) { '0' <= c <= '9' }

  function DigitValue(c: char): (d: nat)
    requires IsDigit(c)
    ensures d < 10
  {
    (c as int - '0' as int) as nat
  }

  /** Python's `str(n)` for a non-negative integer. */
  function NatToString(n: nat): (s: string)
    decreases n
  {
    if n < 10 then [DigitChar(n)] else NatToString(n / 10) + [DigitChar(n % 10)]
  }

  predicate AllDigits(s: string) {
    forall i :: 0 <= i < |s| ==> IsDigit(s[i])
  }

  /** The value of a non-empty string of decimal digits. */
  function DecimalValue(s: string): nat
    requires AllDigits(s)
  {
    if s == [] then 0 else 10 * DecimalValue(s[..|s| - 1]) + DigitValue(s[|s| - 1])
  }

  lemma {:induction false} NatToStringDigits(n: nat)
    ensures |NatToString(n)| >= 1 && AllDigits(NatToString(n))
    ensures n >= 10 ==> |NatToString(n)| >= 2
    decreases n
  {
    if n >= 10 {
      NatToStringDigits(n / 10);
    }
  }

  /** `int(str(n)) == n`: the decimal rendering is read back exactly. */
  lemma {:induction false} DecimalValueOfNatToString(n: nat)
    ensures AllDigits(NatToString(n)) && DecimalValue(NatToString(n)) == n
    decreases n
  {
    NatToStringDigits(n);
    var s := NatToString(n);
    if n >= 10 {
      DecimalValueOfNatToString(n / 10);
      assert s[..|s| - 1] == NatToString(n / 10);
    }
  }

  /** Distinct numbers render as distinct strings, so identifiers built as
      `"a" + str(n)` or `"ts" + str(n)` never collide. */
  lemma NatToStringInjective(m: nat, n: nat)
    requires NatToString(m) == NatToString(n)
    ensures m == n
  {
    DecimalValueOfNatToString(m);
    DecimalValueOfNatToString(n);
  }

  lemma PrefixedNatInjective(prefix: string, m: nat, n: nat)
    requires prefix + NatToString(m) == prefix + NatToString(n)
    ensures m == n
  {
    assert NatToString(m) == (prefix + NatToString(m))[|prefix|..];
    assert NatToString(n) == (prefix + NatToString(n))[|prefix|..];
    NatToStringInjective(m, n);
  }

  /** Characters Python's `str.strip()` removes (whitespace in the sense of
      `str.isspace`). */
  predicate IsSpace(c: char) {
    c == ' ' || c == '\t' || c == '\n' || c == '\r' || c == '\U{000B}' || c == '\U{000C}'
    || ('\U{001C}' <= c <= '\U{001F}') || c == '\U{0085}' || c == '\U{00A0}' || c == '\U{1680}'
    || ('\U{2000}' <= c <= '\U{200A}') || c == '\U{2028}' || c == '\U{2029}' || c == '\U{202F}'
    || c == '\U{205F}' || c == '\U{3000}'
  }

  function TrimLeft(s: string): (r: string)
    ensures |r| <= |s|
    ensures r != [] ==> !IsSpace(r[0])
    ensures s == s[..|s| - |r|] + r
  {
    if s != [] && IsSpace(s[0]) then TrimLeft(s[1..]) else s
  }

  function TrimRight(s: string): (r: string)
    ensures |r| <= |s|
    ensures r != [] ==> !IsSpace(r[|r| - 1])
    ensures s == r + s[|r|..]
  {
    if s != [] && IsSpace(s[|s| - 1]) then TrimRight(s[..|s| - 1]) else s
  }

  /** Python's `str.strip()`. */
  function Strip(s: string): string {
    TrimRight(TrimLeft(s))
  }

  lemma StripEnds(s: string)
    ensures Strip(s) != [] ==> !IsSpace(Strip(s)[0]) && !IsSpace(Strip(s)[|Strip(s)| - 1])
  {
    var l := TrimLeft(s);
    var r := TrimRight(l);
    if r != [] {
      assert l == r + l[|r|..];
      assert r[0] == l[0];
    }
  }

  /** ASCII digits, possibly grouped by single underscores between digits
      (`"1_000"`), as Python's `int` accepts them. */
  predicate DigitGroups(t: string) {
    && |t| >= 1 && IsDigit(t[0])
    && (forall i :: 0 <= i < |t| ==> IsDigit(t[i]) || t[i] == '_')
    && (forall i :: 0 <= i < |t| && t[i] == '_' ==> i + 1 < |t| && IsDigit(t[i + 1]))
  }

  /** The string with its underscores removed. */
  function DropUnderscores(s: string): (r: string)
    ensures |r| <= |s|
  {
    if s == [] then [] else (if s[0] == '_' then [] else [s[0]]) + DropUnderscores(s[1..])
  }

  /** Removing the underscores of digit groups leaves only digits. */
  lemma {:induction false} GroupsDigits(t: string)
    requires forall i :: 0 <= i < |t| ==> IsDigit(t[i]) || t[i] == '_'
    ensures AllDigits(DropUnderscores(t))
    decreases |t|
  {
    if t != [] {
      GroupsDigits(t[1..]);
    }
  }

  /** A string of digits has no underscore to remove. */
  lemma {:induction false} DropUnderscoresDigits(t: string)
    requires AllDigits(t)
    ensures DropUnderscores(t) == t
    decreases |t|
  {
    if t != [] {
      DropUnderscoresDigits(t[1..]);
    }
  }

  /** The value of digit groups, underscores ignored. */
  function GroupsValue(t: string): nat
    requires DigitGroups(t)
  {
    GroupsDigits(t);
    DecimalValue(DropUnderscores(t))
  }

  /** Python's `int(s)` on a decimal numeral: surrounding whitespace is
      stripped, an optional sign, then digits grouped by single underscores. */
  function ParseInt(s: string): (r: Result<int>)
  {
    var t := Strip(s);
    if |t| >= 2 && (t[0] == '-' || t[0] == '+') && DigitGroups(t[1..]) then
      var v: int := GroupsValue(t[1..]);
      Ok(if t[0] == '-' then -v else v)
    else if DigitGroups(t) then
      Ok(GroupsValue(t))
    else
      Err(ValueError(s))
  }

  /** Digit groups, with nothing around them, parse to their value. */
  lemma ParseIntOfGroups(t: string)
    requires DigitGroups(t)
    ensures ParseInt(t) == Ok(GroupsValue(t))
  {
    var n := |t| - 1;
    assert IsDigit(t[n]);
    StripUnchanged(t);
    assert t[0] != '-' && t[0] != '+';
  }

  /** Digit grouping as Python reads it: `int("1_000") == 1000`. */
  lemma ParseIntGrouped()
    ensures ParseInt("1_000") == Ok(1000)
  {
    GroupedExample();
    ParseIntOfGroups("1_000");
  }

  lemma GroupedExample()
    ensures DigitGroups("1_000") && GroupsValue("1_000") == 1000
  {
    var t := "1_000";
    assert t[0] == '1' && t[1] == '_' && t[2] == '0' && t[3] == '0' && t[4] == '0';
    assert DigitGroups(t);
    assert DropUnderscores(t) == "1000" by {
      assert t[1..] == "_000" && "_000"[1..] == "000" && "000"[1..] == "00" && "00"[1..] == "0" && "0"[1..] == [];
    }
    DecimalExample();
  }

  lemma DecimalExample()
    ensures DecimalValue("1000") == 1000
  {
    var one, ten, hundred, thousand := "1", "10", "100", "1000";
    assert one[..0] == [];
    assert DecimalValue(one) == 1;
    assert ten[..1] == one;
    assert DecimalValue(ten) == 10;
    assert hundred[..2] == ten;
    assert DecimalValue(hundred) == 100;
    assert thousand[..3] == hundred;
  }

  /** A doubled underscore is not a digit group: `int("1__0")` is a
      ValueError, and so is any numeral with two underscores in a row. */
  lemma ParseIntDoubleUnderscore(t: string, i: nat)
    requires i + 1 < |t| && t[i] == '_' && t[i + 1] == '_'
    requires !IsSpace(t[0]) && !IsSpace(t[|t| - 1])
    ensures ParseInt(t).Err?
  {
    StripUnchanged(t);
    assert !DigitGroups(t) by {
      assert !IsDigit(t[i + 1]);
    }
    if i >= 1 {
      assert !DigitGroups(t[1..]) by {
        assert t[1..][i - 1] == '_' && t[1..][i] == '_';
      }
    }
  }

  lemma StripUnchanged(s: string)
    requires s != [] && !IsSpace(s[0]) && !IsSpace(s[|s| - 1])
    ensures Strip(s) == s
  {
    assert TrimLeft(s) == s;
  }

  lemma ParseIntOfDigits(s: string)
    requires s != [] && AllDigits(s)
    ensures ParseInt(s) == Ok(DecimalValue(s))
  {
    assert IsDigit(s[0]) && IsDigit(s[|s| - 1]);
    StripUnchanged(s);
    DropUnderscoresDigits(s);
    assert s[0] != '-' && s[0] != '+';
    assert DigitGroups(s);
  }

  lemma ParseIntOfNatToString(n: nat)
    ensures ParseInt(NatToString(n)) == Ok(n)
  {
    DecimalValueOfNatToString(n);
    NatToStringDigits(n);
    ParseIntOfDigits(NatToString(n));
  }

  // ---------------------------------------------------------------------------
  // Sequence-of-string helpers

  /** `sep.join(parts)`. */
  function Join(sep: string, parts: seq<string>): string {
    if parts == [] then ""
    else if |parts| == 1 then parts[0]
    else Join(sep, parts[..|parts| - 1]) + sep + parts[|parts| - 1]
  }

  /** `s.split(".")[0]`: everything before the first full stop. */
  function BeforeDot(s: string): (r: string)
    ensures |r| <= |s| && r == s[..|r|]
    ensures '.' !in r
    ensures |r| < |s| ==> s[|r|] == '.'
  {
    if s == [] || s[0] == '.' then [] else [s[0]] + BeforeDot(s[1..])
  }

  /** The same string repeated `k` times (`"." * k`). */
  function Repeat(x: string, k: nat): seq<string> {
    if k == 0 then [] else [x] + Repeat(x, k - 1)
  }

  function Dots(k: nat): (s: string)
    ensures |s| == k && forall i :: 0 <= i < k ==> s[i] == '.'
  {
    if k == 0 then "" else "." + Dots(k - 1)
  }
}
