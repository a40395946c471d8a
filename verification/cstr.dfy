/**
 * Text as the converter sees it: NUL-terminated C strings read from a line
 * buffer, and the C library routines it leans on (`strchr`, `std::stoi`,
 * `%d`), stated as functions over `seq<char>`.
 */
module CStr {
  import opened Wrappers

  const NUL: char := '\0'

  /** A C string's text never holds its own terminator. */
  predicate IsCString(s: string) {
    NUL !in s
  }

  predicate IsDigit(c: char) {
    '0' <= c <= '9'
  }

  /** `isspace` in the C locale: space, tab, newline, vertical tab, form feed, carriage return. */
  predicate IsCSpace(c: char) {
    c == ' ' || '\t' <= c <= '\r'
  }

  /**
   * The line ending `foreach_line_stdio` removes from the `n` bytes `getline`
   * returned: at most one trailing '\n', then at most one trailing '\r'.
   */
  function StripLineEnd(raw: string): (s: string)
    ensures s == raw || s + "\n" == raw || s + "\r" == raw || s + "\r\n" == raw
    ensures |raw| > 0 && raw[|raw| - 1] == '\n' ==> s + "\n" == raw || s + "\r\n" == raw
    ensures (|raw| == 0 || raw[|raw| - 1] != '\n') && |raw| > 0 && raw[|raw| - 1] == '\r' ==> s + "\r" == raw
    ensures |raw| == 0 || (raw[|raw| - 1] != '\n' && raw[|raw| - 1] != '\r') ==> s == raw
    ensures |raw| >= 2 && raw[|raw| - 2..] == "\r\n" ==> s + "\r\n" == raw
    ensures |raw| >= 1 && raw[|raw| - 1] == '\n' && (|raw| == 1 || raw[|raw| - 2] != '\r') ==> s + "\n" == raw
  {
    var a := if |raw| > 0 && raw[|raw| - 1] == '\n' then raw[..|raw| - 1] else raw;
    if |a| > 0 && a[|a| - 1] == '\r' then a[..|a| - 1] else a
  }

  /** The text a `const char *` to `buf` denotes: everything before the first NUL. */
  function CText(buf: string): (s: string)
    ensures IsCString(s)
    ensures |s| <= |buf| && s == buf[..|s|]
    ensures s == buf || buf[|s|] == NUL
  {
    if buf == [] || buf[0] == NUL then [] else [buf[0]] + CText(buf[1..])
  }

  /** The line handed to `process` for one buffer `getline` filled. */
  function LineText(raw: string): string {
    CText(StripLineEnd(raw))
  }

  /**
   * `strchr(s + from, c)` for a C string (and `std::string::find(c, from)`):
   * the first position at or after `from` holding `c`, if any.
   */
  function IndexOf(s: string, from: nat, c: char): (r: Option<nat>)
    requires from <= |s|
    ensures r.Some? ==> from <= r.value < |s| && s[r.value] == c && c !in s[from..r.value]
    ensures r.None? ==> c !in s[from..]
    decreases |s| - from
  {
    if from == |s| then None
    else if s[from] == c then Some(from)
    else IndexOf(s, from + 1, c)
  }

  /** The search stops at the first `c` from `from` on, and finds none when there is none. */
  lemma {:induction false} IndexOfFinds(s: string, from: nat, c: char, p: int)
    requires from <= |s|
    requires p == |s| || (from <= p < |s| && s[p] == c)
    requires c !in s[from..p]
    ensures IndexOf(s, from, c) == if p == |s| then None else Some(p)
    decreases |s| - from
  {
    if from < |s| && from < p {
      assert s[from] in s[from..p];
      assert s[from + 1..p] == s[from..p][1..];
      IndexOfFinds(s, from + 1, c, p);
    }
  }

  /** The first position at or after `i` that is not a space (or the end). */
  function SkipSpaces(s: string, i: nat): (r: nat)
    requires i <= |s|
    ensures i <= r <= |s|
    ensures forall k :: i <= k < r ==> s[k] == ' '
    ensures r == |s| || s[r] != ' '
    decreases |s| - i
  {
    if i < |s| && s[i] == ' ' then SkipSpaces(s, i + 1) else i
  }

  /**
   * Where `skip_ws(s + i)` stops: it steps over the character at `i`
   * unconditionally, then over every following space. Reading `s[i + 1]`
   * is defined only while `i` is inside the text (index `|s|` is the NUL).
   */
  function SkipWsEnd(s: string, i: nat): (r: nat)
    requires i < |s|
    ensures i < r <= |s|
  {
    SkipSpaces(s, i + 1)
  }

  /** `skip_ws`: step over the current character, then over any spaces. */
  method SkipWs(s: string, i: nat) returns (j: nat)
    requires i < |s|
    ensures j == SkipWsEnd(s, i)
    ensures forall k :: i < k < j ==> s[k] == ' '
    ensures j == |s| || s[j] != ' '
  {
    j := i + 1;
    while j < |s| && s[j] == ' '
      invariant i < j <= |s|
      invariant SkipSpaces(s, j) == SkipSpaces(s, i + 1)
      decreases |s| - j
    {
      j := j + 1;
    }
  }

  /** The end of the run of decimal digits starting at `i`. */
  function DigitRunEnd(s: string, i: nat): (r: nat)
    requires i <= |s|
    ensures i <= r <= |s|
    ensures forall k :: i <= k < r ==> IsDigit(s[k])
    ensures r == |s| || !IsDigit(s[r])
    decreases |s| - i
  {
    if i < |s| && IsDigit(s[i]) then DigitRunEnd(s, i + 1) else i
  }

  /** The first position at or after `i` that is not C whitespace. */
  function SkipCSpaces(s: string, i: nat): (r: nat)
    requires i <= |s|
    ensures i <= r <= |s|
    ensures forall k :: i <= k < r ==> IsCSpace(s[k])
    ensures r == |s| || !IsCSpace(s[r])
    decreases |s| - i
  {
    if i < |s| && IsCSpace(s[i]) then SkipCSpaces(s, i + 1) else i
  }

  predicate AllDigits(ds: string) {
    forall k :: 0 <= k < |ds| ==> IsDigit(ds[k])
  }

  function DigitValue(c: char): int {
    c as int - '0' as int
  }

  /** The value of a string of decimal digits, most significant first. */
  function DecimalValue(ds: string): (v: int)
    requires AllDigits(ds)
    ensures v >= 0
  {
    if ds == [] then 0 else 10 * DecimalValue(ds[..|ds| - 1]) + DigitValue(ds[|ds| - 1])
  }

  /**
   * `std::stoi` in base 10: leading C whitespace, an optional sign, then the
   * longest run of digits; no digit at all is `std::invalid_argument`, here
   * `None`. Text after the digits is ignored.
   */
  function ParseInt(t: string): Option<int> {
    var i := SkipCSpaces(t, 0);
    var j := if i < |t| && (t[i] == '-' || t[i] == '+') then i + 1 else i;
    var k := DigitRunEnd(t, j);
    if k == j then None
    else
      var v := DecimalValue(t[j..k]);
      Some(if i < |t| && t[i] == '-' then -v else v)
  }

  /** `printf("%d")` of a non-negative number: decimal digits without leading zeros. */
  function Decimal(n: nat): (ds: string)
    ensures AllDigits(ds) && ds != []
    ensures |ds| > 1 ==> ds[0] != '0'
  {
    if n < 10 then ['0' + n as char] else Decimal(n / 10) + ['0' + (n % 10) as char]
  }

  lemma {:induction false} DecimalRoundTrip(n: nat)
    ensures DecimalValue(Decimal(n)) == n
  {
    if n >= 10 {
      var ds := Decimal(n);
      assert ds[..|ds| - 1] == Decimal(n / 10);
      DecimalRoundTrip(n / 10);
    }
  }

  /** `std::stoi` reads back exactly what `%d` wrote. */
  lemma ParseIntOfDecimal(n: nat)
    ensures ParseInt(Decimal(n)) == Some(n)
  {
    var ds := Decimal(n);
    assert SkipCSpaces(ds, 0) == 0;
    assert DigitRunEnd(ds, 0) == |ds|;
    assert ds[0..|ds|] == ds;
    DecimalRoundTrip(n);
  }

  /**
   * A token that starts with a digit always converts: its value is that of
   * its leading digit run, whatever follows.
   */
  lemma ParseIntDigitLed(t: string)
    requires t != [] && IsDigit(t[0])
    ensures ParseInt(t) == Some(DecimalValue(t[..DigitRunEnd(t, 0)]))
  {
    assert SkipCSpaces(t, 0) == 0;
  }

  /** Text that is empty, or starts with neither whitespace, sign nor digit, does not convert. */
  lemma ParseIntRejects(t: string)
    requires t == [] || (!IsCSpace(t[0]) && !IsDigit(t[0]) && t[0] != '-' && t[0] != '+')
    ensures ParseInt(t) == None
  {
    if t != [] {
      assert SkipCSpaces(t, 0) == 0;
    }
  }
}
