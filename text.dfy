/** The string primitives the scraper leans on, as Python defines them:
    `str.strip()`, `str.lower()`, `str.isdecimal()`, `int(...)` and `str(...)`
    on non-negative integers. */
module Text {
  import opened Wrappers

  /** The characters for which Python's `str.isspace()` holds: these are the
      ones `str.strip()` removes when called without an argument. */
  predicate IsSpace(c: char) {
    var n := c as int;
    || 9 <= n <= 13 || 28 <= n <= 32
    || n == 0x85 || n == 0xA0 || n == 0x1680
    || 0x2000 <= n <= 0x200A
    || n == 0x2028 || n == 0x2029 || n == 0x202F || n == 0x205F || n == 0x3000
  }

  /** Drops leading whitespace. */
  function StripStart(s: string): string {
    if s != [] && IsSpace(s[0]) then StripStart(s[1..]) else s
  }

  /** Drops trailing whitespace. */
  function StripEnd(s: string): string {
    if s != [] && IsSpace(s[|s| - 1]) then StripEnd(s[..|s| - 1]) else s
  }

  /** Python's `s.strip()`: never longer than `s`, and neither end of a
      non-empty result is whitespace. */
  function Strip(s: string): (r: string)
    ensures |r| <= |s|
    ensures r == [] || (!IsSpace(r[0]) && !IsSpace(r[|r| - 1]))
  {
    StripStartSpec(s);
    StripEndSpec(StripStart(s));
    StripEnd(StripStart(s))
  }

  /** Every character of `s` is whitespace. */
  predicate AllSpace(s: string) {
    forall k :: 0 <= k < |s| ==> IsSpace(s[k])
  }

  /** `StripStart` cuts `s` into a run of whitespace and a rest that does
      not start with whitespace, and returns the rest. */
  lemma {:induction false} StripStartSpec(s: string)
    ensures var r := StripStart(s);
      && |r| <= |s|
      && s[|s| - |r|..] == r
      && AllSpace(s[..|s| - |r|])
      && (r == [] || !IsSpace(r[0]))
  {
    if s != [] && IsSpace(s[0]) {
      var t := s[1..];
      StripStartSpec(t);
      var r := StripStart(t);
      var j := |t| - |r|;
      assert s[..j + 1] == [s[0]] + t[..j];
      assert s[j + 1..] == t[j..];
    }
  }

  /** `StripEnd` cuts `s` into a rest that does not end with whitespace and
      a run of whitespace, and returns the rest. */
  lemma {:induction false} StripEndSpec(s: string)
    ensures var r := StripEnd(s);
      && |r| <= |s|
      && s[..|r|] == r
      && AllSpace(s[|r|..])
      && (r == [] || !IsSpace(r[|r| - 1]))
  {
    if s != [] && IsSpace(s[|s| - 1]) {
      var t := s[..|s| - 1];
      StripEndSpec(t);
      var r := StripEnd(t);
      assert s[|r|..] == t[|r|..] + [s[|s| - 1]];
      assert s[..|r|] == t[..|r|];
    }
  }

  /** `s.strip()` is what is left of `s` once the whitespace on both sides
      is cut off: `s` is whitespace, then the result, then whitespace, and
      the result neither starts nor ends with whitespace. */
  lemma StripSpec(s: string)
    ensures var r := Strip(s);
      var i := |s| - |StripStart(s)|;
      && 0 <= i && i + |r| <= |s|
      && s[i..i + |r|] == r
      && AllSpace(s[..i]) && AllSpace(s[i + |r|..])
      && (r == [] || (!IsSpace(r[0]) && !IsSpace(r[|r| - 1])))
  {
    var t := StripStart(s);
    StripStartSpec(s);
    StripEndSpec(t);
    var r := StripEnd(t);
    var i := |s| - |t|;
    assert s[i..] == t;
    assert s[i..i + |r|] == t[..|r|];
    assert s[i + |r|..] == t[|r|..];
    assert r != [] ==> r[0] == t[0];
  }

  /** Python's `str.lower()` on one character, for the ASCII letters. */
  function LowerChar(c: char): char {
    if 'A' <= c <= 'Z' then (c as int + 32) as char else c
  }

  /** Python's `s.lower()`, character by character. */
  function Lower(s: string): (r: string)
    ensures |r| == |s|
  {
    seq(|s|, k requires 0 <= k < |s| => LowerChar(s[k]))
  }

  /** Lower-casing twice is lower-casing once: a key that is already lower
      case is its own lookup key. */
  lemma LowerIdempotent(s: string)
    ensures Lower(Lower(s)) == Lower(s)
  {
  }

  predicate IsDigit(c: char) {
    '0' <= c <= '9'
  }

  /** Python's `s.isdecimal()` for ASCII input: non-empty and all digits.
      Neither command word of the site menu, `exit` or `back`, is decimal. */
  predicate IsDecimal(s: string)
    ensures IsDecimal(s) ==> s != "exit" && s != "back"
  {
    |s| > 0 && IsDigit(s[0]) && forall k :: 0 <= k < |s| ==> IsDigit(s[k])
  }

  function DigitValue(c: char): (d: nat)
    requires IsDigit(c)
    ensures d < 10
  {
    c as int - '0' as int
  }

  function DigitChar(d: nat): (c: char)
    requires d < 10
    ensures IsDigit(c) && DigitValue(c) == d
  {
    ('0' as int + d) as char
  }

  /** The value of a string of digits read in base ten (leading zeros
      allowed): it is 0 exactly when every digit is `0`. */
  function DecimalValue(s: string): (n: nat)
    requires forall k :: 0 <= k < |s| ==> IsDigit(s[k])
    ensures n == 0 <==> forall k :: 0 <= k < |s| ==> s[k] == '0'
  {
    if s == [] then 0 else 10 * DecimalValue(s[..|s| - 1]) + DigitValue(s[|s| - 1])
  }

  /** CPython's default limit on the digits `int()` converts from a string
      (`sys.get_int_max_str_digits()`); leading zeros count. */
  const IntMaxStrDigits := 4300

  /** Python's `int(s)` on a string of digits: its value, or None where
      `int` raises `ValueError` because the string has more digits than
      the interpreter's limit. */
  function ParseInt(s: string): (r: Option<nat>)
    requires forall k :: 0 <= k < |s| ==> IsDigit(s[k])
    ensures r.None? <==> |s| > IntMaxStrDigits
    ensures r.Some? ==> r.value == DecimalValue(s)
  {
    if |s| > IntMaxStrDigits then None else Some(DecimalValue(s))
  }

  /** Python's `str(n)` for a non-negative integer of at most 4300 digits
      (CPython's `str` raises beyond that limit; this function is total):
      decimal digits with no leading zero. */
  function Decimal(n: nat): (r: string)
    ensures IsDecimal(r)
    ensures r[0] == '0' ==> n == 0
  {
    if n < 10 then [DigitChar(n)] else Decimal(n / 10) + [DigitChar(n % 10)]
  }

  /** `int(str(n)) == n` for `n` within the digit limit: the number printed
      is the number read back. */
  lemma {:induction false} DecimalRoundTrip(n: nat)
    ensures DecimalValue(Decimal(n)) == n
  {
    if n >= 10 {
      var r := Decimal(n);
      assert r[..|r| - 1] == Decimal(n / 10);
      DecimalRoundTrip(n / 10);
    }
  }
}
