/**
 * Character classes and string helpers: `str.strip()` and the regex class
 * `\s` with Python's meaning, substring search, and `int()` / `str()` on
 * decimal integers. Digits, for `\d` and `int()` alike, are the ASCII digits
 * only; Python also accepts the other Unicode decimal digits.
 */
module Text {
  import opened Wrappers

  /**
   * Python's whitespace (`str.isspace`, `str.strip`, `\s` on str patterns):
   * the code points for which Py_UNICODE_ISSPACE holds.
   */
  predicate IsSpace(c: char)
  {
    var n := c as int;
    (9 <= n <= 13) || (28 <= n <= 32) || n == 0x85 || n == 0xA0 || n == 0x1680
    || (0x2000 <= n <= 0x200A) || n == 0x2028 || n == 0x2029 || n == 0x202F
    || n == 0x205F || n == 0x3000
  }

  /** An ASCII decimal digit. */
  predicate IsDigit(c: char)
  {
    '0' <= c <= '9'
  }

  /** A letter of `[a-zA-Z]`. */
  predicate IsAsciiLetter(c: char)
  {
    ('a' <= c <= 'z') || ('A' <= c <= 'Z')
  }

  predicate AllDigits(s: string)
  {
    forall i | 0 <= i < |s| :: IsDigit(s[i])
  }

  /** `not s or not s.strip()`: the string is empty or only whitespace. */
  predicate IsBlank(s: string)
  {
    forall i | 0 <= i < |s| :: IsSpace(s[i])
  }

  /** `str.lstrip()`: the longest suffix that does not start with whitespace. */
  function TrimLeft(s: string): (r: string)
    ensures |r| <= |s| && r == s[|s| - |r|..]
    ensures r != [] ==> !IsSpace(r[0])
    ensures forall i | 0 <= i < |s| - |r| :: IsSpace(s[i])
  {
    if s != [] && IsSpace(s[0]) then TrimLeft(s[1..]) else s
  }

  /** `str.rstrip()`: the longest prefix that does not end with whitespace. */
  function TrimRight(s: string): (r: string)
    ensures |r| <= |s| && r == s[..|r|]
    ensures r != [] ==> !IsSpace(r[|r| - 1])
    ensures forall i | |r| <= i < |s| :: IsSpace(s[i])
  {
    if s != [] && IsSpace(s[|s| - 1]) then TrimRight(s[..|s| - 1]) else s
  }

  /** `str.strip()`. */
  function Strip(s: string): string
  {
    TrimRight(TrimLeft(s))
  }

  /** The source's blank test `not s.strip()` is the same as "every character is whitespace". */
  lemma BlankIffStripsToEmpty(s: string)
    ensures IsBlank(s) <==> Strip(s) == ""
  {
    var l := TrimLeft(s);
    if Strip(s) == "" {
      assert l == [];
    } else {
      var r := Strip(s);
      assert !IsSpace(r[0]);
      assert r[0] == l[0] == s[|s| - |l|];
    }
  }

  /** Stripping changes nothing when neither end is whitespace. */
  lemma StripUnpadded(s: string)
    requires s != [] && !IsSpace(s[0]) && !IsSpace(s[|s| - 1])
    ensures Strip(s) == s
  {
    assert TrimLeft(s) == s;
  }

  /** `t` occurs in `s` starting at index `i`. */
  predicate OccursAt(s: string, t: string, i: int)
  {
    0 <= i <= |s| - |t| && s[i..i + |t|] == t
  }

  /** `t in s` for strings, and the SQL pattern `'%' || t || '%'` without wildcards. */
  predicate Contains(s: string, t: string)
  {
    exists i | 0 <= i <= |s| - |t| :: OccursAt(s, t, i)
  }

  function DigitValue(c: char): nat
    requires IsDigit(c)
  {
    (c as int - '0' as int) as nat
  }

  function DigitChar(d: nat): (c: char)
    requires d < 10
    ensures IsDigit(c) && DigitValue(c) == d
  {
    ('0' as int + d) as char
  }

  /** The value of a string of decimal digits, most significant first. */
  function DigitsValue(s: string): nat
    requires AllDigits(s)
  {
    if s == [] then 0 else DigitsValue(s[..|s| - 1]) * 10 + DigitValue(s[|s| - 1])
  }

  /** `str(n)` for a non-negative integer: decimal, no leading zeros. */
  function NatToString(n: nat): (s: string)
    ensures s != [] && AllDigits(s)
    ensures |s| > 1 ==> s[0] != '0'
  {
    if n < 10 then [DigitChar(n)] else NatToString(n / 10) + [DigitChar(n % 10)]
  }

  /** `str(x)` for any integer. */
  function IntToString(x: int): string
  {
    if x < 0 then "-" + NatToString(-x) else NatToString(x)
  }

  /**
   * Python's `int(s)` on a string: surrounding whitespace is ignored, then an
   * optional sign and one or more decimal digits (leading zeros allowed);
   * anything else raises ValueError, modelled as None.
   */
  function ParseInt(s: string): Option<int>
  {
    var t := Strip(s);
    if t == [] then None
    else
      var digits := if t[0] == '+' || t[0] == '-' then t[1..] else t;
      if digits != [] && AllDigits(digits) then
        var n := DigitsValue(digits);
        Some(if t[0] == '-' then -(n as int) else n)
      else None
  }

  /** Reading back the decimal text of a natural number gives the number. */
  lemma {:induction false} NatToStringRoundTrip(n: nat)
    ensures DigitsValue(NatToString(n)) == n
  {
    if n >= 10 {
      NatToStringRoundTrip(n / 10);
      var s := NatToString(n);
      assert s[..|s| - 1] == NatToString(n / 10);
    }
  }

  /** `int(str(x)) == x` for every integer. */
  lemma ParseIntRoundTrip(x: int)
    ensures ParseInt(IntToString(x)) == Some(x)
  {
    var s := IntToString(x);
    var m := if x < 0 then -x else x;
    NatToStringRoundTrip(m);
    var digits := NatToString(m);
    assert s[0] == '-' || IsDigit(s[0]);
    assert IsDigit(s[|s| - 1]) by {
      assert s[|s| - 1] == digits[|digits| - 1];
    }
    StripUnpadded(s);
    if x < 0 {
      assert s[1..] == digits;
    }
  }

  /** The nearest whole number of cents to the amount `x`; a tie goes up. */
  function Cents(x: real): (c: int)
    ensures (c as real) - 0.5 <= x * 100.0 < (c as real) + 0.5
  {
    (x * 100.0 + 0.5).Floor
  }

  /** `f"{x:.2f}"` for an amount that is not negative: whole units, a point, two digits of cents. */
  function TwoDecimals(x: real): string
    requires x >= 0.0
  {
    var c := Cents(x);
    NatToString(c / 100) + "." + [DigitChar(c % 100 / 10), DigitChar(c % 10)]
  }

  /** The text `TwoDecimals` writes reads back as the rounded number of cents. */
  lemma TwoDecimalsReadsBack(x: real)
    requires x >= 0.0
    ensures var s := TwoDecimals(x);
      && |s| >= 4 && s[|s| - 3] == '.'
      && AllDigits(s[..|s| - 3]) && AllDigits(s[|s| - 2..])
      && DigitsValue(s[..|s| - 3]) * 100 + DigitsValue(s[|s| - 2..]) == Cents(x)
  {
    var s := TwoDecimals(x);
    var c := Cents(x);
    var whole := NatToString(c / 100);
    var frac := [DigitChar(c % 100 / 10), DigitChar(c % 10)];
    assert s == whole + "." + frac;
    assert s[..|s| - 3] == whole;
    assert s[|s| - 2..] == frac;
    NatToStringRoundTrip(c / 100);
    TwoDigitsValue(c % 100 / 10, c % 10);
  }

  lemma TwoDigitsValue(a: nat, b: nat)
    requires a < 10 && b < 10
    ensures DigitsValue([DigitChar(a), DigitChar(b)]) == a * 10 + b
  {
    var s := [DigitChar(a), DigitChar(b)];
    var first := [DigitChar(a)];
    assert s[..1] == first;
    assert first[..0] == [];
    assert DigitsValue(first) == DigitValue(DigitChar(a));
    assert DigitsValue(s) == DigitsValue(first) * 10 + DigitValue(DigitChar(b));
  }
}
