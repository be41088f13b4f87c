/** Decimal rendering and parsing of numbers: `String(n)` for non-negative integers,
    `padStart`, and `parseFloat` restricted to plain decimal notation. */
module Decimal {
  import opened Wrappers
  import Text

  predicate IsDigit(c: char) {
    '0' <= c <= '9'
  }

  predicate AllDigits(s: string) {
    forall i :: 0 <= i < |s| ==> IsDigit(s[i])
  }

  function DigitChar(d: nat): (c: char)
    requires d < 10
    ensures IsDigit(c)
  {
    ('0' as int + d) as char
  }

  function DigitValue(c: char): (d: nat)
    requires IsDigit(c)
    ensures d < 10 && DigitChar(d) == c
  {
    c as int - '0' as int
  }

  /** `String(n)` for a non-negative integer: its shortest decimal spelling. */
  function NatToString(n: nat): (r: string)
    ensures |r| > 0 && AllDigits(r)
    ensures r[0] == '0' ==> n == 0
  {
    if n < 10 then [DigitChar(n)] else NatToString(n / 10) + [DigitChar(n % 10)]
  }

  /** The value of a digit string read in base ten (leading zeros allowed). */
  function DigitsValue(s: string): nat
    requires AllDigits(s)
  {
    if |s| == 0 then 0 else DigitsValue(s[..|s| - 1]) * 10 + DigitValue(s[|s| - 1])
  }

  /** Reading back the decimal spelling of `n` gives `n`. */
  lemma {:induction false} NatToStringRoundTrip(n: nat)
    ensures DigitsValue(NatToString(n)) == n
  {
    if n >= 10 {
      var r := NatToString(n);
      assert r[..|r| - 1] == NatToString(n / 10);
      NatToStringRoundTrip(n / 10);
    }
  }

  /** Decimal spellings are distinct for distinct numbers. */
  lemma NatToStringInjective(n: nat, m: nat)
    requires NatToString(n) == NatToString(m)
    ensures n == m
  {
    NatToStringRoundTrip(n);
    NatToStringRoundTrip(m);
  }

  /** A leading zero does not change the value of a digit string. */
  lemma {:induction false} LeadingZero(s: string)
    requires AllDigits(s)
    ensures DigitsValue("0" + s) == DigitsValue(s)
  {
    if |s| > 0 {
      assert ("0" + s)[..|"0" + s| - 1] == "0" + s[..|s| - 1];
      LeadingZero(s[..|s| - 1]);
    }
  }

  /** `s.padStart(width, c)`: `s` preceded by as many copies of `c` as it lacks to reach `width`. */
  function PadStart(s: string, width: nat, c: char): (r: string)
    ensures |r| == if |s| < width then width else |s|
    ensures r[|r| - |s|..] == s
    ensures forall i :: 0 <= i < |r| - |s| ==> r[i] == c
  {
    if |s| >= width then s else seq(width - |s|, _ => c) + s
  }

  /** The longest prefix of `s` made of digits. */
  function DigitPrefix(s: string): (r: string)
    ensures r <= s && AllDigits(r)
    ensures |r| < |s| ==> !IsDigit(s[|r|])
  {
    if |s| > 0 && IsDigit(s[0]) then [s[0]] + DigitPrefix(s[1..]) else ""
  }

  /** The first index from `i` on that does not hold whitespace, `|s|` when there is none. */
  function SkipSpaces(s: string, i: nat): (r: nat)
    requires i <= |s|
    ensures i <= r <= |s|
    ensures r < |s| ==> !Text.IsSpace(s[r])
    ensures forall k :: i <= k < r ==> Text.IsSpace(s[k])
    decreases |s| - i
  {
    if i < |s| && Text.IsSpace(s[i]) then SkipSpaces(s, i + 1) else i
  }

  /** The first index from `i` on that does not hold a digit, `|s|` when there is none. */
  function SkipDigits(s: string, i: nat): (r: nat)
    requires i <= |s|
    ensures i <= r <= |s|
    ensures r < |s| ==> !IsDigit(s[r])
    ensures forall k :: i <= k < r ==> IsDigit(s[k])
    decreases |s| - i
  {
    if i < |s| && IsDigit(s[i]) then SkipDigits(s, i + 1) else i
  }

  /** Every character of `s` from index `i` up to `j` is a digit. */
  predicate DigitsBetween(s: string, i: nat, j: nat) {
    i <= j <= |s| && forall k :: i <= k < j ==> IsDigit(s[k])
  }

  /** The value of the digits from index `i` up to `j`, read in base ten. */
  function DigitsValueAt(s: string, i: nat, j: nat): nat
    requires DigitsBetween(s, i, j)
    decreases j - i
  {
    if j == i then 0 else DigitsValueAt(s, i, j - 1) * 10 + DigitValue(s[j - 1])
  }

  /** The value of the digits from index `i` up to `j` read after a decimal point: each digit
      is worth a tenth of the one before it. */
  function FracValueAt(s: string, i: nat, j: nat): (r: real)
    requires DigitsBetween(s, i, j)
    ensures 0.0 <= r <= 1.0
    decreases j - i
  {
    if j == i then 0.0 else (DigitValue(s[i]) as real + FracValueAt(s, i + 1, j)) / 10.0
  }

  /** `parseFloat(s)` for plain decimal notation: leading whitespace is skipped, then an
      optional sign, then the longest prefix of the form `digits[.digits]` or `.digits`, the
      rest being ignored. `None` stands for `NaN`: there is no digit to read there. */
  function ParseNumber(s: string): (r: Option<real>)
    ensures r.Some? ==> exists k :: 0 <= k < |s| && IsDigit(s[k])
  {
    var t := SkipSpaces(s, 0);
    var signed := t < |s| && (s[t] == '-' || s[t] == '+');
    var b := if signed then t + 1 else t;
    var w := SkipDigits(s, b);
    var dot := w < |s| && s[w] == '.';
    var f := if dot then SkipDigits(s, w + 1) else w;
    if w == b && (!dot || f == w + 1) then None
    else
      assert w > b ==> IsDigit(s[b]);
      assert w == b ==> IsDigit(s[w + 1]);
      var v := DigitsValueAt(s, b, w) as real + (if dot then FracValueAt(s, w + 1, f) else 0.0);
      Some(if signed && s[t] == '-' then -v else v)
  }

  /** `parseFloat(s) || 0`: a failed parse reads as zero. */
  function ParseOrZero(s: string): real {
    ParseNumber(s).GetOr(0.0)
  }

  /** The longest digit prefix stops where the digits do. */
  lemma {:induction false} DigitPrefixOfDigits(s: string, rest: string)
    requires AllDigits(s)
    requires |rest| == 0 || !IsDigit(rest[0])
    ensures DigitPrefix(s + rest) == s
  {
    if |s| > 0 {
      assert (s + rest)[1..] == s[1..] + rest;
      DigitPrefixOfDigits(s[1..], rest);
    } else {
      assert s + rest == rest;
    }
  }

  /** Parsing the decimal spelling of a natural number gives that number back. */
  lemma ParseNumberOfNat(n: nat)
    ensures ParseNumber(NatToString(n)) == Some(n as real)
  {
    ParseNumberOfDigits(NatToString(n));
    NatToStringRoundTrip(n);
  }

  /** Like `parseFloat`, the reading stops at the first character that is not part of a
      decimal number, so a hexadecimal spelling reads as its leading zero. */
  lemma HexSpellingReadsLeadingZero()
    ensures ParseNumber("0x10") == Some(0.0)
  {
  }

  /** A non-empty digit string parses to its value. */
  lemma ParseNumberOfDigits(s: string)
    requires |s| > 0 && AllDigits(s)
    ensures ParseNumber(s) == Some(DigitsValue(s) as real)
  {
    assert !Text.IsSpace(s[0]);
    assert SkipSpaces(s, 0) == 0;
    assert SkipDigits(s, 0) == |s|;
    DigitsValueAtPrefix(s, |s|);
    assert s[..|s|] == s;
  }

  /** Reading the first `j` digits in place agrees with reading them as a string. */
  lemma {:induction false} DigitsValueAtPrefix(s: string, j: nat)
    requires j <= |s| && AllDigits(s)
    ensures DigitsValueAt(s, 0, j) == DigitsValue(s[..j])
  {
    if j > 0 {
      DigitsValueAtPrefix(s, j - 1);
      assert s[..j][..j - 1] == s[..j - 1];
    }
  }

  /** A digit string has no surrounding whitespace. */
  lemma TrimOfDigits(s: string)
    requires |s| > 0 && AllDigits(s)
    ensures Text.Trim(s) == s
  {
    TrimStartOfDigits(s);
    assert !Text.IsSpace(s[|s| - 1]);
  }

  /** A string starting with a digit has no leading whitespace. */
  lemma TrimStartOfDigits(s: string)
    requires |s| > 0 && IsDigit(s[0])
    ensures Text.TrimStart(s) == s
  {
    assert !Text.IsSpace(s[0]);
  }
}
