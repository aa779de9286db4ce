/** ASCII decimal digits and the decimal number texts the pipelines read:
    digit runs (`\d+` in a regular expression), `int(...)` of a digit run,
    `float(...)` of a `digits[.digits]` text and pandas' numeric coercion of a text cell. */
module Decimal {
  import opened Wrappers

  predicate IsDigit(c: char) {
    '0' <= c <= '9'
  }

  function DigitVal(c: char): nat
    requires IsDigit(c)
  {
    c as nat - '0' as nat
  }

  predicate IsDigits(s: string) {
    forall i :: 0 <= i < |s| ==> IsDigit(s[i])
  }

  predicate NoDigit(s: string) {
    forall i :: 0 <= i < |s| ==> !IsDigit(s[i])
  }

  /** The integer a run of digits denotes (Python `int(...)`; leading zeros allowed). */
  function DigitsValue(s: string): nat
    requires IsDigits(s)
  {
    if s == [] then 0 else DigitsValue(s[..|s| - 1]) * 10 + DigitVal(s[|s| - 1])
  }

  /** The value of the digits written after a decimal point. */
  function FracValue(s: string): (r: real)
    requires IsDigits(s)
    ensures 0.0 <= r < 1.0
  {
    if s == [] then 0.0 else (DigitVal(s[0]) as real + FracValue(s[1..])) / 10.0
  }

  /** The end of the run of digits that starts at i (i itself when s[i] is not a digit). */
  function DigitRunEnd(s: string, i: nat): (e: nat)
    requires i <= |s|
    ensures i <= e <= |s|
    ensures IsDigits(s[i..e])
    ensures e == |s| || !IsDigit(s[e])
    decreases |s| - i
  {
    if i < |s| && IsDigit(s[i]) then
      var e := DigitRunEnd(s, i + 1);
      assert s[i..e] == [s[i]] + s[i + 1..e];
      e
    else i
  }

  lemma {:induction false} DigitRunEndAt(s: string, i: nat, j: nat)
    requires i <= j <= |s|
    requires IsDigits(s[i..j])
    requires j == |s| || !IsDigit(s[j])
    ensures DigitRunEnd(s, i) == j
    decreases j - i
  {
    if i < j {
      assert s[i] == s[i..j][0];
      assert s[i + 1..j] == s[i..j][1..];
      DigitRunEndAt(s, i + 1, j);
    }
  }

  /** `float(t)` for a text of the form `digits`, `digits.`, `digits.digits` or `.digits`. */
  function UnsignedDecimal(s: string): Option<real>
  {
    var e := DigitRunEnd(s, 0);
    if e == |s| then
      if e > 0 then Some(DigitsValue(s) as real) else None
    else if s[e] == '.' then
      var f := DigitRunEnd(s, e + 1);
      if f == |s| && (e > 0 || f > e + 1) then
        assert s[0..e] == s[..e] && s[e + 1..f] == s[e + 1..];
        Some(DigitsValue(s[..e]) as real + FracValue(s[e + 1..]))
      else None
    else None
  }

  /** pandas `to_numeric(..., errors='coerce')` of a text cell: an optionally signed
      decimal, None for anything else. */
  function ParseNumber(s: string): Option<real>
  {
    if |s| > 0 && s[0] == '-' then
      match UnsignedDecimal(s[1..])
      case Some(v) => Some(-v)
      case None => None
    else if |s| > 0 && s[0] == '+' then UnsignedDecimal(s[1..])
    else UnsignedDecimal(s)
  }

  /** The shortest decimal text of n. */
  function ShowNat(n: nat): (s: string)
    ensures |s| > 0 && IsDigits(s)
  {
    var d := [('0' as nat + n % 10) as char];
    if n < 10 then d else ShowNat(n / 10) + d
  }

  lemma {:induction false} ShowNatValue(n: nat)
    ensures DigitsValue(ShowNat(n)) == n
  {
    if n >= 10 {
      ShowNatValue(n / 10);
      var s := ShowNat(n);
      assert s[..|s| - 1] == ShowNat(n / 10);
    }
  }

  /** The text of a natural number reads back as that number, so a row whose serial
      number is an integer counts as numeric. */
  lemma ParseShowNat(n: nat)
    ensures ParseNumber(ShowNat(n)) == Some(n as real)
  {
    var s := ShowNat(n);
    DigitRunEndAt(s, 0, |s|);
    assert s[0..|s|] == s;
    ShowNatValue(n);
  }

  lemma UnsignedDecimalAt(s: string, e: nat)
    requires 0 < e < |s| && s[e] == '.'
    requires IsDigits(s[..e]) && IsDigits(s[e + 1..])
    ensures ParseNumber(s) == Some(DigitsValue(s[..e]) as real + FracValue(s[e + 1..]))
  {
    assert s[0..e] == s[..e];
    assert IsDigit(s[0]);
    DigitRunEndAt(s, 0, e);
    assert s[e + 1..|s|] == s[e + 1..];
    DigitRunEndAt(s, e + 1, |s|);
  }

  /** A `digits.digits` text reads back as its integer part plus its fraction. */
  lemma DecimalTextValue(d: string, f: string)
    requires |d| > 0 && IsDigits(d) && IsDigits(f)
    ensures ParseNumber(d + "." + f) == Some(DigitsValue(d) as real + FracValue(f))
  {
    var s := d + "." + f;
    assert s[..|d|] == d;
    assert s[|d| + 1..] == f;
    assert s[|d|] == '.';
    UnsignedDecimalAt(s, |d|);
  }

  /** A text with no digit at all is never numeric (e.g. a daily-average summary label). */
  lemma NoDigitNotNumber(s: string)
    requires NoDigit(s)
    ensures ParseNumber(s).None?
  {
    DigitRunEndAt(s, 0, 0);
    if |s| > 0 {
      DigitRunEndAt(s[1..], 0, 0);
      if s[0] != '-' && s[0] != '+' && s[0] == '.' {
        DigitRunEndAt(s, 1, 1);
      }
      if |s| > 1 && s[1] == '.' {
        DigitRunEndAt(s[1..], 1, 1);
      }
    }
  }
}
