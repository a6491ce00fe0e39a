/**
 * Python's `int(text)` and `float(text)` on plain decimal text, with exact
 * (rational) values. `None` stands for the ValueError Python raises.
 */
module PyNum {
  import opened Wrappers
  import opened PyStr

  predicate IsDigit(c: char) {
    '0' <= c <= '9'
  }

  predicate AllDigits(s: string) {
    forall i :: 0 <= i < |s| ==> IsDigit(s[i])
  }

  /** Value of a string of ASCII decimal digits (0 for the empty string). */
  function DigitsValue(s: string): nat
    requires AllDigits(s)
  {
    if s == [] then 0 else DigitsValue(s[..|s| - 1]) * 10 + (s[|s| - 1] as int - '0' as int)
  }

  function Pow10(k: nat): (p: nat)
    ensures p >= 1
  {
    if k == 0 then 1 else 10 * Pow10(k - 1)
  }

  /** Shortest decimal rendering of `n`, as `str(n)` gives it. */
  function ShowNat(n: nat): (s: string)
    ensures s != [] && AllDigits(s)
  {
    if n < 10 then [(n + '0' as int) as char]
    else ShowNat(n / 10) + [((n % 10) + '0' as int) as char]
  }

  lemma {:induction false} ShowNatValue(n: nat)
    ensures DigitsValue(ShowNat(n)) == n
  {
    if n >= 10 {
      ShowNatValue(n / 10);
      var s := ShowNat(n);
      assert s[..|s| - 1] == ShowNat(n / 10);
    }
  }

  /** Digits with at most one '.', and at least one digit: what `float()` accepts among `[\d.]+` strings. */
  predicate IsDecimalLiteral(s: string) {
    var k := Find(s, '.');
    s != "." && s != [] && AllDigits(s[..k]) && (k == |s| || AllDigits(s[k + 1..]))
  }

  /** Exact value of a decimal literal. */
  function DecimalValue(s: string): real
    requires IsDecimalLiteral(s)
  {
    var k := Find(s, '.');
    if k == |s| then DigitsValue(s) as real
    else DigitsValue(s[..k]) as real + DigitsValue(s[k + 1..]) as real / Pow10(|s| - k - 1) as real
  }

  /** `float(text)`: surrounding whitespace, an optional sign, then a decimal literal. */
  function ParseFloat(text: string): Option<real> {
    var t := Strip(text);
    if t != [] && (t[0] == '+' || t[0] == '-') then
      var body := t[1..];
      if IsDecimalLiteral(body) then
        Some(if t[0] == '-' then -DecimalValue(body) else DecimalValue(body))
      else None
    else if IsDecimalLiteral(t) then Some(DecimalValue(t))
    else None
  }

  /** Every character of a decimal literal is a digit or the point. */
  lemma DecimalLiteralChars(s: string)
    requires IsDecimalLiteral(s)
    ensures forall i :: 0 <= i < |s| ==> IsDigit(s[i]) || s[i] == '.'
  {
    var k := Find(s, '.');
    forall i | 0 <= i < |s|
      ensures IsDigit(s[i]) || s[i] == '.'
    {
      if i < k {
        assert s[..k][i] == s[i];
      } else if i > k {
        assert s[k + 1..][i - k - 1] == s[i];
      }
    }
  }

  /** On a bare decimal literal `float` is exact. */
  lemma ParseFloatDecimal(s: string)
    requires IsDecimalLiteral(s)
    ensures ParseFloat(s) == Some(DecimalValue(s))
  {
    DecimalLiteralChars(s);
    assert NoSpace(s);
  }

  /** `int(text)`: surrounding whitespace, an optional sign, then one or more digits. */
  function ParseInt(text: string): Option<int>
  {
    var t := Strip(text);
    if t != [] && (t[0] == '+' || t[0] == '-') then
      var ds := t[1..];
      if ds != [] && AllDigits(ds) then
        Some(if t[0] == '-' then -(DigitsValue(ds) as int) else DigitsValue(ds))
      else None
    else if t != [] && AllDigits(t) then Some(DigitsValue(t))
    else None
  }

  /** `int` inverts `str` on naturals. */
  lemma ParseIntShowNat(n: nat)
    ensures ParseInt(ShowNat(n)) == Some(n)
  {
    ShowNatValue(n);
    var s := ShowNat(n);
    assert NoSpace(s);
    assert s[0] != '+' && s[0] != '-' by { assert IsDigit(s[0]); }
  }

  /** The text of the ValueError `float(text)` raises. */
  function FloatError(text: string): string {
    "could not convert string to float: '" + text + "'"
  }
}
