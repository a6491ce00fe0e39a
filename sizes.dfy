/**
 * `parse_size_to_gb`: a `df -h` size token such as "100G", "1.5T" or "512"
 * converted to GB with 1024-based scaling.
 */
module Sizes {
  import opened Wrappers
  import opened PyStr
  import opened PyNum

  predicate IsNumberChar(c: char) {
    IsDigit(c) || c == '.'
  }

  predicate IsUnitLetter(c: char) {
    c == 'K' || c == 'M' || c == 'G' || c == 'T' || c == 'P'
  }

  /** Length of the longest prefix of `s` in the class `[\d.]`. */
  function NumberPrefix(s: string): (k: nat)
    ensures k <= |s|
    ensures forall i :: 0 <= i < k ==> IsNumberChar(s[i])
    ensures k < |s| ==> !IsNumberChar(s[k])
  {
    if s != [] && IsNumberChar(s[0]) then 1 + NumberPrefix(s[1..]) else 0
  }

  /** The two groups of `^([\d.]+)([KMGTP]?)B?$`. */
  datatype SizeMatch = SizeMatch(number: string, unit: string)

  /**
   * `re.match(r'^([\d.]+)([KMGTP]?)B?$', t)`. The three parts use disjoint
   * character classes, so the greedy match is the only one.
   */
  function MatchSize(t: string): (m: Option<SizeMatch>)
    ensures m.Some? ==> m.value.number != [] && m.value.number + m.value.unit <= t
    ensures m.Some? ==> m.value.unit == "" || (|m.value.unit| == 1 && IsUnitLetter(m.value.unit[0]))
  {
    var k := NumberPrefix(t);
    var rest := t[k..];
    if k == 0 then None
    else if rest == "" || rest == "B" then Some(SizeMatch(t[..k], ""))
    else if IsUnitLetter(rest[0]) && (|rest| == 1 || rest[1..] == "B") then
      assert t[..k] + [rest[0]] == t[..k + 1];
      Some(SizeMatch(t[..k], [rest[0]]))
    else None
  }

  /** The `multipliers` table, looked up with `.get(unit, 1)`. */
  function Multiplier(unit: string): real {
    if unit == "K" then 1.0 / (1024.0 * 1024.0)
    else if unit == "M" then 1.0 / 1024.0
    else if unit == "G" then 1.0
    else if unit == "T" then 1024.0
    else if unit == "P" then 1024.0 * 1024.0
    else if unit == "" then 1.0 / (1024.0 * 1024.0 * 1024.0)
    else 1.0
  }

  /** A value in the given unit, in GB. */
  function Scale(value: real, unit: string): (gb: real)
    ensures value >= 0.0 ==> gb >= 0.0
  {
    value * Multiplier(unit)
  }

  /**
   * `parse_size_to_gb(text)`. A token the pattern rejects is 0.0; a token the
   * pattern accepts but `float()` does not (such as "1.2.3") raises ValueError.
   */
  function ParseSizeToGb(text: string): (r: Result<real>)
    ensures MatchSize(Upper(Strip(text))).None? ==> r == Success(0.0)
    ensures r.Success? ==> r.value >= 0.0
    ensures r.Failure? ==> MatchSize(Upper(Strip(text))).Some?
  {
    var t := Upper(Strip(text));
    match MatchSize(t)
    case None => Success(0.0)
    case Some(m) =>
      match ParseFloat(m.number)
      case Some(v) =>
        assert v >= 0.0 by { NumberIsDecimalOrRejected(m.number); }
        Success(Scale(v, m.unit))
      case None => Failure(FloatError(m.number))
  }

  /** A `[\d.]+` string is either a decimal literal, which `float` reads exactly, or rejected by `float`. */
  lemma NumberIsDecimalOrRejected(s: string)
    requires forall i :: 0 <= i < |s| ==> IsNumberChar(s[i])
    ensures IsDecimalLiteral(s) ==> ParseFloat(s) == Some(DecimalValue(s))
    ensures !IsDecimalLiteral(s) ==> ParseFloat(s).None?
    ensures ParseFloat(s).Some? ==> ParseFloat(s).value >= 0.0
  {
    assert NoSpace(s);
    if IsDecimalLiteral(s) {
      ParseFloatDecimal(s);
    } else if s != [] {
      assert s[0] != '+' && s[0] != '-';
    }
  }

  /** Spelling of a unit in a token, in either case, with or without the trailing "B". */
  function UnitSuffix(unit: string, lower: bool, withB: bool): string
    requires unit == "" || (|unit| == 1 && IsUnitLetter(unit[0]))
  {
    var u := if lower && unit != "" then [(unit[0] as int + 32) as char] else unit;
    u + (if withB then (if lower then "b" else "B") else "")
  }

  /** Once the pattern has matched, the value is the number scaled by the unit's multiplier. */
  lemma ParseMatched(text: string, m: SizeMatch)
    requires MatchSize(Upper(Strip(text))) == Some(m)
    requires IsDecimalLiteral(m.number)
    ensures ParseSizeToGb(text) == Success(Scale(DecimalValue(m.number), m.unit))
  {
    var k := NumberPrefix(Upper(Strip(text)));
    assert m.number == Upper(Strip(text))[..k];
    NumberIsDecimalOrRejected(m.number);
  }

  /** Upper-casing a rendered token spells its unit in capitals. */
  lemma UpperToken(digits: string, unit: string, lower: bool, withB: bool)
    requires AllDigits(digits)
    requires unit == "" || (|unit| == 1 && IsUnitLetter(unit[0]))
    ensures Upper(Strip(digits + UnitSuffix(unit, lower, withB))) == digits + unit + (if withB then "B" else "")
  {
    var text := digits + UnitSuffix(unit, lower, withB);
    var upper := digits + unit + (if withB then "B" else "");
    assert |text| == |upper|;
    forall i | 0 <= i < |text|
      ensures !IsSpace(text[i]) && UpperChar(text[i]) == upper[i]
    {
      if i < |digits| {
        assert text[i] == digits[i] == upper[i];
        assert IsDigit(digits[i]);
      }
    }
    assert NoSpace(text);
    assert Strip(text) == text;
  }

  /**
   * Scaling is exact for every whole number and every unit, in either case and
   * with or without "B": "0G", "100G", "3t", "42Mb", "7" (bytes), ...
   */
  lemma {:induction false} ParseWholeSize(n: nat, unit: string, lower: bool, withB: bool)
    requires unit == "" || (|unit| == 1 && IsUnitLetter(unit[0]))
    ensures ParseSizeToGb(ShowNat(n) + UnitSuffix(unit, lower, withB)) == Success(Scale(n as real, unit))
  {
    var digits := ShowNat(n);
    var text := digits + UnitSuffix(unit, lower, withB);
    var tail := unit + (if withB then "B" else "");
    var upper := digits + tail;
    UpperToken(digits, unit, lower, withB);
    assert Upper(Strip(text)) == upper;
    NumberPrefixOfDigits(digits, tail);
    MatchDigits(digits, unit, withB);
    assert MatchSize(Upper(Strip(text))) == Some(SizeMatch(digits, unit));
    WholeIsDecimal(n);
    ParseMatched(text, SizeMatch(digits, unit));
  }

  lemma MatchDigits(digits: string, unit: string, withB: bool)
    requires digits != [] && AllDigits(digits)
    requires unit == "" || (|unit| == 1 && IsUnitLetter(unit[0]))
    ensures MatchSize(digits + unit + (if withB then "B" else "")) == Some(SizeMatch(digits, unit))
  {
    var tail := unit + (if withB then "B" else "");
    var upper := digits + tail;
    assert upper == digits + unit + (if withB then "B" else "");
    NumberPrefixOfDigits(digits, tail);
    assert upper[..|digits|] == digits;
    assert upper[|digits|..] == tail;
    if unit != "" {
      assert tail[0] == unit[0] && tail != "B";
      assert [tail[0]] == unit;
      assert |tail| == 1 || tail[1..] == "B";
    }
  }

  /** A rendered whole number is a decimal literal with its own value. */
  lemma WholeIsDecimal(n: nat)
    ensures IsDecimalLiteral(ShowNat(n)) && DecimalValue(ShowNat(n)) == n as real
  {
    var digits := ShowNat(n);
    FindAbsent(digits, '.');
    assert digits[..|digits|] == digits;
    ShowNatValue(n);
  }

  lemma FindAbsent(s: string, c: char)
    requires forall i :: 0 <= i < |s| ==> s[i] != c
    ensures Find(s, c) == |s|
  {
  }

  lemma {:induction false} NumberPrefixOfDigits(digits: string, rest: string)
    requires AllDigits(digits)
    requires rest == [] || !IsNumberChar(rest[0])
    ensures NumberPrefix(digits + rest) == |digits|
    decreases |digits|
  {
    if digits != [] {
      assert (digits + rest)[1..] == digits[1..] + rest;
      NumberPrefixOfDigits(digits[1..], rest);
    } else {
      assert digits + rest == rest;
    }
  }

  /** The tokens the docstring of `parse_size_to_gb` lists (collector.py:13-15): "100G" is 100, "1.5T" is 1536, "500M" is 500/1024, "1024K" is 1/1024. */
  lemma DocumentedSizes()
    ensures ParseSizeToGb("100G") == Success(100.0)
    ensures ParseSizeToGb("1.5T") == Success(1536.0)
    ensures ParseSizeToGb("500M") == Success(500.0 / 1024.0)
    ensures ParseSizeToGb("1024K") == Success(1.0 / 1024.0)
  {
    HundredGiga();
    FiveHundredMega();
    KibiKilo();
    OneAndAHalfTera();
  }

  lemma HundredGiga()
    ensures ParseSizeToGb("100G") == Success(100.0)
  {
    HundredText();
    ParseWholeSize(100, "G", false, false);
    assert Multiplier("G") == 1.0;
  }

  lemma HundredText()
    ensures ShowNat(100) + UnitSuffix("G", false, false) == "100G"
  {
    assert ShowNat(10) == "10";
    assert ShowNat(100) == "100";
  }

  lemma FiveHundredMega()
    ensures ParseSizeToGb("500M") == Success(500.0 / 1024.0)
  {
    FiveHundredText();
    ParseWholeSize(500, "M", false, false);
    assert Multiplier("M") == 1.0 / 1024.0;
  }

  lemma FiveHundredText()
    ensures ShowNat(500) + UnitSuffix("M", false, false) == "500M"
  {
    assert ShowNat(50) == "50";
    assert ShowNat(500) == "500";
  }

  lemma KibiKilo()
    ensures ParseSizeToGb("1024K") == Success(1.0 / 1024.0)
  {
    KibiText();
    ParseWholeSize(1024, "K", false, false);
    assert Multiplier("K") == 1.0 / (1024.0 * 1024.0);
  }

  lemma KibiText()
    ensures ShowNat(1024) + UnitSuffix("K", false, false) == "1024K"
  {
    assert ShowNat(10) == "10";
    assert ShowNat(102) == "102";
    assert ShowNat(1024) == "1024";
  }

  lemma OneAndAHalfTera()
    ensures ParseSizeToGb("1.5T") == Success(1536.0)
  {
    OneAndAHalfScaled();
    TeraScale();
  }

  lemma OneAndAHalfScaled()
    ensures ParseSizeToGb("1.5T") == Success(Scale(1.5, "T"))
  {
    OneAndAHalfMatches();
    OneAndAHalfValue();
    ParseMatched("1.5T", SizeMatch("1.5", "T"));
  }

  lemma TeraScale()
    ensures Scale(1.5, "T") == 1536.0
  {
    assert Multiplier("T") == 1024.0;
  }

  lemma OneAndAHalfMatches()
    ensures MatchSize(Upper(Strip("1.5T"))) == Some(SizeMatch("1.5", "T"))
  {
    OneAndAHalfNormal();
    OneAndAHalfPrefix();
    var t := "1.5T";
    assert t[..3] == "1.5" && t[3..] == "T";
  }

  lemma OneAndAHalfNormal()
    ensures Upper(Strip("1.5T")) == "1.5T"
  {
    assert NoSpace("1.5T");
    assert Upper("1.5T") == "1.5T";
  }

  lemma OneAndAHalfPrefix()
    ensures NumberPrefix("1.5T") == 3
  {
    var t := "1.5T";
    assert NumberPrefix("T") == 0;
    assert t[1..] == ".5T" && t[1..][1..] == "5T" && t[1..][1..][1..] == "T";
  }

  lemma OneAndAHalfValue()
    ensures IsDecimalLiteral("1.5") && DecimalValue("1.5") == 1.5
  {
    assert Find("1.5", '.') == 1;
    assert "1.5"[..1] == "1" && "1.5"[2..] == "5";
    assert DigitsValue("1") == 1 && DigitsValue("5") == 5;
  }

  /** "bogus" does not match the pattern and is 0.0; "1.2.3G" matches it, and `float` then raises. */
  lemma RejectedSizes()
    ensures ParseSizeToGb("bogus") == Success(0.0)
    ensures ParseSizeToGb("1.2.3G") == Failure(FloatError("1.2.3"))
  {
    BogusRejected();
    DottedRejected();
  }

  lemma BogusRejected()
    ensures ParseSizeToGb("bogus") == Success(0.0)
  {
    assert NoSpace("bogus");
    assert Upper("bogus") == "BOGUS";
    assert NumberPrefix("BOGUS") == 0;
  }

  lemma DottedRejected()
    ensures ParseSizeToGb("1.2.3G") == Failure(FloatError("1.2.3"))
  {
    DottedMatches();
    DottedNotFloat();
  }

  lemma DottedMatches()
    ensures MatchSize(Upper(Strip("1.2.3G"))) == Some(SizeMatch("1.2.3", "G"))
  {
    DottedNormal();
    DottedPrefix();
    var t := "1.2.3G";
    assert t[..5] == "1.2.3" && t[5..] == "G";
  }

  lemma DottedNormal()
    ensures Upper(Strip("1.2.3G")) == "1.2.3G"
  {
    assert NoSpace("1.2.3G");
    assert Upper("1.2.3G") == "1.2.3G";
  }

  lemma DottedPrefix()
    ensures NumberPrefix("1.2.3G") == 5
  {
    var t := "1.2.3G";
    assert NumberPrefix("G") == 0;
    assert t[1..] == ".2.3G" && t[2..] == "2.3G" && t[3..] == ".3G" && t[4..] == "3G" && t[5..] == "G";
    assert t[1..][1..] == t[2..] && t[2..][1..] == t[3..] && t[3..][1..] == t[4..] && t[4..][1..] == t[5..];
  }

  lemma DottedNotFloat()
    ensures ParseFloat("1.2.3").None?
  {
    assert Find("1.2.3", '.') == 1;
    assert "1.2.3"[2..] == "2.3";
    assert !AllDigits("2.3") by { assert "2.3"[1] == '.'; }
    NumberIsDecimalOrRejected("1.2.3");
  }
}
