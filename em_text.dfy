/**
 * Two text helpers of em_impact_app/app.py: `parse_wind_speed`, which pulls
 * the number out of an observation's wind-speed field, and
 * `de_okina_for_pdf`, which removes the Hawaiian ʻokina before PDF output.
 */
module WindSpeed {
  import opened Wrappers
  import opened Text

  /** The field as the weather service delivers it: absent, a number, or text such as `"20 mph"`. */
  datatype WindValue = Missing | Number(x: real) | Words(s: string)

  /** The characters the scan collects: digits and the decimal point. */
  predicate IsNumberChar(c: char) {
    IsDigit(c) || c == '.'
  }

  /** The longest prefix of `s` made of number characters. */
  function Run(s: string): (r: string)
    ensures r <= s
    ensures forall i :: 0 <= i < |r| ==> IsNumberChar(r[i])
    ensures |r| == |s| || !IsNumberChar(s[|r|])
  {
    if s != [] && IsNumberChar(s[0]) then [s[0]] + Run(s[1..]) else []
  }

  /** The first maximal run of number characters in `s`, or `""` when there is none. */
  function FirstRun(s: string): string {
    if s == [] then []
    else if IsNumberChar(s[0]) then Run(s)
    else FirstRun(s[1..])
  }

  /** The position of the first `c` in `s`, if any. */
  function IndexOf(s: string, c: char): (r: Option<nat>)
    ensures r.Some? ==> r.value < |s| && s[r.value] == c && c !in s[..r.value]
    ensures r.None? ==> c !in s
  {
    if s == [] then None
    else if s[0] == c then Some(0)
    else match IndexOf(s[1..], c)
      case Some(k) =>
        assert s[..k + 1] == [s[0]] + s[1..][..k];
        Some(k + 1)
      case None => None
  }

  /**
   * What `float()` accepts among strings of digits and points: only number
   * characters, at least one digit, and no two points.
   */
  predicate DecimalNumeral(t: string) {
    && (forall i :: 0 <= i < |t| ==> IsNumberChar(t[i]))
    && (exists i :: 0 <= i < |t| && IsDigit(t[i]))
    && (forall i, j :: 0 <= i < j < |t| && t[i] == '.' ==> t[j] != '.')
  }

  /**
   * `float(num)` for a string of digits and points: digits with at most one
   * point and at least one digit; `"."` and `"1.2.3"` raise `ValueError`.
   */
  function ParseDecimal(t: string): (r: Option<real>)
    ensures r.Some? <==> DecimalNumeral(t)
    ensures r.Some? ==> r.value >= 0.0
  {
    match IndexOf(t, '.')
    case None =>
      NoPointNumeral(t);
      if IsDigitString(t) then Some(DigitsValue(t) as real) else None
    case Some(k) =>
      PointNumeral(t, k);
      var whole, frac := t[..k], t[k + 1..];
      if AllDigits(whole) && AllDigits(frac) && (whole != [] || frac != []) then
        Some(PointValue(whole, frac))
      else None
  }

  /** The value of the digits `whole` and `frac` written either side of a point. */
  function PointValue(whole: string, frac: string): (v: real)
    requires AllDigits(whole) && AllDigits(frac)
    ensures v >= 0.0
    ensures v * Pow10(|frac|) as real == (DigitsValue(whole) * Pow10(|frac|) + DigitsValue(frac)) as real
  {
    DigitsValue(whole) as real + DigitsValue(frac) as real / Pow10(|frac|) as real
  }

  /** Without a point, `float()`'s test is `isdigit()`. */
  lemma NoPointNumeral(t: string)
    requires '.' !in t
    ensures DecimalNumeral(t) <==> IsDigitString(t)
  {
    if IsDigitString(t) {
      assert IsDigit(t[0]);
    }
    if DecimalNumeral(t) {
      forall i | 0 <= i < |t|
        ensures IsDigit(t[i])
      {
        assert t[i] in t;
      }
    }
  }

  /** With its first point at `k`, `float()`'s test is digits on both sides, not both empty. */
  lemma PointNumeral(t: string, k: nat)
    requires k < |t| && t[k] == '.' && '.' !in t[..k]
    ensures DecimalNumeral(t) <==> AllDigits(t[..k]) && AllDigits(t[k + 1..]) && (k > 0 || k + 1 < |t|)
  {
    var whole, frac := t[..k], t[k + 1..];
    assert forall i :: 0 <= i < k ==> whole[i] == t[i];
    assert forall i :: k < i < |t| ==> frac[i - k - 1] == t[i];
    if DecimalNumeral(t) {
      forall i | 0 <= i < k
        ensures IsDigit(whole[i])
      {
        assert whole[i] in whole;
      }
      forall i | 0 <= i < |frac|
        ensures IsDigit(frac[i])
      {
        assert t[k + 1 + i] != '.';
      }
      var d :| 0 <= d < |t| && IsDigit(t[d]);
      assert d != k;
    }
    if AllDigits(whole) && AllDigits(frac) && (k > 0 || k + 1 < |t|) {
      assert forall i :: 0 <= i < |t| && i != k ==> IsDigit(t[i]);
      assert IsDigit(t[if k > 0 then 0 else k + 1]);
    }
  }

  /** A numeral with one point reads as its whole part plus its fraction: `"2.5"` is 2.5. */
  lemma DecimalValue(whole: string, frac: string)
    requires AllDigits(whole) && AllDigits(frac) && whole + frac != []
    ensures ParseDecimal(whole + "." + frac) == Some(PointValue(whole, frac))
  {
    var t := whole + "." + frac;
    var k := |whole|;
    assert t[..k] == whole;
    assert t[k + 1..] == frac;
    assert t[k] == '.';
    assert '.' !in whole by {
      assert forall i :: 0 <= i < |whole| ==> IsDigit(whole[i]);
    }
    IndexOfFirst(t, '.', k);
    assert k > 0 || k + 1 < |t|;
  }

  /** A `c` at `k` with none before it is the first one. */
  lemma IndexOfFirst(s: string, c: char, k: nat)
    requires k < |s| && s[k] == c && c !in s[..k]
    ensures IndexOf(s, c) == Some(k)
  {
  }

  /**
   * When the text starts with a decimal numeral, that numeral is the reading:
   * `"2.5 mph"` is 2.5.
   */
  lemma DecimalReading(whole: string, frac: string, unit: string)
    requires IsDigitString(whole) && AllDigits(frac)
    requires unit == [] || (!IsNumberChar(unit[0]) && !IsSpace(unit[|unit| - 1]))
    ensures WindSpeedOf(Words(whole + "." + frac + unit)) == Some(PointValue(whole, frac))
  {
    var d := whole + "." + frac;
    var s := d + unit;
    PointNumeralChars(whole, frac);
    assert s[0] == whole[0];
    UnpaddedEnd(d, unit);
    StripUnchanged(s);
    RunOfNumber(d, unit);
    ReadingOfRun(s, d);
    DecimalValue(whole, frac);
  }

  lemma PointNumeralChars(whole: string, frac: string)
    requires AllDigits(whole) && AllDigits(frac)
    ensures var d := whole + "." + frac; forall i :: 0 <= i < |d| ==> IsNumberChar(d[i])
  {
    var d := whole + "." + frac;
    assert forall i :: 0 <= i < |whole| ==> d[i] == whole[i];
    assert forall i :: |whole| < i < |d| ==> d[i] == frac[i - |whole| - 1];
  }

  lemma UnpaddedEnd(d: string, unit: string)
    requires d != [] && !IsSpace(d[|d| - 1])
    requires unit == [] || !IsSpace(unit[|unit| - 1])
    ensures !IsSpace((d + unit)[|d + unit| - 1])
  {
    if unit == [] {
      assert d + unit == d;
    }
  }

  /** Text that is its own strip and starts with the run `d` reads as `float(d)`. */
  lemma ReadingOfRun(s: string, d: string)
    requires Strip(s) == s && FirstRun(s) == d && d != []
    ensures WindSpeedOf(Words(s)) == ParseDecimal(d)
  {
  }

  /** `"2.5"` read as `2` and `5` either side of the point is 2.5. */
  lemma TwoPointFive()
    ensures PointValue("2", "5") == 2.5
  {
    assert DigitsValue("2") == 2 && DigitsValue("5") == 5;
  }

  /** A run of number characters followed by another character is read whole. */
  lemma {:induction false} RunOfNumber(d: string, rest: string)
    requires d != [] && forall i :: 0 <= i < |d| ==> IsNumberChar(d[i])
    requires rest == [] || !IsNumberChar(rest[0])
    ensures FirstRun(d + rest) == d
  {
    assert (d + rest)[0] == d[0];
    RunOfNumberChars(d, rest);
  }

  lemma {:induction false} RunOfNumberChars(d: string, rest: string)
    requires forall i :: 0 <= i < |d| ==> IsNumberChar(d[i])
    requires rest == [] || !IsNumberChar(rest[0])
    ensures Run(d + rest) == d
  {
    if d != [] {
      assert (d + rest)[1..] == d[1..] + rest;
      RunOfNumberChars(d[1..], rest);
      assert d == [d[0]] + d[1..];
    } else {
      assert d + rest == rest;
    }
  }

  /** Two points anywhere make `float()` fail: `"1.2.3"` gives no reading. */
  lemma TwoPointsRefused(a: string, b: string, c: string)
    ensures ParseDecimal(a + "." + b + "." + c) == None
  {
    var t := a + "." + b + "." + c;
    assert t[|a|] == '.' && t[|a| + 1 + |b|] == '.';
  }

  /** What `parse_wind_speed(value)` returns. */
  function WindSpeedOf(v: WindValue): (r: Option<real>)
    ensures v.Missing? ==> r.None?
    ensures v.Number? ==> r == Some(v.x)
    ensures v.Words? ==> (r.Some? <==> DecimalNumeral(FirstRun(Strip(v.s))))
    ensures v.Words? && r.Some? ==> r.value >= 0.0
  {
    match v
    case Missing => None
    case Number(x) => Some(x)
    case Words(s) =>
      var num := FirstRun(Strip(s));
      if num == [] then None else ParseDecimal(num)
  }

  /** The scan of `parse_wind_speed`: collect number characters, stop at the first one after a run. */
  method ScanRun(s: string) returns (num: string)
    ensures num == FirstRun(s)
  {
    num := "";
    var i := 0;
    while i < |s|
      invariant 0 <= i <= |s|
      invariant num == [] ==> FirstRun(s) == FirstRun(s[i..])
      invariant num != [] ==> FirstRun(s) == num + Run(s[i..])
    {
      var ch := s[i];
      ScanAt(s, i);
      if IsDigit(ch) || ch == '.' {
        num := num + [ch];
      } else if num != [] {
        assert num + [] == num;
        return;
      }
      i := i + 1;
    }
    assert s[i..] == [];
  }

  /** What one character does to the run and to the search for it. */
  lemma ScanStep(t: string)
    requires t != []
    ensures IsNumberChar(t[0]) ==> Run(t) == [t[0]] + Run(t[1..]) && FirstRun(t) == Run(t)
    ensures !IsNumberChar(t[0]) ==> Run(t) == [] && FirstRun(t) == FirstRun(t[1..])
  {
  }

  /** `ScanStep` at position `i` of `s`, the form the scan's loop uses. */
  lemma ScanAt(s: string, i: nat)
    requires i < |s|
    ensures IsNumberChar(s[i]) ==> Run(s[i..]) == [s[i]] + Run(s[i + 1..]) && FirstRun(s[i..]) == Run(s[i..])
    ensures !IsNumberChar(s[i]) ==> Run(s[i..]) == [] && FirstRun(s[i..]) == FirstRun(s[i + 1..])
  {
    ScanStep(s[i..]);
    assert s[i..][1..] == s[i + 1..];
  }

  /** `parse_wind_speed(value)` */
  method ParseWindSpeed(v: WindValue) returns (r: Option<real>)
    ensures r == WindSpeedOf(v)
  {
    match v {
      case Missing =>
        return None;
      case Number(x) =>
        return Some(x);
      case Words(text) =>
        var num := ScanRun(Strip(text));
        r := if num != [] then ParseDecimal(num) else None;
    }
  }

  /** The run found lies in `s`: it starts at the first number character and cannot be extended. */
  lemma {:induction false} FirstRunLocated(s: string) returns (a: nat, b: nat)
    ensures a <= b <= |s|
    ensures FirstRun(s) == s[a..b]
    ensures forall i :: 0 <= i < a ==> !IsNumberChar(s[i])
    ensures forall i :: a <= i < b ==> IsNumberChar(s[i])
    ensures a < |s| ==> a < b && (b == |s| || !IsNumberChar(s[b]))
    ensures a == |s| ==> FirstRun(s) == []
  {
    if s == [] {
      return 0, 0;
    } else if IsNumberChar(s[0]) {
      var r := Run(s);
      assert s[0..|r|] == r;
      return 0, |r|;
    } else {
      var a', b' := FirstRunLocated(s[1..]);
      assert forall i :: 0 <= i < b' - a' ==> s[a' + 1..b' + 1][i] == s[1..][a'..b'][i];
      assert s[a' + 1..b' + 1] == s[1..][a'..b'];
      return a' + 1, b' + 1;
    }
  }

  /** When the text starts with a whole number, that number is the reading (`"20 mph"` is 20). */
  lemma WholeNumberReading(n: nat, unit: string)
    requires unit == [] || (!IsNumberChar(unit[0]) && !IsSpace(unit[|unit| - 1]))
    ensures WindSpeedOf(Words(NatToString(n) + unit)) == Some(n as real)
  {
    DigitsReading(NatToString(n), unit);
    NatToStringValue(n);
  }

  lemma DigitsReading(d: string, unit: string)
    requires IsDigitString(d)
    requires unit == [] || (!IsNumberChar(unit[0]) && !IsSpace(unit[|unit| - 1]))
    ensures WindSpeedOf(Words(d + unit)) == Some(DigitsValue(d) as real)
  {
    var s := d + unit;
    NumberTextStripped(d, unit);
    assert Strip(s) == s;
    FirstRunOfDigits(d, unit);
    assert FirstRun(Strip(s)) == d;
    ParseWholeNumber(d);
  }

  lemma FirstRunOfDigits(d: string, unit: string)
    requires IsDigitString(d)
    requires unit == [] || !IsNumberChar(unit[0])
    ensures FirstRun(d + unit) == d
  {
    RunOfDigits(d, unit);
    assert (d + unit)[0] == d[0];
  }

  lemma NumberTextStripped(d: string, unit: string)
    requires IsDigitString(d)
    requires unit == [] || (!IsNumberChar(unit[0]) && !IsSpace(unit[|unit| - 1]))
    ensures Strip(d + unit) == d + unit
  {
    var s := d + unit;
    assert s[0] == d[0];
    assert s[|s| - 1] == if unit == [] then d[|d| - 1] else unit[|unit| - 1];
    StripUnchanged(s);
  }

  lemma ParseWholeNumber(d: string)
    requires IsDigitString(d)
    ensures ParseDecimal(d) == Some(DigitsValue(d) as real)
  {
    IndexOfDigits(d);
  }

  lemma {:induction false} RunOfDigits(d: string, rest: string)
    requires AllDigits(d)
    requires rest == [] || !IsNumberChar(rest[0])
    ensures Run(d + rest) == d
  {
    if d != [] {
      assert (d + rest)[1..] == d[1..] + rest;
      RunOfDigits(d[1..], rest);
      assert d == [d[0]] + d[1..];
    } else {
      assert d + rest == rest;
    }
  }

  lemma IndexOfDigits(d: string)
    requires AllDigits(d)
    ensures IndexOf(d, '.') == None
  {
  }

  /** No digit in the text means no reading. */
  lemma NoDigitNoReading(s: string)
    requires forall i :: 0 <= i < |s| ==> !IsDigit(s[i])
    ensures WindSpeedOf(Words(s)) == None
  {
    var t := Strip(s);
    assert forall i :: 0 <= i < |t| ==> !IsDigit(t[i]) by {
      StripKeepsChars(s);
    }
    RunWithoutDigits(t);
    DecimalNeedsDigit(FirstRun(t));
  }

  /** The run found in a text without digits has none either. */
  lemma RunWithoutDigits(t: string)
    requires forall i :: 0 <= i < |t| ==> !IsDigit(t[i])
    ensures forall i :: 0 <= i < |FirstRun(t)| ==> !IsDigit(FirstRun(t)[i])
  {
    var a, b := FirstRunLocated(t);
    var num := FirstRun(t);
    forall i | 0 <= i < |num|
      ensures !IsDigit(num[i])
    {
      assert num[i] == t[a + i];
    }
  }

  /** `float` refuses a string of points alone. */
  lemma DecimalNeedsDigit(t: string)
    requires forall i :: 0 <= i < |t| ==> !IsDigit(t[i])
    ensures ParseDecimal(t) == None
  {
    match IndexOf(t, '.')
    case None =>
    case Some(k) =>
      if k > 0 {
        assert t[..k][0] == t[0];
      }
      if k + 1 < |t| {
        assert t[k + 1..][0] == t[k + 1];
      }
  }
}

/** `de_okina_for_pdf`: the ʻokina is dropped and the right single quote becomes an apostrophe. */
module PdfText {
  import opened Wrappers
  import opened Text

  /** U+02BB MODIFIER LETTER TURNED COMMA, the ʻokina. */
  const Okina: char := '\U{02BB}'
  /** U+2019 RIGHT SINGLE QUOTATION MARK */
  const RightQuote: char := '\U{2019}'

  /**
   * `(s or "").replace("ʻ", "").replace("’", "'").replace("ʻ", "").replace("Hawaiʻi", "Hawaii")`,
   * step by step.
   */
  function DeOkina(s: Option<string>): (r: string)
    ensures r == CleanChars(s.GetOr(""))
    ensures Okina !in r && RightQuote !in r
    ensures |r| <= |s.GetOr("")|
  {
    var t := s.GetOr("");
    MapAfterRemove(t);
    CleanCharsFree(t);
    RemoveCharAbsent(CleanChars(t), Okina);
    ReplaceAllAbsent(CleanChars(t), "Hawai" + [Okina] + "i", "Hawaii", Okina);
    ReplaceAll(RemoveChar(MapChar(RemoveChar(t, Okina), RightQuote, '\''), Okina), "Hawai" + [Okina] + "i", "Hawaii")
  }

  /** The same rewrite, one character at a time. */
  function CleanChars(s: string): (r: string)
    ensures |r| <= |s|
  {
    if s == [] then []
    else (if s[0] == Okina then [] else [if s[0] == RightQuote then '\'' else s[0]]) + CleanChars(s[1..])
  }

  lemma {:induction false} MapAfterRemove(s: string)
    ensures MapChar(RemoveChar(s, Okina), RightQuote, '\'') == CleanChars(s)
  {
    if s != [] {
      MapAfterRemove(s[1..]);
      var head := if s[0] == Okina then [] else [s[0]];
      var rest := RemoveChar(s[1..], Okina);
      assert RemoveChar(s, Okina) == head + rest;
      MapCharAppend(head, rest, RightQuote, '\'');
    }
  }

  lemma MapCharAppend(a: string, b: string, x: char, y: char)
    ensures MapChar(a + b, x, y) == MapChar(a, x, y) + MapChar(b, x, y)
  {
  }

  lemma {:induction false} CleanCharsFree(s: string)
    ensures Okina !in CleanChars(s) && RightQuote !in CleanChars(s)
  {
    if s != [] {
      CleanCharsFree(s[1..]);
    }
  }

  /**
   * The four-step rewrite is the character-wise one: the second removal
   * and the `"Hawaiʻi"` replacement find nothing left to change.
   */
  lemma DeOkinaCharwise(s: Option<string>)
    ensures DeOkina(s) == CleanChars(s.GetOr(""))
  {
    var t := s.GetOr("");
    MapAfterRemove(t);
    CleanCharsFree(t);
    var c := CleanChars(t);
    RemoveCharAbsent(c, Okina);
    ReplaceAllAbsent(c, "Hawai" + [Okina] + "i", "Hawaii", Okina);
  }

  /** The output has no ʻokina and no right single quote. */
  lemma DeOkinaFree(s: Option<string>)
    ensures Okina !in DeOkina(s) && RightQuote !in DeOkina(s)
  {
    DeOkinaCharwise(s);
    CleanCharsFree(s.GetOr(""));
  }

  lemma {:induction false} CleanCharsIdle(s: string)
    requires Okina !in s && RightQuote !in s
    ensures CleanChars(s) == s
  {
    if s != [] {
      CleanCharsIdle(s[1..]);
      assert s == [s[0]] + s[1..];
    }
  }

  /** Rewriting twice changes nothing more. */
  lemma DeOkinaIdempotent(s: Option<string>)
    ensures DeOkina(Some(DeOkina(s))) == DeOkina(s)
  {
    DeOkinaFree(s);
    DeOkinaCharwise(Some(DeOkina(s)));
    CleanCharsIdle(DeOkina(s));
  }

  /** The state's name loses its ʻokina; a missing value prints as nothing. */
  lemma DeOkinaExamples()
    ensures DeOkina(Some("Hawai" + [Okina] + "i")) == "Hawaii"
    ensures DeOkina(None) == ""
  {
    DeOkinaCharwise(Some("Hawai" + [Okina] + "i"));
    CleanHawaii();
    DeOkinaCharwise(None);
  }

  lemma CleanHawaii()
    ensures CleanChars("Hawai" + [Okina] + "i") == "Hawaii"
  {
    CleanAroundOkina("Hawai", "i");
    assert "Hawai" + "i" == "Hawaii";
  }

  /** An ʻokina between two plain pieces is dropped and the pieces close up. */
  lemma CleanAroundOkina(a: string, b: string)
    requires Okina !in a && RightQuote !in a && Okina !in b && RightQuote !in b
    ensures CleanChars(a + [Okina] + b) == a + b
  {
    var tail := [Okina] + b;
    assert CleanChars(tail) == b by {
      assert tail[0] == Okina && tail[1..] == b;
      CleanCharsIdle(b);
    }
    assert CleanChars(a + tail) == a + b by {
      CleanCharsAppend(a, tail);
      CleanCharsIdle(a);
    }
    assert a + [Okina] + b == a + tail;
  }

  lemma {:induction false} CleanCharsAppend(a: string, b: string)
    ensures CleanChars(a + b) == CleanChars(a) + CleanChars(b)
  {
    if a == [] {
      assert a + b == b;
    } else {
      assert (a + b)[1..] == a[1..] + b;
      CleanCharsAppend(a[1..], b);
    }
  }
}
