/**
 * The page-text work shared by both planning tools (final2/final2.py and
 * Final/final.py): the city part of the page address, and the search for
 * "population of N" in the text of the fetched page. Fetching and parsing
 * the HTML are not modelled; the page text is a parameter.
 */
module PopulationText {
  import opened Wrappers
  import opened Text

  /** `city.strip().lower().replace(" ", "-")` */
  function CitySlug(city: string): (r: string)
    ensures |r| == |Strip(city)|
    ensures ' ' !in r
    ensures forall i :: 0 <= i < |r| ==> r[i] == if Strip(city)[i] == ' ' then '-' else LowerChar(Strip(city)[i])
  {
    MapChar(Lower(Strip(city)), ' ', '-')
  }

  /** A slug is its own slug: it has no padding, no capitals and no spaces left. */
  lemma SlugIdempotent(city: string)
    ensures CitySlug(CitySlug(city)) == CitySlug(city)
  {
    var s := CitySlug(city);
    SlugUnpadded(city);
    StripUnchanged(s);
    SlugLower(city);
    MapCharAbsent(s, ' ', '-');
  }

  lemma MapCharAbsent(s: string, a: char, b: char)
    requires a !in s
    ensures MapChar(s, a, b) == s
  {
    var r := MapChar(s, a, b);
    forall i | 0 <= i < |s|
      ensures r[i] == s[i]
    {
      assert s[i] in s;
    }
  }

  lemma SlugUnpadded(city: string)
    ensures var s := CitySlug(city); s == [] || (!IsSpace(s[0]) && !IsSpace(s[|s| - 1]))
  {
    var s := CitySlug(city);
    var t := Strip(city);
    if s != [] {
      SlugCharNotSpace(t[0]);
      SlugCharNotSpace(t[|t| - 1]);
      assert s[0] == if t[0] == ' ' then '-' else LowerChar(t[0]);
      assert s[|s| - 1] == if t[|t| - 1] == ' ' then '-' else LowerChar(t[|t| - 1]);
    }
  }

  lemma SlugCharNotSpace(c: char)
    requires !IsSpace(c)
    ensures !IsSpace(if c == ' ' then '-' else LowerChar(c))
  {
  }

  lemma SlugLower(city: string)
    ensures Lower(CitySlug(city)) == CitySlug(city)
  {
    var s := CitySlug(city);
    forall i | 0 <= i < |s|
      ensures LowerChar(s[i]) == s[i]
    {
      var c := Strip(city)[i];
      assert s[i] == if c == ' ' then '-' else LowerChar(c);
    }
  }

  /** The literal part of the pattern, matched case-insensitively. */
  const Phrase: string := "population of"

  /** A character of the `[0-9,]` class. */
  predicate NumberChar(c: char) {
    IsDigit(c) || c == ','
  }

  /** The pattern's literal part occurs at position `i`, in any letter case. */
  predicate PhraseAt(text: string, i: nat) {
    i + |Phrase| <= |text| && Lower(text[i..i + |Phrase|]) == Phrase
  }

  /** `\s+` taken greedily from position `j`: the length of the whitespace run there. */
  function SpacesFrom(text: string, j: nat): (n: nat)
    requires j <= |text|
    ensures j + n <= |text|
    ensures forall k :: j <= k < j + n ==> IsSpace(text[k])
    ensures j + n == |text| || !IsSpace(text[j + n])
    decreases |text| - j
  {
    if j < |text| && IsSpace(text[j]) then 1 + SpacesFrom(text, j + 1) else 0
  }

  /** `[0-9,]+` taken greedily from position `j`: the length of the run there. */
  function NumberFrom(text: string, j: nat): (n: nat)
    requires j <= |text|
    ensures j + n <= |text|
    ensures forall k :: j <= k < j + n ==> NumberChar(text[k])
    ensures j + n == |text| || !NumberChar(text[j + n])
    decreases |text| - j
  {
    if j < |text| && NumberChar(text[j]) then 1 + NumberFrom(text, j + 1) else 0
  }

  /**
   * `population of\s+([0-9,]+)` anchored at position `i`: the captured group.
   * No backtracking is needed, as whitespace and the number characters are
   * disjoint.
   */
  function MatchAt(text: string, i: nat): (r: Option<string>)
    ensures r.Some? ==> PhraseAt(text, i) && |r.value| > 0
    ensures r.Some? ==> forall k :: 0 <= k < |r.value| ==> NumberChar(r.value[k])
  {
    if !PhraseAt(text, i) then None
    else
      var s := i + |Phrase|;
      var ws := SpacesFrom(text, s);
      if ws == 0 then None
      else
        var d := s + ws;
        var n := NumberFrom(text, d);
        if n == 0 then None else Some(text[d..d + n])
  }

  /** `re.search`: the first position from `from` on where the pattern matches, with its group. */
  function FirstMatch(text: string, from: nat): (r: Option<(nat, string)>)
    requires from <= |text|
    ensures r.Some? ==> from <= r.value.0 < |text| && MatchAt(text, r.value.0) == Some(r.value.1)
    decreases |text| - from
  {
    if from == |text| then None
    else match MatchAt(text, from)
      case Some(group) => Some((from, group))
      case None => FirstMatch(text, from + 1)
  }

  /** The match found is the leftmost one: the pattern matches at no position `j` before it. */
  lemma {:induction false} FirstMatchLeftmost(text: string, from: nat, j: nat)
    requires from <= j <= |text|
    requires FirstMatch(text, from).None? || j < FirstMatch(text, from).value.0
    ensures MatchAt(text, j).None?
    decreases |text| - from
  {
    if from == |text| {
      assert !PhraseAt(text, j);
    } else if from < j {
      FirstMatchLeftmost(text, from + 1, j);
    }
  }

  /** A failed search means the pattern occurs nowhere, and the other way round. */
  lemma {:induction false} FirstMatchNone(text: string, from: nat)
    requires from <= |text|
    ensures FirstMatch(text, from).None? <==> forall j :: from <= j <= |text| ==> MatchAt(text, j).None?
    decreases |text| - from
  {
    if from == |text| {
      assert !PhraseAt(text, from);
    } else if MatchAt(text, from).None? {
      FirstMatchNone(text, from + 1);
    }
  }

  /** A group of digits and commas, commas dropped, is a run of digits. */
  lemma CommasDroppedDigits(group: string)
    requires forall k :: 0 <= k < |group| ==> NumberChar(group[k])
    ensures AllDigits(RemoveChar(group, ','))
  {
    var r := RemoveChar(group, ',');
    RemoveCharMembers(group, ',');
    forall i | 0 <= i < |r|
      ensures IsDigit(r[i])
    {
      assert r[i] in r;
    }
  }

  /**
   * `int(match.group(1).replace(",", ""))`: the digits of the group read as
   * a number, or `None` for the `ValueError` of a group that is only commas.
   */
  function GroupValue(group: string): (r: Option<nat>)
    requires forall k :: 0 <= k < |group| ==> NumberChar(group[k])
    ensures r.None? <==> forall k :: 0 <= k < |group| ==> group[k] == ','
    ensures r.Some? ==> AllDigits(RemoveChar(group, ',')) && r.value == DigitsValue(RemoveChar(group, ','))
  {
    var digits := RemoveChar(group, ',');
    CommasDroppedDigits(group);
    RemoveCharMembers(group, ',');
    if digits == [] then
      assert forall k :: 0 <= k < |group| ==> group[k] == ',' by {
        forall k | 0 <= k < |group|
          ensures group[k] == ','
        {
          assert group[k] in group;
        }
      }
      None
    else
      assert digits[0] in group;
      Some(DigitsValue(digits))
  }

  /**
   * The population found in the page text: the value of the first match's
   * group, and `None` when nothing matches.
   */
  function ExtractPopulation(text: string): (r: Option<nat>)
    ensures FirstMatch(text, 0).None? ==> r.None?
    ensures FirstMatch(text, 0).Some? ==> r == GroupValue(FirstMatch(text, 0).value.1)
  {
    match FirstMatch(text, 0)
    case None => None
    case Some((_, group)) => GroupValue(group)
  }

  /** A whitespace run and a number that no other number character follows, starting at `j`. */
  lemma NumberAfterSpaces(text: string, j: nat, pad: string, number: string)
    requires j + |pad| + |number| <= |text|
    requires text[j..j + |pad| + |number|] == pad + number
    requires forall k :: 0 <= k < |pad| ==> IsSpace(pad[k])
    requires number != [] && forall k :: 0 <= k < |number| ==> NumberChar(number[k])
    requires j + |pad| + |number| == |text| || !NumberChar(text[j + |pad| + |number|])
    ensures SpacesFrom(text, j) == |pad|
    ensures NumberFrom(text, j + |pad|) == |number|
  {
    assert forall k :: 0 <= k < |pad| ==> text[j + k] == pad[k] by {
      forall k | 0 <= k < |pad|
        ensures text[j + k] == pad[k]
      {
        assert text[j..j + |pad| + |number|][k] == (pad + number)[k];
      }
    }
    assert forall k :: 0 <= k < |number| ==> text[j + |pad| + k] == number[k] by {
      forall k | 0 <= k < |number|
        ensures text[j + |pad| + k] == number[k]
      {
        assert text[j..j + |pad| + |number|][|pad| + k] == (pad + number)[|pad| + k];
      }
    }
    assert !IsSpace(text[j + |pad|]) by {
      assert text[j + |pad|] == number[0];
    }
    SpacesRun(text, j, |pad|);
    NumberRun(text, j + |pad|, |number|);
  }

  /** The greedy whitespace run is exactly the maximal one. */
  lemma SpacesRun(text: string, j: nat, m: nat)
    requires j + m <= |text| && forall k :: j <= k < j + m ==> IsSpace(text[k])
    requires j + m == |text| || !IsSpace(text[j + m])
    ensures SpacesFrom(text, j) == m
  {
  }

  /** The greedy number run is exactly the maximal one. */
  lemma NumberRun(text: string, j: nat, m: nat)
    requires j + m <= |text| && forall k :: j <= k < j + m ==> NumberChar(text[k])
    requires j + m == |text| || !NumberChar(text[j + m])
    ensures NumberFrom(text, j) == m
  {
  }

  /**
   * Page text that starts with "population of" in any letter case, then
   * whitespace, then a run of digits and commas that the rest does not
   * extend: the group captured is that run.
   */
  lemma ReadsLeadingNumber(word: string, pad: string, number: string, rest: string)
    requires Lower(word) == Phrase
    requires pad != [] && forall k :: 0 <= k < |pad| ==> IsSpace(pad[k])
    requires number != [] && forall k :: 0 <= k < |number| ==> NumberChar(number[k])
    requires rest == [] || !NumberChar(rest[0])
    ensures ExtractPopulation(word + pad + number + rest) == GroupValue(number)
  {
    var text := word + pad + number + rest;
    assert text[..|Phrase|] == word;
    assert text[0..|Phrase|] == word;
    assert text[|Phrase|..|Phrase| + |pad| + |number|] == pad + number;
    if rest != [] {
      assert text[|Phrase| + |pad| + |number|] == rest[0];
    }
    NumberAfterSpaces(text, |Phrase|, pad, number);
    assert MatchAt(text, 0) == Some(number) by {
      assert text[|Phrase| + |pad|..|Phrase| + |pad| + |number|] == number;
    }
  }

  /** A number as `str(n)` writes it is read back as `n`. */
  lemma ReadsWrittenNumber(word: string, pad: string, n: nat, rest: string)
    requires Lower(word) == Phrase
    requires pad != [] && forall k :: 0 <= k < |pad| ==> IsSpace(pad[k])
    requires rest == [] || !NumberChar(rest[0])
    ensures ExtractPopulation(word + pad + NatToString(n) + rest) == Some(n)
  {
    var number := NatToString(n);
    assert forall k :: 0 <= k < |number| ==> NumberChar(number[k]);
    ReadsLeadingNumber(word, pad, number, rest);
    assert ',' !in number by {
      forall k | 0 <= k < |number|
        ensures number[k] != ','
      {
        assert IsDigit(number[k]);
      }
    }
    RemoveCharAbsent(number, ',');
    NatToStringValue(n);
  }

  /** A number with a thousands comma, such as "344,098", is read without it: 344098. */
  lemma ReadsGroupedNumber(word: string, pad: string, thousands: nat, units: string, rest: string)
    requires Lower(word) == Phrase
    requires pad != [] && forall k :: 0 <= k < |pad| ==> IsSpace(pad[k])
    requires |units| == 3 && AllDigits(units)
    requires rest == [] || !NumberChar(rest[0])
    ensures ExtractPopulation(word + pad + (NatToString(thousands) + "," + units) + rest) ==
              Some(thousands * 1000 + DigitsValue(units))
  {
    GroupedValue(thousands, units);
    ReadsLeadingNumber(word, pad, NatToString(thousands) + "," + units, rest);
  }

  /** The group "344,098" itself is worth 344098. */
  lemma GroupedValue(thousands: nat, units: string)
    requires |units| == 3 && AllDigits(units)
    ensures var number := NatToString(thousands) + "," + units;
            && (forall k :: 0 <= k < |number| ==> NumberChar(number[k]))
            && GroupValue(number) == Some(thousands * 1000 + DigitsValue(units))
  {
    var front := NatToString(thousands);
    var number := front + "," + units;
    GroupedChars(front, units);
    GroupedDigits(front, units);
    assert number[0] == front[0] && IsDigit(front[0]);
    assert GroupValue(number).Some? by {
      assert number[0] != ',';
    }
    assert GroupValue(number).value == DigitsValue(front + units);
    NatToStringValue(thousands);
    ThousandsValue(front, units, thousands);
  }

  /** Digits worth `thousands` followed by three more digits. */
  lemma ThousandsValue(front: string, units: string, thousands: nat)
    requires AllDigits(front) && AllDigits(units) && |units| == 3
    requires DigitsValue(front) == thousands
    ensures DigitsValue(front + units) == thousands * 1000 + DigitsValue(units)
  {
    DigitsValueAppend(front, units);
    ThreeDigitShift(|units|);
    ScaleByThousand(DigitsValue(front), Pow10(|units|), thousands);
  }

  lemma ScaleByThousand(v: nat, p: nat, t: nat)
    requires v == t && p == 1000
    ensures v * p == t * 1000
  {
  }

  lemma ThreeDigitShift(n: nat)
    requires n == 3
    ensures Pow10(n) == 1000
  {
    assert Pow10(n - 2) == 10;
    assert Pow10(n - 1) == 100;
  }

  /** Digits, a comma and more digits: every character belongs to a number. */
  lemma GroupedChars(front: string, units: string)
    requires AllDigits(front) && AllDigits(units)
    ensures forall k :: 0 <= k < |front + "," + units| ==> NumberChar((front + "," + units)[k])
  {
    var number := front + "," + units;
    forall k | 0 <= k < |number|
      ensures NumberChar(number[k])
    {
      if k < |front| {
        assert number[k] == front[k];
      } else if k > |front| {
        assert number[k] == units[k - |front| - 1];
      }
    }
  }

  /** Dropping the comma between two digit runs joins them. */
  lemma GroupedDigits(front: string, units: string)
    requires AllDigits(front) && AllDigits(units)
    ensures RemoveChar(front + "," + units, ',') == front + units
  {
    RemoveCharAppend(front + ",", units, ',');
    RemoveCharAppend(front, ",", ',');
    assert RemoveChar(",", ',') == [];
    assert ',' !in front by {
      forall k | 0 <= k < |front|
        ensures front[k] != ','
      {
        assert IsDigit(front[k]);
      }
    }
    assert ',' !in units by {
      forall k | 0 <= k < |units|
        ensures units[k] != ','
      {
        assert IsDigit(units[k]);
      }
    }
    RemoveCharAbsent(front, ',');
    RemoveCharAbsent(units, ',');
    assert front + [] == front;
  }

  lemma ShiftByTen(v: nat, p: nat)
    ensures (v * p) * 10 == v * (10 * p)
  {
  }

  /** The value of two digit runs written one after the other. */
  lemma {:induction false} DigitsValueAppend(x: string, y: string)
    requires AllDigits(x) && AllDigits(y)
    ensures AllDigits(x + y)
    ensures DigitsValue(x + y) == DigitsValue(x) * Pow10(|y|) + DigitsValue(y)
  {
    if y == [] {
      assert x + y == x;
    } else {
      var y' := y[..|y| - 1];
      assert (x + y)[..|x + y| - 1] == x + y';
      DigitsValueAppend(x, y');
      var d := DigitValue(y[|y| - 1]);
      var v := DigitsValue(x);
      var p := Pow10(|y'|);
      assert DigitsValue(x + y) == DigitsValue(x + y') * 10 + d;
      assert DigitsValue(y) == DigitsValue(y') * 10 + d;
      assert Pow10(|y|) == 10 * p;
      calc {
        DigitsValue(x + y);
        (v * p + DigitsValue(y')) * 10 + d;
        { ShiftByTen(v, p); }
        v * (10 * p) + (DigitsValue(y') * 10 + d);
      }
    }
  }
}
