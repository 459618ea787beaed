/**
 * `movie_price` of Lab6/Lab6EC.py: the ticket costs the lowest of the
 * prices that apply (the regular 14, a senior 8, a Tuesday 10 and a matinee
 * 5 or 8).
 */
module MoviePrice {
  import opened Text

  /** `min(values)` of a non-empty list: an element no greater than any other. */
  function MinOf(values: seq<int>): (m: int)
    requires values != []
    ensures m in values
    ensures forall v :: v in values ==> m <= v
  {
    if |values| == 1 then values[0]
    else
      var rest := MinOf(values[1..]);
      assert forall v :: v in values[1..] ==> rest <= v;
      assert forall v :: v in values ==> v == values[0] || v in values[1..];
      if values[0] <= rest then values[0] else rest
  }

  /** Whether the typed weekday is Tuesday, ignoring padding and letter case. */
  predicate IsTuesday(weekday: string) {
    Lower(Strip(weekday)) == "tuesday"
  }

  /** The list `prices`, built by the appends in order; `tuesday` is the weekday test. */
  function Prices(age: int, tuesday: bool, matinee: bool): (prices: seq<int>)
    ensures prices != [] && prices[0] == 14
    ensures forall v :: v in prices ==> v in {5, 8, 10, 14}
    ensures 8 in prices <==> age >= 65 || matinee
    ensures 10 in prices <==> tuesday
    ensures 5 in prices <==> age >= 65 && matinee
  {
    var regular := [14];
    var senior := regular + (if age >= 65 then [8] else []);
    var withTuesday := senior + (if tuesday then [10] else []);
    withTuesday + (if matinee then [if age >= 65 then 5 else 8] else [])
  }

  /** `movie_price(age, weekday, matinee)` */
  function Price(age: int, weekday: string, matinee: bool): (p: int)
    ensures p in Prices(age, IsTuesday(weekday), matinee)
    ensures forall v :: v in Prices(age, IsTuesday(weekday), matinee) ==> p <= v
  {
    MinOf(Prices(age, IsTuesday(weekday), matinee))
  }

  /**
   * The price in closed form: a senior at a matinee pays 5, any other
   * senior or matinee ticket 8, a Tuesday ticket 10, and otherwise 14.
   */
  lemma PriceCases(age: int, weekday: string, matinee: bool)
    ensures Price(age, weekday, matinee) ==
              if age >= 65 && matinee then 5
              else if age >= 65 || matinee then 8
              else if IsTuesday(weekday) then 10
              else 14
  {
    var prices := Prices(age, IsTuesday(weekday), matinee);
    var p := Price(age, weekday, matinee);
    if age >= 65 && matinee {
      assert 5 in prices;
    } else if age >= 65 || matinee {
      assert 8 in prices;
      assert forall v :: v in prices ==> v >= 8;
    } else if IsTuesday(weekday) {
      assert 10 in prices;
      assert forall v :: v in prices ==> v >= 10;
    } else {
      assert prices == [14];
    }
  }

  /** The regular price always applies, so no ticket costs more than 14, and every price is a listed one. */
  lemma PriceBounds(age: int, weekday: string, matinee: bool)
    ensures Price(age, weekday, matinee) <= 14
    ensures Price(age, weekday, matinee) in {5, 8, 10, 14}
    ensures age >= 65 ==> Price(age, weekday, matinee) <= 8
    ensures IsTuesday(weekday) ==> Price(age, weekday, matinee) <= 10
    ensures matinee ==> Price(age, weekday, matinee) <= 8
  {
    PriceCases(age, weekday, matinee);
  }

  /** "Tuesday" in any letter case and with any padding, such as " TUESDAY ", counts. */
  lemma TuesdayAnyCase(pad: string, word: string)
    requires forall i :: 0 <= i < |pad| ==> IsSpace(pad[i])
    requires Lower(word) == "tuesday"
    ensures IsTuesday(pad + word + pad)
  {
    assert |word| == 7 && !IsSpace(word[0]) && !IsSpace(word[6]) by {
      assert LowerChar(word[0]) == 't' && LowerChar(word[6]) == 'y';
    }
    StripPadded(word, pad);
  }

  /** The three `show_price` calls: 14, 8 and 8. */
  lemma DemoCalls()
    ensures Price(30, "Monday", false) == 14
    ensures Price(70, "Monday", false) == 8
    ensures Price(30, "Tuesday", true) == 8
  {
    assert !IsTuesday("Monday") by {
      assert |Lower(Strip("Monday"))| <= 6;
    }
    PriceCases(30, "Monday", false);
    PriceCases(70, "Monday", false);
    PriceCases(30, "Tuesday", true);
  }
}
