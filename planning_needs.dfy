/**
 * The needs arithmetic that final2/final2.py and Final/final.py share: the
 * de facto population and the integer parts of `estimate_needs`. Python's
 * `int(x * (p / 100.0))` is modelled as exact truncation toward zero of
 * `x * p / 100`.
 */
module PlanningNeeds {
  /** `WATER_LPPD` */
  const WaterPerPersonLiters: int := 15
  /** `MEALS_PER_DAY` */
  const MealsPerDay: int := 3
  /** `SHELTER_FT2` */
  const ShelterSquareFeet: int := 40

  /** Python's `int()` of the quotient `a / b`: truncation toward zero. */
  function TruncDiv(a: int, b: int): (q: int)
    requires b > 0
    ensures a >= 0 ==> q >= 0 && q * b <= a < (q + 1) * b
    ensures a < 0 ==> q <= 0 && (q - 1) * b < a <= q * b
  {
    if a >= 0 then
      DivBounds(a, b);
      a / b
    else
      DivBounds(-a, b);
      -((-a) / b)
  }

  lemma DivBounds(a: int, b: int)
    requires a >= 0 && b > 0
    ensures a / b >= 0 && (a / b) * b <= a < (a / b + 1) * b
  {
    var q, r := a / b, a % b;
    assert a == q * b + r && 0 <= r < b;
    assert (q + 1) * b == q * b + b;
  }

  /** `int(x * (pct / 100.0))`: `pct` percent of `x`, truncated. */
  function PercentOf(x: int, pct: int): (r: int)
    ensures x >= 0 && pct >= 0 ==> 0 <= r && r * 100 <= x * pct < (r + 1) * 100
  {
    TruncDiv(x * pct, 100)
  }

  /** `int(resident_pop * (1 + extra_pct / 100.0))` */
  function DeFacto(resident: int, extraPct: int): (r: int)
    ensures resident >= 0 && extraPct >= 0 ==> resident <= r && r * 100 <= resident * (100 + extraPct)
  {
    PercentOf(resident, 100 + extraPct)
  }

  /** The integer entries of the dictionary that `estimate_needs` returns. */
  datatype Needs = Needs(waterLiters: int, meals: int, peopleSheltered: int, shelterSpace: int)

  /** `estimate_needs(de_facto, shelter_pct)` without the gallons, which are a float. */
  function EstimateNeeds(deFacto: int, shelterPct: int): (n: Needs)
    ensures n.waterLiters == WaterPerPersonLiters * deFacto
    ensures n.meals == MealsPerDay * deFacto
    ensures n.peopleSheltered == PercentOf(deFacto, shelterPct)
    ensures n.shelterSpace == ShelterSquareFeet * n.peopleSheltered
  {
    var sheltered := PercentOf(deFacto, shelterPct);
    Needs(deFacto * WaterPerPersonLiters, deFacto * MealsPerDay, sheltered, sheltered * ShelterSquareFeet)
  }

  /**
   * With a percentage between 0 and 100 nobody is counted twice: the people
   * sheltered are at most everyone, and their floor space at most 40 square
   * feet a head.
   */
  lemma ShelteredAtMostEveryone(deFacto: int, shelterPct: int)
    requires deFacto >= 0 && 0 <= shelterPct <= 100
    ensures 0 <= EstimateNeeds(deFacto, shelterPct).peopleSheltered <= deFacto
    ensures EstimateNeeds(deFacto, shelterPct).shelterSpace <= ShelterSquareFeet * deFacto
  {
    var r := PercentOf(deFacto, shelterPct);
    assert r * 100 <= deFacto * shelterPct <= deFacto * 100;
  }

  /** A larger shelter percentage never shelters fewer people. */
  lemma ShelteredMonotone(deFacto: int, low: int, high: int)
    requires deFacto >= 0 && 0 <= low <= high
    ensures PercentOf(deFacto, low) <= PercentOf(deFacto, high)
  {
    var a := PercentOf(deFacto, low);
    var b := PercentOf(deFacto, high);
    assert deFacto * low <= deFacto * high;
    assert a * 100 <= deFacto * low && deFacto * high < (b + 1) * 100;
  }

  /** Zero uplift leaves the resident population as it is. */
  lemma NoUpliftNoChange(resident: int)
    ensures DeFacto(resident, 0) == resident
  {
  }
}
