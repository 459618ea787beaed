/**
 * The Hawaii planning tool of final2/final2.py: the hazard presets, the
 * shelter-capacity model, the integer capability models for meals, water
 * trucks and roads, and the shortfalls the results compare. Typed answers
 * are parameters; the floating-point parts (gallons, POD water, vehicle
 * counts) are left to the caller.
 */
module HawaiiTool {
  import opened Wrappers
  import opened Text
  import opened PlanningNeeds

  /** A shelter site of `SHELTER_SITES`. */
  datatype Site = Site(name: string, capacity: int)

  /** `SHELTER_SITES` */
  const ShelterSites: map<string, seq<Site>> := map[
    "Honolulu" := [Site("Blaisdell Center", 800), Site("McKinley High Gym", 400)],
    "Kahului" := [Site("War Memorial Gym", 600)],
    "Hilo" := [Site("Hilo High Gym", 500)]]

  /** One entry of `HAZARD_PRESETS`: the de facto uplift and the shelter percentage. */
  datatype Preset = Preset(extraPct: int, shelterPct: int)

  /** `HAZARD_PRESETS` */
  const HazardPresets: map<string, Preset> := map[
    "wildfire" := Preset(10, 15),
    "hurricane" := Preset(5, 25),
    "tsunami" := Preset(0, 40),
    "none" := Preset(0, 20)]

  /** The hazard a stripped menu answer names: "1" to "3", and anything else is "none". */
  function HazardName(choice: string): (hazard: string)
    ensures hazard in HazardPresets
  {
    if choice == "1" then "wildfire"
    else if choice == "2" then "hurricane"
    else if choice == "3" then "tsunami"
    else "none"
  }

  /** `choose_hazard_preset()` with `line` the typed answer: the hazard and its two percentages. */
  function ChooseHazard(line: string): (r: (string, int, int))
    ensures r.0 in HazardPresets && r.1 == HazardPresets[r.0].extraPct && r.2 == HazardPresets[r.0].shelterPct
    ensures r.0 == "wildfire" <==> Strip(line) == "1"
    ensures r.0 == "hurricane" <==> Strip(line) == "2"
    ensures r.0 == "tsunami" <==> Strip(line) == "3"
    ensures r.0 == "none" <==> Strip(line) !in ["1", "2", "3"]
  {
    var hazard := HazardName(Strip(line));
    var preset := HazardPresets[hazard];
    (hazard, preset.extraPct, preset.shelterPct)
  }

  /** Every preset's percentages lie between 0 and 100, so the sheltered never exceed the de facto headcount. */
  lemma PresetsArePercentages(line: string)
    ensures var r := ChooseHazard(line); 0 <= r.1 <= 100 && 0 <= r.2 <= 100
  {
  }

  /** `sum(s["capacity"] for s in sites)` */
  function TotalCapacity(sites: seq<Site>): (total: int)
    ensures (forall i :: 0 <= i < |sites| ==> sites[i].capacity >= 0) ==> total >= 0
  {
    if sites == [] then 0 else sites[0].capacity + TotalCapacity(sites[1..])
  }

  /**
   * `estimate_shelter_capacity(city, resident_pop)`: the listed sites of a
   * city that is a key of the table exactly as typed, otherwise a tenth of
   * the residents.
   */
  function ShelterCapacity(city: string, residentPop: int): (c: int)
    ensures city in ShelterSites && ShelterSites[city] != [] ==> c == TotalCapacity(ShelterSites[city])
    ensures city !in ShelterSites ==> c == PercentOf(residentPop, 10)
  {
    var sites := if city in ShelterSites then ShelterSites[city] else [];
    if sites != [] then TotalCapacity(sites) else PercentOf(residentPop, 10)
  }

  /** The three listed cities: 800 + 400 for Honolulu, 600 for Kahului and 500 for Hilo, whatever the population. */
  lemma ListedCities(residentPop: int)
    ensures ShelterCapacity("Honolulu", residentPop) == 1200
    ensures ShelterCapacity("Kahului", residentPop) == 600
    ensures ShelterCapacity("Hilo", residentPop) == 500
  {
    assert TotalCapacity(ShelterSites["Honolulu"]) == 1200 by {
      var sites := ShelterSites["Honolulu"];
      assert sites[1..][1..] == [];
    }
  }

  /** The lookup is exact: a city typed in another letter case gets the ten-percent estimate. */
  lemma LookupIsCaseSensitive(residentPop: int)
    ensures ShelterCapacity("honolulu", residentPop) == PercentOf(residentPop, 10)
  {
    assert "honolulu" != "Honolulu" by {
      assert "honolulu"[0] != "Honolulu"[0];
    }
  }

  /** `int(input(...) or 0)` and the like: an empty answer is `default`, anything else goes through `int()`. */
  function ReadCount(line: string, default: int): (r: Option<int>)
    ensures line == "" ==> r == Some(default)
    ensures line != "" ==> r == ParseInt(line)
  {
    if line == "" then Some(default) else ParseInt(line)
  }

  /** `truck_capacity_gal`: 4,000 gallons a tanker truck. */
  function TruckGallons(trucks: int): (g: int)
    ensures trucks >= 0 ==> g >= 0
    ensures g == 4000 * trucks
  {
    trucks * 4000
  }

  /** `meal_capacity_per_day`: 2,000 meals a feeding site. */
  function MealCapacity(feedingSites: int): (m: int)
    ensures feedingSites >= 0 ==> m >= 0
    ensures m == 2000 * feedingSites
  {
    feedingSites * 2000
  }

  /**
   * The counted parts of `estimate_water_and_meal_capacity()` from the
   * answers for trucks, PODs and feeding sites (the POD hours are a float,
   * here only whether they parsed): the truck gallons and the meal
   * capacity, or `None` for the `ValueError` exit.
   */
  function Capabilities(trucksLine: string, podsLine: string, hoursParsed: bool, sitesLine: string): (r: Option<(int, int)>)
    ensures r.Some? <==>
              ReadCount(trucksLine, 0).Some? && ReadCount(podsLine, 0).Some? && hoursParsed && ReadCount(sitesLine, 0).Some?
    ensures r.Some? ==>
              r.value == (TruckGallons(ReadCount(trucksLine, 0).value), MealCapacity(ReadCount(sitesLine, 0).value))
  {
    match (ReadCount(trucksLine, 0), ReadCount(podsLine, 0), ReadCount(sitesLine, 0))
    case (Some(trucks), Some(_), Some(sites)) =>
      if hoursParsed then Some((TruckGallons(trucks), MealCapacity(sites))) else None
    case _ => None
  }

  /** Blank answers count as zero trucks and zero sites. */
  lemma BlankCapabilities()
    ensures Capabilities("", "", true, "") == Some((0, 0))
  {
  }

  /** `road_capacity_vehicles_per_hour`: 1,500 vehicles a lane an hour. */
  function RoadCapacity(lanes: int): (c: int)
    ensures c == 1500 * lanes
  {
    lanes * 1500
  }

  /** `clearance_time_hours`: the vehicles over the road capacity, and 0 when there is no capacity. */
  function ClearanceHours(vehicles: int, lanes: int): (h: real)
    ensures RoadCapacity(lanes) <= 0 ==> h == 0.0
    ensures RoadCapacity(lanes) > 0 ==> h * RoadCapacity(lanes) as real == vehicles as real
  {
    var capacity := RoadCapacity(lanes);
    if capacity > 0 then vehicles as real / capacity as real else 0.0
  }

  /** No lanes, or a negative count typed, never divides: the clearance time is 0. */
  lemma NoLanesNoDivision(vehicles: int, lanes: int)
    requires lanes <= 0
    ensures ClearanceHours(vehicles, lanes) == 0.0
  {
  }

  /** The shortfalls the results print: need minus capability, for shelter places and for meals. */
  datatype Shortfalls = Shortfalls(shelter: int, meals: int)

  function CompareNeeds(needs: Needs, shelterCapacity: int, mealCapacity: int): (s: Shortfalls)
    ensures s.shelter + shelterCapacity == needs.peopleSheltered
    ensures s.meals + mealCapacity == needs.meals
  {
    Shortfalls(needs.peopleSheltered - shelterCapacity, needs.meals - mealCapacity)
  }

  /**
   * The fewest feeding sites that cover the meals: with `sites` the meals
   * divided by 2,000 and rounded up, the meal shortfall is not positive,
   * and one site fewer leaves a shortfall.
   */
  lemma FewestFeedingSites(deFacto: int, shelterPct: int, shelterCapacity: int)
    requires deFacto > 0
    ensures var sites := (MealsPerDay * deFacto + 1999) / 2000;
            && CompareNeeds(EstimateNeeds(deFacto, shelterPct), shelterCapacity, MealCapacity(sites)).meals <= 0
            && CompareNeeds(EstimateNeeds(deFacto, shelterPct), shelterCapacity, MealCapacity(sites - 1)).meals > 0
  {
    var meals := MealsPerDay * deFacto;
    var sites := (meals + 1999) / 2000;
    assert sites * 2000 <= meals + 1999 < sites * 2000 + 2000;
  }
}
