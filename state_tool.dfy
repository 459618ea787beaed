/**
 * The state-by-state estimator of Final/final.py: the two state tables,
 * the start of a run, the gate before any page is fetched, and the de
 * facto uplift. The fetched page text is a parameter (`None` when the fetch
 * fails).
 */
module StateTool {
  import opened Wrappers
  import opened Text
  import opened PopulationText

  /** `STATE_DEFECTO_UPLIFT` */
  const StateUplift: map<string, int> := map["HI" := 30, "NV" := 25, "FL" := 20, "CA" := 10, "NY" := 10, "DC" := 15]

  /** `STATE_SLUGS` */
  const StateSlugs: map<string, string> := map[
    "HI" := "hawaii", "NV" := "nevada", "FL" := "florida",
    "CA" := "california", "NY" := "new-york", "DC" := "district-of-columbia"]

  /** Both tables cover the same six states, so every state that can be fetched has an uplift. */
  lemma SameStates()
    ensures StateUplift.Keys == StateSlugs.Keys
    ensures |StateSlugs.Keys| == 6
  {
  }

  /**
   * The first two questions of `main()`: the stripped city and the
   * stripped, upper-cased state, or `None` when either is empty and the
   * run ends.
   */
  function StartRun(cityLine: string, stateLine: string): (r: Option<(string, string)>)
    ensures r.None? <==> Strip(cityLine) == [] || Strip(stateLine) == []
    ensures r.Some? ==> r.value == (Strip(cityLine), Upper(Strip(stateLine)))
  {
    var city := Strip(cityLine);
    var state := Upper(Strip(stateLine));
    if city == [] || state == [] then None else Some((city, state))
  }

  /** `STATE_SLUGS.get(state.upper())` */
  function StateSlug(state: string): (r: Option<string>)
    ensures r.Some? <==> Upper(state) in StateSlugs
    ensures r.Some? ==> r.value == StateSlugs[Upper(state)]
  {
    if Upper(state) in StateSlugs then Some(StateSlugs[Upper(state)]) else None
  }

  /** The page that `scrape_population_from_wpr` asks for: the state's slug, then the city's. */
  function PageAddress(city: string, state: string): (r: Option<string>)
    ensures r.Some? <==> StateSlug(state).Some?
    ensures r.Some? ==> r.value == "https://worldpopulationreview.com/us-cities/" + StateSlug(state).value + "/" + CitySlug(city)
  {
    match StateSlug(state)
    case None => None
    case Some(slug) => Some("https://worldpopulationreview.com/us-cities/" + slug + "/" + CitySlug(city))
  }

  /**
   * `scrape_population_from_wpr(city, state)` with `page` the text of the
   * fetched page: no population for a state without a slug, whatever the
   * page would say, nor for a failed fetch; otherwise what the text
   * search finds.
   */
  function ScrapeFromWpr(city: string, state: string, page: Option<string>): (r: Option<nat>)
    ensures StateSlug(state).None? ==> r.None?
    ensures StateSlug(state).Some? && page.None? ==> r.None?
    ensures StateSlug(state).Some? && page.Some? ==> r == ExtractPopulation(page.value)
  {
    if StateSlug(state).None? then None
    else match page
      case None => None
      case Some(text) => ExtractPopulation(text)
  }

  /** An unknown state is skipped before any fetch: the outcome is the same for any page. */
  lemma UnknownStateNeverFetches(city: string, state: string, page1: Option<string>, page2: Option<string>)
    requires Upper(state) !in StateSlugs
    ensures ScrapeFromWpr(city, state, page1) == ScrapeFromWpr(city, state, page2) == None
  {
  }

  /** `STATE_DEFECTO_UPLIFT.get(state)`, with the state already upper-cased by `main()`. */
  function DefaultUplift(state: string): (r: Option<int>)
    ensures r.Some? <==> state in StateUplift
    ensures r.Some? ==> r.value == StateUplift[state]
  {
    if state in StateUplift then Some(StateUplift[state]) else None
  }

  /** Upper-casing twice changes nothing more. */
  lemma UpperIdempotent(s: string)
    ensures Upper(Upper(s)) == Upper(s)
  {
  }

  /**
   * For a state as `main()` passes it, the two lookups agree: the gate
   * lets a state through exactly when it has a default uplift, and each
   * uplift lies between 10 and 30 percent.
   */
  lemma GateMatchesUplift(stateLine: string)
    ensures var state := Upper(Strip(stateLine));
            && (StateSlug(state).Some? <==> DefaultUplift(state).Some?)
            && (DefaultUplift(state).Some? ==> 10 <= DefaultUplift(state).value <= 30)
  {
    var state := Upper(Strip(stateLine));
    assert Upper(state) == state by {
      UpperIdempotent(Strip(stateLine));
    }
    SameStates();
    if state in StateUplift {
      UpliftRange(state);
    }
  }

  /** Every default uplift lies between 10 and 30 percent. */
  lemma UpliftRange(state: string)
    requires state in StateUplift
    ensures 10 <= StateUplift[state] <= 30
  {
    assert state == "HI" || state == "NV" || state == "FL" || state == "CA" || state == "NY" || state == "DC";
  }
}
