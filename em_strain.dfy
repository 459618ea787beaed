/**
 * The live snapshot's decision tables in em_impact_app/app.py: the strain
 * index (`compute_strain`), the emergency-operations-centre activation and
 * staffing table (`recommend_eoc_and_staffing`), and the short list of
 * recommended actions (`build_recommended_actions`).
 */
module Strain {
  import opened Alerts
  import opened Ranking

  /** `clamp(n, lo, hi)`, i.e. `max(lo, min(hi, n))`. */
  function Clamp(n: int, lo: int, hi: int): (r: int)
    ensures lo <= hi ==> lo <= r <= hi
    ensures lo <= n <= hi ==> r == n
    ensures n > hi ==> r == (if lo > hi then lo else hi)
    ensures n < lo ==> r == lo
  {
    var m := if hi < n then hi else n;
    if lo > m then lo else m
  }

  /** The snapshot fields the tables read (feature counts from live layers). */
  datatype Snapshot = Snapshot(
    fireEvents: int,
    roadClosures: int,
    waterShutoffs: int,
    waterRestrictions: int,
    volcanoSites: int,
    evacuationFeatures: int,
    nwsAlerts: seq<Alert>,
    shelterNeed: int)

  datatype Level = Low | Moderate | High

  /** The strain level's label as the page shows it. */
  function LevelLabel(l: Level): string {
    match l
    case Low => "Low"
    case Moderate => "Moderate"
    case High => "High"
  }

  /** `min(18, 4 * len(nws_alerts))` */
  function AlertPoints(n: nat): (p: nat)
    ensures p <= 18 && p <= 4 * n
    ensures p == 18 || p == 4 * n
  {
    if 4 * n < 18 then 4 * n else 18
  }

  /** The shelter-demand step: 10 from 5000, 6 from 1000, 3 above 0. */
  function ShelterPoints(need: int): (p: int)
    ensures need >= 5000 ==> p == 10
    ensures 1000 <= need < 5000 ==> p == 6
    ensures 0 < need < 1000 ==> p == 3
    ensures need <= 0 ==> p == 0
  {
    if need >= 5000 then 10 else if need >= 1000 then 6 else if need > 0 then 3 else 0
  }

  /** No hazard layer, alert or shelter demand is active. */
  predicate Quiet(snap: Snapshot) {
    && snap.fireEvents <= 0 && snap.roadClosures <= 0
    && snap.waterShutoffs <= 0 && snap.waterRestrictions <= 0
    && snap.volcanoSites <= 0 && snap.evacuationFeatures <= 0
    && snap.nwsAlerts == [] && snap.shelterNeed <= 0
  }

  /** The index before clamping: the running sum `s` of `compute_strain`. */
  function RawStrain(snap: Snapshot, severity: int): (r: int)
    ensures severity * 8 <= r <= severity * 8 + 66
    ensures Quiet(snap) ==> r == severity * 8
  {
    severity * 8
    + (if snap.fireEvents > 0 then 8 else 0)
    + (if snap.roadClosures > 0 then 8 else 0)
    + (if snap.waterShutoffs > 0 || snap.waterRestrictions > 0 then 6 else 0)
    + (if snap.volcanoSites > 0 then 6 else 0)
    + (if snap.evacuationFeatures > 0 then 10 else 0)
    + AlertPoints(|snap.nwsAlerts|)
    + ShelterPoints(snap.shelterNeed)
  }

  /** `"Low" if score <= 30 else ("Moderate" if score <= 60 else "High")` */
  function LevelOf(score: int): (l: Level)
    ensures l == Low <==> score <= 30
    ensures l == Moderate <==> 30 < score <= 60
    ensures l == High <==> score > 60
  {
    if score <= 30 then Low else if score <= 60 then Moderate else High
  }

  /** `compute_strain(snapshot, severity)`: the running sum, clamped to 0..100, and its level. */
  method ComputeStrain(snap: Snapshot, severity: int) returns (score: int, level: Level)
    ensures score == Clamp(RawStrain(snap, severity), 0, 100)
    ensures 0 <= score <= 100
    ensures level == LevelOf(score)
  {
    var s := 0;
    s := s + severity * 8;
    s := s + (if snap.fireEvents > 0 then 8 else 0);
    s := s + (if snap.roadClosures > 0 then 8 else 0);
    s := s + (if snap.waterShutoffs > 0 || snap.waterRestrictions > 0 then 6 else 0);
    s := s + (if snap.volcanoSites > 0 then 6 else 0);
    s := s + (if snap.evacuationFeatures > 0 then 10 else 0);
    s := s + AlertPoints(|snap.nwsAlerts|);
    assert s + ShelterPoints(snap.shelterNeed) == RawStrain(snap, severity);
    if snap.shelterNeed >= 5000 {
      s := s + 10;
    } else if snap.shelterNeed >= 1000 {
      s := s + 6;
    } else if snap.shelterNeed > 0 {
      s := s + 3;
    }
    score := Clamp(s, 0, 100);
    level := if score <= 30 then Low else if score <= 60 then Moderate else High;
  }

  /** Beyond four alerts, further alerts no longer raise the index. */
  lemma AlertsCapped(snap: Snapshot, more: seq<Alert>, severity: int)
    requires |snap.nwsAlerts| >= 5
    ensures RawStrain(snap.(nwsAlerts := snap.nwsAlerts + more), severity) == RawStrain(snap, severity)
  {
  }

  /** A higher severity never lowers the score. */
  lemma StrainMonotoneInSeverity(snap: Snapshot, sev1: int, sev2: int)
    requires sev1 <= sev2
    ensures Clamp(RawStrain(snap, sev1), 0, 100) <= Clamp(RawStrain(snap, sev2), 0, 100)
  {
  }

  /**
   * Within the severities the snapshot uses (1 to 5) the unclamped index
   * stays between 8 and 106, so only the upper clamp can ever bite.
   */
  lemma RawStrainRange(snap: Snapshot, severity: int)
    requires 1 <= severity <= 5
    ensures 8 <= RawStrain(snap, severity) <= 106
  {
  }

  // ---------------------------------------------------------------------------
  // Activation and staffing
  // ---------------------------------------------------------------------------

  datatype Activation = NoActivation | Partial | Full

  /** The recommendation text. */
  function ActivationLabel(a: Activation): string {
    match a
    case NoActivation => "No EOC activation necessary"
    case Partial => "Partial Activation"
    case Full => "Full Activation"
  }

  /** Head count per section of the operations centre. */
  datatype Staffing = Staffing(total: int, ops: int, plans: int, log: int, finance: int, pio: int, lno: int)

  /**
   * Python's `round` on the exact fraction `n / d`: the nearest integer,
   * ties to the even one.
   */
  function RoundHalfEven(n: nat, d: nat): (r: nat)
    requires d > 0
    ensures 2 * n - d <= 2 * d * r <= 2 * n + d
    ensures (2 * d * r == 2 * n - d || 2 * d * r == 2 * n + d) ==> r % 2 == 0
  {
    var q, m := n / d, n % d;
    assert n == d * q + m;
    if 2 * m < d then q
    else if 2 * m > d then q + 1
    else if q % 2 == 0 then q
    else q + 1
  }

  /** The activation level and its base head count. */
  function ActivationFor(strainScore: int, severity: int): (a: Activation)
    ensures a == NoActivation <==> strainScore <= 25 && severity <= 2
    ensures a == Partial <==> !(strainScore <= 25 && severity <= 2) && strainScore <= 55
    ensures a == Full <==> strainScore > 55
  {
    if strainScore <= 25 && severity <= 2 then NoActivation
    else if strainScore <= 55 then Partial
    else Full
  }

  function BaseTotal(a: Activation): (n: int)
    ensures a == NoActivation <==> n == 0
  {
    match a
    case NoActivation => 0
    case Partial => 12
    case Full => 24
  }

  /**
   * `recommend_eoc_and_staffing(strain_score, severity, staffing_factor)`.
   * `scaledFor(base)` stands for `int(round(base_total * staffing_factor))`.
   */
  function Recommend(strainScore: int, severity: int, scaledFor: int -> int): (r: (Activation, Staffing))
    ensures r.0 == ActivationFor(strainScore, severity)
    ensures r.0 == NoActivation ==> r.1 == Staffing(0, 0, 0, 0, 0, 0, 0)
    ensures r.0 != NoActivation ==>
              && r.1.total == Clamp(scaledFor(BaseTotal(r.0)), BaseTotal(r.0), 40)
              && BaseTotal(r.0) <= r.1.total <= 40
              && r.1.lno >= 0
              && r.1.ops + r.1.plans + r.1.log + r.1.finance + r.1.pio + r.1.lno >= r.1.total
  {
    var activation := ActivationFor(strainScore, severity);
    var base := BaseTotal(activation);
    if base == 0 then (activation, Staffing(0, 0, 0, 0, 0, 0, 0))
    else
      var scaled := Clamp(scaledFor(base), base, 40);
      var ops := RoundHalfEven(scaled * 38, 100);
      var plans := RoundHalfEven(scaled * 22, 100);
      var log := RoundHalfEven(scaled * 18, 100);
      var finance := RoundHalfEven(scaled * 12, 100);
      var pio := RoundHalfEven(scaled * 7, 100);
      var rest := scaled - (ops + plans + log + finance + pio);
      (activation, Staffing(scaled, ops, plans, log, finance, pio, if rest > 0 then rest else 0))
  }

  /** Each section gets its share of the total, rounded to the nearest head. */
  lemma SectionShares(strainScore: int, severity: int, scaledFor: int -> int)
    requires ActivationFor(strainScore, severity) != NoActivation
    ensures var s := Recommend(strainScore, severity, scaledFor).1;
            && 2 * 38 * s.total - 100 <= 200 * s.ops <= 2 * 38 * s.total + 100
            && 2 * 22 * s.total - 100 <= 200 * s.plans <= 2 * 22 * s.total + 100
            && 2 * 18 * s.total - 100 <= 200 * s.log <= 2 * 18 * s.total + 100
            && 2 * 12 * s.total - 100 <= 200 * s.finance <= 2 * 12 * s.total + 100
            && 2 * 7 * s.total - 100 <= 200 * s.pio <= 2 * 7 * s.total + 100
  {
  }

  // ---------------------------------------------------------------------------
  // Recommended actions
  // ---------------------------------------------------------------------------

  /** The lines `build_recommended_actions` can emit. */
  datatype Action = Confirm | ReviewAlerts | CoordinateRoads | AssessWater | Implement(recommendation: string) | Monitor

  /** Each line's wording. */
  function ActionText(a: Action): string {
    match a
    case Confirm => "Confirm current protective actions (evacuation/shelter posture) and publish a concise public update."
    case ReviewAlerts => "Review active NWS alerts and align messaging (timing, impacted areas, safety actions)."
    case CoordinateRoads => "Coordinate with roads/public works on closure impacts and access routes for response."
    case AssessWater => "Assess water system impacts/restrictions and identify critical facilities affected."
    case Implement(rec) =>
      "Implement " + rec + " and staff core sections (Ops/Plans/Log) for the next operational period."
    case Monitor => "Maintain monitoring posture; prepare escalation triggers if conditions worsen."
  }

  /** The closing line: implement the recommended activation, or keep monitoring. */
  function Posture(recommendation: string): (a: Action)
    ensures a == Monitor <==> recommendation == ActivationLabel(NoActivation)
    ensures a.Implement? || a == Monitor
  {
    if recommendation != ActivationLabel(NoActivation) then Implement(recommendation) else Monitor
  }

  /** The lines between the first and the last: one per active hazard layer, in the page's order. */
  function HazardActions(snap: Snapshot): (m: seq<Action>)
    ensures |m| <= 3
    ensures ReviewAlerts in m <==> |snap.nwsAlerts| > 0
    ensures CoordinateRoads in m <==> snap.roadClosures > 0
    ensures AssessWater in m <==> snap.waterShutoffs > 0 || snap.waterRestrictions > 0
    ensures forall a :: a in m ==> a == ReviewAlerts || a == CoordinateRoads || a == AssessWater
    ensures forall i, j :: 0 <= i < j < |m| ==> m[i] != m[j]
    ensures ReviewAlerts in m ==> m[0] == ReviewAlerts
    ensures AssessWater in m ==> m[|m| - 1] == AssessWater
  {
    var alerts := if |snap.nwsAlerts| > 0 then [ReviewAlerts] else [];
    var roads := if snap.roadClosures > 0 then [CoordinateRoads] else [];
    var water := if snap.waterShutoffs > 0 || snap.waterRestrictions > 0 then [AssessWater] else [];
    alerts + roads + water
  }

  /** `build_recommended_actions(s)`, one `Action` per line. */
  function RecommendedActions(snap: Snapshot, recommendation: string): (r: seq<Action>)
    ensures 2 <= |r| <= 5
    ensures r[0] == Confirm && r[|r| - 1] == Posture(recommendation)
    ensures ReviewAlerts in r <==> |snap.nwsAlerts| > 0
    ensures CoordinateRoads in r <==> snap.roadClosures > 0
    ensures AssessWater in r <==> snap.waterShutoffs > 0 || snap.waterRestrictions > 0
    ensures Monitor in r <==> recommendation == ActivationLabel(NoActivation)
    ensures forall i, j :: 0 <= i < j < |r| ==> r[i] != r[j]
    ensures r[1..|r| - 1] == HazardActions(snap)
  {
    var middle := HazardActions(snap);
    var last := Posture(recommendation);
    var actions := [Confirm] + middle + [last];
    BracketedDistinct(middle, last);
    BracketedMembers(middle, last);
    assert Take(actions, 6) == actions;
    assert actions[1..|actions| - 1] == middle;
    Take(actions, 6)
  }

  /** Between the first and the last line, the hazard lines are the ones present; `Monitor` only ever closes. */
  lemma BracketedMembers(middle: seq<Action>, last: Action)
    requires forall a :: a in middle ==> a == ReviewAlerts || a == CoordinateRoads || a == AssessWater
    requires last.Implement? || last == Monitor
    ensures var r := [Confirm] + middle + [last];
            && (ReviewAlerts in r <==> ReviewAlerts in middle)
            && (CoordinateRoads in r <==> CoordinateRoads in middle)
            && (AssessWater in r <==> AssessWater in middle)
            && (Monitor in r <==> last == Monitor)
  {
    var r := [Confirm] + middle + [last];
    assert forall a :: a in r <==> a == Confirm || a in middle || a == last;
  }

  /** The first and last lines differ from the hazard lines between them and from each other. */
  lemma BracketedDistinct(middle: seq<Action>, last: Action)
    requires forall a :: a in middle ==> a == ReviewAlerts || a == CoordinateRoads || a == AssessWater
    requires forall i, j :: 0 <= i < j < |middle| ==> middle[i] != middle[j]
    requires last.Implement? || last == Monitor
    ensures var r := [Confirm] + middle + [last];
            forall i, j :: 0 <= i < j < |r| ==> r[i] != r[j]
  {
    var r := [Confirm] + middle + [last];
    forall i, j | 0 <= i < j < |r|
      ensures r[i] != r[j]
    {
      if i > 0 {
        assert r[i] == middle[i - 1] && middle[i - 1] in middle;
      }
      if j == |r| - 1 {
        assert r[j] == last;
      } else {
        assert r[j] == middle[j - 1] && middle[j - 1] in middle;
      }
    }
  }
}
