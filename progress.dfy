/**
 * The four versions of `determine_progress` in Lab6 (Ex3.py, Ex3b.py,
 * Ex3c.py and Ex3d.py): a player's hits and spins, as integers, give one of
 * four messages. Python's `hits / spins` is true division; here it is exact
 * division on `real`.
 */
module Progress {
  /** The four messages, in the order of the list in Ex3d.py. */
  const Messages: seq<string> := ["Get going!", "On your way!", "Almost there!", "You win!"]

  /** `hits / spins` */
  function Ratio(hits: int, spins: int): real
    requires spins != 0
  {
    hits as real / spins as real
  }

  /** `determine_progress1`: the nested ifs, each refining the message set by the one outside it. */
  function Progress1(hits: int, spins: int): (r: string)
    ensures r in Messages
    ensures spins == 0 ==> r == Messages[0]
    ensures spins != 0 && Ratio(hits, spins) <= 0.0 ==> r == Messages[0]
    ensures spins != 0 && 0.0 < Ratio(hits, spins) < 0.25 ==> r == Messages[1]
    ensures spins != 0 && Ratio(hits, spins) >= 0.25 && !(Ratio(hits, spins) >= 0.5 && hits < spins) ==> r == Messages[2]
    ensures spins != 0 && Ratio(hits, spins) >= 0.5 && hits < spins ==> r == Messages[3]
  {
    if spins == 0 then Messages[0]
    else
      var ratio := Ratio(hits, spins);
      if ratio > 0.0 then
        var progress := Messages[1];
        if ratio >= 0.25 then
          if ratio >= 0.5 && hits < spins then Messages[3] else Messages[2]
        else progress
      else Messages[0]
  }

  /** `determine_progress2`: early returns, the win test before the 0.25 test. */
  function Progress2(hits: int, spins: int): (r: string)
    ensures r in Messages
    ensures r == Messages[3] ==> spins != 0 && Ratio(hits, spins) >= 0.5 && hits < spins
  {
    if spins == 0 then Messages[0]
    else
      var ratio := Ratio(hits, spins);
      if ratio <= 0.0 then Messages[0]
      else if ratio >= 0.5 && hits < spins then Messages[3]
      else if ratio >= 0.25 then Messages[2]
      else Messages[1]
  }

  /** `determine_progress3`: one if/elif chain; the `or` tests `spins == 0` before it divides. */
  function Progress3(hits: int, spins: int): (r: string)
    ensures r in Messages
    ensures r == Messages[3] ==> spins != 0 && Ratio(hits, spins) >= 0.5 && hits < spins
  {
    if spins == 0 || Ratio(hits, spins) <= 0.0 then Messages[0]
    else if Ratio(hits, spins) >= 0.5 && hits < spins then Messages[3]
    else if Ratio(hits, spins) >= 0.25 then Messages[2]
    else Messages[1]
  }

  /** A float that may be `float("-inf")`. */
  datatype Extended = NegInfinity | Finite(x: real)

  /** `ratio >= c` */
  predicate AtLeast(e: Extended, c: real) {
    e.Finite? && e.x >= c
  }

  /** `ratio <= c` */
  predicate AtMost(e: Extended, c: real) {
    e.NegInfinity? || e.x <= c
  }

  /** `int(b)` for a `bool` used in arithmetic. */
  function BoolToInt(b: bool): (n: nat)
    ensures n <= 1 && (n == 1 <==> b)
  {
    if b then 1 else 0
  }

  /** The list index that `determine_progress_no_if` computes from its three flags. */
  function NoIfIndex(hits: int, spins: int): (i: nat)
    ensures i <= 3
    ensures spins == 0 ==> i == 0
  {
    var ratio := if spins != 0 then Finite(Ratio(hits, spins)) else NegInfinity;
    var g0 := spins == 0 || AtMost(ratio, 0.0);
    var win := AtLeast(ratio, 0.5) && hits < spins;
    var almost := AtLeast(ratio, 0.25);
    BoolToInt(!g0) + BoolToInt(!g0 && almost) + BoolToInt(!g0 && win)
  }

  /** `determine_progress_no_if`: the message at the computed index, which is always in range. */
  function ProgressNoIf(hits: int, spins: int): (r: string)
    ensures r in Messages
  {
    Messages[NoIfIndex(hits, spins)]
  }

  /** A win always clears the 0.25 bar, so the index of a win is 3 and never 2 + 0. */
  lemma WinIsIndexThree(hits: int, spins: int)
    requires spins != 0 && Ratio(hits, spins) >= 0.5 && hits < spins
    ensures NoIfIndex(hits, spins) == 3
  {
  }

  /** The early-return version gives what the nested-if version gives, for all integers. */
  lemma SecondIsFirst(hits: int, spins: int)
    ensures Progress2(hits, spins) == Progress1(hits, spins)
  {
  }

  /** The if/elif chain gives what the early-return version gives. */
  lemma ThirdIsSecond(hits: int, spins: int)
    ensures Progress3(hits, spins) == Progress2(hits, spins)
  {
  }

  /** The branch-free version gives what the early-return version gives. */
  lemma NoIfIsSecond(hits: int, spins: int)
    ensures ProgressNoIf(hits, spins) == Progress2(hits, spins)
  {
  }

  /** `hits / spins >= c` for a positive spin count, without division. */
  lemma RatioAtLeast(hits: int, spins: int, c: real)
    requires spins > 0
    ensures Ratio(hits, spins) >= c <==> hits as real >= c * spins as real
  {
    var q := Ratio(hits, spins);
    assert q * spins as real == hits as real;
  }

  /**
   * With a positive spin count the messages are integer thresholds: no
   * hits, fewer than a quarter, a win from half up to one short of the
   * spins, and "Almost there!" otherwise, including a hit on every spin
   * or more.
   */
  lemma ByCounts(hits: int, spins: int)
    requires spins > 0
    ensures Progress1(hits, spins) ==
              if hits <= 0 then Messages[0]
              else if 2 * hits >= spins && hits < spins then Messages[3]
              else if 4 * hits >= spins then Messages[2]
              else Messages[1]
  {
    RatioAtLeast(hits, spins, 0.25);
    RatioAtLeast(hits, spins, 0.5);
    var q := Ratio(hits, spins);
    assert q * spins as real == hits as real;
  }

  /**
   * The values `determine_progress1` returns for the nine calls that
   * `test_determine_progress` asserts on: the cases at (0, 0), (1, 3),
   * (2, 3), (3, 4) and (0, 3) agree with their asserts, while (1, 4) gives
   * "Almost there!", (2, 4) "You win!", and (3, 3) and (4, 3) "Almost there!".
   */
  lemma TestVectors()
    ensures Progress1(0, 0) == Messages[0]
    ensures Progress1(1, 3) == Messages[2]
    ensures Progress1(2, 3) == Messages[3]
    ensures Progress1(3, 4) == Messages[3]
    ensures Progress1(0, 3) == Messages[0]
    ensures Progress1(1, 4) == Messages[2]
    ensures Progress1(2, 4) == Messages[3]
    ensures Progress1(3, 3) == Messages[2]
    ensures Progress1(4, 3) == Messages[2]
  {
    ByCounts(1, 3);
    ByCounts(2, 3);
    ByCounts(3, 4);
    ByCounts(0, 3);
    ByCounts(1, 4);
    ByCounts(2, 4);
    ByCounts(3, 3);
    ByCounts(4, 3);
  }
}
