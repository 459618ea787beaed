/**
 * The console scripts' re-prompt loops (`while True: ... input() ...`) and
 * their numbered-option pickers. Standard input is modelled as the sequence
 * of lines the user types; running out of lines (Python's `EOFError`) is the
 * `Exhausted` reply.
 */
module Prompt {
  import opened Wrappers
  import opened Text

  /** What a re-prompt loop ends with: the accepted value and how many lines it read. */
  datatype Reply<T> = Accepted(value: T, used: nat) | Exhausted

  /**
   * The first line that `accept` turns into a value; every line before it
   * was refused.
   */
  function FirstAccepted<T>(lines: seq<string>, accept: string -> Option<T>): (r: Reply<T>)
    ensures r.Accepted? ==>
              && 0 < r.used <= |lines|
              && accept(lines[r.used - 1]) == Some(r.value)
              && forall j :: 0 <= j < r.used - 1 ==> accept(lines[j]) == None
    ensures r.Exhausted? ==> forall j :: 0 <= j < |lines| ==> accept(lines[j]) == None
  {
    if lines == [] then Exhausted
    else match accept(lines[0])
      case Some(v) => Accepted(v, 1)
      case None =>
        match FirstAccepted(lines[1..], accept)
        case Accepted(v, n) => Accepted(v, n + 1)
        case Exhausted => Exhausted
  }

  /** The loop itself: read a line, stop at the first one accepted. */
  method ReadUntilAccepted<T>(lines: seq<string>, accept: string -> Option<T>) returns (r: Reply<T>)
    ensures r == FirstAccepted(lines, accept)
  {
    var i := 0;
    while i < |lines|
      invariant 0 <= i <= |lines|
      invariant forall j :: 0 <= j < i ==> accept(lines[j]) == None
    {
      var v := accept(lines[i]);
      if v.Some? {
        FirstAcceptedAt(lines, accept, i);
        return Accepted(v.value, i + 1);
      }
      i := i + 1;
    }
    FirstAcceptedNone(lines, accept);
    return Exhausted;
  }

  /** Refused lines up to an accepted one pin down the reply. */
  lemma {:induction false} FirstAcceptedAt<T>(lines: seq<string>, accept: string -> Option<T>, i: nat)
    requires i < |lines| && accept(lines[i]).Some?
    requires forall j :: 0 <= j < i ==> accept(lines[j]) == None
    ensures FirstAccepted(lines, accept) == Accepted(accept(lines[i]).value, i + 1)
  {
    if i > 0 {
      FirstAcceptedAt(lines[1..], accept, i - 1);
    }
  }

  lemma {:induction false} FirstAcceptedNone<T>(lines: seq<string>, accept: string -> Option<T>)
    requires forall j :: 0 <= j < |lines| ==> accept(lines[j]) == None
    ensures FirstAccepted(lines, accept) == Exhausted
  {
    if lines != [] {
      FirstAcceptedNone(lines[1..], accept);
    }
  }

  /**
   * Picking one of `options` by its 1-based number: the stripped line must
   * read as an integer `k` with `1 <= k <= |options|`; anything else is
   * refused. Shared by the dashboards' `choose_from_list` and
   * `show_options_and_get_choice`.
   */
  function Choose<T>(options: seq<T>, line: string): (r: Option<T>)
    ensures r.Some? <==> ParseInt(line).Some? && 1 <= ParseInt(line).value <= |options|
    ensures r.Some? ==> r.value == options[ParseInt(line).value - 1]
  {
    match ParseInt(line)
    case Some(k) => if 1 <= k <= |options| then Some(options[k - 1]) else None
    case None => None
  }

  /** Typing the number printed beside option `k` (spaces allowed) selects it. */
  lemma ChooseListedNumber<T>(options: seq<T>, k: nat, pad: string)
    requires 1 <= k <= |options|
    requires forall i :: 0 <= i < |pad| ==> IsSpace(pad[i])
    ensures Choose(options, pad + NatToString(k) + pad) == Some(options[k - 1])
  {
    ParseIntPadded(k, pad);
  }

  /**
   * A menu number: `int(line)` must succeed and land in `lo..hi`. The
   * dashboards' `show_menu` and `display_menu` loops accept by this.
   */
  function NumberBetween(line: string, lo: int, hi: int): (r: Option<int>)
    ensures r.Some? <==> ParseInt(line).Some? && lo <= ParseInt(line).value <= hi
    ensures r.Some? ==> r.value == ParseInt(line).value
  {
    match ParseInt(line)
    case Some(k) => if lo <= k <= hi then Some(k) else None
    case None => None
  }

  /** Typing a number of the range (spaces allowed) selects it. */
  lemma NumberBetweenListed(k: nat, lo: int, hi: int, pad: string)
    requires lo <= k <= hi
    requires forall i :: 0 <= i < |pad| ==> IsSpace(pad[i])
    ensures NumberBetween(pad + NatToString(k) + pad, lo, hi) == Some(k)
  {
    ParseIntPadded(k, pad);
  }

  /**
   * A re-prompting menu with `n` entries: the loop returns the first line
   * that is a number from 1 to `n`.
   */
  method ReadMenuChoice(lines: seq<string>, n: int) returns (r: Reply<int>)
    ensures r.Accepted? ==> 0 < r.used <= |lines| && 1 <= r.value <= n && ParseInt(lines[r.used - 1]) == Some(r.value)
    ensures r.Accepted? ==> forall j :: 0 <= j < r.used - 1 ==> NumberBetween(lines[j], 1, n).None?
    ensures r.Exhausted? <==> forall j :: 0 <= j < |lines| ==> NumberBetween(lines[j], 1, n).None?
  {
    r := ReadUntilAccepted(lines, l => NumberBetween(l, 1, n));
  }
}
