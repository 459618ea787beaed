/**
 * The console quiz of A1/Quiz7.py: the questions are asked once each in a
 * shuffled order, with their options shuffled for display; a question is
 * asked again until the player types the number of its correct answer.
 * Standard input is the sequence of lines typed, and both shuffles are
 * passed in.
 */
module CliQuiz {
  import opened Wrappers
  import opened Text
  import opened Prompt
  import opened Shuffling

  /** `questions.items()`: each question with its options, the correct one first. */
  const Bank: seq<(string, seq<string>)> := [
    ("What is the airspeed of an unladen swallow in miles/hr", ["12", "8", "11", "15"]),
    ("What is the capital of Texas", ["Austin", "San Antonio", "Dallas", "Waco"]),
    ("The Last Supper was painted by which artist", ["Da Vinci", "Rembrandt", "Picasso", "Michelangelo"]),
    ("Which classic novel opens with the line 'Call Me Ishmael'?",
     ["Moby Dick", "Wuthering Heights", "The Old Man and the Sea", "The Scarlet Letter"]),
    ("Frank Lloyd Wright designed a house that included a waterfall. What is the name of this house?",
     ["Fallingwater", "Watering Heights", "Mossyledge", "Taliesin"])]

  /** One question as it is asked: its text, the answer captured before the shuffle, and the options shown. */
  datatype Round = Round(question: string, correct: string, shown: seq<string>)

  /**
   * The rounds of a game: the bank in the shuffled order `order`, each
   * question's options displayed as `shown[i]`, a reordering of them.
   */
  function Rounds(order: seq<nat>, shown: seq<seq<string>>): (r: seq<Round>)
    requires IsPermutation(order, |Bank|) && |shown| == |Bank|
    requires forall i :: 0 <= i < |Bank| ==> multiset(shown[i]) == multiset(Bank[order[i]].1)
    ensures |r| == |Bank|
    ensures forall i :: 0 <= i < |r| ==>
              && r[i].question == Bank[order[i]].0
              && r[i].correct == Bank[order[i]].1[0]
              && r[i].shown == shown[i]
  {
    BankShape();
    var list := Permute(Bank, order);
    seq(|Bank|, i requires 0 <= i < |Bank| => Round(list[i].0, list[i].1[0], shown[i]))
  }

  /** Every question has four options, so "Pick 1-4" indexes an option. */
  lemma BankShape()
    ensures |Bank| == 5
    ensures forall k :: 0 <= k < |Bank| ==> |Bank[k].1| == 4
  {
  }

  /**
   * A reply that ends the round: an all-digit line (no spaces) with value
   * 1 to 4 picking the correct answer. A wrong pick prompts again, as does
   * anything else.
   */
  function Pick(line: string, round: Round): (r: Option<nat>)
    ensures r.Some? <==>
              && IsDigitString(line) && 1 <= DigitsValue(line) <= 4
              && DigitsValue(line) <= |round.shown| && round.shown[DigitsValue(line) - 1] == round.correct
    ensures r.Some? ==> r.value == DigitsValue(line)
  {
    if IsDigitString(line) && 1 <= DigitsValue(line) <= 4
       && DigitsValue(line) <= |round.shown| && round.shown[DigitsValue(line) - 1] == round.correct
    then Some(DigitsValue(line))
    else None
  }

  /** The reply test of one round's `while True` loop. */
  function AcceptFor(round: Round): string -> Option<nat> {
    line => Pick(line, round)
  }

  /**
   * One round's `while True` loop, reading from line `pos`: the first line
   * that ends the round and how many lines were read up to it.
   */
  function Attempt(round: Round, lines: seq<string>, pos: nat): (r: Reply<nat>)
    requires pos <= |lines|
    ensures r.Accepted? ==>
              && 0 < r.used <= |lines| - pos
              && Pick(lines[pos + r.used - 1], round) == Some(r.value)
    decreases |lines| - pos
  {
    if pos == |lines| then Exhausted
    else match Pick(lines[pos], round)
      case Some(v) => Accepted(v, 1)
      case None =>
        match Attempt(round, lines, pos + 1)
        case Accepted(v, n) => Accepted(v, n + 1)
        case Exhausted => Exhausted
  }

  /** A round is the shared re-prompt loop with `Pick` as its test, run on the unread lines. */
  lemma {:induction false} AttemptIsFirstAccepted(round: Round, lines: seq<string>, pos: nat)
    requires pos <= |lines|
    ensures Attempt(round, lines, pos) == FirstAccepted(lines[pos..], AcceptFor(round))
    decreases |lines| - pos
  {
    if pos < |lines| {
      var rest := lines[pos..];
      assert rest[0] == lines[pos] && rest[1..] == lines[pos + 1..];
      AttemptIsFirstAccepted(round, lines, pos + 1);
    }
  }

  /**
   * A round ends at the first line that picks the correct answer, after
   * refusing every line before it; when no line does, input runs out.
   */
  lemma {:induction false} AttemptFirst(round: Round, lines: seq<string>, pos: nat)
    requires pos <= |lines|
    ensures var r := Attempt(round, lines, pos);
            && (r.Accepted? ==> forall j :: pos <= j < pos + r.used - 1 ==> Pick(lines[j], round).None?)
            && (r.Exhausted? <==> forall j :: pos <= j < |lines| ==> Pick(lines[j], round).None?)
    decreases |lines| - pos
  {
    if pos < |lines| {
      AttemptFirst(round, lines, pos + 1);
    }
  }

  /** The `while True` loop of one round. */
  method AskRound(round: Round, lines: seq<string>, pos: nat) returns (reply: Reply<nat>)
    requires pos <= |lines|
    ensures reply == Attempt(round, lines, pos)
  {
    reply := ReadUntilAccepted(lines[pos..], AcceptFor(round));
    AttemptIsFirstAccepted(round, lines, pos);
  }

  /**
   * The game from round `k` and line `pos` on: how many rounds end (each
   * scores one point) and where reading stops. Input that runs out ends
   * the game.
   */
  function Play(rounds: seq<Round>, k: nat, lines: seq<string>, pos: nat): (r: (nat, nat))
    requires k <= |rounds| && pos <= |lines|
    ensures r.0 <= |rounds| - k
    ensures pos <= r.1 <= |lines|
    decreases |rounds| - k
  {
    if k == |rounds| then (0, pos)
    else match Attempt(rounds[k], lines, pos)
      case Exhausted => (0, |lines|)
      case Accepted(_, n) =>
        var rest := Play(rounds, k + 1, lines, pos + n);
        (rest.0 + 1, rest.1)
  }

  /** The script: the `for` over the rounds, the re-prompt loop of each, and the running score. */
  method RunQuiz(rounds: seq<Round>, lines: seq<string>) returns (score: nat, pos: nat, finished: bool)
    ensures (score, pos) == Play(rounds, 0, lines, 0)
    ensures finished <==> score == |rounds|
  {
    score := 0;
    pos := 0;
    var k := 0;
    while k < |rounds|
      invariant 0 <= k <= |rounds| && pos <= |lines|
      invariant score == k
      invariant Play(rounds, 0, lines, 0).0 == k + Play(rounds, k, lines, pos).0
      invariant Play(rounds, 0, lines, 0).1 == Play(rounds, k, lines, pos).1
    {
      var reply := AskRound(rounds[k], lines, pos);
      PlayStep(rounds, k, lines, pos);
      if reply.Exhausted? {
        return score, |lines|, false;
      }
      score := score + 1;
      pos := pos + reply.used;
      k := k + 1;
    }
    finished := true;
  }

  /** The answer is always among the options shown, so every round can be won. */
  lemma CorrectShown(order: seq<nat>, shown: seq<seq<string>>, i: nat)
    requires IsPermutation(order, |Bank|) && |shown| == |Bank|
    requires forall j :: 0 <= j < |Bank| ==> multiset(shown[j]) == multiset(Bank[order[j]].1)
    requires i < |Bank|
    ensures Rounds(order, shown)[i].correct in Rounds(order, shown)[i].shown
  {
    BankShape();
    var opts := Bank[order[i]].1;
    assert opts[0] in multiset(opts);
  }

  /** Typing the number of the correct answer ends the round. */
  lemma CorrectNumberEnds(round: Round, k: nat)
    requires k < 4 && k < |round.shown| && round.shown[k] == round.correct
    ensures Pick(NatToString(k + 1), round) == Some(k + 1)
  {
    NatToStringValue(k + 1);
  }

  /** One round of `Play`: it ends the game or hands on to the next round. */
  lemma PlayStep(rounds: seq<Round>, k: nat, lines: seq<string>, pos: nat)
    requires k < |rounds| && pos <= |lines|
    ensures Attempt(rounds[k], lines, pos).Exhausted? ==> Play(rounds, k, lines, pos) == (0, |lines|)
    ensures Attempt(rounds[k], lines, pos).Accepted? ==>
              var next := Play(rounds, k + 1, lines, pos + Attempt(rounds[k], lines, pos).used);
              Play(rounds, k, lines, pos) == (next.0 + 1, next.1)
  {
  }

  /**
   * When every round's first reply is its correct number, the game ends
   * after one line per round with the full score.
   */
  lemma {:induction false} PlayAllRight(rounds: seq<Round>, k: nat, lines: seq<string>, pos: nat)
    requires k <= |rounds| && pos + (|rounds| - k) <= |lines|
    requires forall i :: k <= i < |rounds| ==> Pick(lines[pos + (i - k)], rounds[i]).Some?
    ensures Play(rounds, k, lines, pos) == (|rounds| - k, pos + (|rounds| - k))
    decreases |rounds| - k
  {
    if k < |rounds| {
      PlayAllRight(rounds, k + 1, lines, pos + 1);
    }
  }

  /** A line that does not end a round is read, not scored: the rest of the game is the same. */
  lemma WrongReplyRepeats(rounds: seq<Round>, k: nat, lines: seq<string>, pos: nat)
    requires k < |rounds| && pos < |lines| && Pick(lines[pos], rounds[k]).None?
    ensures Play(rounds, k, lines, pos) == Play(rounds, k, lines, pos + 1)
  {
  }
}
