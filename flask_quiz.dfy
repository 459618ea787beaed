/**
 * The five-question Flask quiz of Flasktemplate/Ex3.py. The cookie session
 * is a `GameSession` object (a missing key is `None`, or the default that
 * `session.get` supplies), and `random.shuffle` is an arbitrary permutation
 * passed in. By the bank's rule the first listed option of each question
 * is its answer; the options are shuffled only for display.
 */
module FlaskQuiz {
  import opened Wrappers
  import opened Text
  import opened Shuffling

  /** One question of the bank. */
  datatype Item = Item(prompt: string, options: seq<string>)

  /** `QUESTIONS` */
  const Bank: seq<Item> := [
    Item("What is the airspeed of an unladen swallow (mph)?", ["12", "8", "11", "15"]),
    Item("What is the capital of Texas?", ["Austin", "San Antonio", "Dallas", "Waco"]),
    Item("The Last Supper was painted by which artist?", ["Da Vinci", "Rembrandt", "Picasso", "Michelangelo"]),
    Item("Which classic novel opens with 'Call me Ishmael'?",
         ["Moby Dick", "Wuthering Heights", "The Old Man and the Sea", "The Scarlet Letter"]),
    Item("Frank Lloyd Wright’s waterfall house is called…", ["Fallingwater", "Mossyledge", "Taliesin", "Watering Heights"])]

  /** The number of questions in `QUESTIONS`. */
  const QuestionCount: nat := 5

  /** Every question offers four options. */
  lemma BankShape()
    ensures |Bank| == QuestionCount
    ensures forall k :: 0 <= k < |Bank| ==> |Bank[k].options| == 4
  {
  }

  /**
   * No answer has whitespace at either end, so the `strip()` that
   * `answer()` applies to the posted choice leaves a posted answer as it is.
   */
  lemma AnswersUnpadded()
    ensures forall k :: 0 <= k < |Bank| ==>
              var a := Bank[k].options[0]; a != [] && !IsSpace(a[0]) && !IsSpace(a[|a| - 1])
  {
  }

  /** An outcome of `random.shuffle` on a copy of `options`: the same options, reordered. */
  predicate IsShuffleOf(opts: seq<string>, options: seq<string>) {
    multiset(opts) == multiset(options)
  }

  /** A shuffle shows every option of the question, and only those, so the answer is always offered. */
  lemma AnswerShown(opts: seq<string>, options: seq<string>)
    requires |options| > 0 && IsShuffleOf(opts, options)
    ensures options[0] in opts
    ensures forall o :: o in opts <==> o in options
  {
    assert forall o :: o in opts <==> o in multiset(opts);
    assert forall o :: o in options <==> o in multiset(options);
  }

  /** Where a request ends. */
  datatype Page =
    | ToIndex
    | ToQuestion
    | ToResults
    | Home(inProgress: bool)
    | ShowQuestion(prompt: string, options: seq<string>, number: int, total: int)
    | ShowResults(score: int, total: int)

  /** `request.form.get("choice", "").strip()` */
  function PostedChoice(choiceField: Option<string>): string {
    Strip(choiceField.GetOr(""))
  }

  class GameSession {
    var order: Option<seq<nat>>
    var qIdx: int
    var score: int
    var total: int
    var correctText: Option<string>
    var shownOptions: seq<string>

    /**
     * What the handlers keep: a started game has a permutation of the five
     * questions and a total of five, and the score never passes the number
     * of answers counted.
     */
    ghost predicate Valid()
      reads this
    {
      && (order.Some? ==> IsPermutation(order.value, QuestionCount) && total == QuestionCount)
      && 0 <= score <= qIdx
    }

    /** An empty cookie. */
    constructor ()
      ensures Valid()
      ensures order == None && qIdx == 0 && score == 0 && total == 0 && correctText == None && shownOptions == []
    {
      order := None;
      qIdx := 0;
      score := 0;
      total := 0;
      correctText := None;
      shownOptions := [];
    }

    /** `in_progress` on the landing page: a game exists and has questions left. */
    predicate InProgress()
      reads this
    {
      order.Some? && qIdx < total
    }

    /** `index()` */
    method Index() returns (page: Page)
      ensures page == Home(InProgress())
    {
      page := Home(order.Some? && qIdx < total);
    }

    /** `new_game()`, with `perm` the outcome of `random.shuffle(order)`; reached through `start()`. */
    method NewGame(perm: seq<nat>) returns (page: Page)
      requires Valid() && IsPermutation(perm, QuestionCount)
      modifies this
      ensures Valid()
      ensures order == Some(perm) && qIdx == 0 && score == 0 && total == 5
      ensures correctText == old(correctText) && shownOptions == old(shownOptions)
      ensures InProgress() && page == ToQuestion
    {
      order := Some(perm);
      qIdx := 0;
      score := 0;
      total := |perm|;
      page := ToQuestion;
    }

    /** `question()`, with `opts` the outcome of `random.shuffle(opts)`. */
    method Question(opts: seq<string>) returns (page: Page)
      requires Valid()
      requires InProgress() ==> IsShuffleOf(opts, Bank[order.value[qIdx]].options)
      modifies this
      ensures Valid()
      ensures order == old(order) && qIdx == old(qIdx) && score == old(score) && total == old(total)
      ensures old(order).None? ==> page == ToIndex && correctText == old(correctText) && shownOptions == old(shownOptions)
      ensures old(order).Some? && qIdx >= total ==> page == ToResults && correctText == old(correctText) && shownOptions == old(shownOptions)
      ensures old(InProgress()) ==>
                var q := Bank[order.value[qIdx]];
                && correctText == Some(q.options[0])
                && shownOptions == opts
                && page == ShowQuestion(q.prompt, shownOptions, qIdx + 1, total)
    {
      if order.None? {
        return ToIndex;
      }
      if qIdx >= total {
        return ToResults;
      }
      BankShape();
      var q := Bank[order.value[qIdx]];
      correctText := Some(q.options[0]);
      shownOptions := opts;
      page := ShowQuestion(q.prompt, opts, qIdx + 1, total);
    }

    /**
     * `answer()`, with `choice` the posted field as `PostedChoice` reads it:
     * a choice that was not shown changes nothing; otherwise the question
     * is counted, and scored when it is the answer. Nothing checks that
     * questions are left.
     */
    method Answer(choice: string) returns (page: Page)
      requires Valid()
      modifies this
      ensures Valid()
      ensures order == old(order) && total == old(total) && correctText == old(correctText) && shownOptions == old(shownOptions)
      ensures order.None? || correctText.None? ==> page == ToIndex && qIdx == old(qIdx) && score == old(score)
      ensures order.Some? && correctText.Some? ==> page == ToQuestion
      ensures order.Some? && correctText.Some? && choice !in shownOptions ==>
                qIdx == old(qIdx) && score == old(score)
      ensures order.Some? && correctText.Some? && choice in shownOptions ==>
                && qIdx == old(qIdx) + 1
                && score == old(score) + (if choice == correctText.value then 1 else 0)
    {
      if order.None? || correctText.None? {
        return ToIndex;
      }
      if choice !in shownOptions {
        return ToQuestion;
      }
      if choice == correctText.value {
        score := score + 1;
      }
      qIdx := qIdx + 1;
      page := ToQuestion;
    }

    /** `results()` */
    method Results() returns (page: Page)
      ensures order.None? ==> page == ToIndex
      ensures order.Some? ==> page == ShowResults(score, total)
    {
      if order.None? {
        return ToIndex;
      }
      page := ShowResults(score, total);
    }

    /** `reset()`: `session.clear()`. */
    method Reset() returns (page: Page)
      modifies this
      ensures Valid() && !InProgress()
      ensures order == None && qIdx == 0 && score == 0 && total == 0 && correctText == None && shownOptions == []
      ensures page == ToIndex
    {
      order := None;
      qIdx := 0;
      score := 0;
      total := 0;
      correctText := None;
      shownOptions := [];
      page := ToIndex;
    }
  }

  /**
   * Answering every question right and then posting the last answer once
   * more: `answer()` does not check that questions are left, so the index
   * and the score both end one past the total.
   */
  method ReplayPastTotal(perm: seq<nat>) returns (s: GameSession)
    requires IsPermutation(perm, QuestionCount)
    ensures s.qIdx == s.total + 1 && s.score == s.total + 1 && !s.InProgress()
  {
    s := new GameSession();
    var page := s.NewGame(perm);
    var k := 0;
    while k < 5
      invariant 0 <= k <= 5
      invariant s.Valid() && s.order == Some(perm) && s.total == 5 && s.qIdx == k && s.score == k
      invariant k > 0 ==> s.correctText.Some? && s.correctText.value in s.shownOptions
      invariant k > 0 ==> Strip(s.correctText.value) == s.correctText.value
    {
      page := ShowAndAnswer(s, perm);
      k := k + 1;
    }
    page := s.Question([]);
    page := s.Answer(PostedChoice(s.correctText));
  }

  /** One question shown in listed order and answered right. */
  method ShowAndAnswer(s: GameSession, perm: seq<nat>) returns (page: Page)
    requires s.Valid() && s.order == Some(perm) && s.InProgress()
    modifies s
    ensures s.Valid() && s.order == old(s.order) && s.total == old(s.total)
    ensures s.qIdx == old(s.qIdx) + 1 && s.score == old(s.score) + 1
    ensures s.correctText.Some? && s.correctText.value in s.shownOptions
    ensures Strip(s.correctText.value) == s.correctText.value
  {
    BankShape();
    var q := Bank[perm[s.qIdx]];
    page := s.Question(q.options);
    AnswerShown(q.options, q.options);
    AnswersUnpadded();
    StripUnchanged(q.options[0]);
    page := s.Answer(PostedChoice(s.correctText));
  }
}
