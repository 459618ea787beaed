/**
 * The timed Flask quiz of A3/app.py. The cookie session is an `A3Session`
 * object, the question file is a parameter, the clock is an integer number
 * of seconds and `random.shuffle` is an arbitrary permutation passed in.
 */
module A3Quiz {
  import opened Wrappers
  import opened Shuffling

  /** `QUIZ_TIME_LIMIT_SECONDS` */
  const TimeLimit: int := 60

  /** A question of `questions.json`. */
  datatype Item = Item(question: string, options: seq<string>, correct: string)

  /**
   * An outcome of shuffling the questions and then each question's
   * options: a permutation of the questions and a reordering of each one's
   * options.
   */
  predicate ShuffleFits(items: seq<Item>, order: seq<nat>, optionOrders: seq<seq<string>>) {
    && IsPermutation(order, |items|)
    && |optionOrders| == |items|
    && forall i :: 0 <= i < |items| ==> multiset(optionOrders[i]) == multiset(items[order[i]].options)
  }

  /** The shuffled question list. */
  function Shuffled(items: seq<Item>, order: seq<nat>, optionOrders: seq<seq<string>>): (r: seq<Item>)
    requires ShuffleFits(items, order, optionOrders)
    ensures |r| == |items|
    ensures forall i :: 0 <= i < |r| ==> r[i].question == items[order[i]].question && r[i].correct == items[order[i]].correct
    ensures forall i :: 0 <= i < |r| ==> multiset(r[i].options) == multiset(items[order[i]].options)
  {
    var moved := Permute(items, order);
    seq(|items|, i requires 0 <= i < |items| => moved[i].(options := optionOrders[i]))
  }

  /**
   * `get_time_left()`: the seconds left of the limit, negative once it is
   * exceeded, and 0 when there is no start time.
   */
  function TimeLeft(startTime: Option<int>, now: int): (r: int)
    ensures startTime.None? ==> r == 0
    ensures startTime.Some? ==> r + (now - startTime.value) == TimeLimit
  {
    match startTime
    case None => 0
    case Some(t) => TimeLimit - (now - t)
  }

  /** A quiz that was never started counts as timed out. */
  lemma NoStartIsTimeUp(now: int)
    ensures TimeLeft(None, now) <= 0
  {
  }

  /** Where a request to `/quiz` ends. */
  datatype Page =
    | ToResult(timedOut: bool)
    | Message(body: string)
    | ShowQuestion(item: Item, number: nat, total: nat, score: int, timeLeft: int, feedback: Option<Feedback>)
    | ServerError

  /** `"Correct!"` or the wrong-answer line naming the answer. */
  datatype Feedback = Correct | Wrong(correctAnswer: string)

  /** The message of an empty question list. */
  const NoQuestionsText: string := "No questions available."

  class A3Session {
    var questions: seq<Item>
    var currentIndex: int
    var score: int
    var startTime: Option<int>

    /** What the handlers keep: the index stays within the list and the score below the index. */
    ghost predicate Valid()
      reads this
    {
      0 <= score <= currentIndex <= |questions|
    }

    /** An empty cookie: every `session.get` falls back to its default. */
    constructor ()
      ensures Valid()
      ensures questions == [] && currentIndex == 0 && score == 0 && startTime == None
    {
      questions := [];
      currentIndex := 0;
      score := 0;
      startTime := None;
    }

    /** `setup_quiz()` at time `now`, on the loaded `bank`; reached through `start()`. */
    method SetupQuiz(bank: seq<Item>, order: seq<nat>, optionOrders: seq<seq<string>>, now: int)
      requires ShuffleFits(bank, order, optionOrders)
      modifies this
      ensures Valid()
      ensures questions == Shuffled(bank, order, optionOrders)
      ensures currentIndex == 0 && score == 0 && startTime == Some(now)
    {
      questions := Shuffled(bank, order, optionOrders);
      currentIndex := 0;
      score := 0;
      startTime := Some(now);
    }

    /**
     * A request to `/quiz` at time `now`; `selected` is the posted answer
     * field (`None` when absent; an empty answer still counts as one).
     */
    method Quiz(post: bool, selected: Option<string>, now: int) returns (page: Page)
      requires Valid()
      modifies this
      ensures Valid()
      ensures questions == old(questions) && startTime == old(startTime)
      ensures TimeLeft(startTime, now) <= 0 ==> page == ToResult(true)
      ensures TimeLeft(startTime, now) > 0 && questions == [] ==> page == Message(NoQuestionsText)
      ensures var answering := TimeLeft(startTime, now) > 0 && questions != [] && post && selected.Some?;
              && (!answering ==> currentIndex == old(currentIndex) && score == old(score))
              && (answering && old(currentIndex) >= |questions| ==>
                    page == ServerError && currentIndex == old(currentIndex) && score == old(score))
              && (answering && old(currentIndex) < |questions| ==>
                    && currentIndex == old(currentIndex) + 1
                    && score == old(score) + (if selected.value == questions[old(currentIndex)].correct then 1 else 0))
      ensures TimeLeft(startTime, now) > 0 && questions != [] && !(post && selected.Some? && old(currentIndex) >= |questions|) ==>
                page == if currentIndex >= |questions| then ToResult(false)
                        else ShowQuestion(questions[currentIndex], currentIndex + 1, |questions|, score, TimeLeft(startTime, now),
                                          if post && selected.Some? then Some(FeedbackFor(questions[old(currentIndex)], selected.value)) else None)
    {
      var timeLeft := TimeLeft(startTime, now);
      if timeLeft <= 0 {
        return ToResult(true);
      }
      var total := |questions|;
      if total == 0 {
        return Message(NoQuestionsText);
      }
      var feedback: Option<Feedback> := None;
      if post && selected.Some? {
        if currentIndex >= total {
          return ServerError;
        }
        var current := questions[currentIndex];
        if selected.value == current.correct {
          score := score + 1;
        }
        feedback := Some(FeedbackFor(current, selected.value));
        currentIndex := currentIndex + 1;
        if currentIndex >= total {
          return ToResult(false);
        }
      }
      if currentIndex >= total {
        return ToResult(false);
      }
      page := ShowQuestion(questions[currentIndex], currentIndex + 1, total, score, timeLeft, feedback);
    }
  }

  /** The feedback line for an answer. */
  function FeedbackFor(q: Item, selected: string): (f: Feedback)
    ensures f == Correct <==> selected == q.correct
    ensures f.Wrong? ==> f.correctAnswer == q.correct
  {
    if selected == q.correct then Correct else Wrong(q.correct)
  }

  /** How many of `answers` match the correct answer of the question at the same position. */
  function ScoreOf(items: seq<Item>, answers: seq<string>): (n: nat)
    requires |answers| <= |items|
    ensures n <= |answers|
  {
    if answers == [] then 0
    else ScoreOf(items, answers[..|answers| - 1]) + (if answers[|answers| - 1] == items[|answers| - 1].correct then 1 else 0)
  }

  /** A run of `k` in-time answers from a fresh session: the index is `k` and the score counts the right ones. */
  method PlayInTime(bank: seq<Item>, order: seq<nat>, optionOrders: seq<seq<string>>, start: int, answers: seq<string>)
    returns (s: A3Session)
    requires ShuffleFits(bank, order, optionOrders)
    requires |answers| <= |bank|
    ensures s.questions == Shuffled(bank, order, optionOrders)
    ensures s.currentIndex == |answers|
    ensures s.score == ScoreOf(s.questions, answers)
  {
    s := new A3Session();
    s.SetupQuiz(bank, order, optionOrders, start);
    var k := 0;
    while k < |answers|
      invariant 0 <= k <= |answers|
      invariant s.Valid() && s.questions == Shuffled(bank, order, optionOrders) && s.startTime == Some(start)
      invariant s.currentIndex == k && s.score == ScoreOf(s.questions, answers[..k])
    {
      assert answers[..k + 1][..k] == answers[..k];
      var page := s.Quiz(true, Some(answers[k]), start);
      k := k + 1;
    }
    assert answers[..k] == answers;
  }
}
