/**
 * The timed trivia quiz of quiz_web_app/app.py. The Flask cookie session is
 * a `QuizSession` object whose fields the route handlers update; the
 * question bank and the score file are parameters, the clock is an integer
 * number of seconds, and `random.shuffle` is an arbitrary permutation
 * passed in. Scores are counted in half-points, so the 0.5 hint penalty
 * stays exact: a point is 2, a hinted point 1.
 */
module QuizWeb {
  import opened Wrappers
  import opened Text
  import opened Shuffling
  import opened Ranking

  /** `QUIZ_TIME_LIMIT_SECONDS` */
  const TimeLimit: int := 60

  /** `MAX_HINTS_PER_QUIZ` */
  const MaxHints: int := 1

  /** One entry of the question bank; the optional keys may be missing. */
  datatype Question = Question(
    text: string,
    options: seq<string>,
    correct: string,
    difficulty: Option<string>,
    category: Option<string>,
    hint: Option<string>,
    explanation: Option<string>)

  /** Python truthiness of an optional string. */
  predicate Truthy(x: Option<string>) {
    x.Some? && x.value != ""
  }

  // ---------------------------------------------------------------------------
  // filter_questions
  // ---------------------------------------------------------------------------

  /** A question passes both filters; a falsy filter lets everything through. */
  predicate Keeps(q: Question, difficulty: Option<string>, category: Option<string>) {
    (!Truthy(difficulty) || q.difficulty == difficulty) && (!Truthy(category) || q.category == category)
  }

  /** The questions that pass the filters, in bank order. */
  function Matching(bank: seq<Question>, difficulty: Option<string>, category: Option<string>): (r: seq<Question>)
    ensures forall q :: q in r <==> q in bank && Keeps(q, difficulty, category)
    ensures |r| <= |bank|
  {
    if bank == [] then []
    else
      var last := bank[|bank| - 1];
      var front := Matching(bank[..|bank| - 1], difficulty, category);
      assert forall q :: q in bank <==> q in bank[..|bank| - 1] || q == last by {
        assert bank == bank[..|bank| - 1] + [last];
      }
      if Keeps(last, difficulty, category) then front + [last] else front
  }

  /** Filtering keeps bank order: it distributes over concatenation. */
  lemma {:induction false} MatchingAppend(a: seq<Question>, b: seq<Question>, difficulty: Option<string>, category: Option<string>)
    ensures Matching(a + b, difficulty, category) == Matching(a, difficulty, category) + Matching(b, difficulty, category)
    decreases |b|
  {
    if b == [] {
      assert a + b == a;
    } else {
      var b' := b[..|b| - 1];
      assert (a + b)[..|a + b| - 1] == a + b';
      assert (a + b)[|a + b| - 1] == b[|b| - 1];
      MatchingAppend(a, b', difficulty, category);
    }
  }

  /** What `filter_questions` returns: the matching questions, or the whole bank when none match. */
  function Filtered(bank: seq<Question>, difficulty: Option<string>, category: Option<string>): (r: seq<Question>)
    ensures r == bank || (r != [] && forall q :: q in r ==> Keeps(q, difficulty, category))
    ensures (exists q :: q in bank && Keeps(q, difficulty, category)) ==> r == Matching(bank, difficulty, category)
  {
    var m := Matching(bank, difficulty, category);
    if m != [] then m else bank
  }

  /** Without filters the whole bank is kept. */
  lemma NoFilterKeepsAll(bank: seq<Question>)
    ensures Filtered(bank, None, None) == bank
  {
    if bank != [] {
      assert Matching(bank, None, None) != [] by {
        assert bank[0] in bank && Keeps(bank[0], None, None);
      }
      NoFilterMatching(bank);
    }
  }

  lemma {:induction false} NoFilterMatching(bank: seq<Question>)
    ensures Matching(bank, None, None) == bank
  {
    if bank != [] {
      NoFilterMatching(bank[..|bank| - 1]);
      assert bank == bank[..|bank| - 1] + [bank[|bank| - 1]];
    }
  }

  /** `filter_questions(difficulty, category)` on the loaded bank: the loop with `append`. */
  method FilterQuestions(bank: seq<Question>, difficulty: Option<string>, category: Option<string>) returns (r: seq<Question>)
    ensures r == Filtered(bank, difficulty, category)
  {
    var filtered: seq<Question> := [];
    var i := 0;
    while i < |bank|
      invariant 0 <= i <= |bank|
      invariant filtered == Matching(bank[..i], difficulty, category)
    {
      var q := bank[i];
      assert bank[..i + 1] == bank[..i] + [q];
      if Truthy(difficulty) && q.difficulty != difficulty {
        i := i + 1;
        continue;
      }
      if Truthy(category) && q.category != category {
        i := i + 1;
        continue;
      }
      filtered := filtered + [q];
      i := i + 1;
    }
    assert bank[..i] == bank;
    r := if filtered != [] then filtered else bank;
  }

  // ---------------------------------------------------------------------------
  // Shuffling, the timer, the start form
  // ---------------------------------------------------------------------------


  /**
   * An outcome of `random.shuffle(questions)` followed by shuffling each
   * question's options: a permutation of the questions, and for each one a
   * reordering of its options.
   */
  predicate ShuffleFits(qs: seq<Question>, order: seq<nat>, optionOrders: seq<seq<string>>) {
    && IsPermutation(order, |qs|)
    && |optionOrders| == |qs|
    && forall i :: 0 <= i < |qs| ==> multiset(optionOrders[i]) == multiset(qs[order[i]].options)
  }

  /** The shuffled question list. */
  function Shuffled(qs: seq<Question>, order: seq<nat>, optionOrders: seq<seq<string>>): (r: seq<Question>)
    requires ShuffleFits(qs, order, optionOrders)
    ensures |r| == |qs|
    ensures forall i :: 0 <= i < |r| ==> r[i].text == qs[order[i]].text && r[i].correct == qs[order[i]].correct
    ensures forall i :: 0 <= i < |r| ==> multiset(r[i].options) == multiset(qs[order[i]].options)
  {
    seq(|qs|, i requires 0 <= i < |qs| => qs[order[i]].(options := optionOrders[i]))
  }

  /** Shuffling moves whole questions and reorders their options, keeping each question's answer. */
  lemma ShuffleKeepsAnswers(qs: seq<Question>, order: seq<nat>, optionOrders: seq<seq<string>>, i: nat)
    requires ShuffleFits(qs, order, optionOrders) && i < |qs|
    ensures |Shuffled(qs, order, optionOrders)| == |qs|
    ensures var q := Shuffled(qs, order, optionOrders)[i];
            && q.text == qs[order[i]].text && q.correct == qs[order[i]].correct
            && multiset(q.options) == multiset(qs[order[i]].options)
  {
  }

  /**
   * `get_time_left()`: the seconds left of the limit, negative once it is
   * exceeded, and 0 when the session has no start time.
   */
  function TimeLeft(startTime: Option<int>, now: int): (r: int)
    ensures startTime.None? ==> r == 0
    ensures startTime.Some? ==> r + (now - startTime.value) == TimeLimit
  {
    match startTime
    case None => 0
    case Some(t) => TimeLimit - (now - t)
  }

  /** The quiz is over once the limit has elapsed, or when it was never started. */
  lemma TimeUp(startTime: Option<int>, now: int)
    ensures TimeLeft(startTime, now) <= 0 <==> startTime.None? || now - startTime.value >= TimeLimit
  {
  }

  /** The player name from the start form: stripped, and "Guest" when empty. */
  function PlayerName(input: Option<string>): (r: string)
    ensures r != ""
    ensures Strip(input.GetOr("")) != "" ==> r == Strip(input.GetOr(""))
    ensures Strip(input.GetOr("")) == "" ==> r == "Guest"
  {
    var name := Strip(input.GetOr(""));
    if name == "" then "Guest" else name
  }

  /** A filter choice from the start form: "Any" means no filter. */
  function FilterChoice(input: Option<string>): (r: Option<string>)
    ensures input == Some("Any") ==> r == None
    ensures input != Some("Any") ==> r == input
  {
    if input == Some("Any") then None else input
  }

  /** Choosing "Any" for both filters plays the whole bank. */
  lemma AnyPlaysEverything(bank: seq<Question>)
    ensures Filtered(bank, FilterChoice(Some("Any")), FilterChoice(Some("Any"))) == bank
  {
    NoFilterKeepsAll(bank);
  }

  // ---------------------------------------------------------------------------
  // Answers and their points
  // ---------------------------------------------------------------------------

  /** One item of the review log. */
  datatype LogEntry = LogEntry(
    question: string,
    selected: string,
    correct: string,
    hint: Option<string>,
    explanation: Option<string>,
    usedHint: bool,
    isCorrect: bool)

  /** `if selected:`: an answer was sent and it is not empty. */
  predicate Answered(selected: Option<string>) {
    selected.Some? && selected.value != ""
  }

  /** Half-points gained: 2 for a right answer, 1 if a hint was flagged, 0 for a wrong one. */
  function Gained(isCorrect: bool, hintFlag: bool): (g: int)
    ensures 0 <= g <= 2
    ensures g == 2 <==> isCorrect && !hintFlag
    ensures g == 0 <==> !isCorrect
  {
    if !isCorrect then 0 else if hintFlag then 1 else 2
  }

  /** The hint counter after an answer: it counts a flagged hint only while the budget lasts. */
  function HintsAfter(hintsUsed: int, hintFlag: bool): (h: int)
    ensures hintsUsed <= h <= hintsUsed + 1
    ensures h == hintsUsed + 1 <==> hintFlag && hintsUsed < MaxHints
    ensures 0 <= hintsUsed <= MaxHints ==> 0 <= h <= MaxHints
  {
    if hintFlag && hintsUsed < MaxHints then hintsUsed + 1 else hintsUsed
  }

  /** `max(0, MAX_HINTS_PER_QUIZ - hints_used)` */
  function HintsLeft(hintsUsed: int): (r: int)
    ensures r >= 0
    ensures hintsUsed <= MaxHints ==> r == MaxHints - hintsUsed
    ensures hintsUsed >= MaxHints ==> r == 0
  {
    if MaxHints - hintsUsed > 0 then MaxHints - hintsUsed else 0
  }

  /** The half-points an entry of the log earned. */
  function EntryPoints(e: LogEntry): int {
    Gained(e.isCorrect, e.usedHint)
  }

  /** The half-points the whole log earned. */
  function LogScore(log: seq<LogEntry>): int {
    if log == [] then 0 else LogScore(log[..|log| - 1]) + EntryPoints(log[|log| - 1])
  }

  /** `sum(1 for a in answers_log if a.get("is_correct"))` */
  function CountCorrect(log: seq<LogEntry>): (n: nat)
    ensures n <= |log|
    ensures (forall k :: 0 <= k < |log| ==> log[k].isCorrect) ==> n == |log|
    ensures (forall k :: 0 <= k < |log| ==> !log[k].isCorrect) ==> n == 0
  {
    if log == [] then 0 else CountCorrect(log[..|log| - 1]) + (if log[|log| - 1].isCorrect then 1 else 0)
  }

  /** Logging one more answer adds one to the count exactly when it was right. */
  lemma CountCorrectSnoc(log: seq<LogEntry>, e: LogEntry)
    ensures CountCorrect(log + [e]) == CountCorrect(log) + (if e.isCorrect then 1 else 0)
  {
    assert (log + [e])[..|log|] == log;
  }

  /** Every right answer earns at least half a point and at most a point; wrong ones earn nothing. */
  lemma {:induction false} ScoreBetween(log: seq<LogEntry>)
    ensures CountCorrect(log) <= LogScore(log) <= 2 * CountCorrect(log)
  {
    if log != [] {
      ScoreBetween(log[..|log| - 1]);
    }
  }

  /** The page a request to `/quiz` ends on. */
  datatype Feedback = Correct | Wrong(correctAnswer: string)

  datatype Page =
    | ToIndex
    | ToResult(timedOut: bool)
    | ShowQuestion(question: Question, number: nat, total: nat, score: int, timeLeft: int, hintsLeft: int, feedback: Option<Feedback>)
    | ServerError

  /** A finished attempt as `scores.json` stores it. */
  datatype Attempt = Attempt(
    name: string,
    score: int,
    total: nat,
    difficulty: string,
    category: string,
    hintsUsed: int,
    timedOut: bool,
    timestamp: string)

  /** `difficulty or "Any"` */
  function OrAny(x: Option<string>): (r: string)
    ensures Truthy(x) ==> r == x.value
    ensures !Truthy(x) ==> r == "Any"
  {
    if Truthy(x) then x.value else "Any"
  }

  // ---------------------------------------------------------------------------
  // The session
  // ---------------------------------------------------------------------------

  class QuizSession {
    var username: Option<string>
    var difficulty: Option<string>
    var category: Option<string>
    var questions: seq<Question>
    var currentIndex: int
    var score: int
    var startTime: Option<int>
    var hintsUsed: int
    var answersLog: seq<LogEntry>

    /**
     * What every handler keeps: the position stays within the questions,
     * one log entry per answered question, the score is what the log
     * earned, and at most one hint is counted.
     */
    ghost predicate Valid()
      reads this
    {
      && 0 <= currentIndex <= |questions|
      && |answersLog| == currentIndex
      && score == LogScore(answersLog)
      && 0 <= hintsUsed <= MaxHints
    }

    /** A fresh cookie: every `session.get` falls back to its default. */
    constructor ()
      ensures Valid()
      ensures username == None && difficulty == None && category == None
      ensures questions == [] && currentIndex == 0 && score == 0 && startTime == None
      ensures hintsUsed == 0 && answersLog == []
    {
      username := None;
      difficulty := None;
      category := None;
      questions := [];
      currentIndex := 0;
      score := 0;
      startTime := None;
      hintsUsed := 0;
      answersLog := [];
    }

    /** `setup_quiz(username, difficulty, category)` at time `now`. */
    method SetupQuiz(name: string, diff: Option<string>, cat: Option<string>, bank: seq<Question>,
                     order: seq<nat>, optionOrders: seq<seq<string>>, now: int)
      requires ShuffleFits(Filtered(bank, diff, cat), order, optionOrders)
      modifies this
      ensures Valid()
      ensures username == Some(name) && difficulty == diff && category == cat
      ensures questions == Shuffled(Filtered(bank, diff, cat), order, optionOrders)
      ensures currentIndex == 0 && score == 0 && startTime == Some(now) && hintsUsed == 0 && answersLog == []
    {
      var qs := FilterQuestions(bank, diff, cat);
      qs := Shuffled(qs, order, optionOrders);
      username := Some(name);
      difficulty := diff;
      category := cat;
      questions := qs;
      currentIndex := 0;
      score := 0;
      startTime := Some(now);
      hintsUsed := 0;
      answersLog := [];
    }

    /** A POST to `/`: the start form's fields normalised, then `setup_quiz`. */
    method StartForm(nameInput: Option<string>, diffInput: Option<string>, catInput: Option<string>, bank: seq<Question>,
                     order: seq<nat>, optionOrders: seq<seq<string>>, now: int)
      requires ShuffleFits(Filtered(bank, FilterChoice(diffInput), FilterChoice(catInput)), order, optionOrders)
      modifies this
      ensures Valid()
      ensures username == Some(PlayerName(nameInput))
      ensures difficulty == FilterChoice(diffInput) && category == FilterChoice(catInput)
      ensures questions == Shuffled(Filtered(bank, difficulty, category), order, optionOrders)
      ensures currentIndex == 0 && score == 0 && startTime == Some(now) && hintsUsed == 0 && answersLog == []
    {
      var name := Strip(nameInput.GetOr(""));
      if name == "" {
        name := "Guest";
      }
      var diff := diffInput;
      var cat := catInput;
      if diff == Some("Any") {
        diff := None;
      }
      if cat == Some("Any") {
        cat := None;
      }
      SetupQuiz(name, diff, cat, bank, order, optionOrders, now);
    }

    /** The history the home page lists: the stored attempts under the session's name, if it has one. */
    function HomeHistory(scores: seq<Attempt>): (r: seq<Attempt>)
      reads this
      ensures !Truthy(username) ==> r == []
      ensures Truthy(username) ==> forall a :: a in r <==> a in scores && a.name == username.value
    {
      if Truthy(username) then History(scores, username.value) else []
    }

    /**
     * A request to `/quiz` at time `now`: a GET shows the current question;
     * a POST with an answer scores it, logs it and moves on; a POST without
     * one only counts a flagged hint. After the last question, or once time
     * is up, the player goes to the results.
     */
    method Quiz(post: bool, selected: Option<string>, hintFlag: bool, now: int) returns (page: Page)
      requires Valid()
      modifies this
      ensures Valid()
      ensures username == old(username) && difficulty == old(difficulty) && category == old(category)
      ensures questions == old(questions) && startTime == old(startTime)
      ensures questions == [] ==> page == ToIndex
      ensures questions != [] && TimeLeft(startTime, now) <= 0 ==> page == ToResult(true)
      ensures questions != [] && TimeLeft(startTime, now) > 0 && post && old(currentIndex) >= |questions| ==> page == ServerError
      ensures !(questions != [] && TimeLeft(startTime, now) > 0 && post && old(currentIndex) < |questions|) ==>
                currentIndex == old(currentIndex) && score == old(score) && hintsUsed == old(hintsUsed) && answersLog == old(answersLog)
      ensures questions != [] && TimeLeft(startTime, now) > 0 && post && old(currentIndex) < |questions| ==>
                var q := questions[old(currentIndex)];
                && hintsUsed == HintsAfter(old(hintsUsed), hintFlag)
                && (Answered(selected) ==>
                      && currentIndex == old(currentIndex) + 1
                      && score == old(score) + Gained(selected.value == q.correct, hintFlag)
                      && answersLog == old(answersLog) + [LogEntry(q.text, selected.value, q.correct, q.hint, q.explanation,
                                                                    hintFlag, selected.value == q.correct)])
                && (!Answered(selected) ==> currentIndex == old(currentIndex) && score == old(score) && answersLog == old(answersLog))
      ensures questions != [] && TimeLeft(startTime, now) > 0 && (!post || old(currentIndex) < |questions|) ==>
                page == if currentIndex >= |questions| then ToResult(false)
                        else ShowQuestion(questions[currentIndex], currentIndex + 1, |questions|, score, TimeLeft(startTime, now),
                                          HintsLeft(hintsUsed), if post && Answered(selected) then Some(FeedbackFor(old(questions)[old(currentIndex)], selected.value)) else None)
    {
      if questions == [] {
        return ToIndex;
      }
      var timeLeft := TimeLeft(startTime, now);
      if timeLeft <= 0 {
        return ToResult(true);
      }
      var feedback: Option<Feedback> := None;
      if post {
        if currentIndex >= |questions| {
          return ServerError;
        }
        feedback := Answer(selected, hintFlag);
        if Answered(selected) && currentIndex >= |questions| {
          return ToResult(false);
        }
      }
      if currentIndex >= |questions| {
        return ToResult(false);
      }
      page := ShowQuestion(questions[currentIndex], currentIndex + 1, |questions|, score, timeLeft, HintsLeft(hintsUsed), feedback);
    }

    /** The POST branch of `/quiz` once both time checks have passed. */
    method Answer(selected: Option<string>, hintFlag: bool) returns (feedback: Option<Feedback>)
      requires Valid() && currentIndex < |questions|
      modifies this
      ensures Valid()
      ensures username == old(username) && difficulty == old(difficulty) && category == old(category)
      ensures questions == old(questions) && startTime == old(startTime)
      ensures hintsUsed == HintsAfter(old(hintsUsed), hintFlag)
      ensures var q := questions[old(currentIndex)];
              Answered(selected) ==>
                && currentIndex == old(currentIndex) + 1
                && score == old(score) + Gained(selected.value == q.correct, hintFlag)
                && answersLog == old(answersLog) + [LogEntry(q.text, selected.value, q.correct, q.hint, q.explanation,
                                                              hintFlag, selected.value == q.correct)]
                && feedback == Some(FeedbackFor(q, selected.value))
      ensures !Answered(selected) ==>
                currentIndex == old(currentIndex) && score == old(score) && answersLog == old(answersLog) && feedback == None
    {
      var current := questions[currentIndex];
      if hintFlag && hintsUsed < MaxHints {
        hintsUsed := hintsUsed + 1;
      }
      feedback := None;
      if Answered(selected) {
        var isCorrect := selected.value == current.correct;
        var gained := if isCorrect then (if hintFlag then 1 else 2) else 0;
        feedback := Some(FeedbackFor(current, selected.value));
        var entry := LogEntry(current.text, selected.value, current.correct, current.hint, current.explanation,
                              hintFlag && hintsUsed <= MaxHints, isCorrect);
        LogScoreSnoc(answersLog, entry);
        score := score + gained;
        answersLog := answersLog + [entry];
        currentIndex := currentIndex + 1;
      }
    }

    /** The attempt `result()` appends to the score file. */
    function CurrentAttempt(timedOut: bool, timestamp: string): Attempt
      reads this
    {
      Attempt(username.GetOr("Guest"), score, |questions|, OrAny(difficulty), OrAny(category), hintsUsed, timedOut, timestamp)
    }

    /** `result()` given the attempts already saved and the time it stamps. */
    function Result(saved: seq<Attempt>, timedOut: bool, timestamp: string): (r: ResultPage)
      reads this
      ensures r.scores == saved + [CurrentAttempt(timedOut, timestamp)]
      ensures r.leaderboard == Leaderboard(r.scores)
      ensures r.history == History(r.scores, username.GetOr("Guest"))
      ensures r.numCorrect == CountCorrect(answersLog)
      ensures r.numCorrect + r.numIncorrect == |answersLog| && r.numIncorrect >= 0
    {
      var scores := saved + [CurrentAttempt(timedOut, timestamp)];
      var correct := CountCorrect(answersLog);
      ResultPage(scores, Leaderboard(scores), History(scores, username.GetOr("Guest")), correct, |answersLog| - correct)
    }
  }

  /** The feedback line for an answer. */
  function FeedbackFor(q: Question, selected: string): Feedback {
    if selected == q.correct then Correct else Wrong(q.correct)
  }

  /** The log's score grows by the points of the entry appended. */
  lemma LogScoreSnoc(log: seq<LogEntry>, e: LogEntry)
    ensures LogScore(log + [e]) == LogScore(log) + EntryPoints(e)
  {
    assert (log + [e])[..|log|] == log;
  }

  // ---------------------------------------------------------------------------
  // The result page
  // ---------------------------------------------------------------------------

  datatype ResultPage = ResultPage(scores: seq<Attempt>, leaderboard: seq<Attempt>, history: seq<Attempt>, numCorrect: nat, numIncorrect: int)

  /** The leaderboard key `(score, timestamp)`. */
  function AttemptKey(a: Attempt): Key {
    Key(a.score, a.timestamp)
  }

  /** `sorted(scores, key=..., reverse=True)[:10]` */
  function Leaderboard(scores: seq<Attempt>): (r: seq<Attempt>)
    ensures |r| == if |scores| < 10 then |scores| else 10
    ensures forall a :: a in r ==> a in scores
  {
    var s := SortDesc(scores, AttemptKey);
    assert forall a :: a in s ==> a in scores by {
      assert forall a :: a in s <==> a in multiset(s);
    }
    Take(s, 10)
  }

  /** `[s for s in scores if s.get("name") == name]` */
  function History(scores: seq<Attempt>, name: string): (r: seq<Attempt>)
    ensures forall a :: a in r <==> a in scores && a.name == name
    ensures |r| <= |scores|
  {
    if scores == [] then []
    else
      var last := scores[|scores| - 1];
      var front := History(scores[..|scores| - 1], name);
      assert forall a :: a in scores <==> a in scores[..|scores| - 1] || a == last by {
        assert scores == scores[..|scores| - 1] + [last];
      }
      if last.name == name then front + [last] else front
  }

  /**
   * The leaderboard holds the ten best attempts (all of them when there
   * are fewer), best first, and any attempt left off ranks no higher than
   * every attempt on it.
   */
  lemma LeaderboardTop(scores: seq<Attempt>)
    ensures var lb := Leaderboard(scores);
            && |lb| == (if |scores| < 10 then |scores| else 10)
            && SortedDesc(lb, AttemptKey)
            && (forall a :: a in lb ==> a in scores)
            && (forall a, b :: a in scores && a !in lb && b in lb ==> !Less(AttemptKey(b), AttemptKey(a)))
  {
    var s := SortDesc(scores, AttemptKey);
    SortDescSorted(scores, AttemptKey);
    TopOfSorted(s, 10, AttemptKey);
    assert forall a :: a in s <==> a in scores by {
      assert forall a :: a in s <==> a in multiset(s);
    }
  }

  /**
   * The first `n` of a sequence sorted best first: sorted, drawn from it,
   * and ranked at least as high as everything they leave out.
   */
  lemma TopOfSorted<T>(s: seq<T>, n: nat, key: T -> Key)
    requires SortedDesc(s, key)
    ensures var top := Take(s, n);
            && SortedDesc(top, key)
            && (forall a :: a in top ==> a in s)
            && (forall a, b :: a in s && a !in top && b in top ==> !Less(key(b), key(a)))
  {
    var top := Take(s, n);
    assert top == s[..|top|];
    forall a, b | a in s && a !in top && b in top
      ensures !Less(key(b), key(a))
    {
      var j :| 0 <= j < |s| && s[j] == a;
      var i :| 0 <= i < |top| && top[i] == b;
      assert j >= |top|;
      assert s[i] == b;
    }
  }

  /** The player's own attempt is always part of the history the result page shows. */
  lemma ResultShowsAttempt(session: QuizSession, saved: seq<Attempt>, timedOut: bool, timestamp: string)
    ensures session.CurrentAttempt(timedOut, timestamp) in session.Result(saved, timedOut, timestamp).history
  {
  }
}
