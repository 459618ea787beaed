# Classroom Python programs, modelled in Dafny

This project models the decision logic of a set of Python course programs and proves properties of it:

- **Emergency-management dashboard** (`em_impact_app/app.py`). It covers:
  - the time-to-live cache of fetched data and the per-client login lockout, both mutated in place;
  - the merge of alert feeds: drop duplicate keys, order by `sent`;
  - the strain index and its level;
  - the EOC activation and staffing recommendation;
  - the recommended-actions list;
  - wind-speed parsing from NWS text;
  - the okina clean-up applied before text goes into a PDF.
- **Sales dashboards** (`Assgn2/Extracredit.py`, `Assgn2/Ex3.py` to `Ex6.py`). They cover:
  - the numbered menus and their re-prompting loops;
  - multi-choice and row-range answers;
  - the row preview and the required-columns check;
  - the store of saved results and the comparison of two of them;
  - the menu built from the columns each analytic needs;
  - the step rules of the custom pivot wizard.
  - `Ex4.py` repeats `Ex3.py`'s row preview and column check line for line, so module `RowPreview` models both and its rows cite `Ex3.py`.
- **Quiz programs**:
  - the Flask card-order quiz (`Flasktemplate/Ex3.py`) and the timed Flask quiz (`A3/app.py`), as session state machines;
  - the category quiz with hints, score history and leaderboard (`quiz_web_app/app.py`);
  - the console quiz with re-prompting (`A1/Quiz7.py`).
- **Lab 6**: the four progress classifiers (`Lab6/Ex3*.py`), with their outputs on the nine inputs `Ex3.py` asserts on (four of which differ from what the script expects), and the movie ticket price (`Lab6/Lab6EC.py`).
- **Planning tools** (`final2/final2.py`, `Final/final.py`). They cover:
  - city and state slugs;
  - the population found in page text;
  - the hazard presets and the shelter capacity;
  - the integer parts of the needs, capability and traffic estimates.

Conventions used throughout:

- Standard input is a sequence of lines. A prompt loop reads from a position in that sequence and reports `Exhausted` when the lines run out; Python would raise `EOFError` there.
- Wall-clock time is an integer parameter (`time.time()` as whole seconds).
- `random.shuffle` is a permutation given as a parameter.
- Python's `str.strip`, `lower`, `upper`, `isdigit`, `split` and `int()` live in module `Text`:
  - `isdigit`, `upper` and `lower` work on ASCII letters and digits;
  - `strip` and `split` remove the characters Python's `str.isspace` accepts;
  - `int()` accepts padding, a sign and `_` digit groups;
  - a `ValueError` is `None`.
- The web quiz counts scores in half-points, so its half-point hint penalty stays an integer.
- The modules follow the programs:
  - `Alerts`, `TtlCache`, `LoginLockout`, `Strain`, `WindSpeed`, `PdfText` for the dashboard;
  - `SalesDashboard`, `PivotWizard`, `RowPreview` for the sales programs;
  - `FlaskQuiz`, `A3Quiz`, `QuizWeb`, `CliQuiz` for the quizzes;
  - `Progress`, `MoviePrice` for Lab 6;
  - `PopulationText`, `PlanningNeeds`, `HawaiiTool`, `StateTool` for the planning tools;
  - the shared helpers `Wrappers`, `Text`, `Prompt`, `Ranking` and `Shuffling`.

## Model

| member | source | states |
|---|---|---|
| A3Quiz.Shuffled | A3/app.py:19-27 | the shuffled list has one entry per loaded question, taken in the permuted order, with the same question text and correct answer and the options of that question reordered (same multiset) |
| A3Quiz.TimeLeft | A3/app.py:34-40 | no start time gives 0; otherwise the time left plus the elapsed time is the 60-second limit, so it is negative once the limit is exceeded |
| A3Quiz.NoStartIsTimeUp | A3/app.py:36-60 | a quiz that was never started is treated as timed out by `/quiz` |
| A3Quiz.A3Session.constructor | A3/app.py:62-64 | an empty session: no questions, index 0, score 0 and no start time, the defaults `session.get` falls back to |
| A3Quiz.A3Session.SetupQuiz | A3/app.py:19-51 | the session holds the shuffled questions, index and score 0 and the start time `now` |
| A3Quiz.A3Session.Quiz | A3/app.py:54-111 | timeout goes to the result page; no questions gives the message; a POST with an answer field scores one point exactly when it equals the correct answer and advances the index by one; a POST past the last question fails (IndexError) without changing the state; otherwise the page is the result page or the next question with the feedback |
| A3Quiz.FeedbackFor | A3/app.py:78-82 | "Correct!" exactly when the answer equals the correct one, otherwise the wrong-answer line carrying the correct answer |
| A3Quiz.ScoreOf | A3/app.py:78-79 | the score never exceeds the number of answers given |
| A3Quiz.PlayInTime | A3/app.py:48-91 | after a start and `k` in-time answers the index is `k` and the score is the number of answers equal to the correct answer at their position |
| Alerts.MergeAlerts | em_impact_app/app.py:421-436 | the method's nested loop with its `seen` set returns the first-kept alerts of all lists, sorted by `sent`, exactly the specification `SortDesc(Dedup(Flatten(lists)), SentKey)` |
| Alerts.MergeList | em_impact_app/app.py:424-430 | the inner loop over one list extends the kept alerts exactly as the specification does, and `seen` stays the set of kept keys |
| Alerts.Dedup | em_impact_app/app.py:424-430 | the loop keeps at most one alert per input alert, and only alerts of the input that have a key |
| Alerts.DedupKeys | em_impact_app/app.py:426-429 | the keys kept are exactly the truthy keys seen in the input |
| Alerts.DedupDistinct | em_impact_app/app.py:426-430 | no two kept alerts share a key |
| Alerts.DedupFirst | em_impact_app/app.py:424-430 | every kept alert is the first occurrence of its key in the input |
| Alerts.DedupComplete | em_impact_app/app.py:424-430 | every first occurrence of a truthy key is kept |
| Alerts.MergeAlertsSpec | em_impact_app/app.py:421-436 | the merged list has distinct keys, holds exactly the first occurrences of the truthy keys, is sorted by `sent` descending, and keeps the encounter order among alerts with the same `sent` (a stable sort) |
| TtlCache.Lookup | em_impact_app/app.py:129-134 | a value comes back exactly when the key is stored and its expiry lies after `now`, and it is the stored data |
| TtlCache.Store | em_impact_app/app.py:136-137 | the key now maps to the data with expiry `now + ttl`; every other key keeps its entry |
| TtlCache.StoreThenLookup | em_impact_app/app.py:129-137 | reading a key just stored gives the data until `ttl` seconds have passed, and nothing afterwards |
| TtlCache.StoreKeepsOthers | em_impact_app/app.py:136-137 | storing one key does not change what any other key reads |
| TtlCache.ExpiryIsFinal | em_impact_app/app.py:129-134 | once a key reads as missing, it reads as missing at every later time until it is stored again |
| TtlCache.Cache.constructor | em_impact_app/app.py:127 | the cache starts empty |
| TtlCache.Cache.Get | em_impact_app/app.py:129-134 | `cache_get` on the cache's entries: the stored data while unexpired, otherwise nothing |
| TtlCache.Cache.Set | em_impact_app/app.py:136-137 | `cache_set` replaces the entries by `Store` of the old ones |
| LoginLockout.LockStatus | em_impact_app/app.py:151-160 | locked exactly when the key is on record with a lock end after `now`, with the remaining seconds then positive; otherwise not locked with 0 remaining |
| LoginLockout.AfterCheck | em_impact_app/app.py:151-160 | `is_locked` keeps every record and count, and resets an expired lock end to 0 |
| LoginLockout.AfterFail | em_impact_app/app.py:162-166 | a failure creates the key's record when missing and touches no other key |
| LoginLockout.Cleared | em_impact_app/app.py:168-169 | the key's record becomes count 0 and no lock; other keys are untouched |
| LoginLockout.FailCountsOnce | em_impact_app/app.py:162-166 | each failure adds exactly one to the count, and sets a lock `lockoutSeconds` from now exactly when the count reaches the limit |
| LoginLockout.FailAllCounts | em_impact_app/app.py:162-166 | a run of failures adds one to the count per failure |
| LoginLockout.MaxFailuresLock | em_impact_app/app.py:143-166 | from a clean record, the limit's number of failures locks the key for the full lockout period |
| LoginLockout.RelockAfterExpiry | em_impact_app/app.py:151-166 | after a lock expires the key is unlocked, and since the count stays at or above the limit, the next failure locks it again at once |
| LoginLockout.ClearedIsUnlocked | em_impact_app/app.py:168-169 | after a successful login the key is unlocked with count 0 |
| LoginLockout.UnknownKeyUntouched | em_impact_app/app.py:151-154 | a key never seen is unlocked and checking it leaves the records unchanged |
| LoginLockout.Lockout.constructor | em_impact_app/app.py:142-144 | no records, and the configured limit and lockout period |
| LoginLockout.Lockout.IsLocked | em_impact_app/app.py:151-160 | the status returned is `LockStatus` of the old records and the new records are `AfterCheck` of them |
| LoginLockout.Lockout.RegisterFail | em_impact_app/app.py:162-166 | the new records are `AfterFail` of the old ones |
| LoginLockout.Lockout.ClearFails | em_impact_app/app.py:168-169 | the new records are `Cleared` of the old ones |
| LoginLockout.Lockout.Login | em_impact_app/app.py:1025-1043 | a locked key gets the too-many-attempts page and nothing changes; a view gets the form; the right password clears the record and logs in; a wrong one records the failure and answers too-many-attempts with the remaining seconds when that failure locked the key, otherwise invalid password |
| CliQuiz.Rounds | A1/Quiz7.py:25-37 | one round per question, in the shuffled order, each keeping its question text and its first listed answer as the correct one, with the options shown in a reordering of the listed four |
| CliQuiz.BankShape | A1/Quiz7.py:7-23 | five questions, each with four answers, so "Pick 1-4" always indexes an option |
| CliQuiz.Pick | A1/Quiz7.py:40-45 | a reply ends the round exactly when it is all digits, its value is 1 to 4 and the option at that number is the correct answer; the value returned is the number typed |
| CliQuiz.Attempt | A1/Quiz7.py:39-49 | when a round ends, it ends within the unread lines and the last line read picks the correct answer |
| CliQuiz.AttemptIsFirstAccepted | A1/Quiz7.py:39-49 | one round is the shared re-prompt loop with `Pick` as its test, run on the unread lines |
| CliQuiz.AttemptFirst | A1/Quiz7.py:39-49 | a round ends at the first line that picks the correct answer, every earlier line being refused; input runs out exactly when no unread line picks it |
| CliQuiz.AskRound | A1/Quiz7.py:39-49 | the method's loop reads the lines one at a time and ends exactly as `Attempt` says |
| CliQuiz.Play | A1/Quiz7.py:29-49 | at most one point per remaining round, and reading never goes back nor past the input |
| CliQuiz.RunQuiz | A1/Quiz7.py:29-52 | the script's score and reading position are those of `Play` from the first round, and it finishes exactly when every round scored |
| CliQuiz.CorrectShown | A1/Quiz7.py:32-37 | the correct answer is always among the options shown, so every round can be won |
| CliQuiz.CorrectNumberEnds | A1/Quiz7.py:40-45 | typing the number of the correct answer's position ends the round |
| CliQuiz.PlayStep | A1/Quiz7.py:31-49 | a round whose input runs out ends the game; a round that ends scores one and hands on to the next round after the lines it read |
| CliQuiz.PlayAllRight | A1/Quiz7.py:29-52 | when every round's first reply is right the game reads one line per round and scores every round |
| CliQuiz.WrongReplyRepeats | A1/Quiz7.py:46-49 | a refused line is read and not scored: the rest of the game is as if it had not been typed |
| FlaskQuiz.BankShape | Flasktemplate/Ex3.py:9-30 | the bank holds five questions of four options each |
| FlaskQuiz.AnswersUnpadded | Flasktemplate/Ex3.py:8-30 | every answer (the first listed option) is non-empty and unpadded, so a posted answer survives `.strip()` |
| FlaskQuiz.AnswerShown | Flasktemplate/Ex3.py:70-76 | a shuffled copy of the options shows the answer and exactly the listed options |
| FlaskQuiz.GameSession.constructor | Flasktemplate/Ex3.py:114-117 | an empty session: no game, all counters zero |
| FlaskQuiz.GameSession.Index | Flasktemplate/Ex3.py:42-46 | the landing page offers to resume exactly when a game is started and questions are left |
| FlaskQuiz.GameSession.NewGame | Flasktemplate/Ex3.py:32-51 | a fresh game: the shuffled order, index and score 0, total 5, and a redirect to the question page; the stored answer and options are left alone |
| FlaskQuiz.GameSession.Question | Flasktemplate/Ex3.py:53-84 | no game sends home and a finished one to the results, changing nothing; otherwise the question at the index is shown, with its answer and the shown options stored and the position counted from 1 |
| FlaskQuiz.GameSession.Answer | Flasktemplate/Ex3.py:86-104 | without a game or a stored answer the user goes home; a choice not shown changes nothing; a shown choice advances the index by one and adds one to the score exactly when it is the answer |
| FlaskQuiz.GameSession.Results | Flasktemplate/Ex3.py:106-112 | the score out of the total, or home when no game was started |
| FlaskQuiz.GameSession.Reset | Flasktemplate/Ex3.py:114-117 | the session is cleared and the user sent home |
| FlaskQuiz.ShowAndAnswer | Flasktemplate/Ex3.py:53-104 | showing a question of a running game and posting its answer advances the index and the score by one each |
| FlaskQuiz.ReplayPastTotal | Flasktemplate/Ex3.py:86-104 | posting the last answer again after the game is over still counts: index and score both end at six of five |
| PopulationText.CitySlug | final2/final2.py:90 | the slug is the stripped city, lower-cased, with each space turned into a hyphen, and so holds no space |
| PopulationText.SlugIdempotent | Final/final.py:74 | the slug of a slug is itself |
| PopulationText.MapCharAbsent | Final/final.py:74 | replacing a character that does not occur changes nothing |
| PopulationText.SlugUnpadded | final2/final2.py:90 | a slug neither starts nor ends with whitespace |
| PopulationText.SlugCharNotSpace | final2/final2.py:90 | a non-space character stays non-space in the slug |
| PopulationText.SlugLower | final2/final2.py:90 | a slug is already lower-case |
| PopulationText.SpacesFrom | final2/final2.py:104 | `\s+` taken greedily: the whole run of whitespace at a position |
| PopulationText.NumberFrom | final2/final2.py:104 | `[0-9,]+` taken greedily: the whole run of digits and commas at a position |
| PopulationText.MatchAt | final2/final2.py:104 | a match at a position is the phrase in any letter case, then whitespace, then a non-empty run of digits and commas |
| PopulationText.FirstMatch | final2/final2.py:104 | `re.search` finds a match at a position at or after the start |
| PopulationText.FirstMatchLeftmost | final2/final2.py:104 | no match starts before the one found |
| PopulationText.FirstMatchNone | final2/final2.py:104-107 | no match is found exactly when no position matches |
| PopulationText.CommasDroppedDigits | final2/final2.py:109 | without its commas a matched number is all digits |
| PopulationText.GroupValue | final2/final2.py:109-116 | a matched group made only of commas gives no population; any other gives the value of its digits once the commas are dropped |
| PopulationText.ExtractPopulation | final2/final2.py:103-116 | no population when the phrase is nowhere followed by a number; otherwise the value of the leftmost match |
| PopulationText.NumberAfterSpaces | final2/final2.py:104 | spaces and then a number at a position are read as exactly those runs |
| PopulationText.SpacesRun | final2/final2.py:104 | a whitespace run ended by another character is read whole |
| PopulationText.NumberRun | final2/final2.py:104 | a number run ended by another character is read whole |
| PopulationText.ReadsLeadingNumber | final2/final2.py:103-116 | a text that starts with the phrase, whitespace and a number gives that number's population |
| PopulationText.ReadsWrittenNumber | final2/final2.py:103-116 | "population of" followed by a written number gives exactly that number |
| PopulationText.ReadsGroupedNumber | final2/final2.py:103-116 | a number written with a thousands comma, such as "344,098", gives 344098 |
| PopulationText.GroupedValue | final2/final2.py:109-111 | dropping the comma of a grouped numeral gives its value |
| PopulationText.ThousandsValue | final2/final2.py:109-111 | three more digits multiply the value by 1000 and add theirs |
| PopulationText.GroupedChars | final2/final2.py:104 | a grouped numeral is made of number characters |
| PopulationText.GroupedDigits | final2/final2.py:109 | removing the comma joins the groups |
| PopulationText.DigitsValueAppend | final2/final2.py:111 | the value of two digit strings put together |
| Progress.Progress1 | Lab6/Ex3.py:1-17 | "Get going!" with no spins or no positive ratio, "On your way!" under a quarter, "You win!" from a half with fewer hits than spins, and "Almost there!" otherwise |
| Progress.Progress2 | Lab6/Ex3b.py:1-11 | always one of the four messages, and "You win!" only from a half with fewer hits than spins |
| Progress.Progress3 | Lab6/Ex3c.py:1-9 | the same for the single-chain version |
| Progress.BoolToInt | Lab6/Ex3d.py:9 | a boolean counts 1 exactly when true |
| Progress.NoIfIndex | Lab6/Ex3d.py:3-9 | the computed index is always a valid position in the list of four, and 0 without spins |
| Progress.ProgressNoIf | Lab6/Ex3d.py:1-11 | the message at that index is always one of the four |
| Progress.WinIsIndexThree | Lab6/Ex3d.py:5-9 | a winning ratio sets all three flags, giving index 3 |
| Progress.SecondIsFirst | Lab6/Ex3b.py:1-11 | the early-return version agrees with the nested one on every input |
| Progress.ThirdIsSecond | Lab6/Ex3c.py:1-9 | the single-chain version agrees with the early-return one |
| Progress.NoIfIsSecond | Lab6/Ex3d.py:1-11 | the branch-free version agrees with the early-return one |
| Progress.RatioAtLeast | Lab6/Ex3.py:5-11 | with positive spins, a ratio threshold is a comparison of counts |
| Progress.ByCounts | Lab6/Ex3.py:1-17 | with positive spins, the message follows from the counts alone |
| Progress.TestVectors | Lab6/Ex3.py:20-29 | what the function returns on the nine inputs the test script names; the test script expects other messages for (1, 4), (2, 4), (3, 3) and (4, 3) |
| Prompt.FirstAccepted | Assgn2/Ex5.py:31-42 | a loop that re-prompts until a line is accepted: that line's value, every earlier line refused, and when input runs out every line refused |
| Prompt.ReadUntilAccepted | Assgn2/Ex5.py:31-42 | the loop reads exactly what the definition says |
| Prompt.FirstAcceptedAt | Assgn2/Ex5.py:31-42 | the first accepted line ends the loop |
| Prompt.FirstAcceptedNone | Assgn2/Ex5.py:31-42 | when every line is refused the input runs out |
| Prompt.Choose | Assgn2/Ex5.py:70-91 | a pick exactly when the line is a number from 1 to the option count, and then the option at that number |
| Prompt.ChooseListedNumber | Assgn2/Ex5.py:79-85 | a listed number, padded with whitespace, picks its option |
| Prompt.NumberBetween | Assgn2/Ex5.py:204-206 | accepted exactly when the line is a number in the range, and then that number |
| Prompt.NumberBetweenListed | Assgn2/Ex5.py:204-206 | a padded number in the range is accepted as itself |
| Prompt.ReadMenuChoice | Assgn2/Ex5.py:202-210 | the choice is in range and typed on the last line read, every line before was refused, and input runs out only when every line is refused |
| PivotWizard.AggFunc | Assgn2/Ex5.py:114-116 | "average" becomes pandas' "mean"; the other calculations are passed as they are |
| PivotWizard.GroupColumn | Assgn2/Ex5.py:133 | the column name is the option's text up to its first space, and holds no space |
| PivotWizard.GroupColumnOf | Assgn2/Ex5.py:133 | a label made of a name, a space and a description gives back the name |
| PivotWizard.GroupingColumns | Assgn2/Ex5.py:120-133 | the five grouping labels name the five group columns in order |
| PivotWizard.RemainingOptions | Assgn2/Ex5.py:144 | exactly the labels that do not start with the first group column, in order |
| PivotWizard.RemainingGroupsElsewhere | Assgn2/Ex5.py:144-148 | a second pick never names the first group column again |
| PivotWizard.SecondStep | Assgn2/Ex5.py:139-148 | anything but "yes" (after stripping and lower-casing) means no second grouping after one line; "yes" reads one more pick, and a refused pick means none; the lines read are counted |
| PivotWizard.Step | Assgn2/Ex5.py:102-104 | a `while ... is None` step ends at a line the question accepts and returns that line's value |
| PivotWizard.StepRefusals | Assgn2/Ex5.py:102-104 | every line before the accepted one was refused, and when input runs out every remaining line was |
| PivotWizard.AskUntilChosen | Assgn2/Ex5.py:102-104 | the loop reads exactly as the step describes |
| PivotWizard.Wizard | Assgn2/Ex5.py:93-148 | a finished wizard has read at least four lines (one per step) and no more than were typed; fewer than four lines always run out |
| PivotWizard.Grouping | Assgn2/Ex5.py:128-148 | steps 3 and 4 read at least two lines |
| PivotWizard.Grouped | Assgn2/Ex5.py:133-148 | step 4 reads at least one line and keeps the first group column; an answer other than "yes" ends the wizard with no second grouping after one line |
| PivotWizard.GenerateCustomPivotTable | Assgn2/Ex5.py:93-156 | the method's plan and lines read are the wizard's, step by step |
| PivotWizard.AskGroupings | Assgn2/Ex5.py:128-148 | steps 3 and 4 as a method agree with their definition |
| PivotWizard.AskSecondGrouping | Assgn2/Ex5.py:139-148 | step 4 as a method agrees with its definition |
| PivotWizard.StepPicksOption | Assgn2/Ex5.py:70-91 | a numbered pick is always one of the listed options |
| PivotWizard.GroupingValid | Assgn2/Ex5.py:128-148 | a built plan reads at least one line, groups by a listed column, and any second column is listed and differs from the first |
| PivotWizard.GroupedValid | Assgn2/Ex5.py:133-148 | the same once the first group label is picked |
| PivotWizard.OptionGroupListed | Assgn2/Ex5.py:120-133 | every label names a listed group column |
| PivotWizard.SecondValid | Assgn2/Ex5.py:144-148 | a second column is a listed one other than the first |
| PivotWizard.WizardPlanValid | Assgn2/Ex5.py:93-167 | whatever is typed, a finished wizard analyses a number column with "sum", "mean" or "count", groups by a listed column and never groups twice by the same one |
| PivotWizard.SecondFromRemaining | Assgn2/Ex5.py:142-148 | a second column comes only after "yes" and a valid pick among the remaining labels |
| PivotWizard.NoSecondWithoutYes | Assgn2/Ex5.py:139-142 | without "yes" there is no second grouping, after one line |
| PivotWizard.StepAcceptsFirst | Assgn2/Ex5.py:102-104 | an accepted first line ends the step at once |
| PivotWizard.WizardExample | Assgn2/Ex5.py:93-148 | typing 1, 2, 3 (padded) and an empty line builds "sales" by "mean" over "employee_name" after four lines |
| PivotWizard.ExampleGrouping | Assgn2/Ex5.py:128-148 | the grouping part of that example |
| PivotWizard.LabelThree | Assgn2/Ex5.py:70-130 | a padded 3 picks the third label at once |
| PivotWizard.EmployeeLabel | Assgn2/Ex5.py:123-133 | the third label names "employee_name" |
| PivotWizard.ShownRows | Assgn2/Ex5.py:171-177 | a table over 10 rows shows its first 10 and reports the total; a smaller one is shown whole |
| PivotWizard.PositiveNumber | Assgn2/Ex5.py:33-34 | accepted exactly when `int()` succeeds and gives more than 0 |
| PivotWizard.DisplayInitialRows | Assgn2/Ex5.py:23-42 | re-prompts until a number above 0 and then shows that many rows from the top, or all of them when fewer exist |
| PivotWizard.DisplayMenu | Assgn2/Ex5.py:196-210 | the choice is a number from 1 to the menu's length typed on the last line read, every earlier line was refused, and input runs out only when every line is refused |
| PivotWizard.MenusEndWithExit | Assgn2/Ex6.py:285-295 | Ex5's menu has four entries and Ex6's nine, with exit last in both |
| PivotWizard.FiveOnTheMenus | Assgn2/Ex6.py:297-311 | 5 is refused by Ex5's menu and accepted by Ex6's |
| PlanningNeeds.TruncDiv | final2/final2.py:153 | Python's `int()` of a quotient: the integer part, truncated toward zero for either sign |
| PlanningNeeds.PercentOf | final2/final2.py:153 | a percentage of a count, truncated: the largest whole number of hundredths not above the exact share |
| PlanningNeeds.DeFacto | final2/final2.py:341 | the uplifted population is never below the residents and never above the exact uplift |
| PlanningNeeds.EstimateNeeds | final2/final2.py:147-162 | 15 litres and 3 meals a head, the truncated share sheltered and 40 square feet for each of them |
| PlanningNeeds.ShelteredAtMostEveryone | Final/final.py:104-121 | for a percentage from 0 to 100, the sheltered are between none and everyone and their space at most 40 square feet a head |
| PlanningNeeds.ShelteredMonotone | final2/final2.py:153 | a higher shelter percentage never shelters fewer people |
| PlanningNeeds.NoUpliftNoChange | Final/final.py:168 | an uplift of 0 percent leaves the population as it is |
| StateTool.SameStates | Final/final.py:16-33 | both state tables cover the same six states |
| StateTool.StartRun | Final/final.py:127-132 | the run ends exactly when the stripped city or the stripped state is empty; otherwise it goes on with the stripped city and the upper-cased state |
| StateTool.StateSlug | Final/final.py:69-72 | a slug exactly for the states of the table, looked up after upper-casing |
| StateTool.PageAddress | Final/final.py:69-76 | a page address exactly when the state has a slug: the state's slug and then the city's |
| StateTool.ScrapeFromWpr | Final/final.py:59-101 | no population for a state without a slug or for a failed fetch; otherwise what the text search of the page finds |
| StateTool.UnknownStateNeverFetches | Final/final.py:69-72 | for an unknown state the outcome does not depend on any page |
| StateTool.DefaultUplift | Final/final.py:148-150 | a default uplift exactly for the states of the table |
| StateTool.UpperIdempotent | Final/final.py:69-128 | upper-casing an upper-cased state changes nothing, so the second `.upper()` is harmless |
| StateTool.GateMatchesUplift | Final/final.py:128-159 | a state typed at the prompt is fetched exactly when it has a default uplift, and each default lies between 10 and 30 percent |
| StateTool.UpliftRange | Final/final.py:16-23 | every default uplift lies between 10 and 30 percent |
| HawaiiTool.HazardName | final2/final2.py:129-138 | every answer names a preset |
| HawaiiTool.ChooseHazard | final2/final2.py:121-143 | "1", "2" and "3" (after stripping) pick wildfire, hurricane and tsunami, anything else picks none, and the two percentages are that preset's |
| HawaiiTool.PresetsArePercentages | final2/final2.py:36-41 | every preset's uplift and shelter share lie between 0 and 100 percent |
| HawaiiTool.TotalCapacity | final2/final2.py:174 | the sum of capacities is not negative when no site is |
| HawaiiTool.ShelterCapacity | final2/final2.py:166-180 | a city of the table with sites gets the sum of its sites; any other city gets a tenth of the residents, truncated |
| HawaiiTool.ListedCities | final2/final2.py:21-32 | Honolulu has 1200 places, Kahului 600 and Hilo 500, whatever the population |
| HawaiiTool.LookupIsCaseSensitive | final2/final2.py:172 | a city typed in another letter case falls back to the ten-percent estimate |
| HawaiiTool.ReadCount | final2/final2.py:192-196 | an empty answer is the default, anything else is what `int()` makes of it |
| HawaiiTool.TruckGallons | final2/final2.py:202 | 4,000 gallons a truck |
| HawaiiTool.MealCapacity | final2/final2.py:208 | 2,000 meals a feeding site |
| HawaiiTool.Capabilities | final2/final2.py:184-213 | a result exactly when every answer parses; then the truck gallons and the meal capacity of the answers |
| HawaiiTool.BlankCapabilities | final2/final2.py:192-196 | blank answers count as no trucks and no sites |
| HawaiiTool.RoadCapacity | final2/final2.py:239-240 | 1,500 vehicles a lane an hour |
| HawaiiTool.ClearanceHours | final2/final2.py:242-245 | the vehicles over the road capacity when there is capacity, else 0 |
| HawaiiTool.NoLanesNoDivision | final2/final2.py:242-245 | no lanes, or a negative count, gives a clearance time of 0 |
| HawaiiTool.CompareNeeds | final2/final2.py:361-363 | each shortfall plus the capability is the need |
| HawaiiTool.FewestFeedingSites | final2/final2.py:208 | the meals over 2,000, rounded up, is the fewest sites that leave no meal shortfall |
| MoviePrice.MinOf | Lab6/Lab6EC.py:16 | `min` of a non-empty list: an element no greater than any other |
| MoviePrice.Prices | Lab6/Lab6EC.py:2-14 | the regular 14 first; 8 exactly for a senior or a matinee, 10 exactly on Tuesday, 5 exactly for a senior at a matinee, and no other price |
| MoviePrice.Price | Lab6/Lab6EC.py:1-16 | the lowest of the prices that apply |
| MoviePrice.PriceCases | Lab6/Lab6EC.py:1-16 | 5 for a senior at a matinee, else 8 for a senior or a matinee, else 10 on Tuesday, else 14 |
| MoviePrice.PriceBounds | Lab6/Lab6EC.py:1-16 | never more than 14, always a listed price, at most 8 for a senior or a matinee and at most 10 on Tuesday |
| MoviePrice.TuesdayAnyCase | Lab6/Lab6EC.py:9 | "Tuesday" in any letter case and with any padding counts as Tuesday |
| MoviePrice.DemoCalls | Lab6/Lab6EC.py:22-24 | the three demonstration calls cost 14, 8 and 8 |
| QuizWeb.Matching | quiz_web_app/app.py:34-40 | exactly the bank's questions that pass both filters, a falsy filter letting everything through |
| QuizWeb.MatchingAppend | quiz_web_app/app.py:35-40 | filtering two parts of the bank and putting them together is filtering the whole |
| QuizWeb.Filtered | quiz_web_app/app.py:31-41 | when some question passes, exactly those that pass, in bank order; otherwise the whole bank |
| QuizWeb.NoFilterKeepsAll | quiz_web_app/app.py:31-41 | without filters every question is played |
| QuizWeb.NoFilterMatching | quiz_web_app/app.py:35-40 | without filters every question passes |
| QuizWeb.FilterQuestions | quiz_web_app/app.py:31-41 | the loop with its two `continue`s returns what the filter definition describes |
| QuizWeb.Shuffled | quiz_web_app/app.py:65-68 | one question per filtered question, taken in the permuted order, each with its own text and correct answer and its options reordered (same multiset) |
| QuizWeb.ShuffleKeepsAnswers | quiz_web_app/app.py:65-68 | after shuffling, each question keeps its text and its correct answer and has the same options in some order |
| QuizWeb.TimeLeft | quiz_web_app/app.py:81-87 | 0 before a quiz starts; otherwise the time left plus the time elapsed is the 60-second limit |
| QuizWeb.TimeUp | quiz_web_app/app.py:159-162 | time is up exactly when no quiz started or 60 seconds have passed |
| QuizWeb.PlayerName | quiz_web_app/app.py:113-118 | the stripped name typed, or "Guest" when that is empty; never empty |
| QuizWeb.FilterChoice | quiz_web_app/app.py:123-127 | "Any" means no filter; any other answer is kept as it is |
| QuizWeb.AnyPlaysEverything | quiz_web_app/app.py:123-129 | choosing "Any" twice plays the whole bank |
| QuizWeb.Gained | quiz_web_app/app.py:182-195 | in half-points, 2 for a right answer without a hint, 1 with one, 0 for a wrong answer |
| QuizWeb.HintsAfter | quiz_web_app/app.py:178-180 | a flagged hint is counted exactly when fewer than one has been used, so the count stays between 0 and 1 |
| QuizWeb.HintsLeft | quiz_web_app/app.py:238 | `max(0, 1 - hints_used)`: what is left of the allowance, never negative |
| QuizWeb.CountCorrect | quiz_web_app/app.py:290 | the right answers are at most the answers logged; all of them when every answer is right, none when none is |
| QuizWeb.CountCorrectSnoc | quiz_web_app/app.py:290 | one more logged answer adds one exactly when it is right |
| QuizWeb.ScoreBetween | quiz_web_app/app.py:182-195 | the score lies between one half-point and two half-points for every right answer |
| QuizWeb.OrAny | quiz_web_app/app.py:270-271 | a falsy filter is shown as "Any" |
| QuizWeb.QuizSession.constructor | quiz_web_app/app.py:150-154 | a fresh cookie: no quiz, no questions, every counter 0 |
| QuizWeb.QuizSession.SetupQuiz | quiz_web_app/app.py:61-78 | the filtered and shuffled questions, the filters and the name are stored, the clock starts and every counter restarts |
| QuizWeb.QuizSession.StartForm | quiz_web_app/app.py:112-130 | the start form stores "Guest" for an empty name, drops "Any" filters and sets up the quiz |
| QuizWeb.QuizSession.HomeHistory | quiz_web_app/app.py:99-106 | a returning player sees exactly their own attempts, and nobody else sees any |
| QuizWeb.QuizSession.Quiz | quiz_web_app/app.py:141-241 | no questions send home; time up ends the quiz; a post past the last question is a server error; a post with an answer logs it, scores it and moves on, and one without an answer changes nothing but the hint count; the page shows the next question with its feedback, or the result when none is left |
| QuizWeb.QuizSession.Answer | quiz_web_app/app.py:173-214 | an answer moves to the next question, adds its half-points and appends its log entry with feedback; a missing answer changes only the hint count |
| QuizWeb.QuizSession.Result | quiz_web_app/app.py:244-307 | the attempt is appended to the saved scores; the leaderboard and the history are built from them; the right answers are the logged answers marked correct, and right and wrong answers add up to the answers logged |
| QuizWeb.LogScoreSnoc | quiz_web_app/app.py:190-206 | appending an entry adds its points to the score |
| QuizWeb.History | quiz_web_app/app.py:287 | exactly the attempts under the player's name |
| QuizWeb.Leaderboard | quiz_web_app/app.py:279-284 | the ten attempts shown, or all when fewer, are saved attempts |
| QuizWeb.LeaderboardTop | quiz_web_app/app.py:279-284 | the ten best attempts, or all of them when fewer, best first, drawn from the scores; any attempt left off ranks no higher than any shown |
| QuizWeb.TopOfSorted | quiz_web_app/app.py:280-284 | the first entries of a list sorted best first, and nothing better left behind |
| QuizWeb.ResultShowsAttempt | quiz_web_app/app.py:276-287 | the player's own attempt is always part of their history |
| Ranking.StrLessIrreflexive | quiz_web_app/app.py:282 | no timestamp sorts before itself |
| Ranking.StrLessTransitive | quiz_web_app/app.py:282 | the string order is transitive |
| Ranking.StrLessTotal | quiz_web_app/app.py:282 | any two different strings are ordered |
| Ranking.LessIrreflexive | quiz_web_app/app.py:282 | no key ranks below itself |
| Ranking.LessTransitive | quiz_web_app/app.py:282 | the order on `(score, timestamp)` keys is transitive |
| Ranking.LessTotal | quiz_web_app/app.py:282 | any two different keys are ordered |
| Ranking.Insert | quiz_web_app/app.py:280-284 | one more element and otherwise the same elements |
| Ranking.SortDesc | em_impact_app/app.py:432 | `sort(..., reverse=True)`: the same elements, as a multiset |
| Ranking.InsertNoneAbove | em_impact_app/app.py:432 | inserting an element no higher than a bound keeps everything no higher than it |
| Ranking.InsertSorted | em_impact_app/app.py:432 | insertion keeps a list sorted best first |
| Ranking.SortDescSorted | em_impact_app/app.py:432 | the sort's output is ordered best first |
| Ranking.WithKeyAppend | em_impact_app/app.py:432 | picking out the elements of one key distributes over concatenation |
| Ranking.WithKeyNone | em_impact_app/app.py:432 | a list of lower keys holds none of the key |
| Ranking.InsertStable | em_impact_app/app.py:432 | an inserted element goes after the elements whose key equals its own |
| Ranking.SortDescStable | em_impact_app/app.py:432 | Python's sort is stable, reversed order included: elements with equal keys keep their original order |
| Ranking.StableStep | em_impact_app/app.py:432 | one insertion step keeps the order of equal keys |
| Ranking.InsertDistinct | em_impact_app/app.py:426-432 | inserting a new id keeps the ids distinct |
| Ranking.SortDescDistinct | em_impact_app/app.py:426-432 | sorting keeps distinct ids distinct |
| Ranking.Take | quiz_web_app/app.py:284 | `[:n]`: a prefix of length n, or the whole list when shorter |
| RowPreview.CheckColumns | Assgn2/Ex3.py:28-33 | ready exactly when every required column is present; otherwise the `ValueError` names exactly the absent ones, and at least one |
| RowPreview.ClassifyRows | Assgn2/Ex3.py:74-89 | Enter skips, "all" in any case shows everything, and a digit string (leading zeros allowed, as `isdigit` and `int` allow them) whose value lies from 1 to one below the row count shows that many rows; the answer prompts again exactly when it is none of these |
| RowPreview.DisplayRows | Assgn2/Ex3.py:68-89 | the loop ends at the first answer accepted, with its preview |
| RowPreview.AllInAnyCase | Assgn2/Ex3.py:74-79 | "ALL", "All" and the like, padded with whitespace, show the whole table |
| RowPreview.CountAccepted | Assgn2/Ex3.py:83-87 | a typed count is accepted exactly from 1 to one below the row count |
| RowPreview.TinyTableTakesNoCount | Assgn2/Ex3.py:71-83 | a table of at most one row takes no count at all |
| RowPreview.DisplayRowsStops | Assgn2/Ex3.py:69-89 | the first accepted answer ends the loop after that many lines |
| SalesDashboard.AnyPresent | Assgn2/Extracredit.py:503 | true exactly when some of the alternative names is a column |
| SalesDashboard.HasRequirements | Assgn2/Extracredit.py:498-508 | true exactly when every non-empty plain name is a column and every tuple has a name that is |
| SalesDashboard.FirstPresent | Assgn2/Extracredit.py:226-229 | the first listed name that is a column, or none when no name is |
| SalesDashboard.ResolveRegionColumn | Assgn2/Extracredit.py:217-222 | "sales_region" when present, else "customer_state" when present, else none |
| SalesDashboard.RegionResolves | Assgn2/Extracredit.py:175-222 | a region tuple of the requirements is met exactly when a region column resolves |
| SalesDashboard.ResolveUnitPriceColumn | Assgn2/Extracredit.py:224-229 | none exactly when no price name is a column; otherwise a price name that is |
| SalesDashboard.AnyOfResolves | Assgn2/Extracredit.py:226-229 | a tuple is met exactly when its first present name exists |
| SalesDashboard.KeepSatisfied | Assgn2/Extracredit.py:510-516 | exactly the menu entries whose requirements hold |
| SalesDashboard.BuildMenu | Assgn2/Extracredit.py:478-523 | the entries whose requirements hold, in order, then the three extras |
| SalesDashboard.KeepSatisfiedOrdered | Assgn2/Extracredit.py:510-516 | dropping entries keeps the rest in their defined order |
| SalesDashboard.MenuRanks | Assgn2/Extracredit.py:484-522 | the core menu is in its numbered order 1 to 10, and the extras come 11 to 13 |
| SalesDashboard.MenuShape | Assgn2/Extracredit.py:478-523 | for any columns, the menu ends with the three extras, keeps its order, holds a core entry exactly when its requirements hold, and always offers the first rows, the custom pivot and exit |
| SalesDashboard.RequiredMap | Assgn2/Extracredit.py:170-181 | at most four requirements; none exactly for the entries without a check (first rows, custom pivot, exit and the extras); every alternative group is the region or the price names |
| SalesDashboard.RequiredMapFixed | Assgn2/Extracredit.py:170-181 | the table as written, with the region requirement added to the total-sales entry and nothing else changed |
| SalesDashboard.TotalSalesOfferedWithoutRegion | Assgn2/Extracredit.py:172-263 | with only "sales" and "order_type", the total-sales entry is offered although the analytic refuses to run |
| SalesDashboard.FixedMenuOffersOnlyRunnable | Assgn2/Extracredit.py:170-181 | with the region requirement added, every core entry offered passes its own column check |
| SalesDashboard.FixedRequirementsSuffice | Assgn2/Extracredit.py:170-181 | each corrected requirement list satisfies the column test inside its analytic |
| SalesDashboard.Parsed | Assgn2/Extracredit.py:376 | each comma piece goes through `int(x.strip())` |
| SalesDashboard.Pick | Assgn2/Extracredit.py:377-378 | the option numbered k from 1 when in range, and nothing otherwise |
| SalesDashboard.Picks | Assgn2/Extracredit.py:374-378 | at most one pick per token, each one of the options |
| SalesDashboard.MultiChoice | Assgn2/Extracredit.py:365-381 | an empty answer picks nothing; otherwise at most one pick per comma piece, each one of the options |
| SalesDashboard.GetMultiChoice | Assgn2/Extracredit.py:365-381 | the loop returns what the definition of the selection says |
| SalesDashboard.PicksStopAtRefusal | Assgn2/Extracredit.py:374-380 | the first piece that is not a number ends the picks, and those made before it are kept |
| SalesDashboard.PicksOfNumbers | Assgn2/Extracredit.py:375-378 | numbers in range each add their option, in order, repeats included |
| SalesDashboard.MultiChoiceOfList | Assgn2/Extracredit.py:365-381 | typing "2,1,2" and the like picks those options in that order |
| SalesDashboard.PicksFromOptions | Assgn2/Extracredit.py:375-378 | at most one pick per piece, each an option |
| SalesDashboard.MultiChoiceMembers | Assgn2/Extracredit.py:365-381 | every pick is one of the options |
| SalesDashboard.NumeralList | Assgn2/Extracredit.py:370-375 | a comma list of numerals survives the strip and splits back into them |
| SalesDashboard.DigitList | Assgn2/Extracredit.py:375 | digit strings joined by commas start and end with a digit, hold no colon and split back into them |
| SalesDashboard.Range | Assgn2/Extracredit.py:84 | the positions from `lo` up to but not including `hi` |
| SalesDashboard.SliceBound | Assgn2/Extracredit.py:84 | a slice bound as Python reads it: a negative bound counts from the end, and the result is clamped to the table |
| SalesDashboard.DigitTokens | Assgn2/Extracredit.py:86 | at most one row per token |
| SalesDashboard.TokenKept | Assgn2/Extracredit.py:86 | a token keeps at most one value, and exactly the value of its digits when it is a digit string once stripped |
| SalesDashboard.DigitTokensMembers | Assgn2/Extracredit.py:86 | the values kept are exactly the values of the tokens that are digit strings once stripped; any other token (`x` in `1,x,3`) is dropped |
| SalesDashboard.DigitTokensAppend | Assgn2/Extracredit.py:86 | the comprehension keeps the order of the tokens: two lists put together keep the values of each, in turn |
| SalesDashboard.DigitTokensSingle | Assgn2/Extracredit.py:86 | one token gives its value when it is a digit string once stripped, and nothing otherwise |
| SalesDashboard.BoundOrDefault | Assgn2/Extracredit.py:82-83 | an empty piece takes the default, any other goes through `int()` |
| SalesDashboard.RangeMembers | Assgn2/Extracredit.py:84 | a position is in `range(lo, hi)` exactly when it lies between the ends |
| SalesDashboard.SliceRows | Assgn2/Extracredit.py:79-90 | only positions of the table; anything but two pieces, or a piece `int()` refuses, falls back to every row; two empty pieces keep every row; otherwise exactly the positions between the two bounds, each defaulted, counted from the end when negative and clamped |
| SalesDashboard.ListRows | Assgn2/Extracredit.py:86-89 | the listed positions when all are in the table; otherwise the `IndexError` falls back to all rows |
| SalesDashboard.RowRange | Assgn2/Extracredit.py:74-90 | only positions of the table; an empty answer keeps every row |
| SalesDashboard.SliceBranch | Assgn2/Extracredit.py:80-84 | an answer with a colon is read as a slice |
| SalesDashboard.RowRangeFrom | Assgn2/Extracredit.py:81-84 | "lo:" keeps the rows from lo to the end, by the default `len(df)` |
| SalesDashboard.RowRangeUpTo | Assgn2/Extracredit.py:81-84 | ":hi" keeps the rows from the first up to hi, by the default 0 |
| SalesDashboard.RowRangeExtraColon | Assgn2/Extracredit.py:80-90 | a second colon makes the unpacking fail, and every row is kept |
| SalesDashboard.RowRangeBadStart | Assgn2/Extracredit.py:80-90 | a start `int()` refuses (such as "a:3") falls back to every row |
| SalesDashboard.RowRangeTokens | Assgn2/Extracredit.py:85-87 | a comma list keeps the rows of its digit tokens, in order, and drops the other tokens before `iloc` |
| SalesDashboard.RowRangeSlice | Assgn2/Extracredit.py:80-84 | "lo:hi" within the table keeps the rows from lo up to hi |
| SalesDashboard.RowRangeOpenSlice | Assgn2/Extracredit.py:82-83 | ":" keeps every row, by the two defaults |
| SalesDashboard.RowRangeList | Assgn2/Extracredit.py:86-87 | a comma list of positions in the table keeps exactly those rows in that order |
| SalesDashboard.SliceOfNumerals | Assgn2/Extracredit.py:81-84 | two numerals within the table give their slice |
| SalesDashboard.DigitTokensOfNumerals | Assgn2/Extracredit.py:86 | numerals are read back as their values |
| SalesDashboard.InitialRows | Assgn2/Extracredit.py:232-251 | an empty answer skips; an answer is accepted exactly when it is "all" in any case or a count from 1 to the row count; "all" gives every row and an accepted count gives itself |
| SalesDashboard.InitialRowsNumber | Assgn2/Extracredit.py:244-251 | a typed count is accepted exactly from 1 to the row count |
| SalesDashboard.InitialRowsAll | Assgn2/Extracredit.py:237-242 | "all" in any case, padded, shows every row |
| SalesDashboard.AnalyticsStore.constructor | Assgn2/Extracredit.py:18 | the store starts empty |
| SalesDashboard.AnalyticsStore.AddToStore | Assgn2/Extracredit.py:108-110 | a table is stored under its name, replacing any earlier one and keeping the name's first place; anything else is ignored; other names keep their tables |
| SalesDashboard.AnalyticsStore.DisplayInitialRows | Assgn2/Extracredit.py:232-255 | a skipped or refused answer returns nothing and leaves the store alone; an accepted one returns the first rows and stores them under "First_n_rows" |
| SalesDashboard.PyIndex | Assgn2/Extracredit.py:469 | Python indexing: from the front for 0 and up, from the end for negatives, and an `IndexError` outside |
| SalesDashboard.PickKey | Assgn2/Extracredit.py:467-469 | a key exactly when the number typed lies above minus the key count and at most the key count |
| SalesDashboard.CompareTwoResults | Assgn2/Extracredit.py:458-475 | fewer than two results are refused; otherwise both stored names are shown exactly when both picks index the keys |
| SalesDashboard.CompareListed | Assgn2/Extracredit.py:467-473 | picks from 1 to the count show the results with those numbers |
| SalesDashboard.PickKeyOf | Assgn2/Extracredit.py:469 | a number in range picks the key at `number - 1`, counted from the end when negative |
| SalesDashboard.CompareZeroWraps | Assgn2/Extracredit.py:469 | a first pick of 0 shows the last stored result |
| SalesDashboard.CompareTyped | Assgn2/Extracredit.py:466-473 | typing two listed numbers shows those two results |
| SalesDashboard.CustomPivot | Assgn2/Extracredit.py:383-418 | the pivot stops for no rows, no numeric columns, no values or no aggregation, in that order; a plan built aggregates exactly the values picked from the numeric columns, groups by chosen columns, never reuses a row column as a column, aggregates numeric values and uses a listed aggregation |
| SalesDashboard.ShowMenu | Assgn2/Extracredit.py:525-536 | the choice is a number in the menu's range typed on the last line read, and input runs out only when every line is refused |
| Strain.Clamp | em_impact_app/app.py:541-542 | for `lo <= hi` the result lies between the bounds; a value already inside is unchanged; one above gives `hi` (or `lo` when the bounds cross, as `max` wins); one below gives `lo` |
| Strain.AlertPoints | em_impact_app/app.py:583 | four points per alert, capped at 18 |
| Strain.ShelterPoints | em_impact_app/app.py:586-591 | 10 points from a need of 5000, 6 from 1000, 3 above 0, none otherwise |
| Strain.LevelOf | em_impact_app/app.py:594 | Low exactly up to 30, Moderate exactly from 31 to 60, High exactly above 60 |
| Strain.ComputeStrain | em_impact_app/app.py:568-595 | the running sum of the method is the severity term plus the hazard, alert and shelter points, clamped to 0..100, with its level |
| Strain.RawStrain | em_impact_app/app.py:572-591 | the running sum is the severity term plus at most 66 hazard, alert and shelter points, and exactly the severity term when nothing is active |
| Strain.AlertsCapped | em_impact_app/app.py:583 | beyond four alerts, further alerts leave the index unchanged |
| Strain.StrainMonotoneInSeverity | em_impact_app/app.py:572-591 | a higher severity never gives a lower score |
| Strain.RawStrainRange | em_impact_app/app.py:572-591 | for severities 1 to 5 the unclamped sum lies between 8 and 106, so only the upper clamp can bite |
| Strain.RoundHalfEven | em_impact_app/app.py:618-626 | Python's `round` of `n / d`: within half a unit of the fraction, and an exact tie goes to the even integer |
| Strain.ActivationFor | em_impact_app/app.py:602-611 | no activation exactly when the score is at most 25 and the severity at most 2; partial exactly when otherwise the score is at most 55; full exactly above 55 |
| Strain.BaseTotal | em_impact_app/app.py:602-611 | the base head count is 0 exactly for no activation |
| Strain.Recommend | em_impact_app/app.py:597-633 | the activation of the table; no activation staffs nobody; otherwise the total is the scaled count clamped between the base and 40, the liaison count is never negative and the sections add up to at least the total |
| Strain.SectionShares | em_impact_app/app.py:621-625 | each section gets its share of the total (38, 22, 18, 12 and 7 percent) rounded to the nearest head |
| Strain.Posture | em_impact_app/app.py:742-745 | the closing line keeps monitoring exactly when the recommendation is "No EOC activation necessary", and otherwise implements it |
| Strain.HazardActions | em_impact_app/app.py:733-740 | one line per active signal (alerts, road closures, water shutoffs or restrictions), each at most once, in that order: the alerts line first and the water line last |
| Strain.RecommendedActions | em_impact_app/app.py:729-746 | two to five lines, first the protective-actions line and last the posture line; the alerts, roads and water lines appear exactly when their signal is active; monitoring appears exactly when no activation is recommended; no line repeats; the lines between the first and the last are exactly `HazardActions`, in their order |
| Strain.BracketedMembers | em_impact_app/app.py:729-746 | between the first and the last line, the hazard lines present are those of the middle part, and monitoring can only be the last line |
| Strain.BracketedDistinct | em_impact_app/app.py:729-746 | the first and last lines differ from the hazard lines and from each other |
| Shuffling.Permute | A3/app.py:23 | the shuffled list has the same length, and position i holds the element that came from position `order[i]` |
| Shuffling.PermuteKeepsElements | A3/app.py:23 | a shuffle loses no element and adds none |
| Shuffling.PermutationCovers | A3/app.py:23 | every position of the list is the source of some position of the shuffle |
| Shuffling.ImageSize | A3/app.py:23 | a list of positions without repeats lists as many positions as it has entries |
| Shuffling.PermuteIdentity | A3/app.py:23 | the order that moves nothing is a permutation, and shuffling by it changes nothing |
| Text.DigitChar | Assgn2/Extracredit.py:244 | the digit character of a value below ten reads back as that value |
| Text.LowerChar | Lab6/Lab6EC.py:9 | `lower()` on one character: capitals move to small letters, everything else is kept |
| Text.UpperChar | Final/final.py:128 | `upper()` on one character: small letters move to capitals, everything else is kept |
| Text.StripLeft | final2/final2.py:129 | what is left after the leading whitespace: a suffix that starts with a non-space, everything before it whitespace |
| Text.StripRight | final2/final2.py:129 | what is left before the trailing whitespace: a prefix that ends with a non-space, everything after it whitespace |
| Text.Strip | final2/final2.py:129 | `strip()`: never longer, and neither starting nor ending with whitespace. Whitespace is what Python's `str.isspace` accepts: tab to carriage return, the separators 28 to 31, the space, and the Unicode spaces and line separators (U+0085, U+00A0, U+1680, U+2000 to U+200A, U+2028, U+2029, U+202F, U+205F, U+3000) |
| Text.StripUnchanged | final2/final2.py:129 | text without padding is left as it is |
| Text.StripPadded | Lab6/Lab6EC.py:9 | padding on both sides is removed exactly |
| Text.StripStrip | Final/final.py:69-127 | stripping twice is stripping once |
| Text.ParseInt | Assgn2/Extracredit.py:118 | `int()` accepts exactly an optional sign followed by digit groups once stripped; the value is the sign (-1 after "-", else 1) times the digits with the underscores dropped; a digit string gives its value |
| Text.ParseStripped | Assgn2/Extracredit.py:118 | the same on text already stripped |
| Text.Unsigned | Assgn2/Extracredit.py:118 | the text without its sign is digit groups exactly when the whole is an `int()` literal |
| Text.ParseIntSigned | Assgn2/Extracredit.py:118 | a sign in front of a printed count, padded or not, reads back with its sign: "-3" is -3 and "+2" is 2 |
| Text.ParseIntUnderscore | Assgn2/Extracredit.py:118 | an underscore between two digit strings is dropped: "1_000" is 1000 |
| Text.DigitsHaveNoUnderscore | Assgn2/Extracredit.py:118 | a digit string is a digit group with no underscore to drop |
| Text.Pow10 | em_impact_app/app.py:327 | a power of ten is at least 1 |
| Text.ParseIntStrip | Assgn2/Extracredit.py:118 | `int()` ignores surrounding whitespace, so stripping first changes nothing |
| Text.Lower | Lab6/Lab6EC.py:9 | the same length, each character lower-cased |
| Text.Upper | Final/final.py:128 | the same length, each character upper-cased |
| Text.LowerDigits | Assgn2/Ex3.py:74-83 | lower-casing leaves digits alone |
| Text.RemoveChar | final2/final2.py:109 | `replace(c, "")` never lengthens the text |
| Text.RemoveCharMembers | final2/final2.py:109 | exactly the other characters remain |
| Text.RemoveCharAbsent | final2/final2.py:109 | removing a character that does not occur changes nothing |
| Text.RemoveCharAppend | final2/final2.py:109 | removal distributes over concatenation |
| Text.GroupsWithoutUnderscores | Assgn2/Extracredit.py:118 | `int()` digit groups without their underscores are plain digits |
| Text.NatToString | Assgn2/Extracredit.py:114-115 | the decimal numeral of a count is a digit string |
| Text.NatToStringValue | Assgn2/Extracredit.py:114-115 | the numeral reads back as its value |
| Text.ParseIntOfNatToString | Assgn2/Extracredit.py:118 | `int()` of a printed count is that count |
| Text.ParseIntPadded | Assgn2/Extracredit.py:116-118 | padding around a numeral does not stop `int()` |
| Text.ParseIntOfDigits | Assgn2/Extracredit.py:247 | `int()` of a digit string is its value |
| Text.ParseIntNeedsDigit | Assgn2/Extracredit.py:118-121 | text without a digit is a `ValueError` |
| Text.StripKeepsChars | final2/final2.py:90 | stripping only removes characters |
| Text.Split | Assgn2/Extracredit.py:375 | `split(sep)` gives at least one piece, none holding the separator |
| Text.SplitJoin | Assgn2/Extracredit.py:375 | joining the pieces with the separator gives back the text |
| Text.SplitAfterPiece | Assgn2/Extracredit.py:81 | a piece followed by the separator is split off first |
| Text.SplitOfJoin | Assgn2/Extracredit.py:375 | pieces without the separator, joined, split back into themselves |
| Text.SplitWithoutSeparator | Assgn2/Extracredit.py:80-86 | text without the separator is one piece |
| Text.SplitHeadPrefix | Assgn2/Ex5.py:133 | the first piece is a prefix of the text |
| Text.MapChar | em_impact_app/app.py:219 | `replace(a, b)` for one character: the same length, each `a` turned into `b` |
| Text.ReplaceAllAbsent | em_impact_app/app.py:219 | replacing a pattern that cannot occur changes nothing |
| Text.Without | Assgn2/Ex3.py:31 | exactly the names of the first list that the second lacks, and no more names than the first list has; it is both the missing-columns list and the pivot column options of Assgn2/Extracredit.py:394 |
| Text.WithoutAppend | Assgn2/Ex3.py:31 | the filter of two lists put together is theirs, in order, so the missing columns keep the order of the required list |
| Text.WithoutIdempotent | Assgn2/Ex3.py:31 | filtering again gives the result back unchanged |
| WindSpeed.Run | em_impact_app/app.py:320-325 | the longest leading stretch of digits and dots: a prefix of the text, all number characters, ended by the text's end or by a non-number character |
| WindSpeed.IndexOf | em_impact_app/app.py:327-328 | the first position of the character, or none when it does not occur |
| WindSpeed.ParseDecimal | em_impact_app/app.py:327-330 | `float()` of a run of digits and dots succeeds exactly when the run holds a digit and at most one dot; the value is never negative |
| WindSpeed.PointValue | em_impact_app/app.py:327 | the value of "whole.frac": scaled by ten to the length of frac, it is the whole digits followed by the fraction digits |
| WindSpeed.NoPointNumeral | em_impact_app/app.py:327 | a run without a dot is a numeral exactly when it has a digit |
| WindSpeed.PointNumeral | em_impact_app/app.py:327 | a run with its first dot at k is a numeral exactly when it has a digit and no second dot |
| WindSpeed.IndexOfFirst | em_impact_app/app.py:327 | a dot with none before it is the first one found |
| WindSpeed.DecimalValue | em_impact_app/app.py:327 | digits, a dot and digits, with at least one digit, parse as their exact decimal value (Python rounds it to a double; see "## Left out") |
| WindSpeed.TwoPointFive | em_impact_app/app.py:327 | the value of "2.5" is 2.5 |
| WindSpeed.TwoPointsRefused | em_impact_app/app.py:327-330 | a run with two dots, such as "1.2.3", is refused by `float()` and gives none |
| WindSpeed.RunOfNumber | em_impact_app/app.py:320-325 | a run of number characters followed by a non-number character is read whole |
| WindSpeed.RunOfNumberChars | em_impact_app/app.py:320-325 | number characters followed by the end of the text or by another character are read as the run, exactly those characters |
| WindSpeed.PointNumeralChars | em_impact_app/app.py:323 | "whole.frac" is made of number characters |
| WindSpeed.UnpaddedEnd | em_impact_app/app.py:318 | a reading that ends in a non-space ends unpadded |
| WindSpeed.ReadingOfRun | em_impact_app/app.py:318-330 | an unpadded reading that is a numeral followed by a unit gives the value of the numeral |
| WindSpeed.DecimalReading | em_impact_app/app.py:310-330 | a reading such as "2.5 mph" gives the exact decimal value of the numeral (Python rounds it to a double; see "## Left out") |
| WindSpeed.WindSpeedOf | em_impact_app/app.py:310-330 | `None` gives none and a number gives itself; text gives a reading exactly when its first run of digits and dots, after stripping, is a decimal numeral, and that reading is never negative |
| WindSpeed.ScanRun | em_impact_app/app.py:319-325 | the loop collects exactly the first run of number characters in the text |
| WindSpeed.ScanStep | em_impact_app/app.py:320-325 | one step of the scan: a number character extends the run, any other character before a run is skipped |
| WindSpeed.ScanAt | em_impact_app/app.py:320-325 | the same step at position `i` of the text |
| WindSpeed.ParseWindSpeed | em_impact_app/app.py:310-330 | the reading of the method is the reading of the definition: none for a missing value, the number itself for a number, and the parsed first run for text |
| WindSpeed.FirstRunLocated | em_impact_app/app.py:320-325 | the run found lies at `[a, b)`: nothing before it is a number character, all of it is, and it ends at the end of the text or before a non-number character |
| WindSpeed.WholeNumberReading | em_impact_app/app.py:310-330 | a reading such as "20 mph" gives exactly 20 |
| WindSpeed.DigitsReading | em_impact_app/app.py:310-330 | digits followed by a unit give the exact value of the digits (Python rounds above 2^53) |
| WindSpeed.FirstRunOfDigits | em_impact_app/app.py:320-325 | the scan stops where the digits end |
| WindSpeed.NumberTextStripped | em_impact_app/app.py:318 | stripping leaves digits followed by a unit unchanged |
| WindSpeed.ParseWholeNumber | em_impact_app/app.py:327 | a run without a dot parses as its exact integer value (Python rounds above 2^53) |
| WindSpeed.RunOfDigits | em_impact_app/app.py:320-325 | the run starting at digits is those digits when a non-number character follows |
| WindSpeed.IndexOfDigits | em_impact_app/app.py:327 | a run of digits has no dot |
| WindSpeed.NoDigitNoReading | em_impact_app/app.py:310-330 | text without a digit gives no reading |
| WindSpeed.RunWithoutDigits | em_impact_app/app.py:320-325 | the run found in such text has no digit either |
| WindSpeed.DecimalNeedsDigit | em_impact_app/app.py:327-330 | a run of dots alone is refused by `float()` |
| PdfText.DeOkina | em_impact_app/app.py:217-219 | the chain of replacements is the character rewrite of the text (of "" for `None`); it holds no okina and no right quote, and is never longer than the text |
| PdfText.CleanChars | em_impact_app/app.py:217-219 | the cleaned text is never longer than the original |
| PdfText.MapAfterRemove | em_impact_app/app.py:219 | removing the okina and then turning right quotes into apostrophes is the one-character-at-a-time rewrite |
| PdfText.MapCharAppend | em_impact_app/app.py:219 | replacing one character distributes over concatenation |
| PdfText.CleanCharsFree | em_impact_app/app.py:219 | no okina and no right quote survive the rewrite |
| PdfText.DeOkinaCharwise | em_impact_app/app.py:217-219 | the whole chain of replacements, the final "Hawaiʻi" one included, is the character rewrite of the text or of "" for `None` |
| PdfText.DeOkinaFree | em_impact_app/app.py:217-219 | the PDF text never holds an okina or a right quote |
| PdfText.CleanCharsIdle | em_impact_app/app.py:219 | text without those characters is left as it is |
| PdfText.DeOkinaIdempotent | em_impact_app/app.py:217-219 | cleaning twice gives the same as cleaning once |
| PdfText.DeOkinaExamples | em_impact_app/app.py:217-219 | "Hawaiʻi" becomes "Hawaii" and `None` becomes "" |
| PdfText.CleanHawaii | em_impact_app/app.py:219 | the character rewrite of "Hawaiʻi" is "Hawaii" |
| PdfText.CleanAroundOkina | em_impact_app/app.py:219 | an okina between clean pieces is simply dropped |
| PdfText.CleanCharsAppend | em_impact_app/app.py:219 | the rewrite distributes over concatenation |

## Left out

- Network access: the Census, FEMA, ArcGIS and NWS calls, the RSS fetch, and the page fetches in both scrapers. A fetched page is a parameter (`None` for a failed fetch); `StateTool.PageAddress` only builds the address.
- HTML parsing with BeautifulSoup. The scrapers' text search applies to the page text as given.
- PDF and chart building with ReportLab and matplotlib.
- Flask plumbing: routes, templates, security headers, the login decorator, cookies and `client_key`. Sessions are plain fields of a class, and a redirect or page is a value of a `Page` datatype.
- pandas and file work, which are table computations or I/O:
  - CSV, JSON and Excel reading and writing: `load_sales_data`, the score file, the logs, `export_prompt`;
  - `pivot_table`, `fill_pivot`, the groupby analytics, `percent_qty_sales_by_region_product`;
  - the date filtering behind `ask_date_range` and `with_subset`.
  - Their results appear in the model only as opaque values in the store.
- `show_saved_results` and the other functions that only print, such as `build_sit_summary` and the constant prints of `expressions_tutorial.py`.
- `get_jurisdiction_population` is a network call and is left out.
- `safe_int` is applied only to values that call returns, and is left out with it. On a string it would be `Text.ParseInt` with a default.
- `compute_assumptions` is floating-point arithmetic and is left out, and so are `c_to_f` and `meters_per_sec_to_mph`.
- Floating-point quantities that are left out:
  - the gallon conversions and POD water;
  - the vehicle counts of `estimate_traffic`;
  - the evacuation percentage;
  - a shelter percentage typed as a float;
  - the quiz progress percentage.
- The de facto uplift `int(resident * (1 + pct / 100))` is computed exactly here (`PlanningNeeds.DeFacto`). Python's binary floating point can land one below this for some inputs.
- PlanningNeeds.PercentOf: a typed shelter percentage goes through `float()` (final2/final2.py:335, Final/final.py:163), and `int(n * (p / 100.0))` in binary floating point can land one below the exact truncation (100 people at 29 percent give 28). The exact truncation is meant to stand for Python's result only with the preset percentages 10, 15, 20, 25 and 40.
- WindSpeed.ParseDecimal: `float(num)` (em_impact_app/app.py:328) returns the nearest binary double, while the model's reading is the exact decimal value of the numeral. The two agree on whole numbers below 2^53 and on fractions with a power-of-two denominator such as 2.5; for "2.1" Python holds 2.100000000000000088…, the model 21/10.
- WindSpeed.PointValue: the exact value of "whole.frac", standing for `float()`'s nearest double as the ParseDecimal line says.
- DecimalValue: states the exact decimal value of "whole.frac"; Python's `float()` rounds it to the nearest double.
- DecimalReading: a reading such as "2.1 mph" gives exactly 21/10 here; Python gives the nearest double.
- DigitsReading: digits followed by a unit give their exact value here; Python's `float()` rounds values above 2^53.
- ParseWholeNumber: a run without a dot gives its exact integer here; Python's `float()` rounds values above 2^53.
- `HawaiiTool.ClearanceHours` uses exact real division where Python divides in floating point.
- Strain.Recommend: the staffing split is stated as `lno >= 0` and a section sum of at least the total. Python rounds each share of `round(total * fraction)` in floating point, so the exact sum is not stated.
- Text: `isdigit`, `upper` and `lower` are ASCII only; whitespace is the full set of `str.isspace`. Python also accepts other Unicode digits and letters, so `A1/Quiz7.py` taking "²" or an Arabic-Indic digit as a digit is not modelled. Python's limit on the length of digit strings given to `int()` is not modelled either.
- PopulationText.MatchAt: the phrase "population of" is matched with ASCII case folding. Under `re.IGNORECASE` Python also lets the dotted capital I (U+0130) and the dotless small i (U+0131) stand for its "i", and that is not modelled.
- `CliQuiz`: running out of input ends the game with what was scored so far. The Python program would stop with `EOFError` instead.
- `A3Quiz` and `QuizWeb`: posting an answer once the questions are used up raises `IndexError` in Python. Here it is the `ServerError` page.
- Broken code is not modelled:
  - `display_menu` in `Assgn2/Ex4.py` calls `display_rows` while it builds the menu and unpacks a function;
  - `estimate_traffic` returns four values on the error path but five on success;
  - the pandas exceptions of a pivot over missing columns are not modelled.
- `Progress`: the `assert` lines of `Lab6/Ex3.py` are stated as lemmas about the function's actual outputs (`Progress.TestVectors`), including the four cases where the script expects other messages.

## Findings

| source | as written | input that shows it | evidently intended | confidence | as-written member | corrected member |
|---|---|---|---|---|---|---|
| Assgn2/Extracredit.py:172 | the requirements for "Total sales by region and order_type" list only the sales and order-type columns. So the menu offers that analytic for a table with no region column, and `total_sales_by_region_and_order_type` then fails its own region check | columns `["sales", "order_type"]` | the analytic needs a region column too, as its own body does (`Assgn2/Extracredit.py:260-263`) | not executed | SalesDashboard.TotalSalesOfferedWithoutRegion | SalesDashboard.FixedMenuOffersOnlyRunnable |

The corrected table of requirements is `SalesDashboard.RequiredMapFixed`. `SalesDashboard.FixedRequirementsSuffice` proves that each of its entries is enough for its analytic's own checks.
