# Court-reporting grammar trainer: a verified model of its core

The application is a single-page React trainer for court reporters. A user works through
lessons, practice exercises, configurable quizzes and courtroom scenarios; a context provider
keeps one progress record and mirrors it to browser storage; a progress page is meant to
summarise the record (as written it reads lists the record lacks and throws, see Findings); a
reference guide can be searched. This project models the logic behind those pages in
Dafny and proves what each piece promises:

- **The progress record** (`src/context/UserContext.jsx`). The record is a datatype. Each updater
  handed to `setUser` is a pure record-to-record function: shallow merge, lesson completion
  through a `Set`, a new quiz score, the practice rollup, and the direct statistics update. The
  provider is a class holding the current `user` and an abstract `store` (key to record) that
  every change is written to.
- **The quiz page** (`src/components/Quiz.jsx`). It has the question bank, and pool selection by
  category and difficulty. The shuffle is any permutation, followed by truncation. It has the
  answer map, the counting loop and the rounded percentage. The page is a class with the
  configuration, active and results views, the clamped cursor and the submit gate.
- **The practice page** (`src/components/Practice.jsx`). It has the same shape over five fixed
  exercises. Its score is always a multiple of 20, and it is handed to the record's
  `addPracticeScore`.
- **The scenario stepper** (`src/components/Scenarios.jsx`). It is a class with two fields, the
  selected scenario id and the current step, driven by the page's buttons.
- **The progress page** (`src/components/Progress.jsx`). It has the average with its empty-list
  guard, the recent-activity feed (three loops, then newest first, then ten kept), the
  skill-area ratios and the achievement predicates. The page reads several lists the record does
  not hold (`quizResults`, `scenarioProgress`, `streak`), so as written it throws on every
  render; these computations take their lists as parameters.
- **The reference search** (`src/components/Reference.jsx`). The categories are flattened and
  filtered by a case-insensitive substring match and by category.

Shared modules model the JavaScript the pages rely on:

- `JsNumbers` covers `Math.round` of a non-negative quotient, computed as `(2p + q) / (2q)` in
  integers. A percentage over zero items is `NaN` or `Infinity`, so those paths are modelled.
- `JsArray` covers `filter`, `find`, `slice` and `[...new Set(xs)]`.
- `Text` covers ASCII `toLowerCase` and `includes`.
- `AnswerSheet` holds what the quiz and practice pages share.

## Model

| member | source | states |
|---|---|---|
| JsNumbers.RoundDiv | src/context/UserContext.jsx:67 | `Math.round(p / q)` for p ≥ 0, q > 0: the result r satisfies r − ½ ≤ p/q < r + ½ |
| JsNumbers.RoundDivExact | src/components/Practice.jsx:95 | rounding an exact quotient k·q / q gives k |
| JsNumbers.RoundDivAtMost | src/context/UserContext.jsx:67 | a quotient bounded by m rounds to at most m |
| JsNumbers.RoundPercent | src/context/UserContext.jsx:90 | `Math.round(c / n * 100)`: NaN for 0/0, Infinity for c/0 with c > 0, otherwise the whole number nearest 100c/n, at most 100 when c ≤ n |
| JsArray.Filter | src/components/Reference.jsx:193-198 | `filter` keeps only elements satisfying the predicate, every such value, in order (a subsequence), never more than the input |
| JsArray.FilterCounts | src/components/Reference.jsx:193-198 | `filter` keeps every copy of a passing element and no copy of a failing one |
| JsArray.Find | src/components/Scenarios.jsx:111 | `find` is undefined exactly when nothing matches, else the first match |
| JsArray.Dedupe | src/context/UserContext.jsx:45 | `[...new Set(s)]` has no duplicates and the same members as s |
| JsArray.DedupeExtends | src/context/UserContext.jsx:45 | deduplicating a longer list only appends: earlier entries keep their places |
| JsArray.DedupeOfDistinct | src/context/UserContext.jsx:45 | a duplicate-free list passes through a Set unchanged |
| Text.Lower | src/components/Reference.jsx:194-195 | `toLowerCase` keeps the length and lowers each ASCII letter |
| Text.SameIgnoringCaseIff | src/components/Reference.jsx:194-195 | two strings have equal lower-cased forms exactly when they differ only in letter case |
| Text.ContainsIff | src/components/Reference.jsx:194-195 | `includes` holds exactly when the term occurs at some offset |
| AnswerSheet.Answer | src/components/Quiz.jsx:162-167 | `{...prev, [id]: index}` maps id to index, adds id to the keys and leaves every other key's answer unchanged |
| AnswerSheet.CountCorrect | src/components/Quiz.jsx:169-175 | the number of correct answers never exceeds the number of questions |
| AnswerSheet.CorrectAtMostAnswered | src/components/Quiz.jsx:172 | an unanswered question never counts as correct |
| AnswerSheet.CountIgnoresOtherKeys | src/components/Quiz.jsx:171-175 | answers stored under ids outside the question list do not change the count |
| AnswerSheet.AllCorrectIff | src/components/Quiz.jsx:169-176 | the count reaches the number of questions exactly when every question is answered correctly |
| AnswerSheet.SubmitGateIff | src/components/Quiz.jsx:357 | with distinct ids and answers only for those ids, `Object.keys(userAnswers).length === n` holds exactly when every question is answered |
| AnswerSheet.Previous | src/components/Quiz.jsx:347 | `Math.max(0, c - 1)` never goes below 0 and steps back by one from any positive cursor |
| AnswerSheet.Next | src/components/Quiz.jsx:364 | `Math.min(n - 1, c + 1)` stays in [c, n) and steps forward by one unless on the last position |
| UserContext.UserProvider.constructor | src/context/UserContext.jsx:14-36 | the saved record if storage holds one, else the initial record; storage then holds the current record |
| UserContext.MergedReplacesOnlyPatchedFields | src/context/UserContext.jsx:38-40 | `updateUser` is a shallow merge: each field given is replaced and every other field is unchanged; an empty update changes nothing |
| UserContext.MergedComposes | src/context/UserContext.jsx:39 | merging the same update twice equals merging it once; two merges equal one merge of the combined update |
| UserContext.UserProvider.UpdateUser | src/context/UserContext.jsx:38-40 | the record becomes the merge and the storage key holds the whole new record |
| UserContext.WithLessonCompleted | src/context/UserContext.jsx:42-47 | only the lesson list changes; it has no duplicates and holds exactly the old lessons plus the new id |
| UserContext.LessonCompletionAppendsOnce | src/context/UserContext.jsx:45 | the earlier distinct lessons stay in place; a lesson already present leaves the list unchanged, a new one is appended once |
| UserContext.LessonCompletionIdempotent | src/context/UserContext.jsx:42-47 | completing the same lesson twice is the same as once |
| UserContext.UserProvider.AddCompletedLesson | src/context/UserContext.jsx:42-47 | the record becomes the lesson update and is mirrored to storage |
| UserContext.WithQuizScore | src/context/UserContext.jsx:49-54 | only the quiz score list changes, and by exactly one appended entry with the given score, category and date |
| UserContext.UserProvider.AddQuizScore | src/context/UserContext.jsx:49-54 | the record becomes the quiz update and is mirrored to storage |
| UserContext.WithPracticeScore | src/context/UserContext.jsx:56-79 | only the practice list and statistics change; one entry with exercise count 5 is appended |
| UserContext.PracticeRollup | src/context/UserContext.jsx:65-67 | total grows by 5, correct grows by round(5·score/100), and the average is the rounded percentage of correct over total |
| UserContext.PracticeScoreKeepsStatsValid | src/context/UserContext.jsx:65-67 | for a score in [0, 100], correct ≤ total and an average in [0, 100] are preserved |
| UserContext.PracticeRollupMatchesHistory | src/context/UserContext.jsx:58-76 | the incremental statistics always equal those recomputed from the whole practice history |
| UserContext.InitialStatsMatchHistory | src/context/UserContext.jsx:16-31 | the first visit's record is consistent with its (empty) history |
| UserContext.PracticeRollupExample | src/context/UserContext.jsx:65-67 | from a fresh record, 80 gives {5, 4, 80} and then 60 gives {10, 7, 70} |
| UserContext.UserProvider.AddPracticeScore | src/context/UserContext.jsx:56-79 | the record becomes the practice update and is mirrored to storage |
| UserContext.WithPracticeStats | src/context/UserContext.jsx:81-94 | only the statistics change; the practice list is untouched |
| UserContext.PracticeStatsUpdate | src/context/UserContext.jsx:81-94 | both counters grow by the arguments; the average is a whole number exactly when the new total is positive; recording five exercises with a score's share matches `addPracticeScore`'s statistics |
| UserContext.UserProvider.UpdatePracticeStats | src/context/UserContext.jsx:81-94 | the record becomes the statistics update and is mirrored to storage |
| Quiz.QuestionBankWellFormed | src/components/Quiz.jsx:19-132 | every bank question has four options, a correct index among them, and a distinct id |
| Quiz.Pool | src/components/Quiz.jsx:134-145 | the pool keeps bank order and holds exactly the bank questions matching the category (unless "all") and the difficulty (unless "mixed") |
| Quiz.PoolAllMixed | src/components/Quiz.jsx:135-145 | with "all" and "mixed" the pool is the whole bank |
| Quiz.EmptyPoolExists | src/components/Quiz.jsx:138-145 | the offered combination legal-style and intermediate selects no question |
| Quiz.DefaultPoolSize | src/components/Quiz.jsx:8-12 | the default configuration draws from all eight questions |
| Quiz.ShuffledPrefix | src/components/Quiz.jsx:148-149 | the first k of a permutation of the pool are k questions of the pool with distinct ids, and the whole pool when k is its size |
| Quiz.SelectionFromPool | src/components/Quiz.jsx:147-149 | the selection has min(count, pool size) distinct questions drawn from the pool, all matching the configuration |
| Quiz.FilterCountAgrees | src/components/Quiz.jsx:186 | counting correct answers by `filter(...).length` equals the loop's count |
| Quiz.QuizPage.constructor | src/components/Quiz.jsx:8-16 | the configuration view with "all", "mixed", 10 questions, no quiz and no answers |
| Quiz.QuizPage.Configure | src/components/Quiz.jsx:406-438 | the selects set the configuration and nothing else |
| Quiz.QuizPage.GenerateQuizGuarded | src/components/Quiz.jsx:134-160 | the corrected start: from the configuration view, a quiz starts exactly when it would have at least one question, with that many questions; otherwise nothing changes; the active view always renders |
| Quiz.QuizPage.GenerateQuiz | src/components/Quiz.jsx:134-160 | the quiz is min(count, pool size) distinct pool questions matching the configuration (the whole pool when the count is large enough); cursor 0, no answers, active view; the active view renders exactly when the quiz is non-empty |
| Quiz.QuizPage.HandleAnswer | src/components/Quiz.jsx:162-167 | the answer map is updated by `Answer` and nothing else changes |
| Quiz.QuizPage.AnswerCurrent | src/components/Quiz.jsx:337 | a radio button records the chosen option for the question under the cursor and keeps the page valid |
| Quiz.QuizPage.CalculateScore | src/components/Quiz.jsx:169-177 | the loop's score is the rounded percentage of correct answers: a whole number in [0, 100] for a non-empty quiz, NaN for an empty one |
| Quiz.QuizPage.PreviousQuestion | src/components/Quiz.jsx:347 | the cursor moves to `Math.max(0, c - 1)` and stays in range |
| Quiz.QuizPage.SubmitEnabled | src/components/Quiz.jsx:357 | Submit is enabled exactly when every question of the quiz has an answer |
| Quiz.QuizPage.NextQuestion | src/components/Quiz.jsx:364 | off the last question the cursor moves to `Math.min(n - 1, c + 1)` and stays in range |
| Quiz.QuizPage.SubmitAsWritten | src/components/Quiz.jsx:179-191 | offered on the last question once every question is answered (lines 354-357): the call to `addQuizResult`, absent from the context, throws; the page stays on the active view with nothing changed |
| Quiz.QuizPage.Submit | src/components/Quiz.jsx:179-191 | offered on the last question once every question is answered: the results view is shown; the result has questionCount n, correctAnswers = the count (≤ n), score = the rounded percentage, and the configuration's category and difficulty |
| Quiz.QuizPage.ResetQuiz | src/components/Quiz.jsx:193-199 | back to the configuration view: no quiz, cursor 0, no answers |
| Quiz.SubmittedQuizStaysActive | src/components/Quiz.jsx:189-190 | a default quiz of eight questions, each answered and Next pressed up to the last one, submitted as written, stays on the active view with a thrown error |
| Quiz.SubmittedQuizShowsResults | src/components/Quiz.jsx:190 | with the corrected submit the same walk reaches the results view with a result over eight questions |
| Quiz.EmptyQuizAsWritten | src/components/Quiz.jsx:282-300 | choosing legal-style and intermediate and starting the quiz enters the active view with no question to show |
| Quiz.EmptyQuizGuarded | src/components/Quiz.jsx:134-160 | with the corrected start the same choice keeps the configuration view |
| Practice.ExercisesWellFormed | src/components/Practice.jsx:13-79 | five exercises with distinct ids, each with a correct index among its options |
| Practice.ScoreIsMultipleOfTwenty | src/components/Practice.jsx:95 | c correct of five scores exactly 20c, one of 0, 20, 40, 60, 80, 100 |
| Practice.RollupRecoversCorrect | src/context/UserContext.jsx:66 | the rollup's `Math.round(score / 100 * 5)` applied to a practice score gives back the number correct |
| Practice.SubmittedScoreRollsUpExactly | src/context/UserContext.jsx:65-66 | a submitted practice adds 5 exercises and exactly its number of correct answers to the statistics |
| Practice.PracticePage.constructor | src/components/Practice.jsx:8-11 | the first exercise, no answers, no results, score 0 |
| Practice.PracticePage.HandleAnswer | src/components/Practice.jsx:81-86 | the answer map is updated by `Answer` |
| Practice.PracticePage.AnswerCurrent | src/components/Practice.jsx:236 | a radio button records the chosen option for the exercise under the cursor |
| Practice.PracticePage.CalculateScore | src/components/Practice.jsx:88-96 | the loop's score is the rounded percentage of correct answers, which equals 20 × correct and is at most 100 |
| Practice.PracticePage.SubmitEnabled | src/components/Practice.jsx:256 | Submit is enabled exactly when all five exercises have an answer |
| Practice.PracticePage.PreviousExercise | src/components/Practice.jsx:246 | the cursor moves to `Math.max(0, c - 1)` and stays in [0, 4] |
| Practice.PracticePage.NextExercise | src/components/Practice.jsx:263 | off the last exercise the cursor moves forward by one and stays in [0, 4] |
| Practice.PracticePage.Submit | src/components/Practice.jsx:98-103 | score becomes 20 × correct, results are shown, and that same score is passed once to `addPracticeScore` (record updated and mirrored) |
| Practice.PracticePage.ResetPractice | src/components/Practice.jsx:105-110 | cursor 0, no answers, no results, score 0 |
| Scenarios.ScenarioTableWellFormed | src/components/Scenarios.jsx:11-102 | scenario ids are distinct, every scenario has steps, and the three have 5, 3 and 4 steps |
| Scenarios.FindScenarioUnique | src/components/Scenarios.jsx:111 | with distinct ids, `find` by id returns the one scenario carrying it, and nothing when none does |
| Scenarios.Transcript | src/components/Scenarios.jsx:148 | `slice(0, currentStep + 1)` is a prefix of the steps of length min(currentStep + 1, steps) |
| Scenarios.TranscriptShowsStepsSoFar | src/components/Scenarios.jsx:148 | on step k the transcript is exactly steps 0..k in order, ending with the current step; Next Step extends it by exactly one step |
| Scenarios.Stepper.constructor | src/components/Scenarios.jsx:8-9 | the list view with the cursor at 0 |
| Scenarios.Stepper.Start | src/components/Scenarios.jsx:292 | the chosen scenario is selected with the cursor left as it was; the step view renders exactly when that cursor is a step of the scenario |
| Scenarios.Stepper.PreviousStep | src/components/Scenarios.jsx:196 | the cursor moves to `Math.max(0, c - 1)` and the view still renders |
| Scenarios.Stepper.NextStep | src/components/Scenarios.jsx:213 | off the last step the cursor moves forward by one and never past the last step |
| Scenarios.Stepper.Complete | src/components/Scenarios.jsx:104-108 | on the last step: back to the list with the cursor at 0, nothing recorded |
| Scenarios.Stepper.BackAsWritten | src/components/Scenarios.jsx:124 | Back clears the selection and keeps the cursor |
| Scenarios.Stepper.Back | src/components/Scenarios.jsx:124 | the corrected Back clears the selection and resets the cursor, restoring the page invariant |
| Scenarios.BackThenShorterScenario | src/components/Scenarios.jsx:110-112 | step 5 of the civil trial, Back, then the 3-step arraignment: the cursor is 4 and the step view cannot render |
| Scenarios.BackThenShorterScenarioCorrected | src/components/Scenarios.jsx:124 | the same walk with the corrected Back starts the arraignment at step 0 and renders |
| Progress.RenderAsWritten | src/components/Progress.jsx:45 | for every record the provider holds, rendering the page as written throws: it reads `scenarioProgress` and `quizResults`, keys no record has |
| Progress.AverageScore | src/components/Progress.jsx:12-15 | 0 for an empty list, otherwise the whole number nearest the mean |
| Progress.AverageAtMost | src/components/Progress.jsx:12-15 | the average respects any bound every score respects, so it is in [0, 100] when the scores are |
| Progress.AverageOfEqual | src/components/Progress.jsx:14 | the average of equal scores is that score |
| Progress.AllActivities | src/components/Progress.jsx:17-54 | one entry per lesson, practice session and quiz result, in push order |
| Progress.NewestFirst | src/components/Progress.jsx:56 | the sort is a permutation of the entries, ordered newest first |
| Progress.InsertKeepsOrder | src/components/Progress.jsx:56 | each step of the sort keeps the list ordered newest first |
| Progress.RecentActivity | src/components/Progress.jsx:17-57 | the three loops build exactly the entries, then the first ten after sorting are returned |
| Progress.RecentActivityIsNewestTen | src/components/Progress.jsx:56 | min(10, n) entries drawn from the entries, newest first, and no entry left out is newer than any entry shown |
| Progress.SkillProgress | src/components/Progress.jsx:94 | `Math.min(100, count / target * 100)` is in [0, 100] and reaches 100 exactly when count ≥ target |
| Progress.SkillProgressMonotone | src/components/Progress.jsx:94 | more items never lower a ratio |
| Progress.CountContaining | src/components/Progress.jsx:94 | the number of lesson ids containing a term is at most the number of lessons |
| Progress.SkillAreas | src/components/Progress.jsx:91-112 | four areas with targets 5, 8, 6 and 5, each in [0, 100] and full exactly at its target |
| Progress.SkillAreasMonotone | src/components/Progress.jsx:91-112 | extending the lesson list never lowers any area |
| Progress.LessonCompletionKeepsSkillProgress | src/context/UserContext.jsx:42-47 | completing a lesson never lowers any skill area |
| Progress.AchievementsStayUnlocked | src/components/Progress.jsx:238-261 | growing lists and a longer streak never re-lock a card |
| Progress.RecordUpdatesUnlock | src/components/Progress.jsx:241-247 | any lesson completion unlocks First Steps; the fifth practice submission unlocks Practice Makes Perfect |
| Reference.FlattenProvenance | src/components/Reference.jsx:191-192 | every flattened entry is an item of some category with that category's title and id, and every item appears |
| Reference.FilteredItems | src/components/Reference.jsx:191-198 | an order-preserving subsequence of the flattened items holding exactly those matching the search and the category; with a category selected every result has that category id; every matching item keeps all its copies |
| Reference.FilteredItemsProvenance | src/components/Reference.jsx:192 | every result carries the title and id of the category it came from |
| Reference.EmptySearchReturnsEverything | src/components/Reference.jsx:191-198 | an empty search over all categories returns every item, in order |
| Reference.SearchIgnoresCase | src/components/Reference.jsx:194-195 | search terms differing only in letter case give the same result |
| Reference.TableFlattens | src/components/Reference.jsx:191-192 | the table flattens to its four categories' items, category after category |
| Reference.TableTitles | src/components/Reference.jsx:9-189 | the flattened table is the eight item titles in table order |
| Reference.EmptySearchListsEightItems | src/components/Reference.jsx:191-198 | on the real table an empty search over all categories lists all eight items in table order |

## Left out

- Rendering is not modelled: JSX markup, styling, framer-motion animation, icons, routing and the header. The dashboard and lesson pages are left out: they are static tables and display, and their logic repeats `getAverageScore` or calls `addCompletedLesson`.
- Browser storage is an abstract map from key to record. JSON text is not modelled, so neither is `JSON.parse` throwing on malformed saved data, nor a saved record that lacks fields.
- Timestamps (`new Date().toISOString()`, the lesson dates drawn with `Math.random` in `getRecentActivity`) are parameters. Dates in the activity feed are integers.
- The quiz shuffle (`sort` with a random comparator) is any permutation of the pool. Nothing is claimed about its distribution.
- Floating point is not modelled: `Math.round(a / b * 100)` is computed exactly in integers. A float evaluation can differ from this at an exact half; for example, the double nearest 29/200·100 lies just below 14.5. Skill ratios are reals.
- `toLowerCase` is modelled on the ASCII letters A–Z only; other Unicode case mappings are not modelled.
- The quiz timer is never started and is not modelled. The scenario free-text inputs are uncontrolled and unscored, and are not modelled.
- Display text is not modelled: question and exercise prompts, option texts (only their number is kept) and explanations, scenario descriptions and spoken lines, and the reference bodies (HTML, given as parameters).
- The hand-off of a quiz result to the progress record is not modelled. As written it throws (see Findings), and the context offers no matching function.
- The progress page as written cannot render: it reads `user.scenarioProgress.length` (line 109) and calls `user.quizResults.forEach` (line 45) and `user.quizResults.some` (line 253), and no record the provider builds has these keys (`Progress.RenderAsWritten`, under Findings). Its computations are therefore modelled over explicit lists and numbers (including `streak` and `totalPoints`, also absent), not over the record; the lemmas relating them to record updates describe the page as it would render with those lists supplied.
- UserContext.UserProvider.UpdateUser: a patch names only the record's seven fields with defined values; spreading keys outside the record, or keys set to `undefined`, is not modelled (nothing in the application calls `updateUser`).
- React batching and effect timing are not modelled. Each handler's state changes are applied in one step.
- UserContext.WithPracticeScore, UserContext.UserProvider.AddPracticeScore: the practice score is a natural number; negative or fractional scores, which the page never produces, are not modelled.
- UserContext.WithPracticeStats, UserContext.UserProvider.UpdatePracticeStats: the arguments are natural numbers; negative or fractional arguments are not modelled.
- Progress.AverageScore: scores are natural numbers; negative or fractional scores are not modelled.
- Progress.NewestFirst: the sort is stable, but the model does not state the order of entries with equal dates.
- Quiz.SubmittedQuizShowsResults: states only the view reached, not the run's score; `Quiz.QuizPage.Submit` states the score in general.
- Reference.EmptySearchListsEightItems: states that the result's titles are those of the flattened table; `Reference.TableTitles` states those titles one by one.
- Quiz.QuizPage.SubmitAsWritten: the thrown error is an outcome value; what React does with an uncaught error in an event handler is not modelled.

## Findings

| source | as written | input that shows it | evidently intended | confidence | as-written member | corrected member |
|---|---|---|---|---|---|---|
| src/components/Scenarios.jsx:124 | Back to Scenarios clears `selectedScenario` but keeps `currentStep`, and starting a scenario does not reset it | go to step 5 of civil-trial (cursor 4), press Back, start criminal-arraignment (3 steps): `steps[4]` is undefined and reading its `challenges` at line 185 throws | Back resets the cursor to 0, as Complete Scenario does | not executed | Scenarios.BackThenShorterScenario | Scenarios.Stepper.Back |
| src/components/Progress.jsx:45 | the page reads `user.scenarioProgress` (line 109) and `user.quizResults` (lines 45, 253), which no record built in `src/context/UserContext.jsx:16-31` has, so rendering throws | open the progress page with any record, e.g. the first visit's | the page summarises lists it is given (quiz results, scenario progress), as the parameterised computations do | not executed | Progress.RenderAsWritten | Progress.RecentActivity |
| src/components/Quiz.jsx:138-160 | an empty pool still starts a quiz: `[]` is truthy, so the active view renders and reads `question.category` of `undefined` at line 300 | choose legal-style and intermediate, start the quiz | a quiz starts only when at least one question matches | not executed | Quiz.EmptyQuizAsWritten | Quiz.QuizPage.GenerateQuizGuarded |
| src/components/Quiz.jsx:189 | `handleSubmitQuiz` calls `addQuizResult`, which the user context does not provide (it offers `addQuizScore`), so the call throws before `setShowResults(true)` | submit any quiz | the results view is shown after submitting | not executed | Quiz.SubmittedQuizStaysActive | Quiz.QuizPage.Submit |
