/** The user context: one progress record, replaced wholesale by small updater functions, and
    mirrored after every change into browser storage under one key.

    The updaters handed to `setUser` are pure record-to-record functions and are modelled as
    such (`Merged`, `WithLessonCompleted`, `WithQuizScore`, `WithPracticeScore`,
    `WithPracticeStats`). The provider holding the current record and the storage it writes
    to is the class `UserProvider`. Storage holds records directly: JSON text is not modelled. */
module UserContext {
  import opened JsNumbers
  import opened JsArray

  /** The storage key the record is saved under. */
  const StorageKey := "courtReportingUser"

  /** `exerciseCount` of every practice entry: the practice page has five exercises. */
  const PracticeSetSize := 5

  /** The names the context value provides to its consumers. */
  const ContextValueNames: set<string> :=
    {"user", "updateUser", "addCompletedLesson", "addQuizScore", "addPracticeScore",
     "updatePracticeStats"}

  /** The keys of every record the provider builds and stores: the fields of `Record`. */
  const RecordFields: set<string> :=
    {"name", "level", "completedLessons", "quizScores", "practiceScores", "practiceStats",
     "preferences"}

  datatype QuizScore = QuizScore(score: int, category: string, date: string)

  datatype PracticeScore = PracticeScore(score: nat, date: string, exerciseCount: nat)

  datatype PracticeStats = PracticeStats(totalExercises: nat, correctAnswers: nat,
                                         averageScore: Rounded)

  datatype Preferences = Preferences(difficulty: string, focusAreas: seq<string>)

  datatype Record = Record(
    name: string,
    level: string,
    completedLessons: seq<string>,
    quizScores: seq<QuizScore>,
    practiceScores: seq<PracticeScore>,
    practiceStats: PracticeStats,
    preferences: Preferences)

  /** The record a first visit starts from. */
  function InitialRecord(): Record {
    Record("Court Reporter", "Intermediate", [], [], [],
           PracticeStats(0, 0, Whole(0)),
           Preferences("intermediate", ["punctuation", "grammar"]))
  }

  /** The argument of `updateUser`: the keys present in `updates`. */
  datatype Patch = Patch(
    name: Option<string>,
    level: Option<string>,
    completedLessons: Option<seq<string>>,
    quizScores: Option<seq<QuizScore>>,
    practiceScores: Option<seq<PracticeScore>>,
    practiceStats: Option<PracticeStats>,
    preferences: Option<Preferences>)

  const EmptyPatch := Patch(None, None, None, None, None, None, None)

  /** `{ ...prev, ...updates }`: a shallow merge. */
  function Merged(prev: Record, p: Patch): Record {
    Record(p.name.GetOr(prev.name), p.level.GetOr(prev.level),
           p.completedLessons.GetOr(prev.completedLessons), p.quizScores.GetOr(prev.quizScores),
           p.practiceScores.GetOr(prev.practiceScores), p.practiceStats.GetOr(prev.practiceStats),
           p.preferences.GetOr(prev.preferences))
  }

  /** `{ ...updates, ...later }`: the keys of `later` win. */
  function Then(first: Patch, later: Patch): Patch {
    Patch(if later.name.Some? then later.name else first.name,
          if later.level.Some? then later.level else first.level,
          if later.completedLessons.Some? then later.completedLessons else first.completedLessons,
          if later.quizScores.Some? then later.quizScores else first.quizScores,
          if later.practiceScores.Some? then later.practiceScores else first.practiceScores,
          if later.practiceStats.Some? then later.practiceStats else first.practiceStats,
          if later.preferences.Some? then later.preferences else first.preferences)
  }

  /** A patch replaces exactly the fields it names; every other field keeps its old value. */
  lemma MergedReplacesOnlyPatchedFields(prev: Record, p: Patch)
    ensures Merged(prev, p).name == (if p.name.Some? then p.name.value else prev.name)
    ensures Merged(prev, p).level == (if p.level.Some? then p.level.value else prev.level)
    ensures Merged(prev, p).completedLessons ==
            (if p.completedLessons.Some? then p.completedLessons.value else prev.completedLessons)
    ensures Merged(prev, p).quizScores ==
            (if p.quizScores.Some? then p.quizScores.value else prev.quizScores)
    ensures Merged(prev, p).practiceScores ==
            (if p.practiceScores.Some? then p.practiceScores.value else prev.practiceScores)
    ensures Merged(prev, p).practiceStats ==
            (if p.practiceStats.Some? then p.practiceStats.value else prev.practiceStats)
    ensures Merged(prev, p).preferences ==
            (if p.preferences.Some? then p.preferences.value else prev.preferences)
    ensures p == EmptyPatch ==> Merged(prev, p) == prev
  {
  }

  /** Merging is idempotent, and two merges in a row are one merge of the combined updates. */
  lemma MergedComposes(r: Record, p: Patch, q: Patch)
    ensures Merged(Merged(r, p), p) == Merged(r, p)
    ensures Merged(Merged(r, p), q) == Merged(r, Then(p, q))
  {
  }

  /** `addCompletedLesson(id)`: `[...new Set([...prev.completedLessons, id])]`. */
  function WithLessonCompleted(prev: Record, id: string): (r: Record)
    ensures r == prev.(completedLessons := r.completedLessons)
    ensures NoDuplicates(r.completedLessons)
    ensures forall x :: x in r.completedLessons <==> x in prev.completedLessons || x == id
  {
    prev.(completedLessons := Dedupe(prev.completedLessons + [id]))
  }

  /** On a duplicate-free list, a lesson already present leaves the list as it is and a new
      lesson is appended at the end; in every case the earlier entries keep their places. */
  lemma LessonCompletionAppendsOnce(prev: Record, id: string)
    ensures Dedupe(prev.completedLessons) <= WithLessonCompleted(prev, id).completedLessons
    ensures NoDuplicates(prev.completedLessons) && id in prev.completedLessons ==>
              WithLessonCompleted(prev, id) == prev
    ensures NoDuplicates(prev.completedLessons) && id !in prev.completedLessons ==>
              WithLessonCompleted(prev, id).completedLessons == prev.completedLessons + [id]
  {
    var s := prev.completedLessons;
    DedupeExtends(s, [id]);
    if NoDuplicates(s) {
      DedupeOfDistinct(s);
      assert (s + [id])[..|s|] == s;
    }
  }

  /** Completing the same lesson twice is the same as completing it once. */
  lemma LessonCompletionIdempotent(prev: Record, id: string)
    ensures WithLessonCompleted(WithLessonCompleted(prev, id), id) == WithLessonCompleted(prev, id)
  {
    var once := WithLessonCompleted(prev, id);
    LessonCompletionAppendsOnce(once, id);
  }

  /** `addQuizScore(score, category)` with the timestamp as a parameter. */
  function WithQuizScore(prev: Record, score: int, category: string, date: string): (r: Record)
    ensures r == prev.(quizScores := r.quizScores)
    ensures |r.quizScores| == |prev.quizScores| + 1 && prev.quizScores <= r.quizScores
    ensures r.quizScores[|prev.quizScores|] == QuizScore(score, category, date)
  {
    prev.(quizScores := prev.quizScores + [QuizScore(score, category, date)])
  }

  /** `Math.round((score / 100) * 5)`: the number of correct answers a practice score stands for. */
  function CorrectFromScore(score: nat, exerciseCount: nat): nat {
    RoundDiv(score * exerciseCount, 100)
  }

  /** `addPracticeScore(score)` with the timestamp as a parameter. */
  function WithPracticeScore(prev: Record, score: nat, date: string): (r: Record)
    ensures r == prev.(practiceScores := r.practiceScores, practiceStats := r.practiceStats)
    ensures r.practiceScores == prev.practiceScores + [PracticeScore(score, date, PracticeSetSize)]
  {
    var total := prev.practiceStats.totalExercises + PracticeSetSize;
    var correct := prev.practiceStats.correctAnswers + CorrectFromScore(score, PracticeSetSize);
    prev.(practiceScores := prev.practiceScores + [PracticeScore(score, date, PracticeSetSize)],
          practiceStats := PracticeStats(total, correct, RoundPercent(correct, total)))
  }

  /** The rollup counts five more exercises, adds the rounded share of them the score stands for,
      and its average is the rounded percentage of all exercises answered correctly. */
  lemma PracticeRollup(prev: Record, score: nat, date: string)
    ensures var st := WithPracticeScore(prev, score, date).practiceStats;
            && st.totalExercises == prev.practiceStats.totalExercises + 5
            && st.correctAnswers == prev.practiceStats.correctAnswers + RoundDiv(5 * score, 100)
            && st.averageScore.Whole?
            && 2 * st.totalExercises * st.averageScore.n <= 200 * st.correctAnswers + st.totalExercises
            && 200 * st.correctAnswers + st.totalExercises < 2 * st.totalExercises * st.averageScore.n + 2 * st.totalExercises
  {
  }

  /** Practice statistics that make sense: no more correct answers than exercises and an average
      between 0 and 100. */
  predicate ValidStats(st: PracticeStats) {
    st.correctAnswers <= st.totalExercises && st.averageScore.Whole? && st.averageScore.n <= 100
  }

  /** For a score between 0 and 100, recording it keeps the statistics valid. */
  lemma PracticeScoreKeepsStatsValid(prev: Record, score: nat, date: string)
    requires score <= 100
    requires ValidStats(prev.practiceStats)
    ensures ValidStats(WithPracticeScore(prev, score, date).practiceStats)
  {
    RoundDivAtMost(score * PracticeSetSize, 100, PracticeSetSize);
  }

  /** Exercises and correct answers recomputed from the practice history alone. */
  function ExercisesInHistory(h: seq<PracticeScore>): nat
    decreases |h|
  {
    if h == [] then 0 else ExercisesInHistory(h[..|h| - 1]) + h[|h| - 1].exerciseCount
  }

  function CorrectInHistory(h: seq<PracticeScore>): nat
    decreases |h|
  {
    if h == [] then 0
    else CorrectInHistory(h[..|h| - 1]) + CorrectFromScore(h[|h| - 1].score, h[|h| - 1].exerciseCount)
  }

  /** The cached rollup agrees with the closed form over the history. */
  predicate StatsMatchHistory(r: Record) {
    && r.practiceStats.totalExercises == ExercisesInHistory(r.practiceScores)
    && r.practiceStats.correctAnswers == CorrectInHistory(r.practiceScores)
    && (r.practiceScores != [] ==>
          r.practiceStats.averageScore ==
            RoundPercent(CorrectInHistory(r.practiceScores), ExercisesInHistory(r.practiceScores)))
  }

  /** The incremental update never drifts from the closed form: after any number of practice
      submissions the average is the rounded percentage over the whole history. */
  lemma PracticeRollupMatchesHistory(prev: Record, score: nat, date: string)
    requires StatsMatchHistory(prev)
    ensures StatsMatchHistory(WithPracticeScore(prev, score, date))
  {
    var r := WithPracticeScore(prev, score, date);
    assert r.practiceScores[..|r.practiceScores| - 1] == prev.practiceScores;
  }

  /** The first visit's record starts consistent. */
  lemma InitialStatsMatchHistory()
    ensures StatsMatchHistory(InitialRecord()) && ValidStats(InitialRecord().practiceStats)
  {
  }

  /** The worked example: 80 then 60 from a fresh record give {5, 4, 80} then {10, 7, 70}. */
  lemma PracticeRollupExample()
    ensures WithPracticeScore(InitialRecord(), 80, "d1").practiceStats == PracticeStats(5, 4, Whole(80))
    ensures WithPracticeScore(WithPracticeScore(InitialRecord(), 80, "d1"), 60, "d2").practiceStats
              == PracticeStats(10, 7, Whole(70))
  {
  }

  /** `updatePracticeStats(correct, total)`. */
  function WithPracticeStats(prev: Record, correct: nat, total: nat): (r: Record)
    ensures r == prev.(practiceStats := r.practiceStats)
  {
    var newTotal := prev.practiceStats.totalExercises + total;
    var newCorrect := prev.practiceStats.correctAnswers + correct;
    prev.(practiceStats := PracticeStats(newTotal, newCorrect, RoundPercent(newCorrect, newTotal)))
  }

  /** Both counters grow by the arguments. The average is a whole number only when the new total
      is positive; at a total of 0 the division yields NaN (or Infinity). Recording five
      exercises with the rounded share of a score gives the same statistics as addPracticeScore. */
  lemma PracticeStatsUpdate(prev: Record, correct: nat, total: nat, score: nat, date: string)
    ensures var st := WithPracticeStats(prev, correct, total).practiceStats;
            && st.totalExercises == prev.practiceStats.totalExercises + total
            && st.correctAnswers == prev.practiceStats.correctAnswers + correct
            && (st.averageScore.Whole? <==> st.totalExercises > 0)
            && (st.totalExercises > 0 && st.correctAnswers <= st.totalExercises ==> st.averageScore.n <= 100)
    ensures WithPracticeStats(prev, CorrectFromScore(score, 5), 5).practiceStats ==
            WithPracticeScore(prev, score, date).practiceStats
  {
  }

  /** The provider: the current record and the browser storage it is mirrored to. */
  class UserProvider {
    var user: Record
    var store: map<string, Record>

    /** The effect has written the current record under the storage key. */
    ghost predicate Persisted()
      reads this
    {
      StorageKey in store && store[StorageKey] == user
    }

    /** Mounting: the saved record if there is one, else the initial record; then the effect
        writes it back. */
    constructor (saved: map<string, Record>)
      ensures user == if StorageKey in saved then saved[StorageKey] else InitialRecord()
      ensures StorageKey !in saved ==>
                user.completedLessons == [] && user.quizScores == [] && user.practiceScores == [] &&
                user.practiceStats == PracticeStats(0, 0, Whole(0))
      ensures store == saved[StorageKey := user]
      ensures Persisted()
    {
      user := if StorageKey in saved then saved[StorageKey] else InitialRecord();
      store := saved[StorageKey := if StorageKey in saved then saved[StorageKey] else InitialRecord()];
    }

    method UpdateUser(updates: Patch)
      modifies this
      ensures user == Merged(old(user), updates)
      ensures store == old(store)[StorageKey := user] && Persisted()
    {
      user := Merged(user, updates);
      store := store[StorageKey := user];
    }

    method AddCompletedLesson(lessonId: string)
      modifies this
      ensures user == WithLessonCompleted(old(user), lessonId)
      ensures store == old(store)[StorageKey := user] && Persisted()
    {
      user := WithLessonCompleted(user, lessonId);
      store := store[StorageKey := user];
    }

    method AddQuizScore(score: int, category: string, date: string)
      modifies this
      ensures user == WithQuizScore(old(user), score, category, date)
      ensures store == old(store)[StorageKey := user] && Persisted()
    {
      user := WithQuizScore(user, score, category, date);
      store := store[StorageKey := user];
    }

    method AddPracticeScore(score: nat, date: string)
      modifies this
      ensures user == WithPracticeScore(old(user), score, date)
      ensures store == old(store)[StorageKey := user] && Persisted()
    {
      user := WithPracticeScore(user, score, date);
      store := store[StorageKey := user];
    }

    method UpdatePracticeStats(correct: nat, total: nat)
      modifies this
      ensures user == WithPracticeStats(old(user), correct, total)
      ensures store == old(store)[StorageKey := user] && Persisted()
    {
      user := WithPracticeStats(user, correct, total);
      store := store[StorageKey := user];
    }
  }
}
