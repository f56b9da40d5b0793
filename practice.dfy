/** The practice page: a fixed set of five exercises, an answer sheet, a score that is always a
    multiple of 20, and the hand-off of that score to the progress record. */
module Practice {
  import opened JsNumbers
  import opened AnswerSheet
  import UserContext

  /** An exercise: its prompt, option texts and explanation are display text, so only the number
      of options is kept. */
  datatype Exercise = Exercise(id: nat, kind: string, optionCount: nat, correct: nat)

  /** The exercise table. */
  function Exercises(): seq<Exercise> {
    [
      Exercise(1, "punctuation", 4, 0),
      Exercise(2, "grammar", 4, 1),
      Exercise(3, "legal-style", 4, 0),
      Exercise(4, "punctuation", 4, 2),
      Exercise(5, "grammar", 4, 1)
    ]
  }

  /** The scoring view of the exercises. */
  function AnswerKey(exercises: seq<Exercise>): (keys: seq<Key>)
    ensures |keys| == |exercises|
    ensures forall i :: 0 <= i < |exercises| ==> keys[i] == Key(exercises[i].id, exercises[i].correct)
  {
    seq(|exercises|, i requires 0 <= i < |exercises| => Key(exercises[i].id, exercises[i].correct))
  }

  /** Five exercises with distinct ids, each with a correct index among its options. */
  predicate WellFormedExercises(exercises: seq<Exercise>) {
    && |exercises| == 5
    && (forall e :: e in exercises ==> e.correct < e.optionCount)
    && IdsDistinct(AnswerKey(exercises))
  }

  lemma ExercisesWellFormed()
    ensures WellFormedExercises(Exercises())
  {
    var xs := Exercises();
    assert forall i :: 0 <= i < |xs| ==> xs[i].id == i + 1;
    assert forall e :: e in xs ==> e.optionCount == 4 && e.correct < 4;
  }

  /** With five exercises the rounded percentage is exact: c correct answers score 20 c, so a
      practice score is one of 0, 20, 40, 60, 80 and 100. */
  lemma {:induction false} ScoreIsMultipleOfTwenty(c: nat)
    requires c <= 5
    ensures RoundPercent(c, 5) == Whole(20 * c)
    ensures RoundPercent(c, 5).n in {0, 20, 40, 60, 80, 100}
  {
    assert 100 * c == (20 * c) * 5;
    RoundDivExact(20 * c, 5);
  }

  /** The rollup's `Math.round((score / 100) * 5)` turns a practice score back into the number of
      correct answers it came from. */
  lemma {:induction false} RollupRecoversCorrect(c: nat)
    requires c <= 5
    ensures UserContext.CorrectFromScore(20 * c, UserContext.PracticeSetSize) == c
  {
    assert (20 * c) * 5 == c * 100;
    RoundDivExact(c, 100);
  }

  /** The page's state. */
  class PracticePage {
    /** The exercise table the page renders. */
    const exercises: seq<Exercise>
    var currentExercise: int
    var userAnswers: Answers
    var showResults: bool
    var score: nat

    /** The cursor is on an exercise and answers are recorded only for the exercises. */
    ghost predicate Valid()
      reads this
    {
      && WellFormedExercises(exercises)
      && 0 <= currentExercise < |exercises|
      && userAnswers.Keys <= Ids(AnswerKey(exercises))
    }

    constructor ()
      ensures exercises == Exercises()
      ensures currentExercise == 0 && userAnswers == map[] && !showResults && score == 0
      ensures Valid()
    {
      exercises := Exercises();
      currentExercise := 0;
      userAnswers := map[];
      showResults := false;
      score := 0;
      ExercisesWellFormed();
    }

    /** `handleAnswer(questionId, answerIndex)`. */
    method HandleAnswer(questionId: nat, answerIndex: nat)
      modifies this`userAnswers
      ensures userAnswers == Answer(old(userAnswers), questionId, answerIndex)
      ensures (old(Valid()) && questionId in Ids(AnswerKey(exercises))) ==> Valid()
    {
      userAnswers := Answer(userAnswers, questionId, answerIndex);
    }

    /** The radio buttons answer the exercise under the cursor. */
    method AnswerCurrent(answerIndex: nat)
      requires Valid()
      modifies this`userAnswers
      ensures userAnswers == old(userAnswers)[exercises[currentExercise].id := answerIndex]
      ensures Valid()
    {
      var id := exercises[currentExercise].id;
      assert AnswerKey(exercises)[currentExercise].id == id;
      HandleAnswer(id, answerIndex);
    }

    /** `calculateScore`: count the correct answers, then `Math.round(correct / 5 * 100)`. */
    method CalculateScore() returns (s: nat)
      requires Valid()
      ensures Whole(s) == RoundPercent(CountCorrect(AnswerKey(exercises), userAnswers), |exercises|)
      ensures s == 20 * CountCorrect(AnswerKey(exercises), userAnswers) && s <= 100
    {
      var keys := AnswerKey(exercises);
      var correct := 0;
      for i := 0 to |exercises|
        invariant correct + CountCorrect(keys[i..], userAnswers) == CountCorrect(keys, userAnswers)
      {
        assert keys[i..][1..] == keys[i + 1..];
        if exercises[i].id in userAnswers && userAnswers[exercises[i].id] == exercises[i].correct {
          correct := correct + 1;
        }
      }
      ScoreIsMultipleOfTwenty(correct);
      s := RoundPercent(correct, |exercises|).n;
    }

    /** Whether the page shows Submit (on the last exercise) rather than Next. */
    function OnLastExercise(): bool
      reads this
    {
      currentExercise == |exercises| - 1
    }

    /** Submit is enabled when `Object.keys(userAnswers).length === exercises.length`, which is
        exactly when every exercise has an answer. */
    function SubmitEnabled(): (enabled: bool)
      reads this
      requires Valid()
      ensures enabled <==> forall i :: 0 <= i < |exercises| ==> exercises[i].id in userAnswers
    {
      SubmitGateIff(AnswerKey(exercises), userAnswers);
      |userAnswers.Keys| == |exercises|
    }

    /** Previous: `Math.max(0, currentExercise - 1)`. */
    method PreviousExercise()
      requires Valid()
      modifies this`currentExercise
      ensures currentExercise == AnswerSheet.Previous(old(currentExercise))
      ensures Valid()
    {
      currentExercise := AnswerSheet.Previous(currentExercise);
    }

    /** Next, offered on every exercise but the last: `Math.min(4, currentExercise + 1)`. */
    method NextExercise()
      requires Valid() && !OnLastExercise()
      modifies this`currentExercise
      ensures currentExercise == old(currentExercise) + 1
      ensures Valid()
    {
      currentExercise := AnswerSheet.Next(currentExercise, |exercises|);
    }

    /** `handleSubmit`: the score is computed, stored, the results shown, and the same score is
        passed once to the progress record's `addPracticeScore` (the timestamp is a parameter). */
    method Submit(provider: UserContext.UserProvider, date: string)
      requires Valid()
      modifies this, provider
      ensures score == 20 * CountCorrect(AnswerKey(exercises), userAnswers) && score <= 100
      ensures showResults
      ensures currentExercise == old(currentExercise) && userAnswers == old(userAnswers)
      ensures provider.user == UserContext.WithPracticeScore(old(provider.user), score, date)
      ensures provider.store == old(provider.store)[UserContext.StorageKey := provider.user]
      ensures Valid()
    {
      var finalScore := CalculateScore();
      score := finalScore;
      showResults := true;
      provider.AddPracticeScore(finalScore, date);
    }

    /** `resetPractice`. */
    method ResetPractice()
      requires Valid()
      modifies this
      ensures currentExercise == 0 && userAnswers == map[] && !showResults && score == 0
      ensures Valid()
    {
      currentExercise := 0;
      userAnswers := map[];
      showResults := false;
      score := 0;
    }
  }

  /** A submitted practice adds to the statistics exactly the number of exercises answered
      correctly: the rollup's rounding loses nothing. */
  lemma {:induction false} SubmittedScoreRollsUpExactly(prev: UserContext.Record, c: nat, date: string)
    requires c <= 5
    ensures var st := UserContext.WithPracticeScore(prev, 20 * c, date).practiceStats;
            && st.totalExercises == prev.practiceStats.totalExercises + 5
            && st.correctAnswers == prev.practiceStats.correctAnswers + c
  {
    RollupRecoversCorrect(c);
  }
}
