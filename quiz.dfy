/** The quiz page: a configurable selection from a fixed question bank, an answer sheet, a score,
    and the page's state machine (configuration, active quiz, results). */
module Quiz {
  import opened JsNumbers
  import opened JsArray
  import opened AnswerSheet
  import UserContext

  /** A question: its prompt, option texts and explanation are display text, so only the number
      of options is kept. */
  datatype Question = Question(id: nat, category: string, difficulty: string,
                               optionCount: nat, correct: nat)

  /** The question bank. */
  function QuestionBank(): seq<Question> {
    [
      Question(1, "punctuation", "beginner", 4, 1),
      Question(2, "grammar", "intermediate", 4, 1),
      Question(3, "legal-style", "advanced", 4, 2),
      Question(4, "punctuation", "intermediate", 4, 2),
      Question(5, "grammar", "beginner", 4, 1),
      Question(6, "legal-style", "beginner", 4, 1),
      Question(7, "punctuation", "advanced", 4, 1),
      Question(8, "grammar", "advanced", 4, 1)
    ]
  }

  /** The scoring view of a list of questions. */
  function AnswerKey(quiz: seq<Question>): (keys: seq<Key>)
    ensures |keys| == |quiz|
    ensures forall i :: 0 <= i < |quiz| ==> keys[i] == Key(quiz[i].id, quiz[i].correct)
  {
    seq(|quiz|, i requires 0 <= i < |quiz| => Key(quiz[i].id, quiz[i].correct))
  }

  /** Every question offers four options, its correct index is one of them, and ids are distinct. */
  predicate WellFormedBank(bank: seq<Question>) {
    && (forall q :: q in bank ==> q.optionCount == 4 && q.correct < q.optionCount)
    && IdsDistinct(AnswerKey(bank))
  }

  lemma QuestionBankWellFormed()
    ensures WellFormedBank(QuestionBank())
  {
    var bank := QuestionBank();
    assert forall i :: 0 <= i < |bank| ==> bank[i].id == i + 1;
    assert forall q :: q in bank ==> q.optionCount == 4 && q.correct < 4;
  }

  datatype QuizConfig = QuizConfig(category: string, difficulty: string, questionCount: nat)

  const AllCategories := "all"
  const MixedDifficulty := "mixed"

  /** The pool before shuffling: the category filter unless "all", then the difficulty filter
      unless "mixed". */
  function Pool(bank: seq<Question>, config: QuizConfig): (r: seq<Question>)
    ensures IsSubsequence(r, bank)
    ensures forall q :: q in r <==>
              && q in bank
              && (config.category != AllCategories ==> q.category == config.category)
              && (config.difficulty != MixedDifficulty ==> q.difficulty == config.difficulty)
  {
    var byCategory :=
      if config.category != AllCategories
      then Filter(bank, (q: Question) => q.category == config.category)
      else bank;
    var byDifficulty :=
      if config.difficulty != MixedDifficulty
      then Filter(byCategory, (q: Question) => q.difficulty == config.difficulty)
      else byCategory;
    SubsequenceReflexive(bank);
    SubsequenceReflexive(byCategory);
    SubsequenceTransitive(byDifficulty, byCategory, bank);
    byDifficulty
  }

  lemma {:induction false} SubsequenceTransitive<T(!new)>(a: seq<T>, b: seq<T>, c: seq<T>)
    requires IsSubsequence(a, b) && IsSubsequence(b, c)
    ensures IsSubsequence(a, c)
    decreases |c|
  {
    if c != [] {
      if b != [] && b[0] == c[0] && IsSubsequence(b[1..], c[1..]) {
        if a != [] && a[0] == b[0] && IsSubsequence(a[1..], b[1..]) {
          SubsequenceTransitive(a[1..], b[1..], c[1..]);
        } else {
          SubsequenceTransitive(a, b[1..], c[1..]);
        }
      } else {
        SubsequenceTransitive(a, b, c[1..]);
      }
    } else {
      assert b == [] && a == [];
    }
  }

  lemma {:induction false} SubsequenceReflexive<T(!new)>(a: seq<T>)
    ensures IsSubsequence(a, a)
    decreases |a|
  {
    if a != [] {
      SubsequenceReflexive(a[1..]);
    }
  }

  /** A subsequence of a list with distinct ids has distinct ids. */
  lemma {:induction false} SubsequenceKeepsIdsDistinct(a: seq<Question>, b: seq<Question>)
    requires IsSubsequence(a, b) && IdsDistinct(AnswerKey(b))
    ensures IdsDistinct(AnswerKey(a))
    decreases |b|
  {
    if b != [] {
      assert IdsDistinct(AnswerKey(b[1..])) by {
        forall i, j | 0 <= i < j < |b[1..]| ensures b[1..][i].id != b[1..][j].id {
          assert AnswerKey(b)[i + 1].id != AnswerKey(b)[j + 1].id;
        }
      }
      if a != [] && a[0] == b[0] && IsSubsequence(a[1..], b[1..]) {
        SubsequenceKeepsIdsDistinct(a[1..], b[1..]);
        forall j | 0 < j < |a| ensures a[0].id != a[j].id {
          assert a[j] in a[1..];
          SubsequenceMembers(a[1..], b[1..]);
          var k :| 0 <= k < |b[1..]| && b[1..][k] == a[j];
          assert AnswerKey(b)[0].id != AnswerKey(b)[k + 1].id;
        }
        forall i, j | 0 <= i < j < |a| ensures a[i].id != a[j].id {
          if i > 0 {
            assert AnswerKey(a[1..])[i - 1].id != AnswerKey(a[1..])[j - 1].id;
          }
        }
      } else {
        SubsequenceKeepsIdsDistinct(a, b[1..]);
      }
    }
  }

  lemma {:induction false} SubsequenceMembers<T(!new)>(a: seq<T>, b: seq<T>)
    requires IsSubsequence(a, b)
    ensures forall x :: x in a ==> x in b
    decreases |b|
  {
    if b != [] {
      if a != [] && a[0] == b[0] && IsSubsequence(a[1..], b[1..]) {
        SubsequenceMembers(a[1..], b[1..]);
        assert forall x :: x in a ==> x == a[0] || x in a[1..];
        assert forall x :: x in b[1..] ==> x in b;
      } else {
        SubsequenceMembers(a, b[1..]);
      }
    }
  }

  /** With "all" and "mixed" the pool is the whole bank, in bank order. */
  lemma PoolAllMixed(bank: seq<Question>, count: nat)
    ensures Pool(bank, QuizConfig(AllCategories, MixedDifficulty, count)) == bank
  {
  }

  /** The default configuration draws from all eight questions. */
  lemma DefaultPoolSize()
    ensures |Pool(QuestionBank(), QuizConfig(AllCategories, MixedDifficulty, 10))| == 8
  {
    PoolAllMixed(QuestionBank(), 10);
  }

  /** One combination the configuration screen offers selects no question at all. */
  lemma EmptyPoolExists()
    ensures Pool(QuestionBank(), QuizConfig("legal-style", "intermediate", 10)) == []
  {
    var bank := QuestionBank();
    assert forall i :: 0 <= i < |bank| ==>
             !(bank[i].category == "legal-style" && bank[i].difficulty == "intermediate");
    var pool := Pool(bank, QuizConfig("legal-style", "intermediate", 10));
    assert forall q :: q !in pool;
    assert multiset(pool) == multiset{};
  }

  /** Two lists with the same elements and multiplicities, one with distinct ids: so has the other. */
  lemma PermutationKeepsIdsDistinct(a: seq<Question>, b: seq<Question>)
    requires multiset(a) == multiset(b) && IdsDistinct(AnswerKey(b))
    ensures IdsDistinct(AnswerKey(a))
  {
    forall i, j | 0 <= i < j < |a| ensures a[i].id != a[j].id {
      if a[i].id == a[j].id {
        assert a[i] in multiset(b) && a[j] in multiset(b);
        var i' :| 0 <= i' < |b| && b[i'] == a[i];
        var j' :| 0 <= j' < |b| && b[j'] == a[j];
        assert i' == j' by {
          assert AnswerKey(b)[i'].id == AnswerKey(b)[j'].id;
        }
        TwoOccurrences(a, i, j);
        AtMostOnce(b, a[i]);
      }
    }
  }

  lemma TwoOccurrences<T>(s: seq<T>, i: nat, j: nat)
    requires i < j < |s| && s[i] == s[j]
    ensures multiset(s)[s[i]] >= 2
  {
    assert s == s[..i] + [s[i]] + s[i + 1..j] + [s[j]] + s[j + 1..];
  }

  lemma {:induction false} AtMostOnce(s: seq<Question>, x: Question)
    requires IdsDistinct(AnswerKey(s))
    ensures multiset(s)[x] <= 1
    decreases |s|
  {
    if s != [] {
      var rest := s[1..];
      assert s == [s[0]] + rest;
      assert IdsDistinct(AnswerKey(rest)) by {
        forall i, j | 0 <= i < j < |rest| ensures rest[i].id != rest[j].id {
          assert AnswerKey(s)[i + 1].id != AnswerKey(s)[j + 1].id;
        }
      }
      AtMostOnce(rest, x);
      if x == s[0] {
        assert x !in rest by {
          forall k | 0 <= k < |rest| ensures rest[k] != x {
            assert AnswerKey(s)[0].id != AnswerKey(s)[k + 1].id;
          }
        }
      }
    }
  }

  /** Taking the first k of a shuffled pool: k distinct questions, all drawn from the pool, and
      the whole pool when k is the pool's size. */
  lemma ShuffledPrefix(pool: seq<Question>, shuffled: seq<Question>, k: nat)
    requires multiset(shuffled) == multiset(pool) && IdsDistinct(AnswerKey(pool))
    requires k <= |pool|
    ensures |shuffled| == |pool|
    ensures |shuffled[..k]| == k
    ensures multiset(shuffled[..k]) <= multiset(pool)
    ensures k == |pool| ==> multiset(shuffled[..k]) == multiset(pool)
    ensures IdsDistinct(AnswerKey(shuffled[..k]))
  {
    assert |shuffled| == |pool| by {
      assert |multiset(shuffled)| == |multiset(pool)|;
    }
    assert shuffled == shuffled[..k] + shuffled[k..];
    assert shuffled[..|shuffled|] == shuffled;
    PermutationKeepsIdsDistinct(shuffled, pool);
    assert IdsDistinct(AnswerKey(shuffled[..k])) by {
      forall i, j | 0 <= i < j < k ensures shuffled[..k][i].id != shuffled[..k][j].id {
        assert AnswerKey(shuffled)[i].id != AnswerKey(shuffled)[j].id;
      }
    }
  }

  /** What `generateQuiz` keeps: the first min(questionCount, pool size) of a shuffled pool are
      that many distinct questions of the pool, all matching the configuration. */
  lemma SelectionFromPool(bank: seq<Question>, config: QuizConfig, shuffled: seq<Question>, k: nat)
    requires WellFormedBank(bank)
    requires multiset(shuffled) == multiset(Pool(bank, config))
    requires k == Min(config.questionCount, |Pool(bank, config)|)
    ensures |shuffled| == |Pool(bank, config)| && |shuffled[..k]| == k
    ensures multiset(shuffled[..k]) <= multiset(Pool(bank, config))
    ensures config.questionCount >= |Pool(bank, config)| ==>
              multiset(shuffled[..k]) == multiset(Pool(bank, config))
    ensures IdsDistinct(AnswerKey(shuffled[..k]))
    ensures forall q :: q in shuffled[..k] ==>
              (config.category != AllCategories ==> q.category == config.category) &&
              (config.difficulty != MixedDifficulty ==> q.difficulty == config.difficulty)
  {
    var pool := Pool(bank, config);
    SubsequenceKeepsIdsDistinct(pool, bank);
    ShuffledPrefix(pool, shuffled, k);
    forall q | q in shuffled[..k]
      ensures (config.category != AllCategories ==> q.category == config.category) &&
              (config.difficulty != MixedDifficulty ==> q.difficulty == config.difficulty)
    {
      assert q in multiset(shuffled[..k]);
      assert q in multiset(pool);
    }
  }

  /** The correct answers of a quiz, counted the way line 186 does: by filtering. */
  function CorrectByFilter(quiz: seq<Question>, answers: Answers): nat {
    |Filter(quiz, (q: Question) => q.id in answers && answers[q.id] == q.correct)|
  }

  /** Counting by filter and counting with the loop agree. */
  lemma {:induction false} FilterCountAgrees(quiz: seq<Question>, answers: Answers)
    ensures CorrectByFilter(quiz, answers) == CountCorrect(AnswerKey(quiz), answers)
    decreases |quiz|
  {
    if quiz != [] {
      FilterCountAgrees(quiz[1..], answers);
      assert AnswerKey(quiz)[1..] == AnswerKey(quiz[1..]);
    }
  }

  /** The object built by `handleSubmitQuiz`. */
  datatype QuizResult = QuizResult(score: Rounded, category: string, difficulty: string,
                                   questionCount: nat, correctAnswers: nat)

  datatype View = Configuration | Active | Results

  datatype SubmitOutcome = Recorded | ThrewTypeError

  /** The quiz page's state. The timer state is never started and is not modelled. */
  class QuizPage {
    /** The bank questions are drawn from. */
    const bank: seq<Question>
    var config: QuizConfig
    var currentQuiz: Option<seq<Question>>
    var currentQuestion: int
    var userAnswers: Answers
    var showResults: bool

    /** Which of the three views renders. */
    function View(): View
      reads this
    {
      if showResults && currentQuiz.Some? then Results
      else if currentQuiz.Some? && !showResults then Active
      else Configuration
    }

    /** The quiz in progress: question ids distinct, answers only for its questions, and the
        cursor a valid position (or 0 for an empty quiz). */
    ghost predicate Valid()
      reads this
    {
      && WellFormedBank(bank)
      && (currentQuiz.Some? ==>
            && IdsDistinct(AnswerKey(currentQuiz.value))
            && userAnswers.Keys <= Ids(AnswerKey(currentQuiz.value))
            && 0 <= currentQuestion
            && (currentQuiz.value != [] ==> currentQuestion < |currentQuiz.value|)
            && (currentQuiz.value == [] ==> currentQuestion == 0))
    }

    /** The active view dereferences `currentQuiz[currentQuestion]`: it renders only when that
        question exists. */
    predicate ActiveViewRenders()
      reads this
    {
      View() == Active ==> 0 <= currentQuestion < |currentQuiz.value|
    }

    constructor ()
      ensures bank == QuestionBank()
      ensures config == QuizConfig(AllCategories, MixedDifficulty, 10)
      ensures currentQuiz == None && currentQuestion == 0 && userAnswers == map[] && !showResults
      ensures View() == Configuration && Valid()
    {
      bank := QuestionBank();
      config := QuizConfig(AllCategories, MixedDifficulty, 10);
      QuestionBankWellFormed();
      currentQuiz := None;
      currentQuestion := 0;
      userAnswers := map[];
      showResults := false;
    }

    /** The three selects of the configuration view. */
    method Configure(category: string, difficulty: string, questionCount: nat)
      modifies this
      ensures config == QuizConfig(category, difficulty, questionCount)
      ensures currentQuiz == old(currentQuiz) && currentQuestion == old(currentQuestion)
      ensures userAnswers == old(userAnswers) && showResults == old(showResults)
    {
      config := QuizConfig(category, difficulty, questionCount);
    }

    /** `generateQuiz`: filter, shuffle (some permutation; no claim about its distribution),
        keep the first min(questionCount, pool size), and start at the first question. */
    method GenerateQuiz()
      requires Valid()
      modifies this
      ensures config == old(config)
      ensures currentQuiz.Some?
      ensures var pool := Pool(bank, config);
              && |currentQuiz.value| == Min(config.questionCount, |pool|)
              && multiset(currentQuiz.value) <= multiset(pool)
              && (config.questionCount >= |pool| ==> multiset(currentQuiz.value) == multiset(pool))
      ensures forall q :: q in currentQuiz.value ==>
                (config.category != AllCategories ==> q.category == config.category) &&
                (config.difficulty != MixedDifficulty ==> q.difficulty == config.difficulty)
      ensures currentQuestion == 0 && userAnswers == map[] && !showResults
      ensures Valid() && View() == Active
      ensures ActiveViewRenders() <==> currentQuiz.value != []
    {
      var pool := Pool(bank, config);
      var shuffled: seq<Question> :| multiset(shuffled) == multiset(pool);
      var k := Min(config.questionCount, |pool|);
      SelectionFromPool(bank, config, shuffled, k);
      currentQuiz := Some(shuffled[..k]);
      currentQuestion := 0;
      userAnswers := map[];
      showResults := false;
    }

    /** `generateQuiz` as evidently intended: a quiz starts only when it would have at least one
        question; otherwise the configuration view stays. */
    method GenerateQuizGuarded()
      requires Valid() && View() == Configuration
      modifies this
      ensures config == old(config)
      ensures var size := Min(config.questionCount, |Pool(bank, config)|);
              && (size == 0 ==>
                    currentQuiz == old(currentQuiz) && currentQuestion == old(currentQuestion) &&
                    userAnswers == old(userAnswers) && showResults == old(showResults))
              && (View() == Active <==> size > 0)
              && (View() == Active ==> |currentQuiz.value| == size)
      ensures Valid() && ActiveViewRenders()
    {
      if Min(config.questionCount, |Pool(bank, config)|) > 0 {
        GenerateQuiz();
      }
    }

    /** `handleAnswer(questionId, answerIndex)`. */
    method HandleAnswer(questionId: nat, answerIndex: nat)
      modifies this
      ensures userAnswers == Answer(old(userAnswers), questionId, answerIndex)
      ensures config == old(config) && currentQuiz == old(currentQuiz)
      ensures currentQuestion == old(currentQuestion) && showResults == old(showResults)
      ensures (old(Valid()) && currentQuiz.Some? && questionId in Ids(AnswerKey(currentQuiz.value)))
                ==> Valid()
    {
      userAnswers := Answer(userAnswers, questionId, answerIndex);
    }

    /** The radio buttons of the active view answer the question under the cursor. */
    method AnswerCurrent(answerIndex: nat)
      requires Valid() && View() == Active && ActiveViewRenders()
      modifies this
      ensures userAnswers == old(userAnswers)[old(currentQuiz).value[old(currentQuestion)].id := answerIndex]
      ensures config == old(config) && currentQuiz == old(currentQuiz)
      ensures currentQuestion == old(currentQuestion) && showResults == old(showResults)
      ensures Valid() && View() == Active
    {
      var id := currentQuiz.value[currentQuestion].id;
      assert AnswerKey(currentQuiz.value)[currentQuestion].id == id;
      HandleAnswer(id, answerIndex);
    }

    /** `calculateScore`: count the questions answered correctly, then
        `Math.round(correct / length * 100)`. */
    method CalculateScore() returns (score: Rounded)
      requires currentQuiz.Some?
      ensures score == RoundPercent(CountCorrect(AnswerKey(currentQuiz.value), userAnswers),
                                    |currentQuiz.value|)
      ensures currentQuiz.value != [] ==> score.Whole? && score.n <= 100
      ensures currentQuiz.value == [] ==> score == NaN
    {
      var quiz := currentQuiz.value;
      var keys := AnswerKey(quiz);
      var correct := 0;
      for i := 0 to |quiz|
        invariant correct + CountCorrect(keys[i..], userAnswers) == CountCorrect(keys, userAnswers)
      {
        assert keys[i..][1..] == keys[i + 1..];
        if quiz[i].id in userAnswers && userAnswers[quiz[i].id] == quiz[i].correct {
          correct := correct + 1;
        }
      }
      score := RoundPercent(correct, |quiz|);
    }

    /** Previous: `Math.max(0, currentQuestion - 1)`. */
    method PreviousQuestion()
      requires View() == Active && ActiveViewRenders()
      modifies this`currentQuestion
      ensures currentQuestion == AnswerSheet.Previous(old(currentQuestion))
      ensures old(Valid()) ==> Valid()
    {
      currentQuestion := AnswerSheet.Previous(currentQuestion);
    }

    /** Whether the active view shows Submit (on the last question) rather than Next. */
    function OnLastQuestion(): bool
      reads this
      requires currentQuiz.Some?
    {
      currentQuestion == |currentQuiz.value| - 1
    }

    /** Whether Submit is enabled: `Object.keys(userAnswers).length === currentQuiz.length`,
        which is exactly when every question of the quiz has an answer. */
    function SubmitEnabled(): (enabled: bool)
      reads this
      requires Valid() && currentQuiz.Some?
      ensures enabled <==> forall i :: 0 <= i < |currentQuiz.value| ==> currentQuiz.value[i].id in userAnswers
    {
      SubmitGateIff(AnswerKey(currentQuiz.value), userAnswers);
      |userAnswers.Keys| == |currentQuiz.value|
    }

    /** Next, offered on every question but the last: `Math.min(length - 1, currentQuestion + 1)`. */
    method NextQuestion()
      requires View() == Active && ActiveViewRenders() && !OnLastQuestion()
      modifies this`currentQuestion
      ensures currentQuestion == AnswerSheet.Next(old(currentQuestion), |currentQuiz.value|)
      ensures old(Valid()) ==> Valid()
    {
      currentQuestion := AnswerSheet.Next(currentQuestion, |currentQuiz.value|);
    }

    /** `handleSubmitQuiz` as written: it builds the result, then calls `addQuizResult`, which
        the user context does not provide; the call throws before `setShowResults(true)`, so
        the page stays on the active view. */
    method SubmitAsWritten() returns (outcome: SubmitOutcome)
      requires View() == Active
      requires Valid() && OnLastQuestion() && SubmitEnabled()
      modifies this
      ensures outcome == ThrewTypeError
      ensures !showResults && View() == Active
      ensures currentQuiz == old(currentQuiz) && userAnswers == old(userAnswers)
      ensures currentQuestion == old(currentQuestion) && config == old(config)
    {
      var provided := "addQuizResult" in UserContext.ContextValueNames;
      showResults := provided;
      outcome := if provided then Recorded else ThrewTypeError;
    }

    /** `handleSubmitQuiz` as evidently intended: the result of the attempt is built and the
        results view shown. The hand-off of the result to the progress record is not modelled. */
    method Submit() returns (result: QuizResult)
      requires View() == Active
      requires Valid() && OnLastQuestion() && SubmitEnabled()
      modifies this`showResults
      ensures showResults && View() == Results
      ensures result.questionCount == |currentQuiz.value|
      ensures result.correctAnswers == CountCorrect(AnswerKey(currentQuiz.value), userAnswers)
      ensures result.correctAnswers <= result.questionCount
      ensures result.score == RoundPercent(result.correctAnswers, result.questionCount)
      ensures result.category == config.category && result.difficulty == config.difficulty
    {
      var score := CalculateScore();
      var quiz := currentQuiz.value;
      FilterCountAgrees(quiz, userAnswers);
      result := QuizResult(score, config.category, config.difficulty, |quiz|,
                           CorrectByFilter(quiz, userAnswers));
      showResults := true;
    }

    /** `resetQuiz`: back to the configuration view with no answers. */
    method ResetQuiz()
      requires Valid()
      modifies this
      ensures currentQuiz == None && currentQuestion == 0 && userAnswers == map[] && !showResults
      ensures config == old(config)
      ensures View() == Configuration && Valid()
    {
      currentQuiz := None;
      currentQuestion := 0;
      userAnswers := map[];
      showResults := false;
    }
  }

  /** A fresh page, started with the default configuration: eight questions, the first shown. */
  method StartDefaultQuiz() returns (page: QuizPage)
    ensures fresh(page)
    ensures page.Valid() && page.View() == Active && page.ActiveViewRenders()
    ensures page.currentQuestion == 0 && |page.currentQuiz.value| == 8
  {
    page := new QuizPage();
    DefaultPoolSize();
    page.GenerateQuiz();
  }

  /** The walk the active view allows: answer the question shown, press Next, and so on up to
      the last question, which is answered too. Submit is then shown and enabled. */
  method AnswerEveryQuestion(page: QuizPage, answer: nat)
    requires page.Valid() && page.View() == Active && page.ActiveViewRenders()
    requires page.currentQuestion == 0
    modifies page
    ensures page.currentQuiz == old(page.currentQuiz) && page.config == old(page.config)
    ensures page.Valid() && page.View() == Active && page.ActiveViewRenders()
    ensures page.OnLastQuestion() && page.SubmitEnabled()
  {
    page.AnswerCurrent(answer);
    while !page.OnLastQuestion()
      invariant page.currentQuiz == old(page.currentQuiz) && page.config == old(page.config)
      invariant page.Valid() && page.View() == Active && page.ActiveViewRenders()
      invariant forall j :: 0 <= j <= page.currentQuestion ==> page.currentQuiz.value[j].id in page.userAnswers
      decreases |page.currentQuiz.value| - page.currentQuestion
    {
      page.NextQuestion();
      page.AnswerCurrent(answer);
    }
  }

  /** A quiz from the default configuration, every question answered and submitted from the
      last question, stays on the active view: as written, the submit handler never reaches the
      results view. */
  method SubmittedQuizStaysActive(answer: nat) returns (view: View, outcome: SubmitOutcome)
    ensures view == Active && outcome == ThrewTypeError
  {
    var page := StartDefaultQuiz();
    AnswerEveryQuestion(page, answer);
    outcome := page.SubmitAsWritten();
    view := page.View();
  }

  /** With the submit as intended, the same run reaches the results view. */
  method SubmittedQuizShowsResults(answer: nat) returns (view: View, result: QuizResult)
    ensures view == Results && result.questionCount == 8
  {
    var page := StartDefaultQuiz();
    AnswerEveryQuestion(page, answer);
    result := page.Submit();
    view := page.View();
  }

  /** As written, the configuration legal-style and intermediate, which the selects offer, starts
      an empty quiz: the active view is entered but `currentQuiz[0]` does not exist, so reading
      the question's category throws. */
  method EmptyQuizAsWritten() returns (view: View, renders: bool)
    ensures view == Active && !renders
  {
    var page := new QuizPage();
    page.Configure("legal-style", "intermediate", 10);
    EmptyPoolExists();
    page.GenerateQuiz();
    view := page.View();
    renders := page.ActiveViewRenders();
  }

  /** With the guarded start the same choice keeps the configuration view. */
  method EmptyQuizGuarded() returns (view: View)
    ensures view == Configuration
  {
    var page := new QuizPage();
    page.Configure("legal-style", "intermediate", 10);
    EmptyPoolExists();
    assert Pool(page.bank, page.config) == [];
    page.GenerateQuizGuarded();
    view := page.View();
  }
}
