/** The progress page's computations: the average of a score list, the recent-activity feed
    (newest first, at most ten entries), the four skill-area ratios, and the four achievements.
    The page reads several lists the progress record does not hold, so every computation takes
    its lists as parameters. */
module Progress {
  import opened JsNumbers
  import opened JsArray
  import opened Text
  import UserContext

  /* ---------- rendering against the record ---------- */

  datatype RenderOutcome = Rendered | ThrewTypeError

  /** Rendering the page as written, for any record the provider holds. The skill areas are
      built first and the last one reads `user.scenarioProgress.length` (line 109); the activity
      feed calls `user.quizResults.forEach` (line 45) and the achievements
      `user.quizResults.some` (line 253). A record has neither key, so reading a property of
      `undefined` throws. The computations below therefore take these lists as parameters. */
  method RenderAsWritten(r: UserContext.Record) returns (outcome: RenderOutcome)
    ensures outcome == ThrewTypeError
  {
    var keys := UserContext.RecordFields;
    outcome := if "scenarioProgress" in keys && "quizResults" in keys then Rendered else ThrewTypeError;
  }

  /* ---------- getAverageScore ---------- */

  function Sum(scores: seq<nat>): nat
    decreases |scores|
  {
    if scores == [] then 0 else scores[0] + Sum(scores[1..])
  }

  /** `getAverageScore`: 0 for an empty list, otherwise `Math.round(sum / length)`. */
  function AverageScore(scores: seq<nat>): (r: nat)
    ensures scores == [] ==> r == 0
    ensures scores != [] ==> 2 * |scores| * r <= 2 * Sum(scores) + |scores| < 2 * |scores| * r + 2 * |scores|
  {
    if |scores| == 0 then 0 else RoundDiv(Sum(scores), |scores|)
  }

  lemma {:induction false} SumAtMost(scores: seq<nat>, m: nat)
    requires forall i :: 0 <= i < |scores| ==> scores[i] <= m
    ensures Sum(scores) <= m * |scores|
    decreases |scores|
  {
    if scores != [] {
      assert forall i :: 0 <= i < |scores[1..]| ==> scores[1..][i] == scores[i + 1];
      SumAtMost(scores[1..], m);
    }
  }

  lemma {:induction false} SumOfEqual(scores: seq<nat>, v: nat)
    requires forall i :: 0 <= i < |scores| ==> scores[i] == v
    ensures Sum(scores) == v * |scores|
    decreases |scores|
  {
    if scores != [] {
      assert forall i :: 0 <= i < |scores[1..]| ==> scores[1..][i] == scores[i + 1];
      SumOfEqual(scores[1..], v);
    }
  }

  /** The average never exceeds a bound every score respects; in particular it stays within
      [0, 100] when every score does. */
  lemma AverageAtMost(scores: seq<nat>, m: nat)
    requires forall i :: 0 <= i < |scores| ==> scores[i] <= m
    ensures AverageScore(scores) <= m
  {
    if scores != [] {
      SumAtMost(scores, m);
      RoundDivAtMost(Sum(scores), |scores|, m);
    }
  }

  /** The average of equal scores is that score. */
  lemma AverageOfEqual(scores: seq<nat>, v: nat)
    requires scores != []
    requires forall i :: 0 <= i < |scores| ==> scores[i] == v
    ensures AverageScore(scores) == v
  {
    SumOfEqual(scores, v);
    RoundDivExact(v, |scores|);
  }

  /* ---------- getRecentActivity ---------- */

  /** A dated score from a list the page reads; dates are numbers (milliseconds). */
  datatype Dated = Dated(score: int, date: int)

  /** One entry of the feed; titles, icons and colours are display data. */
  datatype Activity =
    | LessonActivity(lessonId: string, date: int)
    | PracticeActivity(score: int, date: int)
    | QuizActivity(score: int, date: int)

  /** The entries one loop pushes for the completed lessons. A lesson has no recorded date; the
      page draws a random one within the past week, which here is given. */
  function LessonEntries(lessons: seq<string>, lessonDates: seq<int>): seq<Activity>
    requires |lessonDates| == |lessons|
  {
    seq(|lessons|, i requires 0 <= i < |lessons| => LessonActivity(lessons[i], lessonDates[i]))
  }

  function PracticeEntries(practice: seq<Dated>): seq<Activity> {
    seq(|practice|, i requires 0 <= i < |practice| => PracticeActivity(practice[i].score, practice[i].date))
  }

  function QuizEntries(quizzes: seq<Dated>): seq<Activity> {
    seq(|quizzes|, i requires 0 <= i < |quizzes| => QuizActivity(quizzes[i].score, quizzes[i].date))
  }

  /** The entries in push order: lessons, then practice sessions, then quiz results. */
  function AllActivities(lessons: seq<string>, lessonDates: seq<int>, practice: seq<Dated>,
                         quizzes: seq<Dated>): (r: seq<Activity>)
    requires |lessonDates| == |lessons|
    ensures |r| == |lessons| + |practice| + |quizzes|
    ensures forall i :: 0 <= i < |lessons| ==> r[i] == LessonActivity(lessons[i], lessonDates[i])
    ensures forall i :: 0 <= i < |practice| ==>
              r[|lessons| + i] == PracticeActivity(practice[i].score, practice[i].date)
    ensures forall i :: 0 <= i < |quizzes| ==>
              r[|lessons| + |practice| + i] == QuizActivity(quizzes[i].score, quizzes[i].date)
  {
    LessonEntries(lessons, lessonDates) + PracticeEntries(practice) + QuizEntries(quizzes)
  }

  /** Newest first: dates never increase along the list. */
  predicate NewestFirstOrder(s: seq<Activity>) {
    forall i, j :: 0 <= i < j < |s| ==> s[i].date >= s[j].date
  }

  /** One step of a stable sort: x goes after every entry at least as new. */
  function Insert(sorted: seq<Activity>, x: Activity): (r: seq<Activity>)
    ensures multiset(r) == multiset(sorted) + multiset{x}
    decreases |sorted|
  {
    if sorted == [] then [x]
    else if sorted[|sorted| - 1].date >= x.date then sorted + [x]
    else
      var init := sorted[..|sorted| - 1];
      assert sorted == init + [sorted[|sorted| - 1]];
      Insert(init, x) + [sorted[|sorted| - 1]]
  }

  /** Every entry is dated d or later. */
  predicate NoOlderThan(s: seq<Activity>, d: int) {
    forall i :: 0 <= i < |s| ==> s[i].date >= d
  }

  lemma {:induction false} InsertNoOlderThan(sorted: seq<Activity>, x: Activity, d: int)
    requires NoOlderThan(sorted, d) && x.date >= d
    ensures NoOlderThan(Insert(sorted, x), d)
    decreases |sorted|
  {
    if sorted != [] && sorted[|sorted| - 1].date < x.date {
      InsertNoOlderThan(sorted[..|sorted| - 1], x, d);
    }
  }

  lemma {:induction false} InsertKeepsOrder(sorted: seq<Activity>, x: Activity)
    requires NewestFirstOrder(sorted)
    ensures NewestFirstOrder(Insert(sorted, x))
    decreases |sorted|
  {
    if sorted != [] && sorted[|sorted| - 1].date < x.date {
      var last := sorted[|sorted| - 1];
      var init := sorted[..|sorted| - 1];
      InsertKeepsOrder(init, x);
      InsertNoOlderThan(init, x, last.date);
      assert Insert(sorted, x) == Insert(init, x) + [last];
    }
  }

  /** `activities.sort((a, b) => b.date - a.date)`, a stable sort. */
  function NewestFirst(s: seq<Activity>): (r: seq<Activity>)
    ensures multiset(r) == multiset(s)
    ensures NewestFirstOrder(r)
    decreases |s|
  {
    if s == [] then []
    else
      var init := s[..|s| - 1];
      assert s == init + [s[|s| - 1]];
      var sortedInit := NewestFirst(init);
      InsertKeepsOrder(sortedInit, s[|s| - 1]);
      Insert(sortedInit, s[|s| - 1])
  }

  /** `getRecentActivity`: three loops push one entry per lesson, practice session and quiz
      result; the entries are sorted newest first and the first ten kept. */
  method RecentActivity(lessons: seq<string>, lessonDates: seq<int>, practice: seq<Dated>,
                        quizzes: seq<Dated>) returns (recent: seq<Activity>)
    requires |lessonDates| == |lessons|
    ensures recent == Prefix(NewestFirst(AllActivities(lessons, lessonDates, practice, quizzes)), 10)
  {
    var activities: seq<Activity> := [];
    ghost var lessonPart, practicePart := LessonEntries(lessons, lessonDates), PracticeEntries(practice);
    ghost var quizPart := QuizEntries(quizzes);
    for i := 0 to |lessons|
      invariant activities == lessonPart[..i]
    {
      assert lessonPart[..i + 1] == lessonPart[..i] + [lessonPart[i]];
      activities := activities + [LessonActivity(lessons[i], lessonDates[i])];
    }
    assert lessonPart[..|lessons|] == lessonPart;
    for i := 0 to |practice|
      invariant activities == lessonPart + practicePart[..i]
    {
      assert practicePart[..i + 1] == practicePart[..i] + [practicePart[i]];
      activities := activities + [PracticeActivity(practice[i].score, practice[i].date)];
    }
    assert practicePart[..|practice|] == practicePart;
    for i := 0 to |quizzes|
      invariant activities == lessonPart + practicePart + quizPart[..i]
    {
      assert quizPart[..i + 1] == quizPart[..i] + [quizPart[i]];
      activities := activities + [QuizActivity(quizzes[i].score, quizzes[i].date)];
    }
    assert quizPart[..|quizzes|] == quizPart;
    recent := Prefix(NewestFirst(activities), 10);
  }

  /** The first k entries of a list ordered newest first are ordered newest first, are drawn from
      the list, and whatever lies past them is no newer than any of them. */
  lemma LeftOutNoNewer(sorted: seq<Activity>, k: nat)
    requires NewestFirstOrder(sorted) && k <= |sorted|
    ensures NewestFirstOrder(sorted[..k])
    ensures multiset(sorted[..k]) <= multiset(sorted)
    ensures forall x, y :: x in multiset(sorted) - multiset(sorted[..k]) && y in sorted[..k] ==> x.date <= y.date
  {
    var front, rest := sorted[..k], sorted[k..];
    assert sorted == front + rest;
    MultisetSplit(front, rest);
    forall x: Activity, y: Activity | x in rest && y in front ensures x.date <= y.date {
      var j :| 0 <= j < |rest| && rest[j] == x;
      var i :| 0 <= i < |front| && front[i] == y;
      assert sorted[i] == y && sorted[k + j] == x;
    }
  }

  lemma MultisetSplit<T>(front: seq<T>, rest: seq<T>)
    ensures multiset(front + rest) - multiset(front) == multiset(rest)
    ensures multiset(front) <= multiset(front + rest)
  {
    assert multiset(front + rest) == multiset(front) + multiset(rest);
  }

  /** The feed holds min(10, number of entries) entries drawn from the entries, newest first,
      and no entry left out is newer than any entry shown. */
  lemma RecentActivityIsNewestTen(all: seq<Activity>)
    ensures var recent := Prefix(NewestFirst(all), 10);
            && |recent| == Min(10, |all|)
            && NewestFirstOrder(recent)
            && multiset(recent) <= multiset(all)
            && forall x, y :: x in multiset(all) - multiset(recent) && y in recent ==> x.date <= y.date
  {
    var sorted := NewestFirst(all);
    var k := Min(10, |all|);
    assert |sorted| == |all| by {
      assert |multiset(sorted)| == |multiset(all)|;
    }
    assert Prefix(sorted, 10) == sorted[..k];
    LeftOutNoNewer(sorted, k);
  }

  /* ---------- skillAreas ---------- */

  /** `Math.min(100, (count / target) * 100)`, over the reals. */
  function SkillProgress(count: nat, target: nat): (r: real)
    requires target > 0
    ensures 0.0 <= r <= 100.0
    ensures r == 100.0 <==> count >= target
  {
    RatioAgainstHundred(count, target);
    var ratio := (count as real / target as real) * 100.0;
    if ratio <= 100.0 then ratio else 100.0
  }

  /** count / target * 100 is never negative, and is at most (exactly) 100 when count is at most
      (exactly) target. */
  lemma RatioAgainstHundred(count: nat, target: nat)
    requires target > 0
    ensures 0.0 <= (count as real / target as real) * 100.0
    ensures (count as real / target as real) * 100.0 <= 100.0 <==> count <= target
    ensures (count as real / target as real) * 100.0 == 100.0 <==> count == target
  {
    var t, c := target as real, count as real;
    var q := c / t;
    assert q * t == c;
    assert q <= 1.0 <==> c <= t by {
      if q <= 1.0 { assert q * t <= 1.0 * t; }
      if q > 1.0 { assert q * t > 1.0 * t; }
    }
    assert q == 1.0 <==> c == t;
  }

  /** More completed items never lower a skill's progress. */
  lemma SkillProgressMonotone(a: nat, b: nat, target: nat)
    requires target > 0 && a <= b
    ensures SkillProgress(a, target) <= SkillProgress(b, target)
  {
    assert a as real / target as real <= b as real / target as real;
  }

  /** `id => id.includes(term)`. */
  function Mentions(term: string): string -> bool {
    (id: string) => Contains(id, term)
  }

  /** The number of lesson ids containing a term: `filter(id => id.includes(term)).length`. */
  function CountContaining(lessons: seq<string>, term: string): (n: nat)
    ensures n <= |lessons|
  {
    |Filter(lessons, Mentions(term))|
  }

  datatype SkillArea = SkillArea(name: string, progress: real)

  /** The four skill areas: lessons containing "punct" out of 5, "gram" out of 8, "legal" out of
      6, and scenario progress entries out of 5. */
  function SkillAreas(lessons: seq<string>, scenarioCount: nat): (r: seq<SkillArea>)
    ensures |r| == 4
    ensures forall i :: 0 <= i < 4 ==> 0.0 <= r[i].progress <= 100.0
    ensures r[0].progress == 100.0 <==> CountContaining(lessons, "punct") >= 5
    ensures r[1].progress == 100.0 <==> CountContaining(lessons, "gram") >= 8
    ensures r[2].progress == 100.0 <==> CountContaining(lessons, "legal") >= 6
    ensures r[3].progress == 100.0 <==> scenarioCount >= 5
  {
    [ SkillArea("Punctuation", SkillProgress(CountContaining(lessons, "punct"), 5)),
      SkillArea("Grammar", SkillProgress(CountContaining(lessons, "gram"), 8)),
      SkillArea("Legal Terminology", SkillProgress(CountContaining(lessons, "legal"), 6)),
      SkillArea("Court Procedures", SkillProgress(scenarioCount, 5)) ]
  }

  lemma {:induction false} FilterPrefixNoLonger<T(!new)>(a: seq<T>, b: seq<T>, p: T -> bool)
    requires a <= b
    ensures |Filter(a, p)| <= |Filter(b, p)|
    decreases |a|
  {
    if a != [] {
      assert a[1..] <= b[1..];
      FilterPrefixNoLonger(a[1..], b[1..], p);
    }
  }

  /** Extending the lesson list never lowers a term's count. */
  lemma CountContainingMonotone(a: seq<string>, b: seq<string>, term: string)
    requires a <= b
    ensures CountContaining(a, term) <= CountContaining(b, term)
  {
    FilterPrefixNoLonger(a, b, Mentions(term));
  }

  /** Extending the lesson list never lowers any skill area's progress. */
  lemma SkillAreasMonotone(a: seq<string>, b: seq<string>, scenarioCount: nat)
    requires a <= b
    ensures forall i :: 0 <= i < 4 ==> SkillAreas(a, scenarioCount)[i].progress <= SkillAreas(b, scenarioCount)[i].progress
  {
    var before, after := SkillAreas(a, scenarioCount), SkillAreas(b, scenarioCount);
    CountContainingMonotone(a, b, "punct");
    SkillProgressMonotone(CountContaining(a, "punct"), CountContaining(b, "punct"), 5);
    assert before[0].progress <= after[0].progress;
    CountContainingMonotone(a, b, "gram");
    SkillProgressMonotone(CountContaining(a, "gram"), CountContaining(b, "gram"), 8);
    assert before[1].progress <= after[1].progress;
    CountContainingMonotone(a, b, "legal");
    SkillProgressMonotone(CountContaining(a, "legal"), CountContaining(b, "legal"), 6);
    assert before[2].progress <= after[2].progress;
  }

  /** Completing a lesson never lowers any skill area's progress. */
  lemma LessonCompletionKeepsSkillProgress(prev: UserContext.Record, id: string, scenarioCount: nat)
    requires NoDuplicates(prev.completedLessons)
    ensures var before := SkillAreas(prev.completedLessons, scenarioCount);
            var after := SkillAreas(UserContext.WithLessonCompleted(prev, id).completedLessons, scenarioCount);
            forall i :: 0 <= i < 4 ==> before[i].progress <= after[i].progress
  {
    UserContext.LessonCompletionAppendsOnce(prev, id);
    DedupeOfDistinct(prev.completedLessons);
    SkillAreasMonotone(prev.completedLessons, UserContext.WithLessonCompleted(prev, id).completedLessons,
                       scenarioCount);
  }

  /* ---------- achievements ---------- */

  datatype Achievement = Achievement(title: string, unlocked: bool)

  /** The achievement cards: First Steps (a completed lesson), Practice Makes Perfect (five
      practice sessions), Quiz Master (a quiz scored 100) and Dedicated Learner (a streak of 7). */
  function Achievements(lessons: seq<string>, practiceCount: nat, quizScores: seq<int>, streak: int)
    : (r: seq<Achievement>)
    ensures |r| == 4
    ensures r[0].unlocked <==> |lessons| >= 1
    ensures r[1].unlocked <==> practiceCount >= 5
    ensures r[2].unlocked <==> exists i :: 0 <= i < |quizScores| && quizScores[i] == 100
    ensures r[3].unlocked <==> streak >= 7
  {
    [ Achievement("First Steps", |lessons| > 0),
      Achievement("Practice Makes Perfect", practiceCount >= 5),
      Achievement("Quiz Master", exists i :: 0 <= i < |quizScores| && quizScores[i] == 100),
      Achievement("Dedicated Learner", streak >= 7) ]
  }

  /** Achievements only ever unlock: growing lists and a longer streak keep every card unlocked. */
  lemma AchievementsStayUnlocked(lessons: seq<string>, lessons': seq<string>, practiceCount: nat,
                                 practiceCount': nat, quizScores: seq<int>, quizScores': seq<int>,
                                 streak: int, streak': int)
    requires lessons <= lessons' && practiceCount <= practiceCount'
    requires quizScores <= quizScores' && streak <= streak'
    ensures forall i :: 0 <= i < 4 && Achievements(lessons, practiceCount, quizScores, streak)[i].unlocked ==>
              Achievements(lessons', practiceCount', quizScores', streak')[i].unlocked
  {
    var before := Achievements(lessons, practiceCount, quizScores, streak);
    if before[2].unlocked {
      var k :| 0 <= k < |quizScores| && quizScores[k] == 100;
      assert quizScores'[k] == 100;
    }
  }

  /** Completing any lesson unlocks First Steps; the fifth practice submission unlocks Practice
      Makes Perfect. */
  lemma RecordUpdatesUnlock(prev: UserContext.Record, id: string, score: nat, date: string,
                            quizScores: seq<int>, streak: int)
    ensures var r := UserContext.WithLessonCompleted(prev, id);
            Achievements(r.completedLessons, |r.practiceScores|, quizScores, streak)[0].unlocked
    ensures var r := UserContext.WithPracticeScore(prev, score, date);
            |prev.practiceScores| == 4 ==>
              Achievements(r.completedLessons, |r.practiceScores|, quizScores, streak)[1].unlocked
  {
    var r := UserContext.WithLessonCompleted(prev, id);
    assert id in r.completedLessons;
  }
}
