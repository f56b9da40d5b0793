/** What the quiz page and the practice page share: a map from question id to the chosen option
    (`userAnswers`), the count of correct answers, the submit gate, and the clamped cursor moves
    behind the Previous and Next buttons. */
module AnswerSheet {

  /** `userAnswers`: question id to the index of the option chosen for it. */
  type Answers = map<nat, nat>

  /** The part of a question that scoring looks at: its id and the index of its correct option. */
  datatype Key = Key(id: nat, correct: nat)

  /** `userAnswers[id] === correct`; an unanswered question reads as undefined and is wrong. */
  predicate IsCorrect(answers: Answers, k: Key) {
    k.id in answers && answers[k.id] == k.correct
  }

  /** The counter of the `forEach` loop: how many questions carry their correct option. */
  function CountCorrect(keys: seq<Key>, answers: Answers): (c: nat)
    ensures c <= |keys|
    decreases |keys|
  {
    if keys == [] then 0
    else (if IsCorrect(answers, keys[0]) then 1 else 0) + CountCorrect(keys[1..], answers)
  }

  /** How many of the questions have any answer recorded. */
  function CountAnswered(keys: seq<Key>, answers: Answers): nat
    decreases |keys|
  {
    if keys == [] then 0
    else (if keys[0].id in answers then 1 else 0) + CountAnswered(keys[1..], answers)
  }

  predicate IdsDistinct(keys: seq<Key>) {
    forall i, j :: 0 <= i < j < |keys| ==> keys[i].id != keys[j].id
  }

  function Ids(keys: seq<Key>): set<nat> {
    set k | k in keys :: k.id
  }

  /** `handleAnswer(id, index)`: `{...prev, [id]: index}`. */
  function Answer(answers: Answers, id: nat, index: nat): (r: Answers)
    ensures id in r && r[id] == index
    ensures r.Keys == answers.Keys + {id}
    ensures forall other :: other in answers && other != id ==> r[other] == answers[other]
  {
    answers[id := index]
  }

  /** An unanswered question never counts as correct: the correct count is bounded by the
      answered count. */
  lemma {:induction false} CorrectAtMostAnswered(keys: seq<Key>, answers: Answers)
    ensures CountCorrect(keys, answers) <= CountAnswered(keys, answers)
    decreases |keys|
  {
    if keys != [] {
      CorrectAtMostAnswered(keys[1..], answers);
    }
  }

  /** Entries of the answer map for ids outside the question list do not affect the count. */
  lemma {:induction false} CountIgnoresOtherKeys(keys: seq<Key>, a: Answers, b: Answers)
    requires forall k :: k in keys ==> (k.id in a <==> k.id in b)
    requires forall k :: k in keys && k.id in a ==> a[k.id] == b[k.id]
    ensures CountCorrect(keys, a) == CountCorrect(keys, b)
    decreases |keys|
  {
    if keys != [] {
      assert keys[0] in keys;
      assert forall k :: k in keys[1..] ==> k in keys;
      CountIgnoresOtherKeys(keys[1..], a, b);
    }
  }

  /** Every answer correct exactly when the count reaches the number of questions. */
  lemma {:induction false} AllCorrectIff(keys: seq<Key>, answers: Answers)
    ensures CountCorrect(keys, answers) == |keys| <==>
            forall i :: 0 <= i < |keys| ==> IsCorrect(answers, keys[i])
    decreases |keys|
  {
    if keys != [] {
      AllCorrectIff(keys[1..], answers);
      assert forall i :: 1 <= i < |keys| ==> keys[i] == keys[1..][i - 1];
    }
  }

  lemma {:induction false} DistinctIdsCount(keys: seq<Key>)
    requires IdsDistinct(keys)
    ensures |Ids(keys)| == |keys|
    decreases |keys|
  {
    if keys != [] {
      var rest := keys[1..];
      DistinctIdsCount(rest);
      assert Ids(keys) == {keys[0].id} + Ids(rest) by {
        assert forall k :: k in keys <==> k == keys[0] || k in rest;
      }
      assert keys[0].id !in Ids(rest) by {
        forall k | k in rest ensures k.id != keys[0].id {
          var j :| 0 <= j < |rest| && rest[j] == k;
          assert keys[j + 1] == k;
        }
      }
    }
  }

  /** The submit gate `Object.keys(userAnswers).length === n`. When answers are only ever
      recorded for ids of the n questions, and those ids are distinct, the gate opens exactly
      when every question has an answer. */
  lemma SubmitGateIff(keys: seq<Key>, answers: Answers)
    requires IdsDistinct(keys)
    requires answers.Keys <= Ids(keys)
    ensures |answers.Keys| == |keys| <==> forall i :: 0 <= i < |keys| ==> keys[i].id in answers
  {
    DistinctIdsCount(keys);
    if |answers.Keys| == |keys| {
      assert |Ids(keys) - answers.Keys| == 0;
      assert Ids(keys) == answers.Keys;
      assert forall i :: 0 <= i < |keys| ==> keys[i].id in Ids(keys);
    }
    if forall i :: 0 <= i < |keys| ==> keys[i].id in answers {
      assert Ids(keys) <= answers.Keys;
      assert answers.Keys == Ids(keys);
    }
  }

  /** Previous: `Math.max(0, cursor - 1)`. */
  function Previous(cursor: int): (r: int)
    ensures 0 <= cursor ==> 0 <= r <= cursor
    ensures cursor > 0 ==> r == cursor - 1
  {
    if cursor - 1 >= 0 then cursor - 1 else 0
  }

  /** Next: `Math.min(n - 1, cursor + 1)`. */
  function Next(cursor: int, n: int): (r: int)
    ensures 0 <= cursor < n ==> cursor <= r < n
    ensures cursor + 1 < n ==> r == cursor + 1
  {
    if n - 1 <= cursor + 1 then n - 1 else cursor + 1
  }
}
