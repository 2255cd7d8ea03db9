/**
 * What the topic quiz and the practice exam share: the question record, the answer
 * sheet (a JavaScript object from question index to the chosen or typed answer),
 * scoring by exact string equality, the submit guard and the two percentage
 * displays, one rounded and one floored.
 */
module Grading {
  import opened Wrappers

  datatype Question = Question(question: string, options: seq<string>, answer: string)

  /** `Record<number, string>`: the answers given so far, by question index. */
  type Answers = map<int, string>

  /** `selectedAnswers[i] === questions[i].answer`; an index with no entry reads as
      `undefined`, which equals no string. */
  predicate IsCorrect(questions: seq<Question>, answers: Answers, i: int): (b: bool)
    requires 0 <= i < |questions|
    ensures b ==> i in answers
  {
    i in answers && answers[i] == questions[i].answer
  }

  /** The indices below `n` whose answer is correct. */
  function CorrectBelow(questions: seq<Question>, answers: Answers, n: nat): set<int>
    requires n <= |questions|
  {
    set i | 0 <= i < n && IsCorrect(questions, answers, i)
  }

  /** The indices whose answer is correct; the score is their number. */
  function CorrectIndices(questions: seq<Question>, answers: Answers): set<int> {
    CorrectBelow(questions, answers, |questions|)
  }

  function Score(questions: seq<Question>, answers: Answers): (r: nat)
    ensures r == 0 <==> forall i :: 0 <= i < |questions| ==> !IsCorrect(questions, answers, i)
  {
    var c := CorrectIndices(questions, answers);
    assert forall i :: 0 <= i < |questions| && IsCorrect(questions, answers, i) ==> i in c;
    |c|
  }

  /** The set of indices `0 .. n - 1`. */
  function Range(n: nat): (r: set<int>)
    ensures forall x :: x in r <==> 0 <= x < n
    ensures |r| == n
  {
    if n == 0 then {} else Range(n - 1) + {n - 1}
  }

  lemma SubsetSize(a: set<int>, b: set<int>)
    requires a <= b
    ensures |a| <= |b|
    ensures |a| == |b| ==> a == b
  {
    assert b == a + (b - a);
    if |a| == |b| {
      assert |b - a| == 0;
    }
  }

  /** The score never exceeds the number of questions. */
  lemma ScoreAtMostTotal(questions: seq<Question>, answers: Answers)
    ensures Score(questions, answers) <= |questions|
  {
    SubsetSize(CorrectIndices(questions, answers), Range(|questions|));
  }

  /** Full marks exactly when every question carries its own answer. */
  lemma FullMarksIff(questions: seq<Question>, answers: Answers)
    ensures Score(questions, answers) == |questions| <==>
      forall i :: 0 <= i < |questions| ==> IsCorrect(questions, answers, i)
  {
    var n := |questions|;
    var c := CorrectIndices(questions, answers);
    SubsetSize(c, Range(n));
    if forall i :: 0 <= i < n ==> IsCorrect(questions, answers, i) {
      assert c == Range(n);
    } else {
      var i :| 0 <= i < n && !IsCorrect(questions, answers, i);
      assert i !in c;
    }
  }

  /** With an empty answer sheet the score is 0. */
  lemma NoAnswersScoreZero(questions: seq<Question>)
    ensures Score(questions, map[]) == 0
  {
    assert CorrectIndices(questions, map[]) == {};
  }

  /** Changing the answer to question `i` changes no other question's verdict. */
  lemma OnlyThatIndexChanges(questions: seq<Question>, answers: Answers, i: int, answer: string)
    ensures CorrectIndices(questions, answers[i := answer]) - {i} == CorrectIndices(questions, answers) - {i}
  {
    var before := CorrectIndices(questions, answers);
    var after := CorrectIndices(questions, answers[i := answer]);
    forall j | j != i ensures j in after <==> j in before {
      if 0 <= j < |questions| {
        assert IsCorrect(questions, answers[i := answer], j) == IsCorrect(questions, answers, j);
      }
    }
  }

  /** Two sets that agree away from one element differ in size by at most one. */
  lemma AgreeButOne(before: set<int>, after: set<int>, i: int)
    requires after - {i} == before - {i}
    ensures |before| - 1 <= |after| <= |before| + 1
  {
    var common := before - {i};
    SubsetSize(common, before);
    SubsetSize(common, after);
    SubsetSize(after, common + {i});
    SubsetSize(before, common + {i});
  }

  /** Changing the answer to one question moves the score by at most one. */
  lemma SelectMovesScoreByAtMostOne(questions: seq<Question>, answers: Answers, i: int, answer: string)
    ensures Score(questions, answers) - 1 <= Score(questions, answers[i := answer]) <= Score(questions, answers) + 1
  {
    OnlyThatIndexChanges(questions, answers, i, answer);
    AgreeButOne(CorrectIndices(questions, answers), CorrectIndices(questions, answers[i := answer]), i);
  }

  /** The `forEach` that counts the correct answers in `handleSubmitQuiz` and
      `handleSubmitExam`. */
  method CountCorrect(questions: seq<Question>, answers: Answers) returns (count: nat)
    ensures count == Score(questions, answers)
    ensures count <= |questions|
  {
    count := 0;
    for i := 0 to |questions|
      invariant count == |CorrectBelow(questions, answers, i)|
      invariant count <= i
    {
      if i in answers && answers[i] == questions[i].answer {
        assert CorrectBelow(questions, answers, i + 1) == CorrectBelow(questions, answers, i) + {i};
        count := count + 1;
      } else {
        assert CorrectBelow(questions, answers, i + 1) == CorrectBelow(questions, answers, i);
      }
    }
  }

  /** The submit button's guard `Object.keys(selectedAnswers).length === n`. */
  predicate SubmitEnabled(answers: Answers, n: nat) {
    |answers.Keys| == n
  }

  predicate AllAnswered(answers: Answers, n: nat) {
    forall i :: 0 <= i < n ==> i in answers
  }

  /** While every answer is filed under a question's index, the guard opens
      exactly when every question has an answer; an answer filed elsewhere can
      open it with a question left blank. */
  lemma SubmitGuard(answers: Answers, n: nat)
    requires forall k :: k in answers ==> 0 <= k < n
    ensures SubmitEnabled(answers, n) <==> AllAnswered(answers, n)
  {
    SubsetSize(answers.Keys, Range(n));
    if AllAnswered(answers, n) {
      assert answers.Keys == Range(n);
    } else {
      var i :| 0 <= i < n && i !in answers;
      assert i !in answers.Keys;
    }
  }

  /** Euclidean division by a positive divisor brackets the dividend. */
  lemma DivBrackets(a: int, b: int)
    requires b > 0
    ensures b * (a / b) <= a < b * (a / b) + b
  {
    assert a == b * (a / b) + a % b;
  }

  /** A quotient is the only integer whose multiple brackets the dividend. */
  lemma QuotientUnique(a: int, b: int, q: int)
    requires b > 0 && b * q <= a < b * q + b
    ensures q == a / b
  {
    DivBrackets(a, b);
    var d := a / b;
    if q < d {
      MulMonotone(b, q + 1, d);
    } else if q > d {
      MulMonotone(b, d + 1, q);
    }
  }

  lemma MulMonotone(b: int, x: int, y: int)
    requires b > 0 && x <= y
    ensures b * x <= b * y
  {
    assert b * y - b * x == b * (y - x);
  }

  /** `Math.round(score / total * 100)` in exact arithmetic: the integer nearest to
      100 * score / total, halves rounded up. */
  function RoundedPercent(score: int, total: int): (p: int)
    requires total > 0
    ensures 2 * total * p <= 200 * score + total < 2 * total * p + 2 * total
  {
    DivBrackets(200 * score + total, 2 * total);
    (200 * score + total) / (2 * total)
  }

  /** `Math.floor(score / total * 100)` in exact arithmetic; with no question the
      quotient 0 / 0 is `NaN`, shown as no number. */
  function FlooredPercent(score: int, total: nat): (p: Option<int>)
    ensures total == 0 <==> p.None?
    ensures p.Some? ==> total * p.value <= 100 * score < total * p.value + total
  {
    if total == 0 then None else
    DivBrackets(100 * score, total);
    Some((100 * score) / total)
  }

  /** Both percentages of a score that does not exceed the total lie in 0 .. 100. */
  lemma PercentsInRange(score: nat, total: nat)
    requires 0 < total && score <= total
    ensures 0 <= RoundedPercent(score, total) <= 100
    ensures 0 <= FlooredPercent(score, total).value <= 100
  {
    var r := RoundedPercent(score, total);
    var f := FlooredPercent(score, total).value;
    if r > 100 {
      MulMonotone(2 * total, 101, r);
    }
    if r < 0 {
      MulMonotone(2 * total, r, -1);
    }
    if f > 100 {
      MulMonotone(total, 101, f);
    }
    if f < 0 {
      MulMonotone(total, f, -1);
    }
  }

  /** The rounded percentage is the floored one or one more. */
  lemma RoundedIsFloorOrNext(score: int, total: int)
    requires total > 0
    ensures var f := FlooredPercent(score, total).value;
      f <= RoundedPercent(score, total) <= f + 1
  {
    var r := RoundedPercent(score, total);
    var f := FlooredPercent(score, total).value;
    if r < f {
      MulMonotone(2 * total, r + 1, f);
    }
    if r > f + 1 {
      MulMonotone(2 * total, f + 2, r);
    }
  }

  /** What `JSON.parse` returned: an array of questions, an object with or without a
      truthy `questions` array, or anything else (a number, a string, `null`). */
  datatype Json = JArray(items: seq<Question>) | JObject(questions: Option<seq<Question>>) | JOther

  datatype ParseResult = ParseFailed(message: string) | Parsed(value: Json)
}
