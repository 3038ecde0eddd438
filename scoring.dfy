/**
 * Grading of a submitted quiz (the POST /api/assessment handler): every question's
 * correct answer is compared with the submitted answer at the same position, the
 * matches are counted, a per-question detail list is built, and the score is turned
 * into a rounded percentage.
 */
module Scoring {

  /** A JSON scalar as it arrives in the request body. `Undefined` is what
      `answers[index]` yields past the end of the array, or a missing field. */
  datatype Value = Undefined | Null | Text(s: string)

  /** A question as posted by the client; only its key is read. */
  datatype Question = Question(correctAnswer: Value)

  /** One entry of the stored answer list. */
  datatype AnswerDetail = AnswerDetail(questionNumber: nat, userAnswer: Value, correctAnswer: Value, isCorrect: bool)

  /** `answers[i]` in JavaScript: the element, or undefined past the end. */
  function AnswerAt(answers: seq<Value>, i: nat): Value
  {
    if i < |answers| then answers[i] else Undefined
  }

  /** Strict equality `===` of the submitted answer and the key; on these scalars it is
      structural equality (so undefined === undefined holds). */
  predicate IsCorrectAt(questions: seq<Question>, answers: seq<Value>, i: nat)
    requires i < |questions|
  {
    AnswerAt(answers, i) == questions[i].correctAnswer
  }

  /** The detail record built for question i. */
  function DetailAt(questions: seq<Question>, answers: seq<Value>, i: nat): AnswerDetail
    requires i < |questions|
  {
    AnswerDetail(i + 1, AnswerAt(answers, i), questions[i].correctAnswer, IsCorrectAt(questions, answers, i))
  }

  /** The detail records of the first k questions. */
  function DetailsUpTo(questions: seq<Question>, answers: seq<Value>, k: nat): seq<AnswerDetail>
    requires k <= |questions|
  {
    seq(k, i requires 0 <= i < k => DetailAt(questions, answers, i))
  }

  /** The whole detail list: one record per question, in question order. */
  function Details(questions: seq<Question>, answers: seq<Value>): seq<AnswerDetail>
  {
    DetailsUpTo(questions, answers, |questions|)
  }

  /** The indices among the first k questions whose answer matches the key. */
  ghost function MatchesUpTo(questions: seq<Question>, answers: seq<Value>, k: nat): set<nat>
    requires k <= |questions|
  {
    set i: nat | i < k && IsCorrectAt(questions, answers, i)
  }

  /** The indices of all correctly answered questions; the score is their number. */
  ghost function Matches(questions: seq<Question>, answers: seq<Value>): set<nat>
  {
    MatchesUpTo(questions, answers, |questions|)
  }

  /** The number of detail records marked correct. */
  function CorrectCount(details: seq<AnswerDetail>): (c: nat)
    ensures c <= |details|
  {
    if details == [] then 0
    else CorrectCount(details[..|details| - 1]) + (if details[|details| - 1].isCorrect then 1 else 0)
  }

  /**
   * `Math.round(score / total * 100)` in exact arithmetic: the nearest integer to
   * 100 * score / total, halves rounded up.
   */
  function Percentage(score: nat, total: nat): (p: nat)
    requires 0 < total
    ensures 2 * total * p <= 200 * score + total < 2 * total * (p + 1)
  {
    (200 * score + total) / (2 * total)
  }

  /** The grading loop of the handler: walks the questions (never the answers),
      counting matches and pushing one detail record per question. */
  method Grade(questions: seq<Question>, answers: seq<Value>) returns (score: nat, details: seq<AnswerDetail>)
    ensures score == |Matches(questions, answers)|
    ensures details == Details(questions, answers)
    ensures score <= |questions|
    ensures CorrectCount(details) == score
  {
    score := 0;
    details := [];
    var index := 0;
    while index < |questions|
      invariant index <= |questions|
      invariant score == |MatchesUpTo(questions, answers, index)|
      invariant details == DetailsUpTo(questions, answers, index)
    {
      var isCorrect := AnswerAt(answers, index) == questions[index].correctAnswer;
      MatchesStep(questions, answers, index);
      if isCorrect {
        score := score + 1;
      }
      details := details + [AnswerDetail(index + 1, AnswerAt(answers, index), questions[index].correctAnswer, isCorrect)];
      index := index + 1;
    }
    MatchesBound(questions, answers, |questions|);
    CorrectCountIsScore(questions, answers, |questions|);
  }

  // ---------------------------------------------------------------------------
  // Lemmas about the specification of the score.

  /** Going from k to k+1 questions adds index k exactly when question k is correct. */
  lemma MatchesStep(questions: seq<Question>, answers: seq<Value>, k: nat)
    requires k < |questions|
    ensures k !in MatchesUpTo(questions, answers, k)
    ensures MatchesUpTo(questions, answers, k + 1)
         == MatchesUpTo(questions, answers, k) + (if IsCorrectAt(questions, answers, k) then {k} else {})
    ensures |MatchesUpTo(questions, answers, k + 1)|
         == |MatchesUpTo(questions, answers, k)| + (if IsCorrectAt(questions, answers, k) then 1 else 0)
  {
    var before, after := MatchesUpTo(questions, answers, k), MatchesUpTo(questions, answers, k + 1);
    assert after == before + (if IsCorrectAt(questions, answers, k) then {k} else {});
  }

  /** At most k of the first k questions can be correct. */
  lemma {:induction false} MatchesBound(questions: seq<Question>, answers: seq<Value>, k: nat)
    requires k <= |questions|
    ensures |MatchesUpTo(questions, answers, k)| <= k
  {
    if k > 0 {
      MatchesBound(questions, answers, k - 1);
      MatchesStep(questions, answers, k - 1);
    }
  }

  /** The number of detail records marked correct is the number of matches. */
  lemma {:induction false} CorrectCountIsScore(questions: seq<Question>, answers: seq<Value>, k: nat)
    requires k <= |questions|
    ensures CorrectCount(DetailsUpTo(questions, answers, k)) == |MatchesUpTo(questions, answers, k)|
  {
    if k > 0 {
      CorrectCountIsScore(questions, answers, k - 1);
      MatchesStep(questions, answers, k - 1);
      var ds := DetailsUpTo(questions, answers, k);
      assert ds[..k - 1] == DetailsUpTo(questions, answers, k - 1);
    }
  }

  /** Entry i of the detail list describes question i. */
  lemma DetailsEntries(questions: seq<Question>, answers: seq<Value>, i: nat)
    requires i < |questions|
    ensures |Details(questions, answers)| == |questions|
    ensures Details(questions, answers)[i].questionNumber == i + 1
    ensures Details(questions, answers)[i].correctAnswer == questions[i].correctAnswer
    ensures Details(questions, answers)[i].userAnswer == (if i < |answers| then answers[i] else Undefined)
    ensures Details(questions, answers)[i].isCorrect
        <==> Details(questions, answers)[i].userAnswer == Details(questions, answers)[i].correctAnswer
    ensures Details(questions, answers)[i].isCorrect <==> i in Matches(questions, answers)
  {
  }

  /** The score reaches the number of questions exactly when every answer matches. */
  lemma {:induction false} AllCorrectUpTo(questions: seq<Question>, answers: seq<Value>, k: nat)
    requires k <= |questions|
    ensures |MatchesUpTo(questions, answers, k)| == k <==> forall i :: 0 <= i < k ==> IsCorrectAt(questions, answers, i)
  {
    if k > 0 {
      AllCorrectUpTo(questions, answers, k - 1);
      MatchesStep(questions, answers, k - 1);
      MatchesBound(questions, answers, k - 1);
    }
  }

  lemma AllCorrect(questions: seq<Question>, answers: seq<Value>)
    ensures |Matches(questions, answers)| == |questions|
        <==> forall i :: 0 <= i < |questions| ==> IsCorrectAt(questions, answers, i)
  {
    AllCorrectUpTo(questions, answers, |questions|);
  }

  /** The score is zero exactly when no answer matches. */
  lemma NoneCorrect(questions: seq<Question>, answers: seq<Value>)
    ensures |Matches(questions, answers)| == 0
        <==> forall i :: 0 <= i < |questions| ==> !IsCorrectAt(questions, answers, i)
  {
    var m := Matches(questions, answers);
    assert forall i :: 0 <= i < |questions| && IsCorrectAt(questions, answers, i) ==> i in m;
    if |m| != 0 {
      var i :| i in m;
      assert i < |questions| && IsCorrectAt(questions, answers, i);
    }
  }

  /** Grading depends on the answers only at the positions of the questions; in
      particular answers past the last question change nothing. */
  lemma SameAnswersSameGrade(questions: seq<Question>, answers: seq<Value>, others: seq<Value>)
    requires forall i :: 0 <= i < |questions| ==> AnswerAt(answers, i) == AnswerAt(others, i)
    ensures Details(questions, answers) == Details(questions, others)
    ensures Matches(questions, answers) == Matches(questions, others)
  {
    assert forall i :: 0 <= i < |questions| ==> IsCorrectAt(questions, answers, i) == IsCorrectAt(questions, others, i);
  }

  lemma ExtraAnswersIgnored(questions: seq<Question>, answers: seq<Value>, extra: seq<Value>)
    requires |questions| <= |answers|
    ensures Details(questions, answers + extra) == Details(questions, answers)
    ensures |Matches(questions, answers + extra)| == |Matches(questions, answers)|
  {
    SameAnswersSameGrade(questions, answers + extra, answers);
  }

  // ---------------------------------------------------------------------------
  // Lemmas about the percentage.

  /** The percentage of a score out of a positive total lies in 0..100. */
  lemma PercentageBounds(score: nat, total: nat)
    requires 0 < total && score <= total
    ensures Percentage(score, total) <= 100
  {
    var p := Percentage(score, total);
    assert 2 * total * p < 2 * total * 101;
    MulCancel(2 * total, p, 101);
  }

  /** A larger score never gives a smaller percentage. */
  lemma PercentageMonotone(low: nat, high: nat, total: nat)
    requires 0 < total && low <= high
    ensures Percentage(low, total) <= Percentage(high, total)
  {
    var p, q := Percentage(low, total), Percentage(high, total);
    assert 2 * total * p < 2 * total * (q + 1);
    MulCancel(2 * total, p, q + 1);
  }

  /** The percentage is 100 exactly when the wrong answers are at most a
      two-hundredth of the questions. */
  lemma PercentageFull(score: nat, total: nat)
    requires 0 < total && score <= total
    ensures Percentage(score, total) == 100 <==> 200 * (total - score) <= total
  {
    var p := Percentage(score, total);
    PercentageBounds(score, total);
    if 200 * (total - score) <= total {
      assert 2 * total * 99 < 2 * total * p;
      MulCancel(2 * total, 99, p);
    } else {
      assert 2 * total * p < 2 * total * 100;
      MulCancel(2 * total, p, 100);
    }
  }

  /** The percentage is 0 exactly when the score is below a two-hundredth of the questions. */
  lemma PercentageZero(score: nat, total: nat)
    requires 0 < total
    ensures Percentage(score, total) == 0 <==> 200 * score < total
  {
    var p := Percentage(score, total);
    if 200 * score < total {
      assert 2 * total * p < 2 * total * 1;
      MulCancel(2 * total, p, 1);
    } else {
      assert 2 * total * 0 < 2 * total * (p + 1);
      MulCancel(2 * total, 0, p + 1);
    }
  }

  /** For quizzes of at most 200 questions, 0 means none correct; for fewer than 200,
      100 means all correct. */
  lemma PercentageExtremes(score: nat, total: nat)
    requires 0 < total <= 200 && score <= total
    ensures total < 200 ==> (Percentage(score, total) == 100 <==> score == total)
    ensures Percentage(score, total) == 0 <==> score == 0
  {
    PercentageFull(score, total);
    PercentageZero(score, total);
  }

  /** From 200 questions on the extremes are also reached by rounding: 199 of 200
      shows 100%, 1 of 201 shows 0%. */
  lemma LargeQuizRoundsToExtremes()
    ensures Percentage(199, 200) == 100
    ensures Percentage(1, 201) == 0
  {
  }

  /** Cancelling a common factor from a strict inequality. */
  lemma MulCancel(c: nat, a: nat, b: nat)
    requires c * a < c * b
    ensures a < b
  {
    if b <= a {
      MulMonotone(c, b, a);
    }
  }

  lemma {:induction false} MulMonotone(c: nat, a: nat, b: nat)
    requires a <= b
    ensures c * a <= c * b
  {
    if c > 0 {
      MulMonotone(c - 1, a, b);
    }
  }

  /** The worked example: keys A, B and answers A, C give 1 of 2, 50%. */
  lemma WorkedExample()
    ensures var questions, answers := [Question(Text("A")), Question(Text("B"))], [Text("A"), Text("C")];
      && Details(questions, answers) == [AnswerDetail(1, Text("A"), Text("A"), true), AnswerDetail(2, Text("C"), Text("B"), false)]
      && |Matches(questions, answers)| == 1
      && Percentage(|Matches(questions, answers)|, |questions|) == 50
  {
    var questions, answers := [Question(Text("A")), Question(Text("B"))], [Text("A"), Text("C")];
    assert IsCorrectAt(questions, answers, 0);
    assert !IsCorrectAt(questions, answers, 1) by {
      assert "C" != "B" by { assert "C"[0] != "B"[0]; }
    }
    assert Matches(questions, answers) == {0};
  }
}
