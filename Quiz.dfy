/** The quiz: answering a question, the delayed step that follows, the result
    screen and restarting. The 1500 ms timer is an explicit step. */
module Quiz {
  import opened Wrappers

  datatype Question = Question(id: string, question: string, options: seq<string>, correctAnswer: int, category: string)

  /** How many of the given answers, in question order, are correct. */
  function CorrectCount(qs: seq<Question>, answers: seq<int>): (r: nat)
    requires |answers| <= |qs|
    ensures r <= |answers|
    decreases |answers|
  {
    if answers == [] then 0
    else
      var k := |answers| - 1;
      CorrectCount(qs, answers[..k]) + (if answers[k] == qs[k].correctAnswer then 1 else 0)
  }

  /** Appending one answer adds one exactly when it is correct. */
  lemma CorrectCountSnoc(qs: seq<Question>, answers: seq<int>, a: int)
    requires |answers| < |qs|
    ensures CorrectCount(qs, answers + [a]) ==
      CorrectCount(qs, answers) + (if a == qs[|answers|].correctAnswer then 1 else 0)
  {
    assert (answers + [a])[..|answers|] == answers;
  }

  /** A scheduled delayed step and what its closure captured: the answer and
      the score of the render in which the answer was given. */
  datatype Timer = Timer(index: int, scoreBefore: nat)

  /** The completion the quiz reports: the score and the number of questions. */
  datatype Completion = Completion(score: nat, total: nat)

  class QuizState {
    const questions: seq<Question>
    var currentQuestion: nat
    var selectedAnswer: Option<int>
    var score: nat
    var showResult: bool
    var answered: bool
    /** The pending delayed step, if any. */
    var pending: Option<Timer>
    /** The answers given since the last restart, one per question reached. */
    ghost var answers: seq<int>

    ghost predicate Valid()
      reads this
    {
      && |questions| > 0
      && currentQuestion < |questions|
      && |answers| == currentQuestion + (if answered then 1 else 0)
      && score == CorrectCount(questions, answers)
      && (answered <==> selectedAnswer.Some?)
      && (answered ==> selectedAnswer.value == answers[currentQuestion])
      && (pending.Some? <==> answered && !showResult)
      && (pending.Some? ==> Some(pending.value.index) == selectedAnswer
                            && pending.value.scoreBefore == CorrectCount(questions, answers[..currentQuestion]))
      && (showResult ==> answered && currentQuestion == |questions| - 1)
    }

    /** The quiz needs at least one question: the question screen reads
        `questions[currentQuestion]`. */
    constructor (questions: seq<Question>)
      requires |questions| > 0
      ensures Valid() && this.questions == questions
      ensures currentQuestion == 0 && selectedAnswer.None? && score == 0 && !showResult && !answered
    {
      this.questions := questions;
      currentQuestion := 0;
      selectedAnswer := None;
      score := 0;
      showResult := false;
      answered := false;
      pending := None;
      answers := [];
    }

    /** The score never exceeds the answers given, nor those the number of
        questions. */
    lemma Bounds()
      requires Valid()
      ensures score <= |answers| <= |questions|
    {
    }

    /** `handleAnswer`: ignored once answered; otherwise the choice is recorded,
        the score rises by one exactly when it is correct, and the delayed step
        is scheduled. */
    method Answer(index: int)
      requires Valid()
      modifies this
      ensures Valid()
      ensures old(answered) ==>
        && score == old(score) && answered && selectedAnswer == old(selectedAnswer)
        && currentQuestion == old(currentQuestion) && showResult == old(showResult)
        && pending == old(pending) && answers == old(answers)
      ensures !old(answered) ==>
        && answered && selectedAnswer == Some(index) && pending == Some(Timer(index, old(score)))
        && currentQuestion == old(currentQuestion) && !showResult
        && score == old(score) + (if index == questions[currentQuestion].correctAnswer then 1 else 0)
        && answers == old(answers) + [index]
    {
      if answered {
        return;
      }
      CorrectCountSnoc(questions, answers, index);
      assert (answers + [index])[..currentQuestion] == answers;
      pending := Some(Timer(index, score));
      selectedAnswer := Some(index);
      answered := true;
      if index == questions[currentQuestion].correctAnswer {
        score := score + 1;
      }
      answers := answers + [index];
    }

    /** The step the timer runs 1500 ms after an answer. Before the last
        question it moves on and clears the choice; on the last it shows the
        result and reports the score, counting the answer just given. */
    method DelayedStep() returns (completed: Option<Completion>)
      requires Valid()
      modifies this
      ensures Valid()
      ensures score == old(score) && answers == old(answers)
      ensures old(pending).None? ==>
        && completed.None? && currentQuestion == old(currentQuestion)
        && answered == old(answered) && showResult == old(showResult)
      ensures old(pending).Some? && old(currentQuestion) < |questions| - 1 ==>
        && completed.None? && currentQuestion == old(currentQuestion) + 1
        && selectedAnswer.None? && !answered && !showResult
      ensures old(pending).Some? && old(currentQuestion) == |questions| - 1 ==>
        && showResult && currentQuestion == old(currentQuestion)
        && completed == Some(Completion(CorrectCount(questions, answers), |questions|))
        && |answers| == |questions|
    {
      if pending.None? {
        return None;
      }
      var timer := pending.value;
      pending := None;
      if currentQuestion < |questions| - 1 {
        currentQuestion := currentQuestion + 1;
        selectedAnswer := None;
        answered := false;
        completed := None;
      } else {
        showResult := true;
        assert answers[..currentQuestion] + [timer.index] == answers;
        CorrectCountSnoc(questions, answers[..currentQuestion], timer.index);
        var bonus := if timer.index == questions[currentQuestion].correctAnswer then 1 else 0;
        completed := Some(Completion(timer.scoreBefore + bonus, |questions|));
      }
    }

    /** `handleRestart`, offered on the result screen: back to the first
        question with nothing answered. */
    method Restart()
      requires Valid() && showResult
      modifies this
      ensures Valid()
      ensures currentQuestion == 0 && selectedAnswer.None? && score == 0 && !showResult && !answered
      ensures answers == []
    {
      currentQuestion := 0;
      selectedAnswer := None;
      score := 0;
      showResult := false;
      answered := false;
      pending := None;
      answers := [];
    }
  }

  /** `Math.round(score / total * 100)` on exact rationals: the nearest whole
      percentage, halves rounding up. */
  function Percentage(score: nat, total: nat): (r: int)
    requires 0 < total && score <= total
    ensures 0 <= r <= 100
    ensures r * (2 * total) <= 200 * score + total < (r + 1) * (2 * total)
  {
    PercentageBounds(score, total);
    (200 * score + total) / (2 * total)
  }

  lemma PercentageBounds(score: nat, total: nat)
    requires 0 < total && score <= total
    ensures 0 <= (200 * score + total) / (2 * total) <= 100
  {
    var x, d := 200 * score + total, 2 * total;
    MulMono(score, total, 200);
    assert x < 101 * d;
    var q := x / d;
    assert q * d <= x < (q + 1) * d;
    if q > 100 {
      MulMono(101, q, d);
      assert false;
    } else if q < 0 {
      MulMono(q + 1, 0, d);
      assert false;
    }
  }

  lemma MulMono(a: int, b: int, d: int)
    requires a <= b && d >= 0
    ensures a * d <= b * d
  {
    assert b * d - a * d == (b - a) * d;
  }

  /** The quotient is the one whole number whose multiples bracket the dividend. */
  lemma DivIs(x: int, d: int, q: int)
    requires d > 0 && q * d <= x < (q + 1) * d
    ensures x / d == q
  {
    var r := x / d;
    assert r * d <= x < (r + 1) * d;
    if r > q {
      MulMono(q + 1, r, d);
      assert false;
    } else if r < q {
      MulMono(r + 1, q, d);
      assert false;
    }
  }

  /** A perfect run shows 100 and an empty one 0. */
  lemma PercentageEnds(total: nat)
    requires 0 < total
    ensures Percentage(total, total) == 100
    ensures Percentage(0, total) == 0
  {
    DivIs(200 * total + total, 2 * total, 100);
    DivIs(total, 2 * total, 0);
  }
}
