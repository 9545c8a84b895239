/**
 * The quiz state machine of QuizInterface.tsx: the selected option, the
 * current question, the recorded answers and the results flag, and the
 * score reduction over the recorded answers.
 *
 * The radio group reports an option by its index rendered in decimal
 * (`index.toString()`), and Next reads it back with `parseInt`.
 */
module Quiz {
  import opened Wrappers
  import opened Text

  datatype QuizQuestion = QuizQuestion(id: string, question: string, options: seq<string>, correctAnswer: int)

  /** What `onComplete` is called with when the quiz finishes. */
  datatype Completion = Completion(score: nat, answers: seq<int>)

  /** One point for a recorded answer equal to that question's correct answer. */
  function Point(answer: int, q: QuizQuestion): nat
  {
    if answer == q.correctAnswer then 1 else 0
  }

  /** `answers.reduce((acc, answer, index) => acc + point, 0)`, folded from the left. */
  function Score(answers: seq<int>, questions: seq<QuizQuestion>): (n: nat)
    requires |answers| <= |questions|
    ensures n <= |answers|
  {
    if answers == [] then 0
    else Score(answers[..|answers| - 1], questions) + Point(answers[|answers| - 1], questions[|answers| - 1])
  }

  /** Every recorded answer is correct. */
  predicate AllCorrect(answers: seq<int>, questions: seq<QuizQuestion>)
    requires |answers| <= |questions|
  {
    forall i :: 0 <= i < |answers| ==> answers[i] == questions[i].correctAnswer
  }

  /** No recorded answer is correct. */
  predicate NoneCorrect(answers: seq<int>, questions: seq<QuizQuestion>)
    requires |answers| <= |questions|
  {
    forall i :: 0 <= i < |answers| ==> answers[i] != questions[i].correctAnswer
  }

  /** Full marks exactly when every answer is correct. */
  lemma {:induction false} FullScoreIff(answers: seq<int>, questions: seq<QuizQuestion>)
    requires |answers| <= |questions|
    ensures Score(answers, questions) == |answers| <==> AllCorrect(answers, questions)
  {
    if answers != [] {
      var init := answers[..|answers| - 1];
      FullScoreIff(init, questions);
      assert AllCorrect(answers, questions) <==>
             AllCorrect(init, questions) && answers[|answers| - 1] == questions[|answers| - 1].correctAnswer;
    }
  }

  /** A zero score exactly when no answer is correct. */
  lemma {:induction false} ZeroScoreIff(answers: seq<int>, questions: seq<QuizQuestion>)
    requires |answers| <= |questions|
    ensures Score(answers, questions) == 0 <==> NoneCorrect(answers, questions)
  {
    if answers != [] {
      var init := answers[..|answers| - 1];
      ZeroScoreIff(init, questions);
      assert NoneCorrect(answers, questions) <==>
             NoneCorrect(init, questions) && answers[|answers| - 1] != questions[|answers| - 1].correctAnswer;
    }
  }

  /** Rewriting one answer changes the score by at most one, in the direction of that answer. */
  lemma {:induction false} ScoreUpdate(answers: seq<int>, questions: seq<QuizQuestion>, i: nat, v: int)
    requires i < |answers| <= |questions|
    ensures Score(answers[i := v], questions) + Point(answers[i], questions[i]) ==
            Score(answers, questions) + Point(v, questions[i])
  {
    var last := |answers| - 1;
    if i < last {
      ScoreUpdate(answers[..last], questions, i, v);
      assert answers[i := v][..last] == answers[..last][i := v];
    } else {
      assert answers[i := v][..last] == answers[..last];
    }
  }

  /**
   * `newAnswers[currentQuestion] = value` on a copy: the slot is written
   * (appended when it is the next one) and every other answer kept.
   */
  function Record(answers: seq<int>, i: nat, value: int): (r: seq<int>)
    requires i <= |answers|
    ensures |r| == if i < |answers| then |answers| else |answers| + 1
    ensures r[i] == value
    ensures forall j :: 0 <= j < |answers| && j != i ==> r[j] == answers[j]
  {
    if i < |answers| then answers[i := value] else answers + [value]
  }

  class QuizInterface {
    const questions: seq<QuizQuestion>
    var currentQuestion: nat
    var selectedAnswers: seq<int>
    var showResults: bool
    var selectedOption: string

    /**
     * While the quiz runs one answer is recorded per question passed; once
     * it has finished there is one answer per question and the last
     * question stays current. With no questions only the empty card shows.
     */
    ghost predicate Valid()
      reads this
    {
      && AllDigits(selectedOption)
      && (|questions| == 0 ==> currentQuestion == 0 && selectedAnswers == [] && !showResults)
      && (|questions| > 0 ==> currentQuestion < |questions|)
      && (!showResults ==> |selectedAnswers| == currentQuestion)
      && (showResults ==> |selectedAnswers| == |questions| && currentQuestion == |questions| - 1)
    }

    /** The component's initial state. */
    predicate Initial()
      reads this
    {
      currentQuestion == 0 && selectedAnswers == [] && !showResults && selectedOption == ""
    }

    constructor (questions: seq<QuizQuestion>)
      ensures Valid() && Initial() && this.questions == questions
    {
      this.questions := questions;
      currentQuestion := 0;
      selectedAnswers := [];
      showResults := false;
      selectedOption := "";
    }

    /** `handleAnswerSelect(index.toString())`: the option reads back as the same index. */
    method HandleAnswerSelect(index: nat)
      requires Valid()
      modifies this
      ensures Valid()
      ensures selectedOption == NatToDecimal(index) && selectedOption != ""
      ensures DecimalValue(selectedOption) == index
      ensures currentQuestion == old(currentQuestion) && selectedAnswers == old(selectedAnswers)
      ensures showResults == old(showResults)
    {
      selectedOption := NatToDecimal(index);
      DecimalRoundTrip(index);
    }

    /** The score shown on the results card. */
    function CurrentScore(): (n: nat)
      reads this
      requires Valid() && showResults
      ensures n <= |questions|
    {
      Score(selectedAnswers, questions)
    }

    /**
     * `handleNext()`: without a selection nothing happens. Otherwise the
     * answer is recorded for the current question; before the last
     * question the quiz advances and clears the selection, on the last it
     * finishes and reports the score and the answers.
     */
    method HandleNext() returns (completed: Option<Completion>)
      requires Valid() && |questions| > 0
      modifies this
      ensures Valid()
      ensures old(selectedOption) == "" ==>
        completed.None? && currentQuestion == old(currentQuestion) &&
        selectedAnswers == old(selectedAnswers) && showResults == old(showResults) && selectedOption == ""
      ensures old(selectedOption) != "" ==>
        selectedAnswers == Record(old(selectedAnswers), old(currentQuestion), DecimalValue(old(selectedOption)))
      ensures old(selectedOption) != "" && old(currentQuestion) < |questions| - 1 ==>
        completed.None? && currentQuestion == old(currentQuestion) + 1 && selectedOption == "" && !showResults
      ensures old(selectedOption) != "" && old(currentQuestion) == |questions| - 1 ==>
        showResults && currentQuestion == old(currentQuestion) && selectedOption == old(selectedOption) &&
        |selectedAnswers| == |questions| &&
        completed == Some(Completion(Score(selectedAnswers, questions), selectedAnswers))
      ensures completed.Some? <==> old(selectedOption) != "" && old(currentQuestion) == |questions| - 1
    {
      completed := None;
      if selectedOption != "" {
        var newAnswers := Record(selectedAnswers, currentQuestion, DecimalValue(selectedOption));
        selectedAnswers := newAnswers;
        if currentQuestion < |questions| - 1 {
          currentQuestion := currentQuestion + 1;
          selectedOption := "";
        } else {
          completed := FinishQuiz(newAnswers);
        }
      }
    }

    /** `finishQuiz(answers)`: show the results and report the score. */
    method FinishQuiz(answers: seq<int>) returns (completed: Option<Completion>)
      requires |answers| == |questions| && |questions| > 0
      requires currentQuestion == |questions| - 1 && selectedAnswers == answers && AllDigits(selectedOption)
      modifies this
      ensures Valid() && showResults
      ensures completed == Some(Completion(Score(answers, questions), answers))
      ensures currentQuestion == old(currentQuestion) && selectedAnswers == old(selectedAnswers)
      ensures selectedOption == old(selectedOption)
    {
      showResults := true;
      completed := Some(Completion(Score(answers, questions), answers));
    }

    /** `resetQuiz()`: back to the initial state. */
    method ResetQuiz()
      requires Valid()
      modifies this
      ensures Valid() && Initial()
    {
      currentQuestion := 0;
      selectedAnswers := [];
      showResults := false;
      selectedOption := "";
    }
  }

  /**
   * Selecting option `k` and pressing Next records `k` for the current
   * question; on the last question the reported answers are the stored ones.
   */
  method SelectThenNext(q: QuizInterface, k: nat) returns (completed: Option<Completion>)
    requires q.Valid() && |q.questions| > 0
    modifies q
    ensures q.Valid()
    ensures old(q.currentQuestion) < |q.selectedAnswers| && q.selectedAnswers[old(q.currentQuestion)] == k
    ensures completed.Some? ==> completed.value.answers == q.selectedAnswers && q.showResults &&
                                completed.value.score <= |q.questions|
  {
    q.HandleAnswerSelect(k);
    ghost var before := q.selectedAnswers;
    completed := q.HandleNext();
    assert q.selectedAnswers == Record(before, old(q.currentQuestion), k);
  }
}
