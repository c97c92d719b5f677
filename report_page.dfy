/**
 * The report page: the attempted and correct counts, when the report is shown at all,
 * how each answer is marked, and the Restart button.
 */
module ReportPage {
  import opened Optional
  import opened QuizContext
  import QuizPage

  // ---------------------------------------------------------------------------------------------
  // Scoring

  /** Whether the answer at position `i` is exactly the question's correct answer. */
  predicate IsHit(qs: seq<Question>, answers: seq<Option<string>>, i: nat)
    requires i < |qs|
  {
    i < |answers| && answers[i] == Some(qs[i].correctAnswer)
  }

  /** The `reduce` over the questions: one point per question whose answer is its correct one. */
  function CorrectCount(qs: seq<Question>, answers: seq<Option<string>>): (n: nat)
    ensures n <= |qs|
  {
    if qs == [] then 0
    else CorrectCount(qs[..|qs| - 1], answers) + (if IsHit(qs, answers, |qs| - 1) then 1 else 0)
  }

  /** The positions that score. */
  function CorrectIndices(qs: seq<Question>, answers: seq<Option<string>>): set<nat>
  {
    set i: nat | i < |qs| && IsHit(qs, answers, i)
  }

  /** The count is the number of scoring positions. */
  lemma {:induction false} CorrectCountIsCardinality(qs: seq<Question>, answers: seq<Option<string>>)
    ensures CorrectCount(qs, answers) == |CorrectIndices(qs, answers)|
    decreases |qs|
  {
    if qs == [] {
      assert CorrectIndices(qs, answers) == {};
    } else {
      var n := |qs| - 1;
      var front := qs[..n];
      CorrectCountIsCardinality(front, answers);
      assert forall i: nat :: i < n ==> (IsHit(front, answers, i) <==> IsHit(qs, answers, i));
      if IsHit(qs, answers, n) {
        assert CorrectIndices(qs, answers) == CorrectIndices(front, answers) + {n};
      } else {
        assert CorrectIndices(qs, answers) == CorrectIndices(front, answers);
      }
    }
  }

  lemma {:induction false} SubsetCardinality(a: set<nat>, b: set<nat>)
    requires a <= b
    ensures |a| <= |b|
    decreases |b|
  {
    if b != {} {
      var x :| x in b;
      SubsetCardinality(a - {x}, b - {x});
    }
  }

  /** What the summary card shows. */
  datatype Summary = Summary(attempted: nat, correct: nat)

  /**
   * `summary`: the non-null answers and the scoring questions. Nobody scores more than there are
   * questions, and every scoring question has been attempted.
   */
  function Summarize(s: Session): (r: Summary)
    ensures r.attempted <= |s.selectedAnswers|
    ensures r.correct <= |s.questions|
    ensures r.correct <= r.attempted
  {
    var attempted := QuizPage.AttemptedCount(s.selectedAnswers);
    var correct := CorrectCount(s.questions, s.selectedAnswers);
    CorrectCountIsCardinality(s.questions, s.selectedAnswers);
    QuizPage.AttemptedCountIsCardinality(s.selectedAnswers);
    SubsetCardinality(CorrectIndices(s.questions, s.selectedAnswers), QuizPage.AnsweredIndices(s.selectedAnswers));
    Summary(attempted, correct)
  }

  /** Correct answers A and B with selections A and nothing: one attempted, one correct. */
  lemma WorkedExample(a: string, b: string, optsA: seq<string>, optsB: seq<string>, s: Session)
    requires s.questions == [Question("0-first", "first", a, optsA), Question("1-second", "second", b, optsB)]
    requires s.selectedAnswers == [Some(a), None]
    ensures Summarize(s) == Summary(1, 1)
  {
    var qs := s.questions;
    assert qs[..1][..0] == [];
    assert CorrectCount(qs[..1], s.selectedAnswers) == 1;
    assert s.selectedAnswers[..1][..0] == [];
    assert QuizPage.AttemptedCount(s.selectedAnswers[..1]) == 1;
  }

  // ---------------------------------------------------------------------------------------------
  // The render guard

  /** The report renders only for a submitted session with questions; otherwise the page sends the user to the start. */
  predicate ShowsReport(s: Session)
  {
    |s.questions| > 0 && s.status == Submitted
  }

  /** Submitting a loaded quiz leads to the report; a fresh session never shows one. */
  lemma ReportAfterSubmit(p: QuizPage.Page, now: int)
    requires |p.session.questions| > 0 && !p.hasSubmitted
    ensures ShowsReport(QuizPage.SubmitStep(p, now).session)
    ensures !ShowsReport(Initial)
  {
  }

  // ---------------------------------------------------------------------------------------------
  // Marking each answer

  /** The class an answer line gets. */
  datatype Mark = Correct | Wrong | Unmarked

  /** `state.selectedAnswers[index]`, where a missing slot reads as nothing selected. */
  function SelectedAt(answers: seq<Option<string>>, i: nat): Option<string>
  {
    if i < |answers| then answers[i] else None
  }

  /** A selection JavaScript treats as true: present and not the empty string. */
  predicate Truthy(v: Option<string>)
  {
    v.Some? && v.value != ""
  }

  function MarkOf(q: Question, selected: Option<string>): Mark
  {
    if Truthy(selected) then (if selected == Some(q.correctAnswer) then Correct else Wrong) else Unmarked
  }

  /** The text after "Your answer:". */
  function ShownAnswer(selected: Option<string>): string
  {
    if Truthy(selected) then selected.value else "Not answered"
  }

  /**
   * A line is marked correct exactly when it scores and its correct answer is not empty, wrong
   * exactly when a non-empty different answer was selected, and otherwise reads "Not answered".
   */
  lemma MarkAgreesWithScore(qs: seq<Question>, answers: seq<Option<string>>, i: nat)
    requires i < |qs|
    ensures var m := MarkOf(qs[i], SelectedAt(answers, i));
      (m == Correct <==> IsHit(qs, answers, i) && qs[i].correctAnswer != "") &&
      (m == Wrong <==> (i < |answers| && answers[i].Some? && answers[i].value != "" &&
                        answers[i].value != qs[i].correctAnswer)) &&
      (m == Unmarked <==> ShownAnswer(SelectedAt(answers, i)) == "Not answered" && !Truthy(SelectedAt(answers, i)))
  {
  }

  /** The positions marked correct. */
  function MarkedCorrect(qs: seq<Question>, answers: seq<Option<string>>): set<nat>
  {
    set i: nat | i < |qs| && MarkOf(qs[i], SelectedAt(answers, i)) == Correct
  }

  /** With no empty correct answer, the lines marked correct are as many as the score. */
  lemma MarkedCorrectMatchesScore(qs: seq<Question>, answers: seq<Option<string>>)
    requires forall i :: 0 <= i < |qs| ==> qs[i].correctAnswer != ""
    ensures |MarkedCorrect(qs, answers)| == CorrectCount(qs, answers)
  {
    CorrectCountIsCardinality(qs, answers);
    forall i: nat | i < |qs|
      ensures i in MarkedCorrect(qs, answers) <==> i in CorrectIndices(qs, answers)
    {
      MarkAgreesWithScore(qs, answers, i);
    }
    assert MarkedCorrect(qs, answers) == CorrectIndices(qs, answers);
  }

  // ---------------------------------------------------------------------------------------------
  // Restart

  /** `handleRestart`: clear both keys, then `RESET`; the persist effect then has nothing to write. */
  method Restart(provider: QuizProvider)
    modifies provider
    ensures provider.state == Initial
    ensures provider.storage == Cleared(old(provider.storage))
  {
    provider.ClearStorage();
    provider.Dispatch(Reset);
  }

  /** After Restart, a reload starts from the initial session too: nothing of the old quiz survives. */
  lemma RestartForgetsQuiz(storage: map<string, string>)
    ensures AfterRender(Cleared(storage), Initial) == Cleared(storage)
    ensures LoadState(Cleared(storage)) == Initial
    ensures StorageKey !in Cleared(storage) && EmailKey !in Cleared(storage)
  {
    LoadAfterClear(storage);
  }
}
