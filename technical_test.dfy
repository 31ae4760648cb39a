/** The technical test page (frontend/src/pages/TechnicalTest.jsx): a fixed
    catalogue of ten questions answered under a retry-until-correct policy.
    Every selection appends one attempt record; a wrong answer is followed by
    a feedback hold after which the same question is asked again with the
    attempt number raised by one; a correct answer enables Next. After the last
    question every record is posted, and the test completes only when every
    post succeeds.

    The clock is a parameter (the response time of a selection), the 1.5 s
    hold is the explicit step HoldElapsed, and the posts are an injected
    sequence of outcomes. */
module TechnicalTest {
  import opened Models

  datatype Question = Question(id: int, options: seq<string>, correctAnswer: string)

  /** The catalogue, in presentation order (the prompt texts are not modelled). */
  const Questions: seq<Question> := [
    Question(1, ["Yes", "No", "Cannot be determined", "None of the above"], "Yes"),
    Question(2, ["40", "42", "44", "46"], "42"),
    Question(3, ["120 metres", "180 metres", "324 metres", "150 metres"], "150 metres"),
    Question(4, ["Tulip", "Rose", "Bud", "Daisy"], "Bud"),
    Question(5, ["142345", "7181165", "7181166", "7171165"], "7181165"),
    Question(6, ["Speed", "Hiking", "Needle", "Direction"], "Direction"),
    Question(7, ["20", "22", "24", "48"], "22"),
    Question(8, ["Wednesday", "Thursday", "Friday", "Saturday"], "Thursday"),
    Question(9, ["S", "T", "U", "U"], "U"),
    Question(10, ["100 minutes", "50 minutes", "5 minutes", "10 minutes"], "5 minutes")
  ]

  /** Question ids are 1, 2, ..., 10 in order (so they are distinct), and every
      correct answer is one of its question's options. */
  lemma CatalogueIsWellFormed()
    ensures |Questions| == 10
    ensures forall i :: 0 <= i < |Questions| ==> Questions[i].id == i + 1
    ensures forall i :: 0 <= i < |Questions| ==> Questions[i].correctAnswer in Questions[i].options
  {
  }

  /** The feedback banner: nothing, or the verdict on the option just selected. */
  datatype Feedback = NoFeedback | Shown(isCorrect: bool, selected: string)

  /** What every record the page builds satisfies. */
  ghost predicate WellFormedRecord(r: TechnicalAttempt) {
    && r.attemptNumber >= 1
    && r.responseTime >= 0.0
    && (r.isCorrect <==> r.selectedAnswer == r.correctAnswer)
  }

  class Session {
    var currentStep: nat
    var attemptNumber: nat
    var results: seq<TechnicalAttempt>
    var feedback: Feedback
    var isSubmitting: bool
    var isCompleted: bool
    /** Index in `results` of the first record of the current pass through
        the current question. */
    ghost var passStart: nat

    /** Question `s` has a correct record among those of earlier passes. */
    ghost predicate Resolved(s: nat)
      reads this`results, this`passStart
      requires s < |Questions|
    {
      exists j :: 0 <= j < passStart && j < |results| && results[j].questionId == Questions[s].id && results[j].isCorrect
    }

    /** The records of the current pass carry attempt numbers 1, 2, ... and are
        all for the current question, all incorrect except a last one that
        the feedback shows to be correct. */
    ghost predicate CurrentPass()
      reads this
      requires currentStep < |Questions| && passStart <= |results|
    {
      && |results| - passStart == (if feedback.NoFeedback? then attemptNumber - 1 else attemptNumber)
      && (forall j :: passStart <= j < |results| ==>
            && results[j].questionId == Questions[currentStep].id
            && results[j].correctAnswer == Questions[currentStep].correctAnswer
            && results[j].attemptNumber == j - passStart + 1
            && (results[j].isCorrect <==> (j == |results| - 1 && feedback.Shown? && feedback.isCorrect)))
      && (feedback.Shown? ==> passStart < |results| && results[|results| - 1].selectedAnswer == feedback.selected)
    }

    ghost predicate Valid()
      reads this
    {
      && currentStep < |Questions|
      && attemptNumber >= 1
      && passStart <= |results|
      && CurrentPass()
      && (forall j :: 0 <= j < |results| ==> WellFormedRecord(results[j]))
      && (forall s :: 0 <= s < currentStep ==> Resolved(s))
      && (isSubmitting ==> feedback.NoFeedback? && attemptNumber == 1 && currentStep == |Questions| - 1 && Resolved(currentStep))
      && (isCompleted ==> !isSubmitting && feedback.NoFeedback? && currentStep == |Questions| - 1 && Resolved(currentStep))
    }

    /** The options are enabled only while no feedback is showing (line 241). */
    predicate OptionsEnabled()
      reads this
    {
      feedback.NoFeedback?
    }

    /** Next is enabled only after a correct answer and not while submitting (line 266). */
    predicate NextEnabled()
      reads this
    {
      feedback.Shown? && feedback.isCorrect && !isSubmitting
    }

    /** The page as first rendered: question 1, attempt 1, no records. */
    constructor ()
      ensures Valid()
      ensures currentStep == 0 && attemptNumber == 1 && results == []
      ensures feedback == NoFeedback && !isSubmitting && !isCompleted
    {
      currentStep, attemptNumber, results := 0, 1, [];
      feedback, isSubmitting, isCompleted := NoFeedback, false, false;
      passStart := 0;
    }

    /** The progress bar width in percent (line 155): the questions before
        the current one, out of all. */
    function Progress(): (p: real)
      reads this
      requires Valid()
      ensures 0.0 <= p < 100.0
      ensures p * |Questions| as real == 100.0 * currentStep as real
    {
      currentStep as real / |Questions| as real * 100.0
    }

    /** A click on an option, `responseTime` seconds after the question (or
        its retry) was shown. While feedback shows, the options are disabled
        (line 241) and the click does nothing; the handler itself returns early
        after a correct answer or while a submission runs (line 97). Otherwise
        it records the attempt and shows the verdict. */
    method SelectOption(answer: string, responseTime: real) returns (appended: bool)
      requires Valid() && !isCompleted
      requires responseTime >= 0.0
      modifies this
      ensures Valid()
      ensures appended == (old(OptionsEnabled()) && !old(isSubmitting))
      ensures appended ==> results == old(results) + [TechnicalAttempt(
                Questions[currentStep].id, answer, Questions[currentStep].correctAnswer,
                responseTime, answer == Questions[currentStep].correctAnswer, old(attemptNumber))]
      ensures appended ==> feedback == Shown(answer == Questions[currentStep].correctAnswer, answer)
      ensures !appended ==> results == old(results) && feedback == old(feedback)
      ensures currentStep == old(currentStep) && attemptNumber == old(attemptNumber)
      ensures isSubmitting == old(isSubmitting) && isCompleted == old(isCompleted)
    {
      if !OptionsEnabled() || isSubmitting {
        return false;
      }
      var question := Questions[currentStep];
      var isCorrect := answer == question.correctAnswer;
      feedback := Shown(isCorrect, answer);
      results := results + [TechnicalAttempt(question.id, answer, question.correctAnswer,
                                             responseTime, isCorrect, attemptNumber)];
      appended := true;
      forall s | 0 <= s < currentStep
        ensures Resolved(s)
      {
        assert old(Resolved(s));
        var j :| 0 <= j < passStart && j < |old(results)| && old(results)[j].questionId == Questions[s].id && old(results)[j].isCorrect;
        assert results[j] == old(results)[j];
      }
    }

    /** The end of the hold after an incorrect answer: the feedback clears and
        the same question is asked again with the next attempt number. */
    method HoldElapsed()
      requires Valid() && feedback.Shown? && !feedback.isCorrect
      modifies this
      ensures Valid()
      ensures feedback == NoFeedback && attemptNumber == old(attemptNumber) + 1
      ensures currentStep == old(currentStep) && results == old(results)
      ensures isSubmitting == old(isSubmitting) && isCompleted == old(isCompleted)
    {
      feedback := NoFeedback;
      attemptNumber := attemptNumber + 1;
    }

    /** The Next (or Finish) button: clears the feedback, resets the attempt
        number and moves to the next question; on the last question it starts
        the submission and returns the records it posts, in order. */
    method Next() returns (posted: seq<TechnicalAttempt>)
      requires Valid() && NextEnabled()
      modifies this
      ensures Valid()
      ensures feedback == NoFeedback && attemptNumber == 1 && results == old(results)
      ensures old(currentStep) < |Questions| - 1 ==>
                currentStep == old(currentStep) + 1 && !isSubmitting && posted == []
      ensures old(currentStep) == |Questions| - 1 ==>
                currentStep == old(currentStep) && isSubmitting && posted == results
      ensures isCompleted == old(isCompleted)
    {
      assert Questions[currentStep].id == results[|results| - 1].questionId;
      ghost var last := |results| - 1;
      feedback := NoFeedback;
      attemptNumber := 1;
      passStart := |results|;
      if currentStep < |Questions| - 1 {
        currentStep := currentStep + 1;
        posted := [];
      } else {
        isSubmitting := true;
        posted := results;
      }
      forall s | 0 <= s < currentStep
        ensures Resolved(s)
      {
        if s == old(currentStep) {
          assert 0 <= last < passStart && results[last].questionId == Questions[s].id && results[last].isCorrect;
        } else {
          assert old(Resolved(s));
        }
      }
      assert isSubmitting ==> Resolved(currentStep) by {
        if isSubmitting {
          assert 0 <= last < passStart && results[last].questionId == Questions[currentStep].id && results[last].isCorrect;
        }
      }
    }

    /** The end of a submission, given the outcome of each post. The test is
        completed only when every post succeeded; the records are kept either
        way. Next cleared the feedback, so after a failure Next stays disabled
        until the last question is answered again, starting from attempt 1. */
    method SubmissionSettled(outcomes: seq<bool>)
      requires Valid() && isSubmitting && |outcomes| == |results|
      modifies this
      ensures Valid()
      ensures isCompleted == (false !in outcomes) && !isSubmitting
      ensures results == old(results) && currentStep == old(currentStep)
      ensures feedback == NoFeedback && attemptNumber == 1
      ensures !isCompleted ==> OptionsEnabled() && !NextEnabled()
    {
      isCompleted := false !in outcomes;
      isSubmitting := false;
    }
  }

  /** Once the test is completed every question of the catalogue has a
      correct record, and every record is well formed. */
  lemma CompletedMeansAllResolved(s: Session)
    requires s.Valid() && s.isCompleted
    ensures forall q :: 0 <= q < |Questions| ==> s.Resolved(q)
    ensures forall j :: 0 <= j < |s.results| ==> WellFormedRecord(s.results[j])
  {
  }
}
