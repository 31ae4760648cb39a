/** The behavioural survey page (frontend/src/pages/BehavioralTest.jsx): ten
    questions, each option carrying a score weight; a choice is stored per
    question id (a later choice overwrites an earlier one), Next is enabled
    once the current question has a choice, and the last Next posts one
    weighted response per answered question. The test completes only when
    every post succeeds. */
module BehavioralTest {
  import opened Models

  /** An option: its letter id and its score weight. */
  datatype Choice = Choice(id: string, score: int)

  datatype Question = Question(id: int, options: seq<Choice>)

  /** The catalogue, in presentation order (the prompt and option texts are not modelled). */
  const Questions: seq<Question> := [
    Question(1, [Choice("a", 2), Choice("b", 5), Choice("c", 8), Choice("d", 10)]),
    Question(2, [Choice("a", 1), Choice("b", 4), Choice("c", 8), Choice("d", 10)]),
    Question(3, [Choice("a", 3), Choice("b", 5), Choice("c", 8), Choice("d", 10)]),
    Question(4, [Choice("a", 6), Choice("b", 6), Choice("c", 7), Choice("d", 10)]),
    Question(5, [Choice("a", 1), Choice("b", 3), Choice("c", 7), Choice("d", 10)]),
    Question(6, [Choice("a", 2), Choice("b", 5), Choice("c", 8), Choice("d", 10)]),
    Question(7, [Choice("a", 2), Choice("b", 5), Choice("c", 8), Choice("d", 10)]),
    Question(8, [Choice("a", 3), Choice("b", 5), Choice("c", 8), Choice("d", 10)]),
    Question(9, [Choice("a", 2), Choice("b", 5), Choice("c", 8), Choice("d", 10)]),
    Question(10, [Choice("a", 3), Choice("b", 6), Choice("c", 5), Choice("d", 10)])
  ]

  /** Question ids are 1, 2, ..., 10 in order, and every weight lies between
      1 and 10, the maximum the profile computation assumes. */
  lemma CatalogueIsWellFormed()
    ensures |Questions| == 10
    ensures forall i :: 0 <= i < |Questions| ==> Questions[i].id == i + 1
    ensures forall i, c :: 0 <= i < |Questions| && c in Questions[i].options ==> 1 <= c.score <= 10
  {
  }

  /** The stored choice for one question. */
  datatype Answer = Answer(selectedOption: string, scoreWeight: int)

  /** The posts of a submission: one response per answered question id,
      carrying that entry's option and weight. */
  function Submission(answers: map<int, Answer>): (posts: set<BehavioralResponse>)
    ensures forall p :: p in posts <==>
      && p.questionId in answers
      && p.selectedOption == answers[p.questionId].selectedOption
      && p.scoreWeight == answers[p.questionId].scoreWeight as real
  {
    set q | q in answers :: BehavioralResponse(q, answers[q].selectedOption, answers[q].scoreWeight as real)
  }

  /** A submission issues exactly as many posts as there are answered questions:
      no question id is posted twice. */
  lemma {:induction false} SubmissionSize(answers: map<int, Answer>)
    ensures |Submission(answers)| == |answers|
    decreases |answers|
  {
    if q :| q in answers {
      var rest := answers - {q};
      assert rest.Keys == answers.Keys - {q};
      var p := BehavioralResponse(q, answers[q].selectedOption, answers[q].scoreWeight as real);
      SubmissionSize(rest);
      assert Submission(answers) == Submission(rest) + {p};
      assert p !in Submission(rest);
    } else {
      assert forall k :: k in answers.Keys <==> k in {};
      assert answers.Keys == {};
      assert forall p :: p in Submission(answers) <==> p in {};
      assert Submission(answers) == {};
    }
  }

  class Session {
    var currentStep: nat
    var answers: map<int, Answer>
    var isSubmitting: bool
    var isCompleted: bool

    ghost predicate Valid()
      reads this
    {
      && currentStep < |Questions|
      // every question before the current one has a choice (there is no way back)
      && (forall s :: 0 <= s < currentStep ==> Questions[s].id in answers)
      // choices exist only for the questions reached so far
      && (forall q :: q in answers ==> 1 <= q <= currentStep + 1)
      // every stored weight is one the catalogue offers
      && (forall q :: q in answers ==> 1 <= answers[q].scoreWeight <= 10)
      && (isSubmitting ==> currentStep == |Questions| - 1 && Questions[currentStep].id in answers)
      && (isCompleted ==> !isSubmitting && currentStep == |Questions| - 1 && Questions[currentStep].id in answers)
    }

    /** Next is enabled only when the current question has a choice and no
        submission runs (line 233). */
    predicate NextEnabled()
      reads this
      requires currentStep < |Questions|
    {
      Questions[currentStep].id in answers && !isSubmitting
    }

    constructor ()
      ensures Valid()
      ensures currentStep == 0 && answers == map[] && !isSubmitting && !isCompleted
    {
      currentStep, answers := 0, map[];
      isSubmitting, isCompleted := false, false;
    }

    /** A click on option `optionId` (weight `score`) of the current question.
        The options stay enabled during a submission. */
    method SelectOption(questionId: int, optionId: string, score: int)
      requires Valid() && !isCompleted
      requires questionId == Questions[currentStep].id
      requires Choice(optionId, score) in Questions[currentStep].options
      modifies this
      ensures Valid()
      ensures answers == old(answers)[questionId := Answer(optionId, score)]
      ensures forall q :: q in old(answers) && q != questionId ==> q in answers && answers[q] == old(answers)[q]
      ensures currentStep == old(currentStep)
      ensures isSubmitting == old(isSubmitting) && isCompleted == old(isCompleted)
    {
      CatalogueIsWellFormed();
      answers := answers[questionId := Answer(optionId, score)];
    }

    /** The Next (or Finish) button: moves to the next question, or on the last
        question starts the submission and returns its posts. */
    method Next() returns (posted: set<BehavioralResponse>)
      requires Valid() && !isCompleted && NextEnabled()
      modifies this
      ensures Valid()
      ensures answers == old(answers)
      ensures old(currentStep) < |Questions| - 1 ==>
                currentStep == old(currentStep) + 1 && !isSubmitting && posted == {}
      ensures old(currentStep) == |Questions| - 1 ==>
                currentStep == old(currentStep) && isSubmitting && posted == Submission(answers)
      ensures isCompleted == old(isCompleted)
    {
      CatalogueIsWellFormed();
      if currentStep < |Questions| - 1 {
        currentStep := currentStep + 1;
        posted := {};
      } else {
        isSubmitting := true;
        posted := Submission(answers);
      }
    }

    /** The end of a submission, given the outcome of each post. The test is
        completed only when every post succeeded; the choices are kept. The
        options stay enabled, so a choice made before the retry changes what
        the retry posts. */
    method SubmissionSettled(outcomes: seq<bool>)
      requires Valid() && isSubmitting && |outcomes| == |answers|
      modifies this
      ensures Valid()
      ensures isCompleted == (false !in outcomes) && !isSubmitting
      ensures answers == old(answers) && currentStep == old(currentStep)
    {
      isCompleted := false !in outcomes;
      isSubmitting := false;
    }
  }

  /** When a submission starts, every catalogue question has a choice, and the
      submission holds exactly one post for each of them and no other. */
  lemma {:induction false} SubmissionCoversCatalogue(s: Session)
    requires s.Valid() && s.isSubmitting
    ensures forall i :: 0 <= i < |Questions| ==> Questions[i].id in s.answers
    ensures forall i :: 0 <= i < |Questions| ==>
              exists p :: p in Submission(s.answers) && p.questionId == Questions[i].id
    ensures forall p, p' :: p in Submission(s.answers) && p' in Submission(s.answers) && p.questionId == p'.questionId ==> p == p'
    ensures forall p :: p in Submission(s.answers) ==> exists i :: 0 <= i < |Questions| && p.questionId == Questions[i].id
    ensures |Submission(s.answers)| == |s.answers|
  {
    CatalogueIsWellFormed();
    SubmissionSize(s.answers);
    forall i | 0 <= i < |Questions|
      ensures exists p :: p in Submission(s.answers) && p.questionId == Questions[i].id
    {
      var q := Questions[i].id;
      var p := BehavioralResponse(q, s.answers[q].selectedOption, s.answers[q].scoreWeight as real);
      assert p in Submission(s.answers);
    }
    forall p | p in Submission(s.answers)
      ensures exists i :: 0 <= i < |Questions| && p.questionId == Questions[i].id
    {
      var i := p.questionId - 1;
      assert 0 <= i < |Questions| && p.questionId == Questions[i].id;
    }
  }
}
