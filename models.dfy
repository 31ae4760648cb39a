/** The records the back end stores (backend/app/models.py) and exchanges with
    the front end as JSON (backend/app/schemas.py). Surrogate primary keys,
    user ids and timestamps are not part of these values: each operation of the
    model is handed the rows that belong to one user. */
module Models {
  import opened Wrappers

  /** One answered behavioural question (table behavioral_responses). */
  datatype BehavioralResponse = BehavioralResponse(
    questionId: int,
    selectedOption: string,
    scoreWeight: real)

  /** One attempt at one technical question (table technical_attempts). */
  datatype TechnicalAttempt = TechnicalAttempt(
    questionId: int,
    selectedAnswer: string,
    correctAnswer: string,
    responseTime: real,
    isCorrect: bool,
    attemptNumber: int)

  /** A course module; the three content variants and the video are nullable. */
  datatype CourseModule = CourseModule(
    id: int,
    title: string,
    contentTheoretical: Option<string>,
    contentPractical: Option<string>,
    contentVisual: Option<string>,
    videoUrl: Option<string>,
    order: int)

  /** A quiz question; `options` is one comma-separated string. */
  datatype QuizQuestion = QuizQuestion(
    text: string,
    options: string,
    correctAnswer: string,
    explanation: Option<string>)

  datatype Quiz = Quiz(title: string, questions: seq<QuizQuestion>)

  datatype Course = Course(
    id: int,
    title: string,
    description: string,
    difficulty: string,
    instructor: string,
    imageUrl: Option<string>,
    modules: seq<CourseModule>,
    quiz: Option<Quiz>)

  /** The position of the first element satisfying `p` (a query's `.first()`,
      JavaScript's `find`), or none when no element does. */
  function FirstIndex<T>(s: seq<T>, p: T -> bool): (k: Option<nat>)
    ensures k.Some? ==> k.value < |s| && p(s[k.value]) && forall j :: 0 <= j < k.value ==> !p(s[j])
    ensures k.None? <==> forall j :: 0 <= j < |s| ==> !p(s[j])
  {
    if s == [] then None
    else if p(s[0]) then Some(0)
    else
      var k := FirstIndex(s[1..], p);
      assert forall j :: 1 <= j < |s| ==> s[j] == s[1..][j - 1];
      if k.None? then None else Some(k.value + 1)
  }

  /** `r` consists of elements of `s` taken in their order. */
  ghost predicate SubsequenceOf<T>(r: seq<T>, s: seq<T>)
    decreases |s|
  {
    if r == [] then true
    else if s == [] then false
    else (r[0] == s[0] && SubsequenceOf(r[1..], s[1..])) || SubsequenceOf(r, s[1..])
  }
}
