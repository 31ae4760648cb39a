/** The end-of-course quiz (frontend/src/components/QuizComponent.jsx): one
    question at a time, select an option, submit it (the score rises by one on
    a correct answer), then Next or, on the last question, Finish; the results
    screen offers a retake. A question's options are the comma-separated pieces
    of its `options` string. */
module QuizComponent {
  import opened Wrappers
  import opened Models

  /** JavaScript's `s.split(',')`: the maximal comma-free pieces of `s`, in
      order; the empty string gives one empty piece. */
  function Split(s: string): (parts: seq<string>)
    ensures |parts| >= 1
    ensures forall i :: 0 <= i < |parts| ==> ',' !in parts[i]
    decreases |s|
  {
    if s == [] then [""]
    else
      var rest := Split(s[1..]);
      if s[0] == ',' then [""] + rest
      else [[s[0]] + rest[0]] + rest[1..]
  }

  /** JavaScript's `parts.join(',')`. */
  function Join(parts: seq<string>): string
    requires |parts| >= 1
    decreases |parts|
  {
    if |parts| == 1 then parts[0] else parts[0] + "," + Join(parts[1..])
  }

  /** Prepending a character to the first piece prepends it to the joined string. */
  lemma JoinConsFirst(c: char, ps: seq<string>)
    requires |ps| >= 1
    ensures Join([[c] + ps[0]] + ps[1..]) == [c] + Join(ps)
  {
    var qs := [[c] + ps[0]] + ps[1..];
    assert qs[1..] == ps[1..];
  }

  /** Joining the pieces with ',' gives back the string. */
  lemma {:induction false} JoinSplit(s: string)
    ensures Join(Split(s)) == s
    decreases |s|
  {
    if s != [] {
      var rest := Split(s[1..]);
      JoinSplit(s[1..]);
      if s[0] == ',' {
        assert ([""] + rest)[1..] == rest;
        assert s == [','] + s[1..];
      } else {
        JoinConsFirst(s[0], rest);
        assert s == [s[0]] + s[1..];
      }
    }
  }

  /** A comma-free string is a single piece. */
  lemma {:induction false} SplitCommaFree(p: string)
    requires ',' !in p
    ensures Split(p) == [p]
    decreases |p|
  {
    if p != [] {
      SplitCommaFree(p[1..]);
      assert [p[0]] + p[1..] == p;
    }
  }

  /** A comma-free piece followed by a comma splits off as the first piece. */
  lemma {:induction false} SplitPieceThenComma(p: string, t: string)
    requires ',' !in p
    ensures Split(p + "," + t) == [p] + Split(t)
    decreases |p|
  {
    var s := p + "," + t;
    if p == [] {
      assert s[1..] == t;
    } else {
      assert s[1..] == p[1..] + "," + t;
      SplitPieceThenComma(p[1..], t);
      assert [p[0]] + p[1..] == p;
    }
  }

  /** Splitting a join of comma-free pieces gives back the pieces. */
  lemma {:induction false} SplitJoin(parts: seq<string>)
    requires |parts| >= 1
    requires forall i :: 0 <= i < |parts| ==> ',' !in parts[i]
    ensures Split(Join(parts)) == parts
    decreases |parts|
  {
    if |parts| == 1 {
      SplitCommaFree(parts[0]);
    } else {
      SplitJoin(parts[1..]);
      SplitPieceThenComma(parts[0], Join(parts[1..]));
      assert [parts[0]] + parts[1..] == parts;
    }
  }

  /** JavaScript truthiness of the selected option: none, or the empty string, is falsy. */
  predicate Truthy(o: Option<string>) {
    o.Some? && o.value != ""
  }

  /** The number of `true` verdicts. */
  function CountCorrect(verdicts: seq<bool>): (n: nat)
    ensures n <= |verdicts|
  {
    if verdicts == [] then 0 else (if verdicts[0] then 1 else 0) + CountCorrect(verdicts[1..])
  }

  lemma {:induction false} CountCorrectAppend(verdicts: seq<bool>, v: bool)
    ensures CountCorrect(verdicts + [v]) == CountCorrect(verdicts) + (if v then 1 else 0)
    decreases |verdicts|
  {
    if verdicts != [] {
      assert (verdicts + [v])[1..] == verdicts[1..] + [v];
      CountCorrectAppend(verdicts[1..], v);
    } else {
      assert (verdicts + [v])[1..] == [];
    }
  }

  /** What the component renders. */
  datatype Screen =
    | EmptyState
    | Asking(index: nat, options: seq<string>, showFeedback: bool)
    | Results(score: nat, total: nat)

  class Session {
    const quiz: Option<Quiz>
    var currentQuestionIndex: nat
    var selectedOption: Option<string>
    var showFeedback: bool
    var score: nat
    var isFinished: bool
    /** The verdict of every submitted answer, in order. */
    ghost var verdicts: seq<bool>

    /** The component has a question list to work on (line 11). */
    predicate HasQuestions() {
      quiz.Some? && |quiz.value.questions| > 0
    }

    ghost predicate Valid()
      reads this
    {
      HasQuestions() ==>
        && currentQuestionIndex < |quiz.value.questions|
        && |verdicts| == currentQuestionIndex + (if showFeedback then 1 else 0)
        && score == CountCorrect(verdicts)
        && (isFinished ==> showFeedback && currentQuestionIndex == |quiz.value.questions| - 1)
    }

    constructor (quiz: Option<Quiz>)
      ensures Valid() && this.quiz == quiz
      ensures currentQuestionIndex == 0 && selectedOption == None && !showFeedback
      ensures score == 0 && !isFinished && verdicts == []
    {
      this.quiz := quiz;
      currentQuestionIndex, selectedOption, showFeedback := 0, None, false;
      score, isFinished := 0, false;
      verdicts := [];
    }

    /** The rendered screen: the empty state exactly when there is no quiz or
        no question, and otherwise a question that exists, with the pieces
        of its `options` string as the buttons. */
    function Render(): (v: Screen)
      reads this
      requires Valid()
      ensures v.EmptyState? <==> !HasQuestions()
      ensures v.Asking? ==>
                && v.index < |quiz.value.questions|
                && v.options == Split(quiz.value.questions[v.index].options)
      ensures v.Results? ==> v.score <= v.total
      ensures v.Asking? <==> HasQuestions() && !isFinished
      ensures v.Results? <==> HasQuestions() && isFinished
      ensures v.Asking? ==> v.index == currentQuestionIndex && v.showFeedback == showFeedback
      ensures v.Results? ==> v.score == score && v.total == |quiz.value.questions|
    {
      if !HasQuestions() then EmptyState
      else if isFinished then Results(score, |quiz.value.questions|)
      else Asking(currentQuestionIndex, Split(quiz.value.questions[currentQuestionIndex].options), showFeedback)
    }

    /** The score never exceeds the number of answers submitted, nor the number of questions. */
    lemma ScoreBounded()
      requires Valid() && HasQuestions()
      ensures score <= |verdicts| <= |quiz.value.questions|
    {
    }

    /** A click on an option; ignored once feedback is shown. */
    method SelectOption(option: string)
      requires Valid() && HasQuestions() && !isFinished
      modifies this
      ensures Valid()
      ensures selectedOption == if old(showFeedback) then old(selectedOption) else Some(option)
      ensures currentQuestionIndex == old(currentQuestionIndex) && showFeedback == old(showFeedback)
      ensures score == old(score) && isFinished == old(isFinished) && verdicts == old(verdicts)
    {
      if showFeedback {
        return;
      }
      selectedOption := Some(option);
    }

    /** The Submit button, shown while no feedback is shown: without a (truthy)
        selection nothing happens; otherwise the feedback turns on and the
        score rises by one exactly when the selection is the correct answer. */
    method Submit()
      requires Valid() && HasQuestions() && !isFinished && !showFeedback
      modifies this
      ensures Valid()
      ensures !Truthy(old(selectedOption)) ==> showFeedback == old(showFeedback) && score == old(score) && verdicts == old(verdicts)
      ensures Truthy(old(selectedOption)) ==>
                var correct := old(selectedOption).value == quiz.value.questions[currentQuestionIndex].correctAnswer;
                && showFeedback
                && score == old(score) + (if correct then 1 else 0)
                && verdicts == old(verdicts) + [correct]
      ensures currentQuestionIndex == old(currentQuestionIndex) && selectedOption == old(selectedOption)
      ensures isFinished == old(isFinished)
    {
      if !Truthy(selectedOption) {
        return;
      }
      var isCorrect := selectedOption.value == quiz.value.questions[currentQuestionIndex].correctAnswer;
      CountCorrectAppend(verdicts, isCorrect);
      if isCorrect {
        score := score + 1;
      }
      showFeedback := true;
      verdicts := verdicts + [isCorrect];
    }

    /** The Next (or Finish) button, shown while feedback is shown. */
    method Next()
      requires Valid() && HasQuestions() && !isFinished && showFeedback
      modifies this
      ensures Valid()
      ensures old(currentQuestionIndex) + 1 < |quiz.value.questions| ==>
                && currentQuestionIndex == old(currentQuestionIndex) + 1
                && selectedOption == None && !showFeedback && !isFinished
      ensures old(currentQuestionIndex) + 1 == |quiz.value.questions| ==>
                && isFinished && currentQuestionIndex == old(currentQuestionIndex)
                && selectedOption == old(selectedOption) && showFeedback
      ensures score == old(score) && verdicts == old(verdicts)
    {
      if currentQuestionIndex + 1 < |quiz.value.questions| {
        currentQuestionIndex := currentQuestionIndex + 1;
        selectedOption := None;
        showFeedback := false;
      } else {
        isFinished := true;
      }
    }

    /** The Retake button of the results screen: back to the initial state. */
    method Retake()
      requires Valid() && HasQuestions() && isFinished
      modifies this
      ensures Valid()
      ensures currentQuestionIndex == 0 && selectedOption == None && !showFeedback
      ensures score == 0 && !isFinished && verdicts == []
    {
      currentQuestionIndex := 0;
      selectedOption := None;
      showFeedback := false;
      score := 0;
      isFinished := false;
      verdicts := [];
    }
  }
}
