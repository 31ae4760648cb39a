/** The course page (frontend/src/pages/CourseDetail.jsx) once the course and
    the user's profile are loaded: the modules, sorted by `order`, in a
    sidebar; at most one of a module view and the quiz view is shown;
    Previous and Next move by order -1 and +1, Next falling through to the
    quiz view after the last module; the module text and the video URL
    depend on the profile's learning style. */
module CourseDetail {
  import opened Wrappers
  import opened Models

  /** Non-decreasing `order`. */
  ghost predicate SortedByOrder(s: seq<CourseModule>) {
    forall i, j :: 0 <= i < j < |s| ==> s[i].order <= s[j].order
  }

  /** Inserts `m` before the first module of larger order. */
  function Insert(m: CourseModule, s: seq<CourseModule>): (r: seq<CourseModule>)
    requires SortedByOrder(s)
    ensures SortedByOrder(r)
    ensures multiset(r) == multiset(s) + multiset{m}
    ensures |r| == |s| + 1
    ensures r[0] == if s == [] || m.order <= s[0].order then m else s[0]
  {
    if s == [] then [m]
    else if m.order <= s[0].order then [m] + s
    else
      var rest := Insert(m, s[1..]);
      assert s == [s[0]] + s[1..];
      [s[0]] + rest
  }

  /** The modules sorted by `order` (the comparator `a.order - b.order`
      of lines 31 and 125): a sorted permutation of the input. */
  function SortByOrder(s: seq<CourseModule>): (r: seq<CourseModule>)
    ensures SortedByOrder(r)
    ensures multiset(r) == multiset(s)
    ensures |r| == |s|
  {
    if s == [] then []
    else
      assert s == [s[0]] + s[1..];
      Insert(s[0], SortByOrder(s[1..]))
  }

  /** Sorting an already sorted list leaves it as it is, so the sort on every
      render (line 125) keeps the order chosen on load (line 31). */
  lemma {:induction false} SortByOrderIdempotent(s: seq<CourseModule>)
    requires SortedByOrder(s)
    ensures SortByOrder(s) == s
  {
    if s != [] {
      var tail := s[1..];
      assert SortedByOrder(tail) by {
        forall i, j | 0 <= i < j < |tail| ensures tail[i].order <= tail[j].order {
          assert tail[i] == s[i + 1] && tail[j] == s[j + 1];
        }
      }
      SortByOrderIdempotent(tail);
      assert s == [s[0]] + tail;
    }
  }

  /** The first module of a sorted list has the smallest order. */
  lemma SortedFirstIsSmallest(s: seq<CourseModule>, m: CourseModule)
    requires SortedByOrder(s) && m in s
    ensures s[0].order <= m.order
  {
    var k :| 0 <= k < |s| && s[k] == m;
    if k > 0 {
      assert s[0].order <= s[k].order;
    }
  }

  /** `modules.find(m => m.order === order)`: the first module with that
      order, or none when no module has it. */
  function FindByOrder(modules: seq<CourseModule>, order: int): (r: Option<CourseModule>)
    ensures r.Some? ==> r.value in modules && r.value.order == order
    ensures r.Some? ==> exists k :: 0 <= k < |modules| && modules[k] == r.value
                                    && forall j :: 0 <= j < k ==> modules[j].order != order
    ensures r.None? <==> forall m :: m in modules ==> m.order != order
  {
    var k := FirstIndex(modules, (m: CourseModule) => m.order == order);
    if k.Some? then Some(modules[k.value]) else None
  }

  /** Lines 216-242: the theoretical text for "Theoretical", the practical
      text for "Practical", and the visual text for any other style or no
      profile. */
  function DisplayedContent(m: CourseModule, style: Option<string>): (text: Option<string>)
    ensures style == Some("Theoretical") ==> text == m.contentTheoretical
    ensures style == Some("Practical") ==> text == m.contentPractical
    ensures style != Some("Theoretical") && style != Some("Practical") ==> text == m.contentVisual
  {
    if style == Some("Theoretical") then m.contentTheoretical
    else if style == Some("Practical") then m.contentPractical
    else m.contentVisual
  }

  /** Lines 199-204: a video only when the module's URL is truthy (present
      and non-empty), with "?autoplay=1" appended for the "Visual" style. */
  function VideoSource(m: CourseModule, style: Option<string>): (src: Option<string>)
    ensures src.Some? <==> m.videoUrl.Some? && m.videoUrl.value != ""
    ensures src.Some? ==> m.videoUrl.value <= src.value
  {
    if m.videoUrl.None? || m.videoUrl.value == "" then None
    else Some(m.videoUrl.value + (if style == Some("Visual") then "?autoplay=1" else ""))
  }

  /** For a module with a video, the autoplay suffix is present exactly for
      the "Visual" style. */
  lemma AutoplayExactlyForVisual(m: CourseModule, style: Option<string>)
    requires m.videoUrl.Some? && m.videoUrl.value != ""
    ensures VideoSource(m, style) == Some(m.videoUrl.value + "?autoplay=1") <==> style == Some("Visual")
    ensures VideoSource(m, style) == Some(m.videoUrl.value) <==> style != Some("Visual")
  {
    var url := m.videoUrl.value;
    assert |url + "?autoplay=1"| != |url|;
    assert url + "" == url;
  }

  /** The content area (lines 189-280). */
  datatype View =
    | QuizView
    | ModuleView(shown: CourseModule, text: Option<string>, video: Option<string>)
    | Placeholder

  class CoursePage {
    /** `course.modules`, sorted in place on load. */
    var modules: seq<CourseModule>
    /** The course has a quiz, so the Final Assessment button is offered (line 159). */
    const hasQuiz: bool
    /** `userProfile?.learning_style`. */
    const learningStyle: Option<string>
    var activeModule: Option<CourseModule>
    var showQuiz: bool

    ghost predicate Valid()
      reads this
    {
      && SortedByOrder(modules)
      && !(showQuiz && activeModule.Some?)
      && (activeModule.Some? ==> activeModule.value in modules)
    }

    /** Lines 27-31: the modules are sorted by order and the first one, which
        has the smallest order, becomes active; with no modules none is. */
    constructor (course: Course, learningStyle: Option<string>)
      ensures Valid()
      ensures modules == SortByOrder(course.modules) && multiset(modules) == multiset(course.modules)
      ensures hasQuiz == course.quiz.Some? && this.learningStyle == learningStyle && !showQuiz
      ensures activeModule.Some? <==> |course.modules| > 0
      ensures activeModule.Some? ==> activeModule.value in course.modules
                                     && forall m :: m in course.modules ==> activeModule.value.order <= m.order
    {
      var sorted := SortByOrder(course.modules);
      modules := sorted;
      hasQuiz := course.quiz.Some?;
      this.learningStyle := learningStyle;
      showQuiz := false;
      if |course.modules| > 0 {
        activeModule := Some(sorted[0]);
        assert sorted[0] in multiset(course.modules);
        forall m | m in course.modules ensures sorted[0].order <= m.order {
          assert m in multiset(sorted);
          SortedFirstIsSmallest(sorted, m);
        }
      } else {
        activeModule := None;
      }
    }

    /** What the content area shows: the quiz, the active module in the
        profile's style, or the prompt to pick a module. */
    function Render(): (v: View)
      reads this
      requires Valid()
      ensures v.QuizView? <==> showQuiz
      ensures v.ModuleView? <==> !showQuiz && activeModule.Some?
      ensures v.ModuleView? ==> v.shown == activeModule.value && v.shown in modules
      ensures v.ModuleView? ==> v.text == DisplayedContent(v.shown, learningStyle)
                                && v.video == VideoSource(v.shown, learningStyle)
    {
      if showQuiz then QuizView
      else if activeModule.Some? then
        ModuleView(activeModule.value, DisplayedContent(activeModule.value, learningStyle),
                   VideoSource(activeModule.value, learningStyle))
      else Placeholder
    }

    /** A sidebar click on module `m` (lines 128-131). */
    method SelectModule(m: CourseModule)
      requires Valid() && m in modules
      modifies this
      ensures Valid()
      ensures activeModule == Some(m) && !showQuiz && modules == old(modules)
    {
      activeModule := Some(m);
      showQuiz := false;
    }

    /** The Final Assessment button, offered only for a course with a quiz (lines 159-164). */
    method SelectQuiz()
      requires Valid() && hasQuiz
      modifies this
      ensures Valid()
      ensures showQuiz && activeModule == None && modules == old(modules)
    {
      showQuiz := true;
      activeModule := None;
    }

    /** The Next button of the module view (lines 260-268): the module of
        order + 1 if there is one, otherwise the quiz view. */
    method NextModule()
      requires Valid() && !showQuiz && activeModule.Some?
      modifies this
      ensures Valid() && modules == old(modules)
      ensures var next := FindByOrder(modules, old(activeModule).value.order + 1);
              if next.Some? then activeModule == next && !showQuiz
              else showQuiz && activeModule == None
    {
      var next := FindByOrder(modules, activeModule.value.order + 1);
      if next.Some? {
        activeModule := next;
      } else {
        showQuiz := true;
        activeModule := None;
      }
    }

    /** The Previous button, disabled at order 1 (lines 249-253): the module
        of order - 1 if there is one, otherwise nothing changes. */
    method PreviousModule()
      requires Valid() && !showQuiz && activeModule.Some? && activeModule.value.order != 1
      modifies this
      ensures Valid() && modules == old(modules) && !showQuiz
      ensures var prev := FindByOrder(modules, old(activeModule).value.order - 1);
              activeModule == if prev.Some? then prev else old(activeModule)
    {
      var prev := FindByOrder(modules, activeModule.value.order - 1);
      if prev.Some? {
        activeModule := prev;
      }
    }
  }
}
