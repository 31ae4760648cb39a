/** The course catalogue page (frontend/src/pages/Courses.jsx): the fetched
    courses filtered by a case-insensitive substring search over title and
    description, the "No courses found" state, and the BEST FOR YOU badge on
    courses whose difficulty is the one mapped from the user's cognitive
    level. Lower-casing is modelled on ASCII letters. */
module CourseCatalog {
  import opened Wrappers
  import opened Models
  import Recommendation

  /** `toLowerCase` on one character, for the ASCII letters. */
  function LowerChar(c: char): char {
    if 'A' <= c <= 'Z' then (c as int + 32) as char else c
  }

  /** `toLowerCase`: every character lowered, the length kept. The result
      holds no upper-case letter, and a string without one is unchanged. */
  function Lower(s: string): (r: string)
    ensures |r| == |s|
    ensures forall i :: 0 <= i < |s| ==> r[i] == LowerChar(s[i])
    ensures forall i :: 0 <= i < |r| ==> !('A' <= r[i] <= 'Z')
    ensures (forall i :: 0 <= i < |s| ==> !('A' <= s[i] <= 'Z')) ==> r == s
  {
    seq(|s|, i requires 0 <= i < |s| => LowerChar(s[i]))
  }

  /** Lowering twice is lowering once. */
  lemma LowerIdempotent(s: string)
    ensures Lower(Lower(s)) == Lower(s)
  {
  }

  /** `s.startsWith(p)`. */
  predicate StartsWith(s: string, p: string) {
    |p| <= |s| && s[..|p|] == p
  }

  /** `s.includes(p)`: `p` occurs in `s` at some position. */
  function Includes(s: string, p: string): (b: bool)
    ensures StartsWith(s, p) ==> b
    ensures b ==> |p| <= |s|
    decreases |s|
  {
    if StartsWith(s, p) then true
    else if s == [] then false
    else Includes(s[1..], p)
  }

  /** `p` occurs in `s` starting at position `i`. */
  predicate OccursAt(s: string, p: string, i: int) {
    0 <= i && i + |p| <= |s| && s[i..i + |p|] == p
  }

  /** Includes holds exactly when `p` occurs in `s` at some position. */
  lemma {:induction false} IncludesIff(s: string, p: string)
    ensures Includes(s, p) <==> exists i :: OccursAt(s, p, i)
    decreases |s|
  {
    if StartsWith(s, p) {
      assert OccursAt(s, p, 0);
    } else if s != [] {
      IncludesIff(s[1..], p);
      if Includes(s[1..], p) {
        var i :| OccursAt(s[1..], p, i);
        assert s[i + 1..i + 1 + |p|] == s[1..][i..i + |p|];
        assert OccursAt(s, p, i + 1);
      }
      if exists i :: OccursAt(s, p, i) {
        var i :| OccursAt(s, p, i);
        assert i != 0;
        assert s[1..][i - 1..i - 1 + |p|] == s[i..i + |p|];
        assert OccursAt(s[1..], p, i - 1);
      }
    }
  }

  /** The empty string occurs in every string. */
  lemma IncludesEmpty(s: string)
    ensures Includes(s, "")
  {
    assert s[..0] == "";
  }

  /** The filter condition of lines 32-35. */
  predicate Matches(c: Course, term: string) {
    Includes(Lower(c.title), Lower(term)) || Includes(Lower(c.description), Lower(term))
  }

  /** The search is case-insensitive: a term and its lower-cased form select
      the same courses. */
  lemma MatchesIgnoresCase(c: Course, term: string)
    ensures Matches(c, Lower(term)) == Matches(c, term)
  {
    LowerIdempotent(term);
  }

  /** `courses.filter(...)` (lines 32-35): the matching courses in their
      original order. */
  function FilteredCourses(courses: seq<Course>, term: string): (r: seq<Course>)
    ensures SubsequenceOf(r, courses)
    ensures forall c :: c in r <==> c in courses && Matches(c, term)
    ensures forall c :: multiset(r)[c] == if Matches(c, term) then multiset(courses)[c] else 0
  {
    if courses == [] then []
    else
      var rest := FilteredCourses(courses[1..], term);
      assert forall c :: c in courses <==> c == courses[0] || c in courses[1..];
      assert courses == [courses[0]] + courses[1..];
      assert multiset(courses) == multiset{courses[0]} + multiset(courses[1..]);
      if Matches(courses[0], term) then
        assert ([courses[0]] + rest)[1..] == rest;
        assert multiset([courses[0]] + rest) == multiset{courses[0]} + multiset(rest);
        [courses[0]] + rest
      else rest
  }

  /** An empty search term keeps every course. */
  lemma {:induction false} EmptyTermKeepsAll(courses: seq<Course>)
    ensures FilteredCourses(courses, "") == courses
  {
    if courses != [] {
      IncludesEmpty(Lower(courses[0].title));
      assert Lower("") == "";
      EmptyTermKeepsAll(courses[1..]);
      assert [courses[0]] + courses[1..] == courses;
    }
  }

  /** Lines 134-140: the empty state is shown exactly when no course matches. */
  predicate ShowsEmptyState(courses: seq<Course>, term: string) {
    |FilteredCourses(courses, term)| == 0
  }

  lemma EmptyStateIffNoMatch(courses: seq<Course>, term: string)
    ensures ShowsEmptyState(courses, term) <==> forall c :: c in courses ==> !Matches(c, term)
  {
    var r := FilteredCourses(courses, term);
    if |r| > 0 {
      assert r[0] in r;
    }
  }

  /** The map of lines 92-98. */
  const FrontLevelMap: map<string, string> := map[
    "Strong Analytical Learner" := "Advanced",
    "Advanced Learner" := "Advanced",
    "Moderate Performer" := "Intermediate",
    "Developing Learner" := "Beginner",
    "Basic Learner" := "Beginner"
  ]

  /** The page's map agrees entry for entry with the back end's. */
  lemma FrontLevelMapAgreesWithBackend()
    ensures FrontLevelMap == Recommendation.LevelMap
  {
  }

  /** Lines 92-98, `course.difficulty === (level && map[level])`, for the
      profile's `cognitive_level` (none without a profile). A missing level,
      and a level outside the map, give no badge; the empty level is falsy
      in JavaScript, so it is compared itself. */
  function ShowsBadge(c: Course, level: Option<string>): (badge: bool)
    ensures level.None? ==> !badge
    ensures level.Some? && level.value != "" ==>
              (badge <==> level.value in FrontLevelMap && FrontLevelMap[level.value] == c.difficulty)
    ensures level == Some("") ==> (badge <==> c.difficulty == "")
  {
    if level.None? then false
    else if level.value == "" then c.difficulty == ""
    else level.value in FrontLevelMap && FrontLevelMap[level.value] == c.difficulty
  }

  /** For every level the profile computation stores, the badge marks
      exactly the courses of the difficulty the recommendation targets; the
      column default "Beginner" (backend/app/models.py:50) never badges. */
  lemma BadgeMatchesRecommendation(c: Course, l: Recommendation.Level)
    ensures ShowsBadge(c, Some(l.Name())) <==> c.difficulty == Recommendation.TargetDifficulty(l.Name())
    ensures !ShowsBadge(c, Some("Beginner"))
  {
    FrontLevelMapAgreesWithBackend();
  }
}
