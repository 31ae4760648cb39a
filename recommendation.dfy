/** The cognitive profile and the course recommendation
    (backend/app/routes/recommendation_routes.py). A user's behavioural
    responses and technical attempts give four sub-scores (behavioural,
    technical accuracy, response speed, retry persistence), combined with
    weights 40/30/15/15 into a final score that is classified into one of
    five learner levels with a fixed study strategy; a learning style is
    picked from two of the sub-scores; and one profile row per user is
    created or overwritten. The level then chooses a course difficulty for
    the recommendation list. Scores are exact reals. */
module Recommendation {
  import opened Wrappers
  import opened Models

  function Min(a: real, b: real): real { if a <= b then a else b }
  function Max(a: real, b: real): real { if a >= b then a else b }
  function MinInt(a: int, b: int): int { if a <= b then a else b }

  /** For a positive divisor, bounds on the dividend carry over to the quotient. */
  lemma QuotientBounds(a: real, b: real, lo: real, hi: real)
    requires b > 0.0 && lo * b <= a <= hi * b
    ensures lo <= a / b <= hi
  {
    var q := a / b;
    assert q * b == a;
    assert (q - lo) * b >= 0.0;
    assert (hi - q) * b >= 0.0;
  }

  // ---------------------------------------------------------------- behavioural score

  /** `sum(r.score_weight for r in behavioral_responses)`. */
  function TotalWeight(rs: seq<BehavioralResponse>): real {
    if rs == [] then 0.0 else rs[0].scoreWeight + TotalWeight(rs[1..])
  }

  /** Every weight lies in [lo, hi]. */
  ghost predicate WeightsWithin(rs: seq<BehavioralResponse>, lo: real, hi: real) {
    forall i :: 0 <= i < |rs| ==> lo <= rs[i].scoreWeight <= hi
  }

  lemma {:induction false} TotalWeightAtLeast(rs: seq<BehavioralResponse>, lo: real)
    requires forall i :: 0 <= i < |rs| ==> lo <= rs[i].scoreWeight
    ensures |rs| as real * lo <= TotalWeight(rs)
  {
    if rs != [] {
      var tail := rs[1..];
      assert forall i :: 0 <= i < |tail| ==> tail[i] == rs[i + 1];
      TotalWeightAtLeast(tail, lo);
    }
  }

  lemma {:induction false} TotalWeightAtMost(rs: seq<BehavioralResponse>, hi: real)
    requires forall i :: 0 <= i < |rs| ==> rs[i].scoreWeight <= hi
    ensures TotalWeight(rs) <= |rs| as real * hi
  {
    if rs != [] {
      var tail := rs[1..];
      assert forall i :: 0 <= i < |tail| ==> tail[i] == rs[i + 1];
      TotalWeightAtMost(tail, hi);
    }
  }

  /** Lines 16-21: 0 without responses, otherwise the mean weight as a
      percentage of the maximum weight 10, capped at 100. */
  function BehavioralScore(rs: seq<BehavioralResponse>): (b: real)
    ensures rs == [] ==> b == 0.0
    ensures b <= 100.0
    ensures rs != [] && b < 100.0 ==> b * (|rs| as real * 10.0) == TotalWeight(rs) * 100.0
    ensures rs != [] ==> b * (|rs| as real * 10.0) <= TotalWeight(rs) * 100.0
    ensures rs != [] && b == 100.0 ==> TotalWeight(rs) * 100.0 >= 100.0 * (|rs| as real * 10.0)
  {
    if rs == [] then 0.0
    else Min((TotalWeight(rs) / (|rs| as real * 10.0)) * 100.0, 100.0)
  }

  /** With non-negative weights the behavioural score is non-negative. */
  lemma BehavioralScoreNonNegative(rs: seq<BehavioralResponse>)
    requires forall i :: 0 <= i < |rs| ==> rs[i].scoreWeight >= 0.0
    ensures BehavioralScore(rs) >= 0.0
  {
    if rs != [] {
      TotalWeightAtLeast(rs, 0.0);
      QuotientBounds(TotalWeight(rs), |rs| as real * 10.0, 0.0, TotalWeight(rs) + 0.0);
    }
  }

  /** With the survey's weights (1 to 10) the cap on line 21 never applies:
      the score is exactly the mean weight times 10, between 10 and 100. */
  lemma SurveyScoreUncapped(rs: seq<BehavioralResponse>)
    requires rs != [] && WeightsWithin(rs, 1.0, 10.0)
    ensures 10.0 <= BehavioralScore(rs) <= 100.0
    ensures BehavioralScore(rs) == TotalWeight(rs) / (|rs| as real * 10.0) * 100.0
  {
    TotalWeightAtLeast(rs, 1.0);
    TotalWeightAtMost(rs, 10.0);
    QuotientBounds(TotalWeight(rs), |rs| as real * 10.0, 0.1, 1.0);
  }

  // ---------------------------------------------------------------- technical sub-scores

  /** `sum(1 for a in technical_attempts if a.is_correct)`. */
  function CorrectCount(attempts: seq<TechnicalAttempt>): (c: nat)
    ensures c <= |attempts|
  {
    if attempts == [] then 0
    else (if attempts[0].isCorrect then 1 else 0) + CorrectCount(attempts[1..])
  }

  /** Every attempt is correct exactly when all are counted, and none is
      exactly when none is counted. */
  lemma {:induction false} CorrectCountExtremes(attempts: seq<TechnicalAttempt>)
    ensures CorrectCount(attempts) == |attempts| <==> forall i :: 0 <= i < |attempts| ==> attempts[i].isCorrect
    ensures CorrectCount(attempts) == 0 <==> forall i :: 0 <= i < |attempts| ==> !attempts[i].isCorrect
  {
    if attempts != [] {
      var tail := attempts[1..];
      CorrectCountExtremes(tail);
      assert forall i :: 1 <= i < |attempts| ==> attempts[i] == tail[i - 1];
    }
  }

  /** Counting is additive over a split of the attempt list. */
  lemma {:induction false} CorrectCountAppend(attempts: seq<TechnicalAttempt>, a: TechnicalAttempt)
    ensures CorrectCount(attempts + [a]) == CorrectCount(attempts) + (if a.isCorrect then 1 else 0)
    decreases |attempts|
  {
    if attempts == [] {
      assert (attempts + [a])[1..] == [];
    } else {
      assert (attempts + [a])[1..] == attempts[1..] + [a];
      CorrectCountAppend(attempts[1..], a);
    }
  }

  /** `(part / whole) * 100`, with 0 for an empty whole. */
  function Percentage(part: nat, whole: nat): (p: real)
    requires part <= whole
    ensures 0.0 <= p <= 100.0
    ensures whole == 0 ==> p == 0.0
    ensures whole != 0 ==> p * whole as real == 100.0 * part as real
  {
    if whole == 0 then 0.0
    else
      var n := whole as real;
      var c := part as real;
      QuotientBounds(c, n, 0.0, 1.0);
      ScaledQuotient(c, n, 100.0);
      (c / n) * 100.0
  }

  lemma ScaledQuotient(a: real, b: real, k: real)
    requires b > 0.0
    ensures ((a / b) * k) * b == k * a
  {
    var q := a / b;
    assert q * b == a;
    assert (q * k) * b == k * (q * b);
  }

  /** Lines 28-30: 0 without attempts, otherwise the percentage of correct
      attempts, in [0, 100]. */
  function TechnicalAccuracy(attempts: seq<TechnicalAttempt>): (acc: real)
    ensures 0.0 <= acc <= 100.0
    ensures attempts == [] ==> acc == 0.0
    ensures attempts != [] ==> acc * |attempts| as real == 100.0 * CorrectCount(attempts) as real
  {
    Percentage(CorrectCount(attempts), |attempts|)
  }

  /** Accuracy is 100 exactly when there are attempts and every one is
      correct, and 0 exactly when none is correct. */
  lemma TechnicalAccuracyExtremes(attempts: seq<TechnicalAttempt>)
    ensures TechnicalAccuracy(attempts) == 100.0 <==> attempts != [] && forall i :: 0 <= i < |attempts| ==> attempts[i].isCorrect
    ensures TechnicalAccuracy(attempts) == 0.0 <==> forall i :: 0 <= i < |attempts| ==> !attempts[i].isCorrect
  {
    CorrectCountExtremes(attempts);
    if attempts != [] {
      var n := |attempts| as real;
      var c := CorrectCount(attempts) as real;
      var acc := TechnicalAccuracy(attempts);
      assert acc * n == 100.0 * c;
      assert acc == 100.0 <==> c == n;
      assert acc == 0.0 <==> c == 0.0;
    }
  }

  /** `sum(a.response_time for a in technical_attempts)`. */
  function TotalTime(attempts: seq<TechnicalAttempt>): real {
    if attempts == [] then 0.0 else attempts[0].responseTime + TotalTime(attempts[1..])
  }

  function MeanResponseTime(attempts: seq<TechnicalAttempt>): real
    requires attempts != []
  {
    TotalTime(attempts) / |attempts| as real
  }

  /** Lines 32-34: 0 without attempts, otherwise 100 minus 1.5 points per
      second of mean response time above 10 s, floored at 0. It lies in
      [0, 100] and is 100 exactly when the mean is at most 10 s. */
  function SpeedScore(attempts: seq<TechnicalAttempt>): (sp: real)
    ensures 0.0 <= sp <= 100.0
    ensures attempts == [] ==> sp == 0.0
    ensures attempts != [] ==> (sp == 100.0 <==> MeanResponseTime(attempts) <= 10.0)
    ensures attempts != [] ==> (sp == 0.0 <==> MeanResponseTime(attempts) >= 10.0 + 100.0 / 1.5)
    ensures attempts != [] && sp > 0.0 ==> sp == 100.0 - Max(0.0, MeanResponseTime(attempts) - 10.0) * 1.5
  {
    if attempts == [] then 0.0
    else Max(0.0, 100.0 - Max(0.0, MeanResponseTime(attempts) - 10.0) * 1.5)
  }

  /** `sum(a.attempt_number for a in technical_attempts)`. */
  function SumAttemptNumbers(attempts: seq<TechnicalAttempt>): int {
    if attempts == [] then 0 else attempts[0].attemptNumber + SumAttemptNumbers(attempts[1..])
  }

  /** Lines 37-38: 10 points per retry (an attempt number above 1 counts its
      extra attempts), capped at 100; 0 without attempts. */
  function RetryPersistence(attempts: seq<TechnicalAttempt>): (rp: int)
    ensures rp <= 100
    ensures attempts == [] ==> rp == 0
    ensures attempts != [] ==>
              && rp <= (SumAttemptNumbers(attempts) - |attempts|) * 10
              && (rp == 100 || rp == (SumAttemptNumbers(attempts) - |attempts|) * 10)
  {
    if attempts == [] then 0
    else MinInt((SumAttemptNumbers(attempts) - |attempts|) * 10, 100)
  }

  /** When all attempt numbers are at least 1, the retries are never negative,
      and they are zero exactly when every attempt is a first attempt. */
  lemma {:induction false} RetriesBounds(attempts: seq<TechnicalAttempt>)
    requires forall i :: 0 <= i < |attempts| ==> attempts[i].attemptNumber >= 1
    ensures SumAttemptNumbers(attempts) >= |attempts|
    ensures SumAttemptNumbers(attempts) == |attempts| <==> forall i :: 0 <= i < |attempts| ==> attempts[i].attemptNumber == 1
  {
    if attempts != [] {
      var tail := attempts[1..];
      assert forall i :: 0 <= i < |tail| ==> tail[i] == attempts[i + 1];
      RetriesBounds(tail);
      assert (forall i :: 0 <= i < |attempts| ==> attempts[i].attemptNumber == 1) <==>
             attempts[0].attemptNumber == 1 && (forall i :: 0 <= i < |tail| ==> tail[i].attemptNumber == 1);
    }
  }

  /** Retry persistence lies in [0, 100] when every attempt number is at
      least 1, and is 0 exactly when every attempt is a first attempt. */
  lemma RetryPersistenceBounds(attempts: seq<TechnicalAttempt>)
    requires forall i :: 0 <= i < |attempts| ==> attempts[i].attemptNumber >= 1
    ensures 0 <= RetryPersistence(attempts) <= 100
    ensures RetryPersistence(attempts) == 0 <==> forall i :: 0 <= i < |attempts| ==> attempts[i].attemptNumber == 1
  {
    RetriesBounds(attempts);
  }

  // ---------------------------------------------------------------- final score and level

  /** Line 41: the weighted combination 40/30/15/15. */
  function FinalScore(behavioral: real, accuracy: real, speed: real, retry: real): (f: real)
    ensures behavioral == accuracy == speed == retry ==> f == behavioral
    ensures behavioral <= accuracy && behavioral <= speed && behavioral <= retry ==> behavioral <= f
  {
    behavioral * 0.4 + accuracy * 0.3 + speed * 0.15 + retry * 0.15
  }

  /** The weights sum to 1, so sub-scores in [0, 100] give a final score in [0, 100]. */
  lemma FinalScoreBounds(behavioral: real, accuracy: real, speed: real, retry: real)
    requires 0.0 <= behavioral <= 100.0 && 0.0 <= accuracy <= 100.0
    requires 0.0 <= speed <= 100.0 && 0.0 <= retry <= 100.0
    ensures 0.0 <= FinalScore(behavioral, accuracy, speed, retry) <= 100.0
  {
  }

  /** The five learner levels, from the lowest band to the highest. */
  datatype Level = BasicLearner | DevelopingLearner | ModeratePerformer | AdvancedLearner | StrongAnalyticalLearner
  {
    /** The stored `cognitive_level` string. */
    function Name(): string {
      match this
      case BasicLearner => "Basic Learner"
      case DevelopingLearner => "Developing Learner"
      case ModeratePerformer => "Moderate Performer"
      case AdvancedLearner => "Advanced Learner"
      case StrongAnalyticalLearner => "Strong Analytical Learner"
    }

    /** The fixed `recommended_strategy` of the level. */
    function Strategy(): string {
      match this
      case BasicLearner => "Recommend structured learning, Daily 1 hour focused study, Video-based learning."
      case DevelopingLearner => "Focus on foundational concepts and take more practice tests."
      case ModeratePerformer => "Practice problem solving, Weekly mock tests, Revision strategy."
      case AdvancedLearner => "Competitive exams practice, Timed quizzes, Analytical challenges."
      case StrongAnalyticalLearner => "Focus on complex edge-cases, help tutor basic learners, advanced project building."
    }

    /** Position of the band, 0 (lowest) to 4 (highest). */
    function Rank(): nat {
      match this
      case BasicLearner => 0
      case DevelopingLearner => 1
      case ModeratePerformer => 2
      case AdvancedLearner => 3
      case StrongAnalyticalLearner => 4
    }
  }

  /** Distinct levels have distinct names. */
  lemma LevelNamesDistinct(a: Level, b: Level)
    ensures a.Name() == b.Name() <==> a == b
  {
  }

  /** Lines 43-58: the band of the final score. */
  function Classify(f: real): (l: Level)
    ensures l == BasicLearner <==> f < 40.0
    ensures l == DevelopingLearner <==> 40.0 <= f < 60.0
    ensures l == ModeratePerformer <==> 60.0 <= f < 75.0
    ensures l == AdvancedLearner <==> 75.0 <= f < 90.0
    ensures l == StrongAnalyticalLearner <==> 90.0 <= f
  {
    if f < 40.0 then BasicLearner
    else if f < 60.0 then DevelopingLearner
    else if f < 75.0 then ModeratePerformer
    else if f < 90.0 then AdvancedLearner
    else StrongAnalyticalLearner
  }

  /** A higher final score never gives a lower level. */
  lemma ClassifyMonotone(f: real, g: real)
    requires f <= g
    ensures Classify(f).Rank() <= Classify(g).Rank()
  {
  }

  /** Lines 62-67: "Practical" for a speed score above 70, else "Theoretical"
      for a behavioural score above 70, else "Visual". */
  function LearningStyle(speed: real, behavioral: real): (style: string)
    ensures style == "Practical" <==> speed > 70.0
    ensures style == "Theoretical" <==> speed <= 70.0 && behavioral > 70.0
    ensures style == "Visual" <==> speed <= 70.0 && behavioral <= 70.0
  {
    if speed > 70.0 then "Practical"
    else if behavioral > 70.0 then "Theoretical"
    else "Visual"
  }

  /** The five columns that `update_cognitive_profile` writes. */
  datatype Assessment = Assessment(
    behavioralScore: real,
    technicalScore: real,
    cognitiveLevel: string,
    learningStyle: string,
    recommendedStrategy: string)

  /** Everything lines 16-67 compute from a user's responses and attempts. */
  function Assess(rs: seq<BehavioralResponse>, attempts: seq<TechnicalAttempt>): (a: Assessment)
    ensures a.behavioralScore == BehavioralScore(rs) && a.technicalScore == TechnicalAccuracy(attempts)
    ensures exists l: Level :: a.cognitiveLevel == l.Name() && a.recommendedStrategy == l.Strategy()
    ensures a.learningStyle in {"Practical", "Theoretical", "Visual"}
    ensures var b := BehavioralScore(rs);
            var sp := SpeedScore(attempts);
            var l := Classify(FinalScore(b, TechnicalAccuracy(attempts), sp, RetryPersistence(attempts) as real));
            && a.cognitiveLevel == l.Name() && a.recommendedStrategy == l.Strategy()
            && a.learningStyle == LearningStyle(sp, b)
  {
    var b := BehavioralScore(rs);
    var acc := TechnicalAccuracy(attempts);
    var sp := SpeedScore(attempts);
    var level := Classify(FinalScore(b, acc, sp, RetryPersistence(attempts) as real));
    Assessment(b, acc, level.Name(), LearningStyle(sp, b), level.Strategy())
  }

  /** The level assessed from well-formed inputs (non-negative weights, attempt
      numbers from 1) is the band of a final score in [0, 100]. */
  lemma AssessedFinalScoreBounded(rs: seq<BehavioralResponse>, attempts: seq<TechnicalAttempt>)
    requires forall i :: 0 <= i < |rs| ==> rs[i].scoreWeight >= 0.0
    requires forall i :: 0 <= i < |attempts| ==> attempts[i].attemptNumber >= 1
    ensures 0.0 <= FinalScore(BehavioralScore(rs), TechnicalAccuracy(attempts), SpeedScore(attempts),
                              RetryPersistence(attempts) as real) <= 100.0
    ensures exists f :: 0.0 <= f <= 100.0 && Assess(rs, attempts).cognitiveLevel == Classify(f).Name()
  {
    BehavioralScoreNonNegative(rs);
    RetryPersistenceBounds(attempts);
    var f := FinalScore(BehavioralScore(rs), TechnicalAccuracy(attempts), SpeedScore(attempts),
                        RetryPersistence(attempts) as real);
    FinalScoreBounds(BehavioralScore(rs), TechnicalAccuracy(attempts), SpeedScore(attempts),
                     RetryPersistence(attempts) as real);
    assert Assess(rs, attempts).cognitiveLevel == Classify(f).Name();
  }

  // ---------------------------------------------------------------- profile upsert

  /** A `cognitive_profiles` row (the `last_updated` timestamp is not modelled). */
  datatype ProfileRow = ProfileRow(id: int, userId: int, assessment: Assessment)

  /** The index of the first row of `userId` (the `.first()` query of line 69),
      or none when the user has no row. */
  function FindProfile(rows: seq<ProfileRow>, userId: int): (r: Option<nat>)
    ensures r.Some? ==> r.value < |rows| && rows[r.value].userId == userId
                        && forall j :: 0 <= j < r.value ==> rows[j].userId != userId
    ensures r.None? <==> forall j :: 0 <= j < |rows| ==> rows[j].userId != userId
  {
    FirstIndex(rows, (row: ProfileRow) => row.userId == userId)
  }

  /** The profile table. */
  class ProfileStore {
    var rows: seq<ProfileRow>

    /** `user_id` is unique (backend/app/models.py:47), and so is the primary key. */
    ghost predicate Valid()
      reads this
    {
      && (forall i, j :: 0 <= i < j < |rows| ==> rows[i].userId != rows[j].userId)
      && (forall i, j :: 0 <= i < j < |rows| ==> rows[i].id != rows[j].id)
    }

    constructor ()
      ensures Valid() && rows == []
    {
      rows := [];
    }

    /** Lines 69-86, the write of an `assessment` for `userId`: an existing
        row has its five columns overwritten (its id and position kept);
        otherwise exactly one row is added, with the primary key `newId` the
        database would assign. Either way the user ends with exactly one
        row, holding the assessment, and no other row changes. */
    method Upsert(userId: int, newId: int, assessment: Assessment)
      requires Valid()
      requires forall j :: 0 <= j < |rows| ==> rows[j].id != newId
      modifies this
      ensures Valid()
      ensures forall j :: 0 <= j < |rows| && rows[j].userId == userId ==> rows[j].assessment == assessment
      ensures exists j :: 0 <= j < |rows| && rows[j].userId == userId
      ensures forall i, j :: 0 <= i < |rows| && 0 <= j < |rows| && rows[i].userId == userId && rows[j].userId == userId ==> i == j
      ensures FindProfile(old(rows), userId).Some? ==>
                var k := FindProfile(old(rows), userId).value;
                rows == old(rows)[k := ProfileRow(old(rows)[k].id, userId, assessment)]
      ensures FindProfile(old(rows), userId).None? ==>
                rows == old(rows) + [ProfileRow(newId, userId, assessment)]
    {
      var found := FindProfile(rows, userId);
      if found.Some? {
        var k := found.value;
        ghost var before := rows;
        rows := rows[k := ProfileRow(rows[k].id, userId, assessment)];
        assert forall j :: 0 <= j < |rows| ==> rows[j].id == before[j].id;
        assert forall j :: 0 <= j < |rows| ==> rows[j].userId == before[j].userId;
        assert rows[k].userId == userId;
      } else {
        ghost var before := rows;
        rows := rows + [ProfileRow(newId, userId, assessment)];
        assert forall j :: 0 <= j < |before| ==> rows[j] == before[j];
        assert rows[|before|].userId == userId;
      }
    }

    /** `update_cognitive_profile` for the user's current `responses` and
        `attempts`: the assessment of lines 16-67, written by Upsert. */
    method UpdateCognitiveProfile(userId: int, newId: int, responses: seq<BehavioralResponse>,
                                  attempts: seq<TechnicalAttempt>)
      requires Valid()
      requires forall j :: 0 <= j < |rows| ==> rows[j].id != newId
      modifies this
      ensures Valid()
      ensures forall j :: 0 <= j < |rows| && rows[j].userId == userId ==> rows[j].assessment == Assess(responses, attempts)
      ensures exists j :: 0 <= j < |rows| && rows[j].userId == userId
      ensures forall i, j :: 0 <= i < |rows| && 0 <= j < |rows| && rows[i].userId == userId && rows[j].userId == userId ==> i == j
      ensures FindProfile(old(rows), userId).Some? ==>
                var k := FindProfile(old(rows), userId).value;
                rows == old(rows)[k := ProfileRow(old(rows)[k].id, userId, Assess(responses, attempts))]
      ensures FindProfile(old(rows), userId).None? ==>
                rows == old(rows) + [ProfileRow(newId, userId, Assess(responses, attempts))]
    {
      Upsert(userId, newId, Assess(responses, attempts));
    }

    /** `get_cognitive_profile`: the user's row, created first when missing. */
    method GetCognitiveProfile(userId: int, newId: int, responses: seq<BehavioralResponse>,
                               attempts: seq<TechnicalAttempt>) returns (profile: ProfileRow)
      requires Valid()
      requires forall j :: 0 <= j < |rows| ==> rows[j].id != newId
      modifies this
      ensures Valid()
      ensures profile.userId == userId && profile in rows
      ensures FindProfile(old(rows), userId).Some? ==>
                rows == old(rows) && profile == rows[FindProfile(rows, userId).value]
      ensures FindProfile(old(rows), userId).None? ==>
                rows == old(rows) + [profile] && profile == ProfileRow(newId, userId, Assess(responses, attempts))
    {
      var found := FindProfile(rows, userId);
      if found.None? {
        UpdateCognitiveProfile(userId, newId, responses, attempts);
        found := FindProfile(rows, userId);
        assert rows[|rows| - 1].userId == userId;
      }
      profile := rows[found.value];
    }
  }

  // ---------------------------------------------------------------- recommendation

  /** Lines 110-116. */
  const LevelMap: map<string, string> := map[
    "Strong Analytical Learner" := "Advanced",
    "Advanced Learner" := "Advanced",
    "Moderate Performer" := "Intermediate",
    "Developing Learner" := "Beginner",
    "Basic Learner" := "Beginner"
  ]

  /** Line 117: the mapped difficulty, "Beginner" for a level outside the map. */
  function TargetDifficulty(level: string): (d: string)
    ensures level in LevelMap ==> d == LevelMap[level]
    ensures level !in LevelMap ==> d == "Beginner"
    ensures d in {"Beginner", "Intermediate", "Advanced"}
  {
    if level in LevelMap then LevelMap[level] else "Beginner"
  }

  /** The rank of a difficulty: Beginner 0, Intermediate 1, Advanced 2. */
  function DifficultyRank(d: string): nat {
    if d == "Advanced" then 2 else if d == "Intermediate" then 1 else 0
  }

  /** A higher final score never recommends an easier difficulty. */
  lemma TargetDifficultyMonotone(f: real, g: real)
    requires f <= g
    ensures DifficultyRank(TargetDifficulty(Classify(f).Name())) <= DifficultyRank(TargetDifficulty(Classify(g).Name()))
  {
  }

  /** The courses of the table whose difficulty equals `d` (when `matching`)
      or differs from it (otherwise), in table order. */
  function WithDifficulty(courses: seq<Course>, d: string, matching: bool): (r: seq<Course>)
    ensures |r| <= |courses|
    ensures SubsequenceOf(r, courses)
    ensures forall c :: c in r <==> c in courses && (c.difficulty == d) == matching
  {
    if courses == [] then []
    else
      var rest := WithDifficulty(courses[1..], d, matching);
      assert forall c :: c in courses <==> c == courses[0] || c in courses[1..];
      if (courses[0].difficulty == d) == matching then
        assert ([courses[0]] + rest)[1..] == rest;
        [courses[0]] + rest
      else rest
  }

  /** `.limit(n)`: the first n elements, or all of them when fewer. */
  function Take<T>(s: seq<T>, n: nat): (r: seq<T>)
    ensures |r| == if |s| <= n then |s| else n
    ensures r == s[..|r|]
  {
    if |s| <= n then s else s[..n]
  }

  /** No two courses share an id. */
  ghost predicate DistinctIds(s: seq<Course>) {
    forall i, j :: 0 <= i < j < |s| ==> s[i].id != s[j].id
  }

  lemma {:induction false} WithDifficultyDistinct(courses: seq<Course>, d: string, matching: bool)
    requires DistinctIds(courses)
    ensures DistinctIds(WithDifficulty(courses, d, matching))
  {
    if courses != [] {
      var tail := courses[1..];
      assert DistinctIds(tail) by {
        forall i, j | 0 <= i < j < |tail| ensures tail[i].id != tail[j].id {
          assert tail[i] == courses[i + 1] && tail[j] == courses[j + 1];
        }
      }
      WithDifficultyDistinct(tail, d, matching);
      var rest := WithDifficulty(tail, d, matching);
      if (courses[0].difficulty == d) == matching {
        var r := [courses[0]] + rest;
        forall i, j | 0 <= i < j < |r| ensures r[i].id != r[j].id {
          if i == 0 {
            assert r[j] in tail;
            var k :| 0 <= k < |tail| && tail[k] == r[j];
            assert courses[k + 1] == r[j];
          } else {
            assert r[i] == rest[i - 1] && r[j] == rest[j - 1];
          }
        }
      }
    }
  }

  /** Members of a table with distinct ids that are different courses have different ids. */
  lemma DistinctMembers(courses: seq<Course>, x: Course, y: Course)
    requires DistinctIds(courses) && x in courses && y in courses && x != y
    ensures x.id != y.id
  {
    var i :| 0 <= i < |courses| && courses[i] == x;
    var j :| 0 <= j < |courses| && courses[j] == y;
    assert i != j;
    if i < j {
      assert courses[i].id != courses[j].id;
    } else {
      assert courses[j].id != courses[i].id;
    }
  }

  /** A few matching courses followed by a few non-matching ones, all from a
      table with distinct ids, have distinct ids. */
  lemma {:induction false} FillDistinct(courses: seq<Course>, d: string, m: nat, o: nat)
    requires DistinctIds(courses)
    ensures DistinctIds(Take(WithDifficulty(courses, d, true), m) + Take(WithDifficulty(courses, d, false), o))
  {
    var first := Take(WithDifficulty(courses, d, true), m);
    var others := Take(WithDifficulty(courses, d, false), o);
    var r := first + others;
    WithDifficultyDistinct(courses, d, true);
    WithDifficultyDistinct(courses, d, false);
    forall i, j | 0 <= i < j < |r| ensures r[i].id != r[j].id {
      if j < |first| {
        assert r[i] == first[i] && r[j] == first[j];
      } else if i >= |first| {
        assert r[i] == others[i - |first|] && r[j] == others[j - |first|];
      } else {
        assert r[i] == first[i] && r[j] == others[j - |first|];
        assert r[i] in WithDifficulty(courses, d, true);
        assert r[j] in WithDifficulty(courses, d, false);
        DistinctMembers(courses, r[i], r[j]);
      }
    }
  }

  /** A few matching courses followed by a few non-matching ones: all are
      table courses, and exactly the leading ones have the difficulty. */
  lemma FillShape(courses: seq<Course>, d: string, m: nat, o: nat)
    ensures var first := Take(WithDifficulty(courses, d, true), m);
            var r := first + Take(WithDifficulty(courses, d, false), o);
            && (forall c :: c in r ==> c in courses)
            && (forall i :: 0 <= i < |r| ==> (r[i].difficulty == d <==> i < |first|))
            && r[..|first|] == first
  {
    var matching := WithDifficulty(courses, d, true);
    var rest := WithDifficulty(courses, d, false);
    var first := Take(matching, m);
    var others := Take(rest, o);
    var r := first + others;
    forall i | 0 <= i < |r| ensures r[i] in courses && (r[i].difficulty == d <==> i < |first|) {
      if i < |first| {
        assert r[i] == matching[i];
      } else {
        assert r[i] == rest[i - |first|];
      }
    }
    forall c | c in r ensures c in courses {
      var i :| 0 <= i < |r| && r[i] == c;
    }
    assert r[..|first|] == first;
  }

  /** `get_recommended_courses` on the course table `courses` for the stored
      `level`: at most five courses of the target difficulty, in table
      order, and only when fewer than three match, up to three courses of
      other difficulties appended after them. */
  method RecommendedCourses(courses: seq<Course>, level: string) returns (recommended: seq<Course>)
    ensures |recommended| <= 5
    ensures forall c :: c in recommended ==> c in courses
    ensures var target := TargetDifficulty(level);
            var matches := WithDifficulty(courses, target, true);
            && |Take(matches, 5)| <= |recommended|
            && (forall i :: 0 <= i < |recommended| ==>
                  (recommended[i].difficulty == target <==> i < |Take(matches, 5)|))
            && recommended[..|Take(matches, 5)|] == Take(matches, 5)
            && (|matches| >= 3 ==> recommended == Take(matches, 5))
            && (|matches| < 3 ==> |recommended| == |matches| + |Take(WithDifficulty(courses, target, false), 3)|)
            && (|matches| < 3 ==> recommended == matches + Take(WithDifficulty(courses, target, false), 3))
    ensures DistinctIds(courses) ==> DistinctIds(recommended)
  {
    var target := TargetDifficulty(level);
    recommended := Take(WithDifficulty(courses, target, true), 5);
    var fill := if |recommended| < 3 then 3 else 0;
    var others := Take(WithDifficulty(courses, target, false), fill);
    if |recommended| < 3 {
      recommended := recommended + others;
    } else {
      assert others == [];
      assert recommended == recommended + others;
    }
    FillShape(courses, target, 5, fill);
    if DistinctIds(courses) {
      FillDistinct(courses, target, 5, fill);
    }
  }
}
