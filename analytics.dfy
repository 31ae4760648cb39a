/** The performance report (backend/app/routes/analytics_routes.py): one
    pass over the user's technical attempts, in stored order, keeps a
    running count of correct attempts and builds, per attempt, the accuracy
    so far and the response time; the report returns the last ten entries of
    each series and the sizes of the fetched lists. */
module Analytics {
  import opened Wrappers
  import opened Models
  import opened Recommendation

  /** `{"attempt": i, "accuracy": acc}` (the rounding to two decimals is not modelled). */
  datatype AccuracyPoint = AccuracyPoint(attempt: int, accuracy: real)

  /** `{"attempt": i, "time": t}`. */
  datatype TimePoint = TimePoint(attempt: int, time: real)

  datatype PerformanceReport = PerformanceReport(
    profile: Option<ProfileRow>,
    accuracyTrend: seq<AccuracyPoint>,
    responseTimeTrend: seq<TimePoint>,
    totalAttempts: nat,
    totalBehavioralResponses: nat)

  /** The accuracy entry after the first `n` attempts. */
  function AccuracyAfter(attempts: seq<TechnicalAttempt>, n: nat): AccuracyPoint
    requires 1 <= n <= |attempts|
  {
    AccuracyPoint(n, Percentage(CorrectCount(attempts[..n]), n))
  }

  /** The full accuracy series: entry i is the accuracy after i + 1 attempts. */
  function AccuracySeries(attempts: seq<TechnicalAttempt>): (r: seq<AccuracyPoint>)
    ensures |r| == |attempts|
    ensures forall i :: 0 <= i < |r| ==> r[i].attempt == i + 1
  {
    seq(|attempts|, i requires 0 <= i < |attempts| => AccuracyAfter(attempts, i + 1))
  }

  /** The full response-time series: entry i carries attempt i's time. */
  function TimeSeries(attempts: seq<TechnicalAttempt>): (r: seq<TimePoint>)
    ensures |r| == |attempts|
    ensures forall i :: 0 <= i < |r| ==> r[i].time == attempts[i].responseTime
  {
    seq(|attempts|, i requires 0 <= i < |attempts| => TimePoint(i + 1, attempts[i].responseTime))
  }

  /** Python's `s[-n:]` for a positive `n`: the last `n` entries, or all of them. */
  function LastN<T>(s: seq<T>, n: nat): (r: seq<T>)
    requires n > 0
    ensures |r| == if |s| <= n then |s| else n
    ensures r == s[|s| - |r|..]
  {
    if |s| <= n then s else s[|s| - n..]
  }

  /** The accuracy after the first n attempts is the percentage of correct
      attempts among them, in [0, 100]. */
  lemma AccuracyAfterFacts(attempts: seq<TechnicalAttempt>, n: nat)
    requires 1 <= n <= |attempts|
    ensures AccuracyAfter(attempts, n).attempt == n
    ensures 0.0 <= AccuracyAfter(attempts, n).accuracy <= 100.0
    ensures AccuracyAfter(attempts, n).accuracy * n as real == 100.0 * CorrectCount(attempts[..n]) as real
  {
  }

  /** The n-th (1-based) entry of the accuracy series is the entry after the
      first n attempts. */
  lemma AccuracyEntry(attempts: seq<TechnicalAttempt>, n: nat)
    requires 1 <= n <= |attempts|
    ensures AccuracySeries(attempts)[n - 1].attempt == n
    ensures 0.0 <= AccuracySeries(attempts)[n - 1].accuracy <= 100.0
    ensures AccuracySeries(attempts)[n - 1].accuracy * n as real == 100.0 * CorrectCount(attempts[..n]) as real
  {
    assert AccuracySeries(attempts)[n - 1] == AccuracyAfter(attempts, n);
    AccuracyAfterFacts(attempts, n);
  }

  /** Before slicing, the accuracy series is as long as the attempt list,
      its n-th (1-based) entry carries `attempt == n`, and its accuracy is
      the percentage of correct attempts among the first n, in [0, 100]. */
  lemma AccuracySeriesFacts(attempts: seq<TechnicalAttempt>)
    ensures |AccuracySeries(attempts)| == |attempts|
    ensures forall n :: 1 <= n <= |attempts| ==>
              && AccuracySeries(attempts)[n - 1].attempt == n
              && 0.0 <= AccuracySeries(attempts)[n - 1].accuracy <= 100.0
              && AccuracySeries(attempts)[n - 1].accuracy * n as real == 100.0 * CorrectCount(attempts[..n]) as real
  {
    forall n | 1 <= n <= |attempts| {
      AccuracyEntry(attempts, n);
    }
  }

  /** Before slicing, the time series is as long as the attempt list, and
      its entry at index i carries `attempt == i + 1` and attempt i's
      response time unchanged. */
  lemma TimeSeriesFacts(attempts: seq<TechnicalAttempt>)
    ensures |TimeSeries(attempts)| == |attempts|
    ensures forall i :: 0 <= i < |attempts| ==>
              TimeSeries(attempts)[i] == TimePoint(i + 1, attempts[i].responseTime)
  {
  }

  /** The last accuracy entry is the overall accuracy of the profile computation. */
  lemma SeriesEndsAtOverallAccuracy(attempts: seq<TechnicalAttempt>)
    requires attempts != []
    ensures AccuracySeries(attempts)[|attempts| - 1].accuracy == TechnicalAccuracy(attempts)
  {
    assert attempts[..|attempts|] == attempts;
  }

  /** `get_performance_analytics` for the user's `attempts` and `behavioral`
      responses as fetched, and the profile table `profiles`: the loop of
      lines 29-34 builds both series, of which the last ten entries are
      returned. */
  method PerformanceAnalytics(userId: int, attempts: seq<TechnicalAttempt>, behavioral: seq<BehavioralResponse>,
                              profiles: seq<ProfileRow>) returns (report: PerformanceReport)
    ensures report.accuracyTrend == LastN(AccuracySeries(attempts), 10)
    ensures report.responseTimeTrend == LastN(TimeSeries(attempts), 10)
    ensures report.totalAttempts == |attempts| && report.totalBehavioralResponses == |behavioral|
    ensures report.profile.Some? <==> FindProfile(profiles, userId).Some?
    ensures report.profile.Some? ==> report.profile.value == profiles[FindProfile(profiles, userId).value]
  {
    var totalCorrect: nat := 0;
    var accuracyTrend: seq<AccuracyPoint> := [];
    var responseTimeTrend: seq<TimePoint> := [];
    var idx := 0;
    while idx < |attempts|
      invariant 0 <= idx <= |attempts|
      invariant totalCorrect == CorrectCount(attempts[..idx])
      invariant accuracyTrend == AccuracySeries(attempts)[..idx]
      invariant responseTimeTrend == TimeSeries(attempts)[..idx]
    {
      assert attempts[..idx + 1] == attempts[..idx] + [attempts[idx]];
      CorrectCountAppend(attempts[..idx], attempts[idx]);
      totalCorrect := totalCorrect + (if attempts[idx].isCorrect then 1 else 0);
      var acc := Percentage(totalCorrect, idx + 1);
      accuracyTrend := accuracyTrend + [AccuracyPoint(idx + 1, acc)];
      responseTimeTrend := responseTimeTrend + [TimePoint(idx + 1, attempts[idx].responseTime)];
      assert AccuracySeries(attempts)[..idx + 1] == AccuracySeries(attempts)[..idx] + [AccuracySeries(attempts)[idx]];
      assert TimeSeries(attempts)[..idx + 1] == TimeSeries(attempts)[..idx] + [TimeSeries(attempts)[idx]];
      idx := idx + 1;
    }
    assert AccuracySeries(attempts)[..idx] == AccuracySeries(attempts);
    assert TimeSeries(attempts)[..idx] == TimeSeries(attempts);
    var found := FindProfile(profiles, userId);
    var profile := if found.Some? then Some(profiles[found.value]) else None;
    report := PerformanceReport(profile, LastN(accuracyTrend, 10), LastN(responseTimeTrend, 10),
                                |attempts|, |behavioral|);
  }
}
