/** What the profile computation yields on the records the two test pages
    post (backend/app/routes/test_routes.py stores every post as one row and
    recomputes the profile from all of the user's rows). */
module SessionScores {
  import opened Models
  import opened Recommendation
  import TechnicalTest
  import BehavioralTest

  /** Records built by the technical test page, from any number of runs,
      have a retry persistence in [0, 100], which is 0 exactly when every
      question was answered right at the first attempt. */
  lemma TechnicalRecordsRetryBounded(records: seq<TechnicalAttempt>)
    requires forall j :: 0 <= j < |records| ==> TechnicalTest.WellFormedRecord(records[j])
    ensures 0 <= RetryPersistence(records) <= 100
    ensures RetryPersistence(records) == 0 <==> forall j :: 0 <= j < |records| ==> records[j].attemptNumber == 1
  {
    RetryPersistenceBounds(records);
  }

  /** A completed technical test holds a correct record, so the accuracy of
      its records is positive. */
  lemma CompletedTestAccuracyPositive(s: TechnicalTest.Session)
    requires s.Valid() && s.isCompleted
    ensures TechnicalAccuracy(s.results) > 0.0
  {
    TechnicalTest.CatalogueIsWellFormed();
    assert s.Resolved(0);
    var j :| 0 <= j < s.passStart && j < |s.results| && s.results[j].questionId == TechnicalTest.Questions[0].id && s.results[j].isCorrect;
    TechnicalAccuracyExtremes(s.results);
  }

  /** Responses posted by one survey session (any of its posts, in any order)
      have weights between 1 and 10, so their behavioural score is the
      uncapped mean weight times 10, between 10 and 100. */
  lemma SurveyResponsesScoreUncapped(s: BehavioralTest.Session, rs: seq<BehavioralResponse>)
    requires s.Valid() && rs != []
    requires forall i :: 0 <= i < |rs| ==> rs[i] in BehavioralTest.Submission(s.answers)
    ensures 10.0 <= BehavioralScore(rs) <= 100.0
    ensures BehavioralScore(rs) == TotalWeight(rs) / (|rs| as real * 10.0) * 100.0
  {
    assert WeightsWithin(rs, 1.0, 10.0) by {
      forall i | 0 <= i < |rs| ensures 1.0 <= rs[i].scoreWeight <= 10.0 {
        var q := rs[i].questionId;
        assert q in s.answers && rs[i].scoreWeight == s.answers[q].scoreWeight as real;
      }
    }
    SurveyScoreUncapped(rs);
  }

  /** On records posted by the two pages the final score lies in [0, 100]. */
  lemma PostedRecordsFinalScoreBounded(s: BehavioralTest.Session, rs: seq<BehavioralResponse>,
                                       records: seq<TechnicalAttempt>)
    requires s.Valid()
    requires forall i :: 0 <= i < |rs| ==> rs[i] in BehavioralTest.Submission(s.answers)
    requires forall j :: 0 <= j < |records| ==> TechnicalTest.WellFormedRecord(records[j])
    ensures 0.0 <= FinalScore(BehavioralScore(rs), TechnicalAccuracy(records), SpeedScore(records),
                              RetryPersistence(records) as real) <= 100.0
  {
    forall i | 0 <= i < |rs| ensures rs[i].scoreWeight >= 0.0 {
      var q := rs[i].questionId;
      assert q in s.answers && rs[i].scoreWeight == s.answers[q].scoreWeight as real;
    }
    AssessedFinalScoreBounded(rs, records);
  }
}
