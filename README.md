# Cognitive learning platform: assessment and scoring core in Dafny

This project models the assessment and scoring logic of an adaptive learning
platform and proves properties of it. The platform has a React front end and
a FastAPI back end. The model covers seven parts:

- **Technical test** (`TechnicalTest`): a fixed ten-question catalogue run
  under a retry-until-correct policy. Each selection appends one attempt
  record. A wrong answer starts a feedback hold, after which the same
  question is asked again with the attempt number raised by one. A correct
  answer enables Next. After the last question every record is posted. The
  test completes only when every post succeeds.
- **Behavioural survey** (`BehavioralTest`): ten weighted questions. Choices
  are kept in a map keyed by question id, and a later choice overwrites an
  earlier one. Next waits until the current question has a choice. The
  submission posts one weighted response per answered question.
- **Course quiz** (`QuizComponent`): select an option, submit it (the score
  rises by one on a correct answer), then Next or Finish, with a retake
  reset. A question's options are the comma-separated pieces of one string.
- **Cognitive profile and recommendation** (`Recommendation`): four
  sub-scores, a weighted final score, five learner levels with fixed study
  strategies, and a learning style. There is one profile row per user,
  created or overwritten. The recommended course list is chosen by
  difficulty and filled up with other courses when fewer than three match.
- **Performance trend** (`Analytics`): a per-attempt running accuracy and a
  response-time series, of which the last ten entries are returned.
- **Course page** (`CourseDetail`): modules sorted by `order`, a module view
  or a quiz view (never both), Previous and Next by order -1 and +1, and
  content and video chosen by learning style. Next after the last module
  opens the quiz view even for a course without a quiz; the quiz component
  then shows its empty state.
- **Catalogue page** (`CourseCatalog`): a case-insensitive substring search
  over title and description, and the BEST FOR YOU badge.

`SessionScores` connects the two test pages to the profile computation. The
back end stores every post as one row and recomputes the profile from all of
the user's rows. `Models` holds the back-end records and `Wrappers` the
`Option` type.

State that handlers change in place is a class whose methods are the
handlers: `TechnicalTest.Session`, `BehavioralTest.Session`,
`QuizComponent.Session`, `CourseDetail.CoursePage` and
`Recommendation.ProfileStore`. The code works as follows, and the model
follows it:

- A disabled or hidden button is a precondition of its handler. An early
  return inside a handler is a branch of the model.
- There is no invalid-answer error: the pages offer only the catalogue's
  options, and question 9 of the technical test lists "U" twice.
- There are no "already started" or "session closed" errors.
- A submission is all or nothing. The pages wait for every post together,
  so one failed post leaves the test not completed. Nothing reports which
  posts succeeded.
- The parts that cannot be modelled directly are inputs: the clock (a
  response time), the 1.5 s hold (the step `HoldElapsed`), the outcome of
  each post (a sequence of booleans), the rows the database returns
  (sequences), and the primary key the database assigns (`newId`).

Scores are exact `real` numbers. Retry persistence and counts are integers.

## Model

| member | source | states |
|---|---|---|
| TechnicalTest.CatalogueIsWellFormed | frontend/src/pages/TechnicalTest.jsx:7-68 | ten questions with ids 1..10 in order; every correct answer is one of its question's options |
| TechnicalTest.Session.constructor | frontend/src/pages/TechnicalTest.jsx:71-79 | the session starts at question 1, attempt 1, with no records, no feedback, not submitting, not completed |
| TechnicalTest.Session.Progress | frontend/src/pages/TechnicalTest.jsx:155 | the bar width in percent: 100 times currentStep / 10, in [0, 100) |
| TechnicalTest.Session.SelectOption | frontend/src/pages/TechnicalTest.jsx:96-123 | a record is appended exactly when no feedback shows and no submission runs. The record holds the question id, the selection, the correct answer, the response time, correctness exactly when the selection equals the correct answer, and the current attempt number. Earlier records are unchanged, and otherwise nothing changes. The invariant keeps the attempt numbers of one pass at 1..k, all incorrect except possibly the last |
| TechnicalTest.Session.HoldElapsed | frontend/src/pages/TechnicalTest.jsx:116-122 | after an incorrect answer the feedback clears and the attempt number rises by exactly one, on the same question, with the records unchanged |
| TechnicalTest.Session.Next | frontend/src/pages/TechnicalTest.jsx:125-134 | enabled only after a correct answer and not while submitting. It clears the feedback and resets the attempt number to 1. It then moves to step + 1, or on the last question starts the submission and returns every record in order. Every earlier question keeps a correct record |
| TechnicalTest.Session.SubmissionSettled | frontend/src/pages/TechnicalTest.jsx:136-153 | the test is completed exactly when every post succeeded, and the records are kept. After a failure the options are enabled and Next is disabled at attempt 1, so the last question must be answered again |
| TechnicalTest.CompletedMeansAllResolved | frontend/src/pages/TechnicalTest.jsx:125-153 | a completed test has a correct record for every catalogue question, and every record is well formed |
| BehavioralTest.CatalogueIsWellFormed | frontend/src/pages/BehavioralTest.jsx:7-108 | ten questions with ids 1..10; every option weight lies in [1, 10] |
| BehavioralTest.Submission | frontend/src/pages/BehavioralTest.jsx:138-144 | a response is posted exactly when it carries an answered question id with that entry's option and weight |
| BehavioralTest.SubmissionSize | frontend/src/pages/BehavioralTest.jsx:138-144 | there is one post per answered question id, and no id is posted twice |
| BehavioralTest.Session.constructor | frontend/src/pages/BehavioralTest.jsx:111-114 | the survey starts at question 1 with no answers |
| BehavioralTest.Session.SelectOption | frontend/src/pages/BehavioralTest.jsx:117-125 | the choice is stored under the question id and overwrites an earlier one. Every other entry and the step are unchanged |
| BehavioralTest.Session.Next | frontend/src/pages/BehavioralTest.jsx:127-133 | enabled only when the current question has an answer and no submission runs. It moves to step + 1, or on the last question starts the submission of exactly Submission(answers). Every question before the step stays answered |
| BehavioralTest.Session.SubmissionSettled | frontend/src/pages/BehavioralTest.jsx:135-154 | completed exactly when every post succeeded; the answers and the step are kept and no submission runs; a choice made before the next Next changes what it posts |
| BehavioralTest.SubmissionCoversCatalogue | frontend/src/pages/BehavioralTest.jsx:127-144 | when a submission starts, every catalogue question is answered. The posts are exactly one per catalogue question |
| QuizComponent.Split | frontend/src/components/QuizComponent.jsx:21 | `split(',')` gives at least one piece, and no piece contains a comma |
| QuizComponent.JoinSplit | frontend/src/components/QuizComponent.jsx:21 | joining the pieces with ',' gives back the options string |
| QuizComponent.SplitJoin | frontend/src/components/QuizComponent.jsx:21 | splitting a join of comma-free pieces gives back the pieces |
| QuizComponent.Session.constructor | frontend/src/components/QuizComponent.jsx:5-9 | index 0, no selection, no feedback, score 0, not finished |
| QuizComponent.Session.Render | frontend/src/components/QuizComponent.jsx:11-170 | the empty state shows exactly when the quiz is missing or has no questions. The results screen shows exactly when the quiz is finished, with the score and the question count. Otherwise the question screen shows the current index, whose question exists, its comma-separated options, and whether feedback is shown; the feedback flag is what replaces Submit with Next |
| QuizComponent.Session.ScoreBounded | frontend/src/components/QuizComponent.jsx:31-33 | the score never exceeds the number of answers submitted, nor the number of questions |
| QuizComponent.Session.SelectOption | frontend/src/components/QuizComponent.jsx:23-26 | the selection becomes the option unless feedback is shown, in which case nothing changes |
| QuizComponent.Session.Submit | frontend/src/components/QuizComponent.jsx:28-34 | without a truthy selection nothing changes. Otherwise feedback turns on, and the score rises by exactly one iff the selection equals the correct answer |
| QuizComponent.Session.Next | frontend/src/components/QuizComponent.jsx:36-45 | with a further question: index + 1, no selection, no feedback. On the last question: finished, with the score unchanged either way |
| QuizComponent.Session.Retake | frontend/src/components/QuizComponent.jsx:74-80 | back to index 0, no selection, no feedback, score 0, not finished |
| Recommendation.BehavioralScore | backend/app/routes/recommendation_routes.py:16-21 | 0 without responses. Otherwise min(raw, 100), where raw is 100 times the total weight over 10 times the response count: never above 100 or above raw, equal to raw below 100, and 100 only when raw is at least 100 |
| Recommendation.BehavioralScoreNonNegative | backend/app/routes/recommendation_routes.py:16-21 | the behavioural score is non-negative when every weight is |
| Recommendation.SurveyScoreUncapped | backend/app/routes/recommendation_routes.py:20-21 | with weights in [1, 10] the cap never applies, and the score lies in [10, 100] |
| Recommendation.CorrectCount | backend/app/routes/recommendation_routes.py:29 | the count of correct attempts is at most the number of attempts |
| Recommendation.CorrectCountExtremes | backend/app/routes/recommendation_routes.py:29 | the count equals the number of attempts iff all are correct, and is 0 iff none is |
| Recommendation.CorrectCountAppend | backend/app/routes/recommendation_routes.py:29 | appending an attempt adds one to the count exactly when the attempt is correct |
| Recommendation.Percentage | backend/app/routes/recommendation_routes.py:30 | (part / whole) * 100 lies in [0, 100] and times the whole gives 100 times the part |
| Recommendation.TechnicalAccuracy | backend/app/routes/recommendation_routes.py:28-30 | 0 without attempts, otherwise 100 times the correct count over the attempt count, in [0, 100] |
| Recommendation.TechnicalAccuracyExtremes | backend/app/routes/recommendation_routes.py:28-30 | accuracy is 100 iff there are attempts and all are correct, and 0 iff none is correct |
| Recommendation.SpeedScore | backend/app/routes/recommendation_routes.py:32-34 | in [0, 100]; 0 without attempts. Above the floor it is 100 - 1.5 * max(0, mean - 10). It is 100 iff the mean time is at most 10 s, and 0 iff the mean is at least 10 + 100/1.5 s |
| Recommendation.RetryPersistence | backend/app/routes/recommendation_routes.py:37-38 | 0 without attempts; otherwise min(10 * (sum of attempt numbers - attempt count), 100) |
| Recommendation.RetriesBounds | backend/app/routes/recommendation_routes.py:37 | with attempt numbers of at least 1, the attempt-number sum is at least the count. It equals the count iff every attempt number is 1 |
| Recommendation.RetryPersistenceBounds | backend/app/routes/recommendation_routes.py:37-38 | with attempt numbers of at least 1, retry persistence lies in [0, 100]. It is 0 iff every attempt number is 1 |
| Recommendation.FinalScore | backend/app/routes/recommendation_routes.py:41 | the weights sum to 1: four equal sub-scores give that score, and no final score is below a behavioural score that is the smallest of the four |
| Recommendation.FinalScoreBounds | backend/app/routes/recommendation_routes.py:41 | sub-scores in [0, 100] give a final score in [0, 100] |
| Recommendation.Classify | backend/app/routes/recommendation_routes.py:43-58 | each of the five levels is chosen exactly on its band: below 40, [40, 60), [60, 75), [75, 90), and 90 or above |
| Recommendation.ClassifyMonotone | backend/app/routes/recommendation_routes.py:43-58 | a higher final score never gives a lower level |
| Recommendation.LevelNamesDistinct | backend/app/routes/recommendation_routes.py:43-58 | distinct levels are stored under distinct names |
| Recommendation.LearningStyle | backend/app/routes/recommendation_routes.py:62-67 | "Practical" iff speed > 70; "Theoretical" iff speed <= 70 and behavioural > 70; "Visual" iff both are <= 70 |
| Recommendation.Assess | backend/app/routes/recommendation_routes.py:12-67 | stores the behavioural score and the accuracy. The level is the Classify band of the weighted final score, the strategy is that level's, and the style is LearningStyle of the speed and behavioural scores, one of the three |
| Recommendation.AssessedFinalScoreBounded | backend/app/routes/recommendation_routes.py:16-58 | with non-negative weights and attempt numbers from 1, the final score lies in [0, 100], so the stored level is the band of a score in [0, 100] |
| Recommendation.FindProfile | backend/app/routes/recommendation_routes.py:69 | the index of the first row of the user, with no earlier row of the user, or none exactly when the user has no row |
| Recommendation.ProfileStore.Upsert | backend/app/routes/recommendation_routes.py:69-86 | an existing row is overwritten in place, keeping its id. Otherwise exactly one row is appended. The user ends with exactly one row, holding the assessment, user ids stay unique, and no other row changes |
| Recommendation.ProfileStore.UpdateCognitiveProfile | backend/app/routes/recommendation_routes.py:12-86 | the user ends with exactly one row, holding Assess(responses, attempts), written as Upsert states |
| Recommendation.ProfileStore.GetCognitiveProfile | backend/app/routes/recommendation_routes.py:88-97 | returns the user's row. An existing row is returned unchanged; otherwise the row is created first and is the only change |
| Recommendation.TargetDifficulty | backend/app/routes/recommendation_routes.py:110-117 | the mapped difficulty, or "Beginner" for a level outside the map; always one of the three difficulties |
| Recommendation.TargetDifficultyMonotone | backend/app/routes/recommendation_routes.py:110-117 | a higher final score never targets an easier difficulty |
| Recommendation.WithDifficulty | backend/app/routes/recommendation_routes.py:120 | an in-order subsequence of the table that holds exactly the courses whose difficulty matches (or differs) |
| Recommendation.Take | backend/app/routes/recommendation_routes.py:120 | `.limit(n)` is the prefix of length min(n, size) |
| Recommendation.WithDifficultyDistinct | backend/app/routes/recommendation_routes.py:120 | filtering a table with distinct ids keeps the ids distinct |
| Recommendation.FillShape | backend/app/routes/recommendation_routes.py:123-125 | after the fill, exactly the leading courses have the target difficulty, and all come from the table |
| Recommendation.FillDistinct | backend/app/routes/recommendation_routes.py:123-125 | matching courses followed by non-matching ones have distinct ids |
| Recommendation.RecommendedCourses | backend/app/routes/recommendation_routes.py:99-127 | at most 5 table courses, the first min(5, matches) of them the matching ones in table order. With 3 or more matches nothing else is added. Otherwise the list is all matches followed by the first 3 non-matching courses in table order. No course appears twice |
| Analytics.LastN | backend/app/routes/analytics_routes.py:38-39 | `[-10:]` keeps exactly the last min(n, 10) entries, in order |
| Analytics.AccuracyAfterFacts | backend/app/routes/analytics_routes.py:29-33 | the entry after n attempts carries attempt n and the percentage of correct attempts among the first n, in [0, 100] |
| Analytics.AccuracySeries | backend/app/routes/analytics_routes.py:29-33 | one entry per attempt, with entry i numbered i + 1 |
| Analytics.AccuracySeriesFacts | backend/app/routes/analytics_routes.py:29-33 | the accuracy series is as long as the attempts. Its n-th entry has attempt == n and is 100 times the correct count, over n, of the first n attempts |
| Analytics.TimeSeries | backend/app/routes/analytics_routes.py:34 | one entry per attempt, carrying that attempt's response time |
| Analytics.TimeSeriesFacts | backend/app/routes/analytics_routes.py:34 | the time series is as long as the attempts; entry i carries attempt i + 1 and attempt i's response time unchanged |
| Analytics.SeriesEndsAtOverallAccuracy | backend/app/routes/analytics_routes.py:29-33 | the last accuracy entry equals the technical accuracy of the profile computation |
| Analytics.PerformanceAnalytics | backend/app/routes/analytics_routes.py:12-42 | the loop's trends are exactly the last 10 entries of the two series. The totals are the lengths of the fetched lists, and the profile is the user's row if any |
| CourseDetail.Insert | frontend/src/pages/CourseDetail.jsx:31 | inserting into a sorted list keeps it sorted and adds exactly the one module |
| CourseDetail.SortByOrder | frontend/src/pages/CourseDetail.jsx:31 | the sort by `order` is sorted and a permutation of the modules |
| CourseDetail.SortByOrderIdempotent | frontend/src/pages/CourseDetail.jsx:125 | re-sorting sorted modules changes nothing, so the sidebar keeps the order of line 31 |
| CourseDetail.SortedFirstIsSmallest | frontend/src/pages/CourseDetail.jsx:30-31 | the first of the sorted modules has the smallest order |
| Models.FirstIndex | frontend/src/pages/CourseDetail.jsx:251 | the position of the first element satisfying the condition, none of the earlier ones satisfying it, or none iff no element does |
| CourseDetail.FindByOrder | frontend/src/pages/CourseDetail.jsx:261 | `find` returns the first module with that order, none before it having the order, or none exactly when no module has it |
| CourseDetail.DisplayedContent | frontend/src/pages/CourseDetail.jsx:216-242 | theoretical text for "Theoretical", practical for "Practical", visual for any other style or no profile |
| CourseDetail.VideoSource | frontend/src/pages/CourseDetail.jsx:199-204 | a video is shown exactly when the module's URL is present and non-empty (truthy), and its source starts with that URL |
| CourseDetail.AutoplayExactlyForVisual | frontend/src/pages/CourseDetail.jsx:204 | for a module with a video, "?autoplay=1" is appended exactly for the "Visual" style, and the bare URL is used otherwise |
| CourseDetail.CoursePage.constructor | frontend/src/pages/CourseDetail.jsx:27-32 | modules sorted; the active module is one of smallest order when there are modules and none otherwise; no quiz view |
| CourseDetail.CoursePage.Render | frontend/src/pages/CourseDetail.jsx:189-204 | the quiz view iff showQuiz; the module view iff no quiz view and an active module, which is one of the course's modules, shown with the style's text and video |
| CourseDetail.CoursePage.SelectModule | frontend/src/pages/CourseDetail.jsx:128-131 | the clicked module becomes active and the quiz view closes |
| CourseDetail.CoursePage.SelectQuiz | frontend/src/pages/CourseDetail.jsx:159-164 | offered only with a quiz: the quiz view opens and the active module clears |
| CourseDetail.CoursePage.NextModule | frontend/src/pages/CourseDetail.jsx:260-268 | the module of order + 1 becomes active, or without one the quiz view opens and the active module clears; never both views |
| CourseDetail.CoursePage.PreviousModule | frontend/src/pages/CourseDetail.jsx:249-253 | disabled at order 1: the module of order - 1 becomes active, or nothing changes |
| CourseCatalog.Lower | frontend/src/pages/Courses.jsx:33 | the result has the same length and no upper-case letter, and a string without upper-case letters is unchanged |
| CourseCatalog.LowerIdempotent | frontend/src/pages/Courses.jsx:33 | lowering twice is lowering once |
| CourseCatalog.Includes | frontend/src/pages/Courses.jsx:33-34 | a string that starts with the term includes it, and a term longer than the string is never included |
| CourseCatalog.IncludesIff | frontend/src/pages/Courses.jsx:33-34 | `includes` holds exactly when the term occurs at some position |
| CourseCatalog.IncludesEmpty | frontend/src/pages/Courses.jsx:33-34 | the empty term occurs in every string |
| CourseCatalog.MatchesIgnoresCase | frontend/src/pages/Courses.jsx:32-35 | a term and its lower-cased form select the same courses |
| CourseCatalog.FilteredCourses | frontend/src/pages/Courses.jsx:32-35 | a subsequence of the fetched courses, in order, holding a course iff the lowered term occurs in its lowered title or description; every matching course keeps all its copies and every other course has none |
| CourseCatalog.EmptyTermKeepsAll | frontend/src/pages/Courses.jsx:32-35 | an empty search term keeps every course |
| CourseCatalog.EmptyStateIffNoMatch | frontend/src/pages/Courses.jsx:134-140 | "No courses found" shows exactly when no course matches |
| CourseCatalog.FrontLevelMapAgreesWithBackend | frontend/src/pages/Courses.jsx:92-98 | the page's level map equals the back end's entry for entry |
| CourseCatalog.ShowsBadge | frontend/src/pages/Courses.jsx:92-98 | no badge without a level. A non-empty level badges iff it is in the map and maps to the course difficulty |
| CourseCatalog.BadgeMatchesRecommendation | frontend/src/pages/Courses.jsx:92-98 | for every stored level the badge marks exactly the courses of the recommended difficulty; the default "Beginner" never badges |
| SessionScores.TechnicalRecordsRetryBounded | backend/app/routes/recommendation_routes.py:37-38 | records built by the technical test give a retry persistence in [0, 100], 0 iff every record is a first attempt |
| SessionScores.CompletedTestAccuracyPositive | backend/app/routes/recommendation_routes.py:28-30 | the records of a completed technical test have a positive accuracy |
| SessionScores.SurveyResponsesScoreUncapped | backend/app/routes/recommendation_routes.py:20-21 | survey posts give an uncapped behavioural score in [10, 100] |
| SessionScores.PostedRecordsFinalScoreBounded | backend/app/routes/recommendation_routes.py:41 | on records posted by the two pages the final score lies in [0, 100] |

## Left out

- Clock and timers: `Date.now`, the one-second display counter and the 1.5 s `setTimeout` are not modelled. A response time is a non-negative input, and the end of the hold is the explicit step `HoldElapsed`.
- HTTP, `Promise.all`, `alert` and `console.error`: each post is an injected success or failure. The model does not say which rows the back end stored when some posts failed.
- Rounding: `toFixed(2)` on response times, `round(acc, 2)` in the trend and the `toFixed(1)` displays are not modelled; scores are exact reals.
- CourseCatalog.Lower: lower-cases ASCII letters only; JavaScript's Unicode `toLowerCase` is not modelled.
- CourseDetail.SortByOrder: states sorted and a permutation only. It does not state that modules with equal `order` keep their relative order, as JavaScript's stable sort does.
- QuizComponent `onComplete` (frontend/src/components/QuizComponent.jsx:43): not modelled. It adds the last correct answer again on top of `score`, which already counts it, and the only caller (frontend/src/pages/CourseDetail.jsx:191) never passes it.
- Recommendation.ProfileStore.Upsert: takes the primary key of a new row as the input `newId`, required to be unused, in place of the database's autoincrement. `last_updated` is not modelled.
- Database and ORM plumbing: queries, commits and refreshes are not modelled. A query's result is a sequence input in table order. The storing of posts (backend/app/routes/test_routes.py) enters only through the lemmas of `SessionScores`.
- Loading spinners, fetch failures and "Course not found" screens, and every page's styling, are not modelled. The catalogue and course pages take the fetched course list, course and profile as inputs.
- The label "Take Final Quiz" versus "Next Module" (frontend/src/pages/CourseDetail.jsx:270) and the quiz explanation panel are presentation only.
- Question prompts and option texts of the two tests are not modelled. Only ids, options, correct answers and weights are.
- Authentication (`auth_routes.py`, `AuthContext.jsx`), routing, the dashboard and analytics charts, and the database seeding in `main.py` are not part of this model.
