# Talking to your data: a verified model of the persona pipeline

This project models, in Dafny, the computational core of a pipeline that
reads daily wearable-tracker data (steps, sleep minutes, resting heart rate,
activity levels) and produces two kinds of output:

- **Persona extraction.** Participants' timelines are sorted by date. A
  window of `window_days` consecutive rows slides over each one. Every
  window is validated (the window is contiguous, negative values are
  cleared, enough days are present) and then scored against two persona
  profiles:
  - Persona A: short sleep with a weekend rebound;
  - Persona B: active with an irregular routine.

  The resulting candidates are then ranked per persona or drawn at random
  above a threshold. A chosen window can be re-extracted by participant and
  start date and exported as a persona JSON record.
- **Statistics and insights.** The statistics are computed from a persona
  record:
  - the Pearson correlation of steps and sleep;
  - trends from a recency-weighted least-squares fit;
  - base statistics and weekday/weekend patterns.

  A language model's reply is then parsed into insight records, which are
  attached to the statistics.

## How the model is organised

The modules follow the source files:

| module | file | models |
|---|---|---|
| `DataValidation` | `data_validation.dfy` | `data_validation.py` |
| `PersonaScoring` | `persona_scoring.dfy` | `persona_scoring.py` |
| `WindowExtraction` | `window_extraction.dfy` | `window_extraction.py` |
| `Statistics` | `statistics.dfy` | `statistics.py` |
| `Visualization` | `visualization.dfy` | `_safe_float` and `window_to_json` of `visualization.py` |
| `Insights` | `insights.dfy` | `parse_insights_response` and `add_insights_to_statistics` of `insights.py` |

Five helper modules hold what the source takes from Python, pandas and numpy:

| module | holds |
|---|---|
| `Wrappers` | `Option` (a NaN or missing value is `None`) and `Result` (a raised exception is `Err`) |
| `Calendar` | `weekday()` of a day ordinal |
| `Numeric` | `dropna`, `sum`, `mean`, `min`, `max`, sample `var`/`std` with ddof 1 |
| `Sorting` | a stable sort, which stands in for `list.sort` and `sort_values` |
| `Frames` | a row-oriented data frame |

Cells are `Option<real>`, with `None` for NaN. Dates are day ordinals, as in
`date.toordinal()`.

Some things are parameters of the model:
- `exp` and `sqrt`, because real arithmetic has no exponential or square root.
  The Gaussian is only bounded under the hypothesis
  `PersonaScoring.ExpOnNonPositive`: `exp(0) = 1`, and `exp` maps non-positive
  arguments into (0, 1].
- The random draw, as a chooser that returns an index in range.
- The JSON decoder.
- The clock.
- The two persona scorers. `WindowExtraction` takes them as `Frame -> real`
  functions, and `PersonaScoring` defines what they compute on a prepared
  window.

Where the source changes state step by step, the model uses methods, each
proved against a specification function:
- `ScanParticipants`, the positive-size case of `ExtractCandidates`, loops over participants and offsets;
- `CleanNumericColumns` runs over the optional columns;
- `CalculateBaseStats` and `CalculateWeekdayPatterns` fill a dictionary;
- `WindowToJson` appends one entry per row;
- `ParseInsightsResponse` reassigns the reply text and appends the kept items.

## Model

| member | source | states |
|---|---|---|
| Calendar.WeekdayAdvances | src/persona_extraction/data_validation.py:113-114 | Day 1 (0001-01-01) is Monday (0), and each next day has the next weekday number, wrapping from Sunday (6) to Monday. |
| Calendar.WeekdayPeriodic | src/persona_extraction/data_validation.py:113 | Adding whole weeks does not change the weekday. |
| Calendar.WeekendNames | src/persona_extraction/visualization.py:139 | A day is weekend (`dayofweek >= 5`) exactly when its `%A` name is Saturday or Sunday. |
| Numeric.Present | src/statistics_and_insights_generation/statistics.py:134 | `dropna()` keeps exactly the present values and is never longer than its input. |
| Numeric.Mean | src/statistics_and_insights_generation/statistics.py:136 | The mean is defined (not NaN) exactly when there is at least one value. |
| Numeric.MinOf | src/statistics_and_insights_generation/statistics.py:139 | The minimum is one of the values and no value is below it. |
| Numeric.MaxOf | src/statistics_and_insights_generation/statistics.py:140 | The maximum is one of the values and no value is above it. |
| Numeric.MeanWithinRange | src/statistics_and_insights_generation/statistics.py:136-140 | The mean of present values lies between their minimum and their maximum. |
| Numeric.SampleVariance | src/statistics_and_insights_generation/statistics.py:137 | `var()` with ddof 1 is NaN for fewer than two values and otherwise non-negative. |
| Numeric.SampleStd | src/statistics_and_insights_generation/statistics.py:138 | `std()` is NaN exactly when the variance is, that is, for fewer than two values. |
| Numeric.ConstantValues | src/statistics_and_insights_generation/statistics.py:136-137 | Equal values have that value as their mean and a sample variance of zero. |
| Numeric.SumScale | scripts/persona_scoring.py:82 | Dividing every value by a constant divides the sum by it. |
| Sorting.StableSortCorrect | src/persona_extraction/window_extraction.py:128-129 | The sort returns a permutation of its input, in non-decreasing key order, and elements with equal keys keep their input order. |
| DataValidation.ValidateWindowContiguity | src/persona_extraction/data_validation.py:13-32 | Accepts exactly when the row count equals `window_days` and each date is one day after the previous. A wrong row count is reported with both numbers; otherwise the only error is non-contiguity. |
| DataValidation.ContiguousDates | src/persona_extraction/data_validation.py:28-30 | In an accepted window, the i-th date is the first date plus i. |
| DataValidation.DuplicateDateRejected | src/persona_extraction/data_validation.py:28-30 | Two rows with the same date (a difference of 0) make the window non-contiguous. |
| DataValidation.ClearColumn | src/persona_extraction/data_validation.py:53-66 | Clearing one column keeps the columns and the row count, changes only that column's cells (and only negative ones), and leaves the dates alone. |
| DataValidation.CleanedCorrect | src/persona_extraction/data_validation.py:35-68 | The cleaned frame has steps, sleep and each optional column the frame has cleared of negatives; every other cell is unchanged, and no column is added. |
| DataValidation.CleanedOnUnique | src/persona_extraction/data_validation.py:47-68 | The cleaning result is determined by the input, whatever order the columns were processed in. |
| DataValidation.CleanNumericColumns | src/persona_extraction/data_validation.py:35-68 | The method, which clears column after column in a loop, returns exactly the cleaned frame. |
| DataValidation.PositiveAtMostPresent | src/persona_extraction/data_validation.py:89-90 | Days with positive steps never outnumber days with present values. |
| DataValidation.ValidateDataCoverage | src/persona_extraction/data_validation.py:71-98 | Accepts exactly when the positive-step days and the present-sleep days both reach the minimum. A step shortfall is reported before a sleep shortfall, with the count, the row count and the minimum. |
| DataValidation.CountsOfCleared | src/persona_extraction/data_validation.py:53-54 | On a cleared column, the positive count is unchanged and the present count equals the original count of non-negative values. |
| DataValidation.CleaningAndCoverage | src/persona_extraction/data_validation.py:144-146 | Coverage after cleaning counts positive steps as before cleaning, and counts the sleep days that were present and non-negative. |
| DataValidation.AddDerivedFeatures | src/persona_extraction/data_validation.py:101-115 | Every row gets `dow` = its weekday (0..6) and `is_weekend` = `dow >= 5`. The columns, the cells and the dates are unchanged. |
| DataValidation.PrepareWindowCorrect | src/persona_extraction/data_validation.py:118-152 | A contiguity failure returns the raw window with that error. The result is valid exactly when the raw window is contiguous with `window_days` rows and the cleaned window meets both coverage minimums. |
| DataValidation.NegativeSizeRejected | src/persona_extraction/data_validation.py:25-26 | With a negative window size every window fails the length check, with the row count and the expected size. |
| DataValidation.EmptyWindowPrepared | src/persona_extraction/data_validation.py:25-31 | An empty window of size 0 passes contiguity, and then coverage exactly when the minimum is at most 0. Accepted, it is still empty. |
| DataValidation.PreparedWindowValid | src/persona_extraction/data_validation.py:140-152 | A valid prepared window has `window_days` contiguous rows with the input's dates, the cleaned cells, the input's columns, both coverage minimums met, and the calendar columns. |
| PersonaScoring.Clamp01 | scripts/persona_scoring.py:13-15 | The result lies in [0, 1]: the identity inside, 0 below, 1 above. |
| PersonaScoring.Clamp01Idempotent | scripts/persona_scoring.py:13-15 | Clamping twice is clamping once. |
| PersonaScoring.Clamp01Py | scripts/persona_scoring.py:13-15 | The clamp as written maps NaN to 1.0, because `min(1.0, nan)` returns 1.0. |
| PersonaScoring.Clamp01OrZero | scripts/persona_scoring.py:49 | The corrected clamp maps an undefined component to 0, like the source's own `else 0` for missing weekend sleep. |
| PersonaScoring.GaussianBounds | scripts/persona_scoring.py:18-20 | The Gaussian lies in (0, 1] and is 1 at its centre. |
| PersonaScoring.GaussianSymmetric | scripts/persona_scoring.py:18-20 | The Gaussian is symmetric about its centre. |
| PersonaScoring.CoefficientOfVariation | scripts/persona_scoring.py:85-89 | std / max(mean, floor): divides by the mean when the mean reaches the floor, and by the floor otherwise. |
| PersonaScoring.ActivityFitShape | scripts/persona_scoring.py:41-42 | The activity fit is 1 at 5000 steps, 0 at or beyond 0 and 10000, and positive strictly between. |
| PersonaScoring.SleepFitShape | scripts/persona_scoring.py:44-45 | The sleep fit is 1 at 5.75 h (345 min), 0 when 2 h or more away from it, and positive within 2 h. |
| PersonaScoring.WeekendFitShape | scripts/persona_scoring.py:47-49 | The weekend fit is 0 without weekend sleep. Otherwise it is 0 for no rebound, rebound/120 for 0-120 minutes, and 1 beyond. |
| PersonaScoring.ScoreABounded | scripts/persona_scoring.py:54-59 | The weights sum to 1, and both the as-written and the corrected Persona A scores lie in [0, 1]. |
| PersonaScoring.ScoreAAgreesWhenDefined | scripts/persona_scoring.py:41-59 | When steps (mean and std), sleep and weekday sleep are all defined, the as-written and corrected scores are equal. |
| PersonaScoring.UndefinedComponentsScoreFull | scripts/persona_scoring.py:47-52 | As written, missing weekday sleep and a NaN step std each give a component of 1.0, which adds 0.30 to the score. |
| PersonaScoring.WeekendOnlyWindowScoresPerfect | scripts/persona_scoring.py:41-59 | A window with on-target means, one step value and sleep only on weekend days scores a perfect 1.0 as written, and 0.7 corrected. |
| PersonaScoring.ScoreANoReboundWithoutWeekdays | scripts/persona_scoring.py:47-49 | Corrected: without weekday sleep, weekend sleep adds nothing to the score. |
| PersonaScoring.FeaturesOfA | scripts/persona_scoring.py:41-51 | The mean step count of a prepared window is defined exactly when some day has steps. |
| PersonaScoring.ScorePersonaA | scripts/persona_scoring.py:23-59 | The corrected Persona A score of a prepared window lies in [0, 1]. |
| PersonaScoring.ScorePersonaAAsWritten | scripts/persona_scoring.py:23-59 | The as-written Persona A score of a prepared window lies in [0, 1]. |
| PersonaScoring.ScoreB | scripts/persona_scoring.py:81-103 | The Persona B score is defined (not NaN) exactly when all five statistics are defined. |
| PersonaScoring.ScoreBBounded | scripts/persona_scoring.py:93-103 | The weights sum to 1, and a defined score lies in (0, 1]. A window exactly on every target (11000 steps, CV 0.45, sleep CV 0.35, 72 bpm) scores 1. |
| PersonaScoring.ScorePersonaB | scripts/persona_scoring.py:62-103 | The score is defined exactly when the window has at least two step days, two sleep days and one resting-heart-rate day, and then lies in (0, 1]. |
| WindowExtraction.SortedRowsFacts | src/persona_extraction/window_extraction.py:76-83 | A participant's rows sorted by date are a permutation of the rows, in date order, with the dataset's columns. |
| WindowExtraction.PrepareValid | src/persona_extraction/window_extraction.py:89-96 | A window accepted at offset i has `window_days` rows, the sorted rows' dates, consecutive dates, and the calendar columns. |
| WindowExtraction.ExtractCandidates | src/persona_extraction/window_extraction.py:47-108 | A positive window size gives exactly `AllCandidates`. A negative size gives no candidates. Size 0 gives none under a positive minimum. Otherwise it raises the `IndexError` of reading an empty window's start date, as soon as there is a participant. |
| WindowExtraction.ScanParticipants | src/persona_extraction/window_extraction.py:80-108 | The nested loops produce exactly the candidate list `AllCandidates`: for each participant and each offset, in order, an A and then a B candidate per accepted window. |
| WindowExtraction.ZeroSizeWindow | src/persona_extraction/window_extraction.py:87-98 | Every window of size 0 is empty. It is accepted exactly when the minimum is at most 0, and then it has no first row to take the start date from. |
| WindowExtraction.ExtractParticipantCandidates | src/persona_extraction/window_extraction.py:88-106 | The offset loop for one participant produces exactly that participant's candidates. |
| WindowExtraction.GroupCandidateCount | src/persona_extraction/window_extraction.py:95-106 | A participant contributes two candidates per accepted window. |
| WindowExtraction.CandidateCount | src/persona_extraction/window_extraction.py:82-106 | There are exactly twice as many candidates as accepted windows. |
| WindowExtraction.ShortParticipantNoCandidates | src/persona_extraction/window_extraction.py:85-86 | A participant with fewer than `window_days` rows has no offsets and no candidates. |
| WindowExtraction.WindowsAreSortedRuns | src/persona_extraction/window_extraction.py:83-89 | Each window is the run of `window_days` date-sorted rows from its offset, in non-decreasing date order. |
| WindowExtraction.GroupCandidatesPaired | src/persona_extraction/window_extraction.py:100-106 | One participant's candidates come in (A, B) pairs with the same id and start date. |
| WindowExtraction.CandidatesPaired | src/persona_extraction/window_extraction.py:100-106 | The candidates come in (A, B) pairs with the same participant and start date. |
| WindowExtraction.GroupCandidateOrigin | src/persona_extraction/window_extraction.py:88-106 | Each of a participant's candidates comes from an accepted window at some offset. |
| WindowExtraction.CandidateOrigin | src/persona_extraction/window_extraction.py:88-106 | Every candidate comes from an accepted window of some participant and offset: its id is that participant's, its start is the window's first date, and its score is the persona's scorer applied to the prepared window. |
| WindowExtraction.OfPersona | src/persona_extraction/window_extraction.py:125-126 | The filter keeps exactly the candidates of one persona. |
| WindowExtraction.Take | src/persona_extraction/window_extraction.py:131 | Python's `[:k]` takes min(k, n) elements for k >= 0 and drops -k from the end for k < 0. It is always a prefix. |
| WindowExtraction.RankedCorrect | src/persona_extraction/window_extraction.py:128-129 | The ranking is a permutation of the persona's candidates, by non-increasing score. Candidates with equal scores keep their input order, as Python's stable sort keeps them. |
| WindowExtraction.TopOfPersona | src/persona_extraction/window_extraction.py:125-131 | The first k of the ranking are a top list: a sub-multiset of that persona's candidates, so no candidate is repeated beyond its count in the input, in non-increasing score order, min(k, count) of them for k >= 0, led by the highest score, and no left-out candidate of the persona scores above a kept one. Among equal scores, which ones are kept follows from `RankedCorrect`: input order. |
| WindowExtraction.SelectTopCandidates | src/persona_extraction/window_extraction.py:111-131 | Each returned list holds the top K of its persona: a sub-multiset of that persona's candidates, by non-increasing score, min(k, count) of them for k >= 0, led by a candidate no other of the persona beats, and no left-out candidate scores above a kept one. Ties are kept in input order (`RankedCorrect`). |
| WindowExtraction.PrefixOfRanking | src/persona_extraction/window_extraction.py:131 | A prefix `[:k]` of a best-first ranking is a sub-multiset of it, best first, led by its best candidate, and nothing after the prefix scores above anything in it. |
| WindowExtraction.Viable | src/persona_extraction/window_extraction.py:153 | Keeps exactly the candidates whose score reaches the threshold. |
| WindowExtraction.SelectRandomFromViable | src/persona_extraction/window_extraction.py:134-161 | Raises "no viable candidates" exactly when every score is below the threshold. Otherwise it returns a candidate of the list whose score reaches the threshold, and the only one when just one does. |
| WindowExtraction.RoundHalfEven | src/persona_extraction/window_extraction.py:35 | Python's `round` gives the nearest integer, and the even one on a tie. |
| WindowExtraction.Round4 | src/persona_extraction/window_extraction.py:35 | `round(x, 4)` is within 0.00005 of x. |
| WindowExtraction.Round4Idempotent | src/persona_extraction/window_extraction.py:35 | Rounding a rounded score changes nothing. |
| WindowExtraction.ToDict | src/persona_extraction/window_extraction.py:29-36 | The record's score is the candidate's score rounded half-even to 4 decimal places. |
| WindowExtraction.ToDictFaithful | src/persona_extraction/window_extraction.py:29-36 | The record keeps the id and the start date and has the score to within 0.00005. Different personas get different labels. |
| WindowExtraction.ParticipantRowsOfGroup | src/persona_extraction/window_extraction.py:199 | With distinct participant ids, selecting by a participant's id yields exactly that participant's rows. |
| WindowExtraction.InRangeMembers | src/persona_extraction/window_extraction.py:200 | The date filter keeps exactly the rows dated in [start, start + window_days). |
| WindowExtraction.RequestedWindow | src/persona_extraction/window_extraction.py:196-200 | The requested window has the dataset's columns, all its dates are in range, and every row is one of the participant's rows. |
| WindowExtraction.PreparedFromRows | src/persona_extraction/window_extraction.py:199-204 | An accepted window whose rows are drawn from given rows within [start, start+wd) holds the days start, ..., start+wd-1, each the cleaned cells of one of those rows of that date. |
| WindowExtraction.ExtractWindowDataWith | src/persona_extraction/window_extraction.py:164-209 | Corrected extraction, with the minimum passed through. Success gives `window_days` rows dated start, start+1, ...; row k holds the cleaned cells of one of the participant's rows dated start+k; the calendar columns are added and both minimums are met. A failure names the participant and the start. |
| WindowExtraction.ExtractWindowData | src/persona_extraction/window_extraction.py:164-209 | Extraction as written: a success has `window_days` rows dated start, start+1, ..., each holding the cleaned cells of one of the participant's rows of that date, and meets the default minimum of 12 days. A failure names the participant and the start. |
| WindowExtraction.WindowOfDates | src/persona_extraction/window_extraction.py:196-204 | A contiguous window of `window_days` rows dated inside [start, start + window_days) has the k-th date start + k. |
| WindowExtraction.StrictlyIncreasing | src/persona_extraction/window_extraction.py:199 | Date-sorted rows with one row per date have strictly increasing dates. |
| WindowExtraction.InRangeOfRun | src/persona_extraction/window_extraction.py:196-200 | Filtering strictly increasing rows by a range that a consecutive run fills yields exactly that run. |
| WindowExtraction.ValidWindowFoundByDates | src/persona_extraction/window_extraction.py:196-204 | The rows of an accepted window are exactly what the date filter selects from the participant's rows. |
| WindowExtraction.CandidatesReExtract | src/persona_extraction/window_extraction.py:98-106 | Round trip: with distinct participant ids and one row per date, every candidate re-extracts successfully by its id and start date under the same minimum, and its score is its persona's scorer applied to the re-extracted window. |
| WindowExtraction.DefaultMinimumRejectsCandidate | src/persona_extraction/window_extraction.py:202-204 | A one-day window accepted with a minimum of 1 is rejected by the as-written re-extraction, and accepted by the corrected one. |
| Statistics.CalculateCorrelation | src/statistics_and_insights_generation/statistics.py:15-35 | None when a column is absent or fewer than 3 rows have both values; otherwise exactly Pearson's r of the rows where both are present. |
| Statistics.ConstantColumnNoCorrelation | src/statistics_and_insights_generation/statistics.py:33-35 | A metric with one value on all its present days gives None (pandas' NaN), given that the square root of 0 is 0. |
| Statistics.SelfCorrelation | src/statistics_and_insights_generation/statistics.py:33-35 | For a true square root, a metric's correlation with itself is 1 whenever it is defined. |
| Statistics.CorrelationSymmetric | src/statistics_and_insights_generation/statistics.py:30-35 | The correlation of steps with sleep equals that of sleep with steps. |
| Statistics.Classify | src/statistics_and_insights_generation/statistics.py:82-87 | Increasing exactly when the slope exceeds the threshold, decreasing exactly when it is below minus the threshold, and stable otherwise. |
| Statistics.ClassifyMirror | src/statistics_and_insights_generation/statistics.py:82-87 | A slope of exactly ±threshold is stable, and negating the slope swaps increasing and decreasing. |
| Statistics.PresentPoints | src/statistics_and_insights_generation/statistics.py:58-60 | The points of the fit are as many as the present values. |
| Statistics.RecencyWeightsDecay | src/statistics_and_insights_generation/statistics.py:75-76 | The latest point has weight 1, and each earlier point `decay` times the weight of the next. |
| Statistics.SquaredWeights | src/statistics_and_insights_generation/statistics.py:79 | polyfit's least-squares weights are the squares of the `w` it is given. |
| Statistics.IdentifyTrend | src/statistics_and_insights_generation/statistics.py:38-92 | "insufficient data" with slope 0 exactly when fewer than 3 values are present; otherwise the classification of the fitted slope. |
| Statistics.ExactLineSlope | src/statistics_and_insights_generation/statistics.py:65-79 | When every point lies on the line a·date + b and the fit is determined, the weighted fit recovers slope a, whatever the weights. |
| Statistics.ExactLineTrend | src/statistics_and_insights_generation/statistics.py:38-92 | A metric that moves by exactly a per day has trend slope a, classified by a. |
| Statistics.EarliestDate | src/statistics_and_insights_generation/statistics.py:128 | The start of the date range is a date of the data and no date is earlier. |
| Statistics.LatestDate | src/statistics_and_insights_generation/statistics.py:129 | The end of the date range is a date of the data and no date is later. |
| Statistics.CalculateBaseStats | src/statistics_and_insights_generation/statistics.py:95-152 | The method, which fills the defaults and then each present metric, returns the base statistics of the days. |
| Statistics.SummaryBounds | src/statistics_and_insights_generation/statistics.py:133-150 | A metric's min <= mean <= max, its min and max are values of it, its variance is NaN for one value and non-negative otherwise. |
| Statistics.BaseStatsCorrect | src/statistics_and_insights_generation/statistics.py:105-150 | No days give all zeros and no date range. Otherwise start <= end with every date inside, each metric's min <= avg <= max, and the average is the mean of the present values. |
| Statistics.CalculateWeekdayPatterns | src/statistics_and_insights_generation/statistics.py:155-205 | The method, which fills the zero defaults and then each existing metric, returns the steps and sleep patterns. |
| Statistics.MetricPattern | src/statistics_and_insights_generation/statistics.py:182-191 | Each side's average is the mean of its present values, or stays 0.0 without any; the difference is computed last. |
| Statistics.SidesPartition | src/statistics_and_insights_generation/statistics.py:167-179 | Weekday and weekend values together are the metric's present values, in count and in sum. |
| Statistics.PatternCorrect | src/statistics_and_insights_generation/statistics.py:169-203 | diff = weekend avg − weekday avg, even when a side defaulted. A side without values is 0.0, each side's average lies within that side's range, and a missing metric keeps all zeros. |
| Statistics.MetricTrend | src/statistics_and_insights_generation/statistics.py:244-245 | A trend is computed exactly when the metric is a column. |
| Statistics.MetadataOf | src/statistics_and_insights_generation/statistics.py:224-255 | `days_count` is the number of days. Persona and id default to "Unknown", and the start date appears only for a non-empty file. |
| Statistics.ComputeAllStatistics | src/statistics_and_insights_generation/statistics.py:208-265 | No days give empty correlations and trends and no patterns. Otherwise one correlation (steps/sleep), two trends and the weekday patterns. |
| Statistics.AllStatisticsShape | src/statistics_and_insights_generation/statistics.py:220-265 | `days_count` = number of days. Empty input gives zero base stats and no start date. Otherwise the correlation keys are exactly {steps_sleep}, the trend keys exactly {steps, sleep}, and a trend is present exactly for an existing column. |
| Visualization.SafeFloat | src/persona_extraction/visualization.py:94-99 | None when the row has no such column, and the cell (None for NaN) otherwise. |
| Visualization.ActiveMinutes | src/persona_extraction/visualization.py:141-147 | None exactly when no activity level is present; otherwise the sum of the present ones. |
| Visualization.DayEntryFaithful | src/persona_extraction/visualization.py:133-158 | A day entry keeps the date and its weekday name (weekend names on weekend days) and the steps. Sleep hours are missing exactly when the minutes are, and otherwise convert back to the minutes (×60). |
| Visualization.RowToDayEntry | src/persona_extraction/visualization.py:134-158 | The loop body builds exactly the row's day entry. |
| Visualization.WindowToJson | src/persona_extraction/visualization.py:102-162 | Persona and id as given, start date = the first row's date, one day entry per row in row order. |
| Insights.Strip | src/statistics_and_insights_generation/insights.py:136 | The stripped text neither starts nor ends with whitespace. |
| Insights.StripRemovesOnlySpace | src/statistics_and_insights_generation/insights.py:136 | Strip keeps a slice of its input and removes only whitespace before and after it. |
| Insights.StripSurrounded | src/statistics_and_insights_generation/insights.py:136 | Strip removes exactly the surrounding whitespace of trimmed text. |
| Insights.StripIdempotent | src/statistics_and_insights_generation/insights.py:147 | Stripping again changes nothing. |
| Insights.DropOpeningFence | src/statistics_and_insights_generation/insights.py:139-142 | A leading "```json" is removed in preference to "```", and at most one prefix is removed. |
| Insights.DropClosingFence | src/statistics_and_insights_generation/insights.py:144-145 | A trailing "```" is removed at most once. |
| Insights.JsonFenceRemoved | src/statistics_and_insights_generation/insights.py:136-147 | A reply fenced as ```json, with any surrounding whitespace, yields the stripped text inside the fence. |
| Insights.BareFenceRemoved | src/statistics_and_insights_generation/insights.py:139-147 | A reply in a bare ``` fence yields the stripped text inside, unless that text starts with "json". |
| Insights.NoFenceOnlyStripped | src/statistics_and_insights_generation/insights.py:136-147 | A reply without fences is only stripped. |
| Insights.ToInsight | src/statistics_and_insights_generation/insights.py:160-164 | The record takes the item's insight. A missing explanation becomes "" and a missing confidence score becomes 5. |
| Insights.KeepInsightsAppend | src/statistics_and_insights_generation/insights.py:157-166 | Items are kept independently and in order: the records of a concatenation are the concatenated records. |
| Insights.KeepOne | src/statistics_and_insights_generation/insights.py:159-164 | One item yields its record exactly when it is an object with an "insight" key. |
| Insights.KeptFromInput | src/statistics_and_insights_generation/insights.py:157-166 | Every record is the record of an insight item of the input. |
| Insights.KeepWrittenInsights | src/statistics_and_insights_generation/insights.py:219-221 | Records written into the statistics read back as themselves. |
| Insights.SelectInsights | src/statistics_and_insights_generation/insights.py:150-166 | A decoding failure gives []. A number, boolean or null raises (they cannot be iterated). Nothing else raises. |
| Insights.SelectNeverLonger | src/statistics_and_insights_generation/insights.py:157-166 | Only an array yields records, and never more than it has items. |
| Insights.FencedRoundTrip | src/statistics_and_insights_generation/insights.py:125-166 | A ```json-fenced, whitespace-padded encoding of records parses back to those records, when the decoder inverts the encoder. |
| Insights.CleanResponse | src/statistics_and_insights_generation/insights.py:136-147 | The step-by-step reassignment of the reply text gives the unfenced JSON text. |
| Insights.CollectInsights | src/statistics_and_insights_generation/insights.py:157-166 | The loop over the decoded array appends exactly the kept records. |
| Insights.ParseInsightsResponse | src/statistics_and_insights_generation/insights.py:125-166 | The parser returns the selection of the decoded, unfenced reply. |
| Insights.AddInsightsToStatistics | src/statistics_and_insights_generation/insights.py:219-221 | The keys are the input's plus "insights", every other entry is unchanged, and the records under "insights" read back as the given ones. |

## Left out

- Argument parsing, file reading and writing, console output and plotting. This covers `extract_personas.py`, `compute_statistics.py`, `generate_prompt.py`, `plot_comparison`, `print_candidate_summary` and `format_statistics_summary`.
- Prompt building (`prompt_builder.py`, `build_insight_prompt`): template filling from a file, with Python float formatting.
- `pd.to_datetime` and `pd.to_numeric` parsing: dates arrive as day ordinals and cells as already-parsed optional reals. Text that coercion turns into NaN is therefore already `None`.
- Formatting a date as `%Y-%m-%d` text: dates stay day ordinals, and the `%A` weekday name is kept. `extract_window_data` receives the start date as an ordinal.
- IEEE floating point: arithmetic is exact over the reals. NaN is modelled only as a missing value (`None`) where the source produces or tests it.
- `np.exp`, `sqrt` and `np.polyfit`'s numerics. Exp and sqrt are parameters. The trend slope is the exact closed-form solution of polyfit's weighted normal equations.
- Statistics.WeightedSlope: whenever the determinant of the weighted normal equations is 0, the slope is taken as 0.0. That happens when all the dates with nonzero weight coincide: all dates are equal, or decay is 0.0 and only the last point carries weight. There polyfit's rank-deficient least-squares result and its warning are not modelled.
- The order of equal keys in `sort_values` and `argsort`: both default to an unstable quicksort, and the model uses a stable sort that keeps input order. For duplicate dates this matters. A window holding both rows of a repeated date fails the contiguity check, but a window at the edge of the repeated date is accepted with whichever of its rows the sort puts there. Its cells and both fit scores then depend on the tie order, and the model fixes that order as the input order. This is why CandidatesReExtract assumes one row per date (`OneRowPerDate`). Ties also change the weight assignment in a trend.
- The global random state of `np.random.seed` and `np.random.choice`: the draw is a chooser function that returns an index in range.
- `datetime.now()` is the `now` parameter of `Statistics.ComputeAllStatistics`.
- `json.loads` is the `decode` parameter: None for a decoding error, otherwise the decoded value.
- WindowExtraction.ExtractCandidates: the persona scorers are total `Frame -> real` parameters. A NaN Persona B score, and how NaN then compares in the sort and against the threshold, are not modelled. So is the `KeyError` that a dataset without a resting heart rate column raises inside `score_persona_b`.
- WindowExtraction.ExtractCandidates: for a window size of 0 or less, the windows themselves are not built; the answer is given per case and justified by NegativeSizeRejected, EmptyWindowPrepared and ZeroSizeWindow. `AllCandidates` and the lemmas about it (counts, pairing, origin, re-extraction) are stated for positive sizes only.
- Columns named like a read column: an `Other` column is assumed not to carry a name the core reads by name (`steps`, `minutesAsleep`, `resting_hr`, `calories`, the four activity-minute columns, `sleep_efficiency`, `dow`, `is_weekend`). Such a duplicate column would be cleaned by pandas but is left alone by the model.
- The `groupby` order of participants: the dataset arrives already grouped, in the order `groupby` yields. Candidate ids are the group keys converted with `str`.
- `WindowCandidate.__repr__`: console formatting.
- The driver's unpacking of a third (Persona C) list from `select_top_candidates`, which returns two. The model follows the library function.
- A persona record whose `days` are all empty objects: pandas builds an empty frame for them, although `days_count` would still count them. Every modelled day carries a date.

## Findings

| source | as written | input that shows it | evidently intended | confidence | as-written member | corrected member |
|---|---|---|---|---|---|---|
| src/persona_extraction/window_extraction.py:202-204 | `extract_window_data` calls `prepare_window` without `min_present_days`, so re-extraction always requires the default 12 days. | One participant "p" with a single day (ordinal 1, 100 steps, 400 min sleep). `extract_candidates` with `window_days=1, min_present_days=1` yields candidates starting on day 1. `extract_window_data(df, "p", day 1, window_days=1)` then raises "Insufficient step data". | The window a candidate was found in re-extracts under the same minimum. | medium, not executed | WindowExtraction.DefaultMinimumRejectsCandidate | WindowExtraction.CandidatesReExtract |
| scripts/persona_scoring.py:13-15 | `clamp01(nan)` is 1.0, because `min(1.0, nan)` returns its first argument. So an undefined component scores perfectly. Weekend sleep with no weekday sleep gives a weekend fit of 1 (line 49). Fewer than two step values give a NaN std and a variability fit of 1 (lines 51-52). | Mean steps 5000 from one step value, mean sleep 345 min, and sleep recorded only on weekend days. As written the Persona A score is 1.0; treating undefined components as 0 gives 0.7. | An undefined component contributes 0, as the source already does for missing weekend sleep (`else 0`, line 49). | medium, not executed | PersonaScoring.UndefinedComponentsScoreFull | PersonaScoring.ScoreANoReboundWithoutWeekdays |
