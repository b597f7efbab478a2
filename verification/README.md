# Academic Early Warning System — a Dafny model

A model of the rule-bearing core of the Academic Early Warning System. This
is a school dashboard that scores each student's risk of academic failure from
socio-economic data, attendance and grades, and lists the students the
student-support service (SAT) should follow. The model covers:

- **the risk engine** (`RiskCalculator`): the four component scores, their
  weights and the Alto/Medio/Bajo classification, the catch-all fallback and
  the list of key barriers;
- **its consumers in the backend**: the barrier-count quintil estimate and the
  prediction endpoints (`Predictions`), the SAT list, quintil labels, key grades
  and student profile (`StudentsRoutes`), the institutional counters
  (`SupabaseStats`), the input validators (`Validators`) and the response
  formatters (`Formatters`);
- **the front-end mappers** of the three hooks (`SatDataHook`,
  `StudentProfileHook`, `InstitutionalDataHook`, with `JsValues` for the few
  JavaScript semantics they rely on) and the mock fixtures (`Mocks`);
- **the ingestion and cleaning scripts**: the two CSV/Excel imports and their
  batched inserts (`Ingest`, `ImportFase2`, `ImportExcel`), the household-survey
  update (`MissingSocio`), gender inference (`Gender`), duplicate removal
  (`RemoveDuplicates`), the missing-student search (`FindMissing`) and the
  distance population (`Distance`);
- **the analysis scripts' feature and label derivation**: the helpers both
  training scripts share (`Training`; the comprehensive script's education-level
  and age tables are the enhanced script's, so one definition serves both), the
  two dataset builders (`EnhancedModel`, `ComprehensiveModel`), the model
  selection and threshold recommendation, and the per-subject rows, class weight
  and alert buckets of the early-warning script (`EarlyWarning`).

Shared vocabulary lives in `Py` (Python's `None`/missing-key distinction as
`Field<T> = Absent | Null | Val(v)`, pandas cells as `Cell`, raised exceptions
as `Result`), `Text` (lower/upper case, strip, split, replace, zero padding,
integer parsing), `Sorting` (Python's stable sort by key) and `Records` (the
student record as the database returns it).

Code that loops and updates state (the distribution counters, the SAT list and
key-grade loops, the batched inserts, the gender tally, the duplicate grouping
and deletion, the lookup and best-match scans, the dataset builders, the alert
loop) is written as methods with loop invariants. Each is proved equal to a
specification function, and the properties the scripts promise are proved about
that function. Database and network calls are parameters: an answer from an
insert or delete is an `accepts`/`deletes` oracle, a fetched table is an input
sequence.

A row of the early-warning dataset is *well formed* for its student when it
carries:

- the student's id, and the quintil with 5 for a missing one;
- a non-zero grade and an academic subject;
- `failed` exactly below 7.0 and `at_risk` exactly below 7.5;
- other-subject grades without its own subject;
- the baseline 0.25·quintil component + 0.20·barrier component.

## Model

| member | source | states |
|---|---|---|
| RiskCalculator.WeightsSumToOne | services/risk_calculator.py:20-24 | the quintil, attendance, grades and barrier weights add up to 1.0, as the comment above them demands |
| RiskCalculator.QuintilScore | services/risk_calculator.py:86-101 | the score is 100, 50 or 0; 100 exactly when the lower-cased group label contains "bajo" or the quintil (missing, null or zero read as 5) is at most 2; 0 exactly when the label contains neither "bajo" nor "medio" and the quintil is at least 4 |
| RiskCalculator.QuintilScoreAntitone | services/risk_calculator.py:93-101 | without a group label, a lower quintil never scores less risk than a higher one |
| RiskCalculator.AttendanceScore | services/risk_calculator.py:104-124 | no attendance rows score 0; the score never exceeds 100; it raises exactly when the latest row holds a NULL count |
| RiskCalculator.AttendanceScoreRange | services/risk_calculator.py:117-124 | with non-negative absence counts the attendance score lies in 0..100 |
| RiskCalculator.FailingCount | services/risk_calculator.py:136-138 | the number of subjects below 7.0 is at most the number of subjects, and is undefined exactly when some nota is NULL |
| RiskCalculator.GradesScore | services/risk_calculator.py:127-148 | a successful grades score lies in 0..100; it raises exactly when the average or the grade list is NULL or a nota is NULL |
| RiskCalculator.GradesScoreSaturates | services/risk_calculator.py:141-148 | seven or more failing subjects give the maximum grades score of 100 whatever the average |
| RiskCalculator.BarrierPoints | services/risk_calculator.py:163-195 | the barrier points of one socioeconomic row lie in 0..22.65, the sum of all barrier importances |
| RiskCalculator.BarriersScore | services/risk_calculator.py:151-200 | no socioeconomic row scores 0; otherwise the points over 30, as a percentage; the score never exceeds 75.5, so the cap at 100 never applies |
| RiskCalculator.Classify | services/risk_calculator.py:203-218 | "Alto" exactly from 70, "Medio" exactly in 40..70, "Bajo" exactly below 40 |
| RiskCalculator.ClassifyMonotone | services/risk_calculator.py:213-218 | a higher score is never classified at a lower level |
| RiskCalculator.CalculateRiskScore | services/risk_calculator.py:43-83 | the fallback (score 0, "Bajo", no components) happens exactly when the attendance or grades component raises; otherwise each component is its score function, the total is their weighted sum and the level classifies the total |
| RiskCalculator.TotalRange | services/risk_calculator.py:43-79 | with non-negative absence counts the total risk score lies in 0..95.1 |
| RiskCalculator.LevelMatchesScore | services/risk_calculator.py:43-83 | the returned level is always the classification of the returned score, the fallback included |
| RiskCalculator.KeyBarriers | services/risk_calculator.py:221-298 | no socioeconomic row lists no barrier; at most six barriers are listed |
| RiskCalculator.UnknownIsNotLowInstruction | services/risk_calculator.py:250-251 | the default level "Desconocido" never reads as primary or basic schooling |
| RiskCalculator.NivelListedIffLowInstruction | services/risk_calculator.py:170-172 | the listing's reading of the instruction level (default "Desconocido") agrees with the score's reading (default "") |
| RiskCalculator.BarrierPointsAreListed | services/risk_calculator.py:163-195 | the barrier points are exactly the importances of the listed barriers plus the technology-access importance when that barrier is present, which is scored but never listed |
| RiskCalculator.NoListedBarriersLowScore | services/risk_calculator.py:187-200 | a student with no listed barrier has a barrier score of at most 10.4 |
| Predictions.FlagCount | routes/predictions.py:212-229 | the laptop, internet, computer and reading barriers count between 0 and 3 |
| Predictions.TextCount | routes/predictions.py:220-239 | the instruction-level, health and family-support barriers count between 0 and 3.5 |
| Predictions.QuintilForCount | routes/predictions.py:241-251 | the estimated quintil lies in 1..5 |
| Predictions.QuintilForCountAntitone | routes/predictions.py:241-251 | more barriers never give a higher, better-off quintil |
| Predictions.PredictQuintilAsWritten | routes/predictions.py:191-251 | the estimate, as written: a quintil in 1..5 when it succeeds, 3 without socioeconomic data |
| Predictions.NullIndexRaises | routes/predictions.py:232 | a socioeconomic row holding NULL in its health index makes the estimate raise |
| Predictions.PredictQuintil | routes/predictions.py:191-251 | the estimate with NULL texts read as empty: always a quintil in 1..5, 3 without socioeconomic data, and equal to the as-written estimate whenever that succeeds |
| Predictions.PredictQuintilExtremes | routes/predictions.py:209-251 | every barrier present (at least two of the text barriers) estimates quintil 1; no barrier estimates quintil 5 |
| Predictions.PredictRisk | routes/predictions.py:19-75 | 400 exactly when the body has no student_id; 404 exactly when the id is given but not found; 500 exactly when the student is found but the as-written estimate raises; otherwise the response carries the id, the risk score, level and components of the risk calculator, the as-written estimate (equal to the intended one) and whether the prediction was saved |
| Predictions.FoundIds | routes/predictions.py:133-140 | the ids the database finds are no more than the ids requested |
| Predictions.EntryFor | routes/predictions.py:146-166 | a found student's entry exists exactly when the as-written estimate succeeds, and carries the id, the calculator's score and level and that estimate |
| Predictions.PredictedIds | routes/predictions.py:133-169 | the found ids whose as-written estimate succeeds are no more than the found ids |
| Predictions.BatchEntriesAreFoundIds | routes/predictions.py:133-169 | the batch holds one entry per found id whose estimate succeeds, in request order, each the risk score and estimate of that id's student; ids not found, or whose estimate raises, are skipped |
| Predictions.BatchPredict | routes/predictions.py:108-185 | 400 exactly when student_ids is missing, 400 exactly when it is not a list; otherwise the total requested is the list length, the predictions are the entries of the found ids whose estimate succeeds, and the total predicted is their number, never more than the found ids nor the ids requested |
| StudentsRoutes.TopBarrierNames | routes/students.py:52 | the names of the first three key barriers, in order, and no more than three |
| StudentsRoutes.GetSatList | routes/students.py:19-81 | an error in any student's entry is an error response; otherwise the list is the per-student entries sorted by risk score |
| StudentsRoutes.SatEntriesErrSticky | routes/students.py:41-72 | one failing student fails the whole list |
| StudentsRoutes.SatEntriesFilter | routes/students.py:43-48 | with a risk-level filter every listed student has that risk level; without one every student is listed |
| StudentsRoutes.SatListOrdered | routes/students.py:74 | the SAT list is ordered by score, highest first, holds exactly the unsorted entries, and keeps database order among equal scores |
| StudentsRoutes.FormatQuintil | routes/students.py:150-166 | an empty or missing group is "Desconocido"; otherwise the first of "bajo", "medio", "alto" and "acomodado" found in the lowered group gives "Q1-Q2 (Vulnerable)", "Q3 (Medio)", "Q4-Q5 (Alto)" or "Q4 (Acomodado)", in that order of precedence, and a group with none of them is returned unchanged |
| StudentsRoutes.FormatQuintilAgreesWithScore | routes/students.py:150-166 | a group the profile labels vulnerable scores the full 100 quintil points in the risk calculator, one labelled middle at least 50 |
| StudentsRoutes.First5 | routes/students.py:200 | the first five elements, or all when fewer |
| StudentsRoutes.GetKeyGrades | routes/students.py:169-200 | the key-subject grades sorted ascending and cut to five; a grade that cannot be compared raises |
| StudentsRoutes.KeyGradeEntriesErrSticky | routes/students.py:181-196 | one failing grade row fails the whole key-grade list |
| StudentsRoutes.KeyGradesAreLowest | routes/students.py:198-200 | the key grades shown are at most five, ascending, no lower than any left out, and together with those left out are exactly the key-subject entries |
| StudentsRoutes.GetStudentProfile | routes/students.py:85-144 | 404 exactly when the student is missing; 500 when the risk score fell back; with components, a profile exactly when the academic list is not NULL and the key grades do not raise, and 500 otherwise; a profile carries the id, name and course, the level, score and key barriers of the risk calculator, the quintil and barrier-count factors with their 25% and 20% weights, and the key grades `_get_key_grades` returns (at most five) |
| Sorting.SortBySortedPermutation | routes/students.py:74 | the sorted list is ordered by the key, is a permutation of the input and has its length |
| Sorting.SortBySorted | routes/students.py:74 | the sorted list is ordered by the key |
| Sorting.SortByPermutation | routes/students.py:74 | the sorted list is a permutation of the input and has its length |
| Sorting.SortByStable | routes/students.py:198 | elements with equal keys keep their input order, as Python's sort guarantees |
| SupabaseStats.CountBucket | services/supabase_client.py:130-137 | a bucket never counts more students than there are |
| SupabaseStats.CalculateQuintilDistribution | services/supabase_client.py:126-139 | each of the three counters is the number of students whose label falls in that bucket, "bajo" first, then "medio", then "alto" or "acomodado" |
| SupabaseStats.BucketsPartition | services/supabase_client.py:130-137 | every student falls in exactly one bucket or none, so the three counts and the unclassified students add up to the total |
| SupabaseStats.CountLevel | services/supabase_client.py:147-153 | a risk level never counts more students than there are |
| SupabaseStats.CalculateRiskDistribution | services/supabase_client.py:141-155 | each counter is the number of students the risk calculator puts at that level |
| SupabaseStats.LevelsPartition | services/supabase_client.py:145-155 | every student is counted at exactly one level, so the three counts add up to the number of students |
| SupabaseStats.CalculateAverageGrade | services/supabase_client.py:157-168 | 0.0 when no student has a truthy average grade, else the mean of the truthy averages |
| SupabaseStats.AverageWithinBounds | services/supabase_client.py:157-168 | the average lies between the lowest and the highest counted grade |
| SupabaseStats.GetInstitutionalStats | services/supabase_client.py:103-124 | the total is the number of fetched students; each quintil count is the number of students in that bucket and each risk count the number at that level, so the risk counts add up to the total and the quintil counts do not exceed it; the average grade is the mean of the graded students, or 0 without any |
| Validators.IntOf | utils/validators.py:52-56 | `int()` of an int is the int; None and other objects do not convert |
| Validators.ValidateStudentId | utils/validators.py:7-22 | True exactly for text matching the pattern: "EST", at least three digits, then the end or one final newline; so such text starts with "EST", has at least six characters and an all-digit tail when it does not end in a newline; never True for non-text |
| Validators.GeneratedIdsAreValid | utils/validators.py:7-22 | every id the import scripts build, "EST" and a number padded to three digits, is valid |
| Validators.ValidIdHasNumber | utils/validators.py:20-22 | the number in a valid id reads back as a non-negative integer |
| Validators.TrailingNewlineAccepted | utils/validators.py:21-22 | "EST001" followed by a newline is accepted; "EST01" is rejected |
| Validators.ValidateGradeValue | utils/validators.py:25-39 | True exactly when the value converts to a number in 0..10 inclusive |
| Validators.GradeValueCases | utils/validators.py:25-39 | ints and floats are valid exactly on 0..10, booleans always, None and other objects never |
| Validators.ValidateQuintil | utils/validators.py:42-56 | True exactly when `int()` of the value succeeds and lies in 1..5 |
| Validators.QuintilFloatRange | utils/validators.py:52-54 | a float is accepted exactly on [1.0, 6.0), since `int()` truncates |
| Validators.QuintilText | utils/validators.py:52-54 | the decimal text of a number is a valid quintil exactly when the number is 1..5 |
| Validators.ValidateRiskLevel | utils/validators.py:59-70 | True exactly for the texts "Alto", "Medio" and "Bajo" |
| Validators.SanitizeString | utils/validators.py:73-91 | "" for a falsy value; otherwise a prefix of the stripped text of at most 500 characters: the whole stripped text when it fits and its first 500 characters when it does not; never starting with whitespace |
| Validators.SanitizeTwice | utils/validators.py:87-91 | sanitising again only removes the trailing whitespace the cut at 500 may have exposed |
| Validators.SanitizeIdempotentWhenShort | utils/validators.py:87-91 | text that fits in 500 characters is unchanged by a second sanitising |
| Validators.FieldError | utils/validators.py:111-119 | a missing field reports "Campo requerido: " and its name; no message exactly when the field converts to a non-negative int |
| Validators.FirstFieldError | utils/validators.py:104-119 | no message exactly when all three required fields are present, integral and non-negative |
| Validators.AttendanceAsWritten | utils/validators.py:94-132 | a bad field returns the first field's message; success implies every field is fine |
| Validators.ValidateAttendanceDataAsWritten | utils/validators.py:110-132 | the loop with early return and the sum check compute the as-written result |
| Validators.FirstFieldErrorAt | utils/validators.py:110-119 | when the earlier fields convert and field i does not, the result is field i's message |
| Validators.AsWrittenOnTexts | utils/validators.py:121-132 | on text counts that convert, the code as written passes exactly when the total text is the justified text followed by the unjustified text, and otherwise reports the sum mismatch |
| Validators.TextCountsConcatenate | utils/validators.py:122-126 | for any digits j > 0 and u, text counts total "ju", justified "j", unjustified "u" (such as "32", "3", "2") pass although j + u is not 10j + u, because `+` concatenates text |
| Validators.SummingTextCountsRejected | utils/validators.py:122-130 | text counts "5", "3", "2", which do add up, are rejected with the sum message |
| Validators.MixedCountsRaise | utils/validators.py:122-126 | a text count beside an int count raises TypeError |
| Validators.ValidateAttendance | utils/validators.py:94-132 | valid exactly when all three fields are non-negative integers and the total equals the converted sum; a message exactly when invalid, the first field's message when a field is bad |
| Validators.AttendanceAgreesOnInts | utils/validators.py:94-132 | on integer fields the code as written and the corrected check give the same answer |
| Validators.IntendedCheckOnTextCounts | utils/validators.py:122-126 | the corrected check rejects every such concatenated-digit count ("32", "3", "2" and the like) and accepts the summing ones "5", "3", "2" |
| Formatters.Take | utils/formatters.py:26 | the first n elements, or all when fewer |
| Formatters.FormatStudentForList | utils/formatters.py:7-28 | raises exactly when the average is NULL; otherwise the first three barrier names, the id, name, course, level, score and the average (0.0 when missing) |
| Formatters.WeightText | utils/formatters.py:74-89 | the weight as a whole percentage, truncated, followed by "%" |
| Formatters.CalculatorWeightTexts | utils/formatters.py:74-89 | the calculator's weights print as "30%", "25%", "25%" and "20%" |
| Formatters.FormatRiskFactors | utils/formatters.py:60-91 | raises exactly on the fallback's empty components; otherwise four entries, attendance, quintil, grades, barriers, each with its component score and weight text |
| Formatters.RiskFactorsRebuildScore | utils/formatters.py:60-91 | the entries' scores at the calculator's weights add up to the risk score |
| Formatters.AttendancePercent | utils/formatters.py:119-126 | never negative, at most 100 for non-negative absences, 100 exactly with no absence and 0 exactly from 20 absences |
| Formatters.AttendancePercentAntitone | utils/formatters.py:119-126 | more absences never raise the percentage |
| Formatters.FormatAttendance | utils/formatters.py:94-127 | no rows give zero counts and 100%; otherwise the last row's counts (missing read as 0) and their percentage; a NULL total raises |
| Formatters.AttendanceSummaryMatchesScore | utils/formatters.py:112-126 | the summary and the risk score read the same row: 0% attendance means the full attendance risk of 100, and without unjustified absences 100% attendance means zero attendance risk |
| Formatters.FormatSuccessResponse | utils/formatters.py:147-163 | the data is kept; a message is present exactly when it is truthy, and is then the message given |
| JsValues.Prop | frontend/src/hooks/useSatData.ts:24-35 | a property read gives the key's value, or undefined when the key is missing |
| JsValues.Or | frontend/src/hooks/useStudentProfile.tsx:62-64 | `a \|\| b` is `a` when it is truthy, otherwise `b` |
| JsValues.MathRound | frontend/src/hooks/useSatData.ts:28 | `Math.round` gives an integer within half a unit of the number, halves rounded up |
| JsValues.MathRoundUnique | frontend/src/hooks/useSatData.ts:28 | that integer is the only one within half a unit, ties upward |
| JsValues.JsTrim | frontend/src/hooks/useStudentProfile.tsx:58 | `Number()` trims JavaScript white space and line terminators from both ends; all-blank text trims to nothing, text without blank ends is kept |
| JsValues.StringToNumber | frontend/src/hooks/useStudentProfile.tsx:58 | blank text converts to 0; a text that converts starts, after trimming, with a sign, a point or a digit |
| JsValues.ToNumber | frontend/src/hooks/useStudentProfile.tsx:58 | `Number(v)`: a number is itself, null 0, a boolean 1 or 0, undefined, NaN and objects NaN; a string converts its text and an array the text of its items joined by commas |
| JsValues.RoundValue | frontend/src/hooks/useStudentProfile.tsx:58 | `Math.round(v)` is NaN exactly when `Number(v)` is, and otherwise the integer within half a unit of it |
| JsValues.RoundOfPrimitives | frontend/src/hooks/useSatData.ts:28 | a number rounds to its `Math.round`, null to 0, true to 1 and false to 0; undefined, NaN and objects to NaN |
| JsValues.RoundOfBlank | frontend/src/hooks/useSatData.ts:28 | blank text and the empty array round to 0 |
| JsValues.RoundOfIntegerText | frontend/src/hooks/useSatData.ts:28 | the decimal text of any integer, alone or as the one item of an array, rounds to that integer |
| JsValues.RoundOfWordText | frontend/src/hooks/useSatData.ts:28 | text whose first non-blank character is a letter rounds to NaN |
| SatDataHook.MapRiskLevel | frontend/src/hooks/useSatData.ts:7-20 | "Critical" exactly for "Alto", "Medium" exactly for "Medio", "Low" for everything else |
| SatDataHook.BackendLevelsTranslated | frontend/src/hooks/useSatData.ts:10-16 | the three backend levels get three different labels in the same order of severity |
| SatDataHook.MapStudent | frontend/src/hooks/useSatData.ts:23-37 | id, name and grade are copied from id, nombre and grado; the stratum is the quintil and the alert reads "Quintil " and the quintil; the laptop alert is the negation of the laptop field; the score is rounded |
| SatDataHook.MapStudentData | frontend/src/hooks/useSatData.ts:22-38 | one view record per backend row, in the same order |
| SatDataHook.MapStudentDataAppend | frontend/src/hooks/useSatData.ts:22-38 | mapping two lists one after the other is mapping their concatenation |
| SatDataHook.LaptopFlagInverted | frontend/src/hooks/useSatData.ts:34 | a record saying it has a laptop shows no laptop, and a record without the field shows one |
| SatDataHook.RoundedScoreRange | frontend/src/hooks/useSatData.ts:28 | a backend score in 0..95.1 shows as a whole number in 0..95 within half a point of it |
| StudentProfileHook.MapRiskLevel | frontend/src/hooks/useStudentProfile.tsx:38-51 | "Crítico" exactly for "Alto", "Medio" exactly for "Medio", "Bajo" for everything else |
| StudentProfileHook.TranslationsAgree | frontend/src/hooks/useStudentProfile.tsx:38-51 | the profile and the dashboard translate every label to the same severity |
| StudentProfileHook.BackendLevelsKeepText | frontend/src/hooks/useStudentProfile.tsx:41-47 | "Medio" and "Bajo" keep their text; only "Alto" is renamed |
| StudentProfileHook.MapProfileData | frontend/src/hooks/useStudentProfile.tsx:53-66 | id, name and course come from id, nombre and grado; the level is translated; the score rounded; each list section is the backend's when truthy, else [] |
| StudentProfileHook.ProfileListsDefined | frontend/src/hooks/useStudentProfile.tsx:62-64 | the three list sections are always truthy, and a missing one is [] |
| InstitutionalDataHook.ValueAt | frontend/src/hooks/useInstitutionalData.ts:33 | the data entry when it exists and is truthy, else the number 0 |
| InstitutionalDataHook.MapChartData | frontend/src/hooks/useInstitutionalData.ts:27-35 | one point per label, in label order, named by the label and valued by the entry at the same index |
| InstitutionalDataHook.ChartValuesDefined | frontend/src/hooks/useInstitutionalData.ts:33 | every point's value is truthy or the number 0 |
| InstitutionalDataHook.ExtraDataIgnored | frontend/src/hooks/useInstitutionalData.ts:31-34 | data beyond the labels is ignored, and with no data every point is 0 |
| InstitutionalDataHook.FormattedData | frontend/src/hooks/useInstitutionalData.ts:67-80 | each chart has one point per label of its own series, the i-th point pairing the i-th label with `data[i] \|\| 0` of that series |
| InstitutionalDataHook.SeriesIndependent | frontend/src/hooks/useInstitutionalData.ts:67-80 | changing one chart's series changes no other chart |
| Mocks.SliceTo | services/mocks.py:185 | Python's `xs[:limit]`: the first limit elements, or all; a negative limit drops that many from the end |
| Mocks.GetMockStudents | services/mocks.py:175-185 | for a non-negative limit, the first min(limit, 3) fixtures in order |
| Mocks.DefaultLimitListsAll | services/mocks.py:175 | the default limit of 100 lists all three fixtures |
| Mocks.FindIndex | services/mocks.py:198-201 | the first position whose id equals the one sought; none exactly when no id is equal |
| Mocks.GetMockStudentById | services/mocks.py:188-201 | a fixture with that id, or None exactly when no fixture has it |
| Mocks.FixtureIds | services/mocks.py:8-125 | there are three fixtures with ids EST001, EST002 and EST003 |
| Mocks.FixtureIdsAreCodes | services/mocks.py:8-125 | the fixture ids are distinct and are "EST" and three digits |
| Mocks.FixtureIdsAreImportedCodes | services/mocks.py:8-125 | each fixture id is the code the importers give student number 1, 2 and 3 |
| Mocks.FixtureGroupsAgreeWithQuintil | services/mocks.py:14-125 | each fixture's group label is the one the importer derives from its quintil |
| Mocks.LookupFindsEachFixture | services/mocks.py:188-201 | looking up a fixture's id finds that fixture |
| Ingest.StudentCode | scripts/import_fase2_csv.py:54 | the code starts with "EST" and has at least six characters; an unsigned ID text ends the code, while a signed one keeps its sign in front of the zeros (the fourth character) and ends the code with its digits |
| Ingest.StudentCodeRoundTrip | scripts/import_data_to_supabase.py:107 | the number of every integer ID, negative ones included, reads back from the text after "EST" |
| Ingest.NegativeStudentCode | scripts/import_data_to_supabase.py:107 | a one-digit negative ID keeps its sign before the padding zero: -5 gives "EST-05" |
| Text.ParseZFilledInt | scripts/import_fase2_csv.py:54 | zero-padding the decimal text of any integer to any width reads back as that integer |
| Text.ZFilledInjective | scripts/import_fase2_csv.py:54 | distinct integers stay distinct after zero-padding to the same width |
| Ingest.StudentCodeInjective | scripts/import_fase2_csv.py:54 | distinct integer IDs get distinct codes |
| Ingest.At | scripts/import_fase2_csv.py:57-70 | a missing column reads as a missing value |
| Ingest.Index | scripts/import_fase2_csv.py:54 | `row[col]` succeeds exactly when the column exists, and then gives its value |
| Ingest.IntOfCell | scripts/import_fase2_csv.py:66-68 | `int()` of an int is itself, of a float truncates, of text succeeds exactly when the text parses |
| Ingest.IntOr | scripts/import_data_to_supabase.py:111-113 | a missing value gives the default; otherwise the conversion, which raises exactly when `int()` does |
| Ingest.RealOfCell | scripts/import_fase2_csv.py:70 | `float()` of an int or float cell is its value |
| Ingest.TextOrNone | scripts/import_fase2_csv.py:64 | None exactly for a missing value, else the stripped text |
| Ingest.CollectOneToOne | scripts/import_fase2_csv.py:51-75 | a table is produced exactly when no row raises, and then holds one record per row, in order |
| Ingest.CollectStops | scripts/import_fase2_csv.py:52-72 | a raising row ends the table with its error, whatever follows |
| Ingest.CollectRows | scripts/import_fase2_csv.py:51-75 | the row loop yields the table exactly when no row raises, and then one record per row, in order, each the row's own record |
| Ingest.NextBatch | scripts/import_fase2_csv.py:205-206 | the next batch is a non-empty prefix of the remaining data of at most batch_size records |
| Ingest.BatchesCoverData | scripts/import_fase2_csv.py:205-206 | the batches, concatenated, are exactly the data in order |
| Ingest.BatchSizes | scripts/import_data_to_supabase.py:167-168 | every batch holds between 1 and batch_size records |
| Ingest.InsertedSkipping | scripts/import_data_to_supabase.py:165-177 | the count of a skipping insert never exceeds the records given |
| Ingest.InsertSkipping | scripts/import_data_to_supabase.py:159-177 | the loop computes the skipping count, which never exceeds the number of records |
| Ingest.SkippingCountsAcceptedBatches | scripts/import_data_to_supabase.py:167-175 | the count is the number of records in accepted batches, and all the records when every batch is accepted |
| Ingest.CountAccepted | scripts/import_fase2_csv.py:219-224 | records inserted one by one never exceed the batch |
| Ingest.InsertRetrying | scripts/import_fase2_csv.py:194-228 | empty data inserts nothing; otherwise the loop computes the retrying count and the error count |
| Ingest.InsertBatch | scripts/import_fase2_csv.py:205-224 | one batch: an accepted batch adds its size; a rejected one counts an error and, while at most three batches have failed, adds the records accepted one at a time |
| Ingest.InsertOneByOne | scripts/import_fase2_csv.py:219-224 | the retry of a failed batch inserts the records the database accepts one by one |
| Ingest.RetryingBounds | scripts/import_fase2_csv.py:205-224 | never more records than the data holds; the error count is the number of failed batches; after three failures a failed batch inserts nothing |
| ImportFase2.ClasificarQuintil | scripts/import_fase2_csv.py:78-91 | a missing quintil has no group; otherwise the group of `int(q)`: up to 2 "Bajo", 3 "Medio", 4 "Alto", above "Acomodado" |
| ImportFase2.ImportedGroupAgreesWithQuintil | scripts/import_fase2_csv.py:68-69 | a student imported with quintil 1..5 and its group scores the same quintil risk as with the quintil alone |
| ImportFase2.GroupWords | scripts/import_fase2_csv.py:84-91 | the stored group mentions "bajo" exactly for quintils 1-2 and "medio" exactly for quintil 3 |
| ImportFase2.ParseSiNo | scripts/import_fase2_csv.py:126-131 | None exactly for a missing value; otherwise yes exactly when the stripped, lowered text is si, sí, yes, true or 1 |
| ImportFase2.NamePart | scripts/import_fase2_csv.py:57-58 | a name part has no leading or trailing whitespace |
| ImportFase2.FullName | scripts/import_fase2_csv.py:59 | the full name has no leading or trailing whitespace |
| ImportFase2.FullNameParts | scripts/import_fase2_csv.py:57-59 | a missing part leaves the other part alone, and two parts are joined by one space |
| ImportFase2.StudentOf | scripts/import_fase2_csv.py:53-71 | a record exactly when the row has an ID and its age, quintil and average convert; the id is the code of the ID, the name the full name, the grade the stripped text or None, the age and quintil their `int()` or None when NaN, the group `_clasificar_quintil` of the quintil, the average its `float()` or None exactly when NaN, section "A" and no gender |
| ImportFase2.PrepareStudentsTable | scripts/import_fase2_csv.py:47-75 | one student record per row, in order, when no row raises |
| ImportFase2.SocioOf | scripts/import_fase2_csv.py:99-120 | the record's id is the code of the ID, the four yes/no fields are parsed from their columns and the sibling count is 0 |
| ImportFase2.PrepareSocioeconomicTable | scripts/import_fase2_csv.py:94-123 | one socioeconomic record per row, in order, when no row raises |
| ImportFase2.CountOrZero | scripts/import_fase2_csv.py:146-149 | a missing count is 0, otherwise `int()` of it |
| ImportFase2.AttendanceOf | scripts/import_fase2_csv.py:139-151 | the record's id is the code of the ID, October 2025, and every missing count is 0 |
| ImportFase2.PrepareAttendanceTable | scripts/import_fase2_csv.py:134-154 | one attendance record per row, in order, when no row raises |
| ImportFase2.SubjectColumns | scripts/import_fase2_csv.py:162-166 | the subject columns are exactly the columns ending in "_Oct" that are not among the seven attendance columns |
| ImportFase2.SubjectName | scripts/import_fase2_csv.py:179 | the subject name has no underscore and no leading or trailing whitespace |
| ImportFase2.GradesOfCount | scripts/import_fase2_csv.py:174-188 | one record per present grade of a row, each for that student, period Q2 of 2025, with a subject name without underscores |
| ImportFase2.PrepareAcademicPerformanceTable | scripts/import_fase2_csv.py:157-191 | the loops compute the academic table over the subject columns |
| ImportFase2.RowGrades | scripts/import_fase2_csv.py:174-188 | the inner loop computes one row's grade records |
| ImportFase2.AcademicCount | scripts/import_fase2_csv.py:171-188 | the academic table holds exactly as many records as there are present grades in all rows |
| ImportExcel.GetOr | scripts/import_data_to_supabase.py:108-114 | `row.get(col, d)` gives the default only when the column is missing; a missing value stays missing |
| ImportExcel.StudentOf | scripts/import_data_to_supabase.py:106-119 | the record's id is the code of the ID, the section defaults to "A", the group to "Medio", and a missing age, quintil or average is None |
| ImportExcel.PrepareStudentsTable | scripts/import_data_to_supabase.py:99-121 | one student record per merged row, in order, when no row raises |
| ImportExcel.SocioOf | scripts/import_data_to_supabase.py:131-154 | the record's id is the code of the ID; each asset flag is true exactly for the text "Si"; a missing sibling count is 0 |
| ImportExcel.PrepareSocioeconomicTable | scripts/import_data_to_supabase.py:124-156 | one socioeconomic record per merged row, in order, when no row raises |
| ImportExcel.ExcelYesIsNarrower | scripts/import_data_to_supabase.py:139-142 | every exact "Si" is yes for both importers, but "SI" is yes only for the Phase-2 importer |
| MissingSocio.ParseYesNo | scripts/import_missing_socioeconomic.py:61-65 | None exactly for a missing value; otherwise yes exactly when the stripped, lowered text is si, sí, yes, 1 or true |
| MissingSocio.ParseTvCount | scripts/import_missing_socioeconomic.py:67-77 | a missing value is 0; the four "3 or more" and "4 or more" texts are 3; otherwise the integer of the stripped text, or 0 |
| MissingSocio.ParseVehicleCount | scripts/import_missing_socioeconomic.py:79-86 | a missing value is 0; otherwise `int()` of the cell, or 0 when it raises |
| MissingSocio.ParseBathroomCount | scripts/import_missing_socioeconomic.py:88-101 | a count in 0..3; a missing value is 1; 0 exactly when the lowered text mentions "no tiene", 3 exactly when it first mentions "3 o más", 2 exactly when it first mentions "2 cuartos" |
| MissingSocio.AddFlags | scripts/import_missing_socioeconomic.py:122-141 | keys already set stay set, and the update stays empty exactly when it was empty and none of the yes/no columns is present |
| MissingSocio.AddFlagsWrites | scripts/import_missing_socioeconomic.py:122-141 | a key is in the result exactly when it was already there or some present yes/no column fills it; its value is the parsed flag of the last such column, and otherwise what it had |
| MissingSocio.AddTexts | scripts/import_missing_socioeconomic.py:144-151 | keys already set stay set, and the update stays empty exactly when it was empty and none of the text columns holds a value |
| MissingSocio.AddTextsWrites | scripts/import_missing_socioeconomic.py:144-151 | a key is in the result exactly when it was already there or some non-NaN text column fills it; its value is the stripped text of the last such column, and otherwise what it had |
| MissingSocio.Assemble | scripts/import_missing_socioeconomic.py:119-151 | built from any column tables, the update is empty exactly when the row has none of their columns, nor the TV, vehicle or bathroom column; a TV column always sets the TV count and a bathroom column the bathroom count |
| MissingSocio.UpdateDataOf | scripts/import_missing_socioeconomic.py:119-151 | the update is empty exactly when the row has none of the columns; a TV column always sets the TV count and a bathroom column the bathroom count |
| MissingSocio.UpdateCounts | scripts/import_missing_socioeconomic.py:133-150 | the TV, vehicle and bathroom counts are in the update exactly when their columns are in the row, each with the count parsed from its column |
| MissingSocio.AssembleCount | scripts/import_missing_socioeconomic.py:119-151 | a count key no column table fills is in the assembled update exactly when its column is in the row, and holds the given parsed count |
| MissingSocio.RowStudentCode | scripts/import_missing_socioeconomic.py:109-110 | a code exists exactly when the row has a student number that converts with `int()`; it is the importers' code of that number, starts with "EST" and reads back as the number |
| MissingSocio.RequestOf | scripts/import_missing_socioeconomic.py:112-156 | a request is made exactly for a student with an existing record and a non-empty update, to that record, with that update |
| MissingSocio.RunUpdates | scripts/import_missing_socioeconomic.py:108-163 | the loop succeeds exactly when no row raises; it issues the rows' requests, counts the accepted ones as updated, and updated plus errors is the number of requests |
| MissingSocio.UpdateRecords | scripts/import_missing_socioeconomic.py:108-163 | the script's loop over the merged rows: the requests of the rows, the updated count the accepted requests, the rest errors |
| MissingSocio.RequestsAreForExistingRecords | scripts/import_missing_socioeconomic.py:112-154 | at most one request per row, each for an existing record and with a non-empty update |
| Gender.FirstToken | scripts/update_gender_from_names.py:188 | the first word of `split()`; it raises exactly when the name holds only whitespace |
| Gender.InferGender | scripts/update_gender_from_names.py:179-191 | a falsy name gives no gender; otherwise a gender is given exactly when the lowered, stripped first word is in the name table, and it is the table's letter for that word; an all-whitespace name raises |
| Gender.AnalyzeRaises | scripts/update_gender_from_names.py:227-255 | the analysis raises exactly when some student without a gender has a whitespace-only name |
| Gender.CountersAddUp | scripts/update_gender_from_names.py:227-255 | the already-set, male, female and unknown counters add up to the number of students; one update is queued per inferred student; the unknown list is no longer than the unknown count |
| Gender.QueuedOnlyWithoutGender | scripts/update_gender_from_names.py:233-250 | every queued update belongs to a student without a gender, with the letter the table gives that student's first name |
| Gender.StepUnknownNames | scripts/update_gender_from_names.py:252-255 | one student either leaves the unknown list alone or appends a first name not listed yet (ignoring case); an unknown student's first name is listed afterwards |
| Gender.UnknownNamesDistinct | scripts/update_gender_from_names.py:252-255 | no two first names on the unknown list agree once lowered |
| Gender.UnknownNamesComplete | scripts/update_gender_from_names.py:252-255 | the first name of every unknown student is on the unknown list |
| Gender.DbGender | scripts/update_gender_from_names.py:281 | the stored value is "Masculino" exactly for 'M' and "Femenino" otherwise |
| Gender.AnalyzeStudents | scripts/update_gender_from_names.py:227-255 | the analysis loop computes the analysis function, including its error |
| Gender.AnalyzeOne | scripts/update_gender_from_names.py:227-255 | one iteration computes the step: a set gender counts as already set, a known first name counts M or F and queues an update, any other name counts as unknown and lists its first name unless listed already, ignoring case |
| Gender.RecordInferred | scripts/update_gender_from_names.py:239-255 | the part of the iteration after the table lookup, decided by the lookup's result |
| Gender.StepCounters | scripts/update_gender_from_names.py:232-255 | each student moves exactly one counter, queues an update exactly when it counts M or F, and lists at most the one first name it counts as unknown |
| Gender.StepQueued | scripts/update_gender_from_names.py:239-250 | a step queues nothing, or one update for the student it reads, carrying the table's letter for that student's name |
| Gender.WriteUpdates | scripts/update_gender_from_names.py:277-294 | one write per queued update, in order, with "Masculino" for M and "Femenino" otherwise; the update count is the number of accepted writes and the two counts add up to the number of updates |
| Gender.UpdateStudentGenders | scripts/update_gender_from_names.py:194-310 | fails exactly when the analysis raises; a dry run writes nothing; otherwise one write per queued update, in order, with the database's gender value, and the success and error counts add up to the number of updates |
| RemoveDuplicates.StudentOrder | scripts/remove_duplicates.py:25-27 | the students in first-fetch order, each listed once |
| RemoveDuplicates.StudentOrderMembers | scripts/remove_duplicates.py:25-27 | a student is listed exactly when some record is theirs |
| RemoveDuplicates.GroupedStep | scripts/remove_duplicates.py:26-27 | one more record appends its id to its own student's list and changes no other list |
| RemoveDuplicates.GroupedAppend | scripts/remove_duplicates.py:26-27 | grouping a list with one more record at its end appends that id to its own student's list and changes no other list |
| RemoveDuplicates.GroupByStudent | scripts/remove_duplicates.py:24-27 | the grouping loop yields the grouping function and the student order |
| RemoveDuplicates.Duplicates | scripts/remove_duplicates.py:30 | exactly the students with more than one record, each with its full id list |
| RemoveDuplicates.TotalCountsPlannedDeletes | scripts/remove_duplicates.py:36 | the announced total equals the number of ids planned for deletion |
| RemoveDuplicates.DeleteDuplicates | scripts/remove_duplicates.py:48-61 | the loop attempts exactly the planned ids, in order, and counts the ones whose delete succeeds |
| RemoveDuplicates.DeleteEach | scripts/remove_duplicates.py:53-61 | the inner loop attempts each of one student's later ids in order, appending them to the attempts, and the count stays the number of successful deletes among all attempts |
| RemoveDuplicates.ToDeleteStep | scripts/remove_duplicates.py:49-51 | the plan for one more duplicated student is the plan so far followed by all of that student's ids but the first |
| RemoveDuplicates.RemoveDuplicateRecords | scripts/remove_duplicates.py:18-63 | deletes are attempted only when there are duplicates and the lowered answer is "si"; the counts and total relate as above |
| RemoveDuplicates.PlannedAreTheLaterIds | scripts/remove_duplicates.py:50-54 | within one student's ids, an id is planned for deletion exactly when it is not the first |
| RemoveDuplicates.OneLeftPerStudent | scripts/remove_duplicates.py:50-54 | after the planned deletes, each student keeps exactly their first-fetched record |
| RemoveDuplicates.NoDuplicatesWhenSingle | scripts/remove_duplicates.py:74 | a grouping with one record per student has no duplicates |
| RemoveDuplicates.FullCleanupLeavesOneEach | scripts/remove_duplicates.py:66-80 | when every delete succeeds the same students remain, each with one record, and the verification finds no duplicate |
| RemoveDuplicates.OneEachAfterCleanup | scripts/remove_duplicates.py:48-80 | after every planned delete succeeds, a student is still grouped exactly when they were before, with only their first record |
| RemoveDuplicates.SameStudentsRemain | scripts/remove_duplicates.py:66-80 | after every planned delete succeeds, the grouping has the same students as before |
| RemoveDuplicates.FirstRecordsRemain | scripts/remove_duplicates.py:66-80 | after every planned delete succeeds, each student keeps just the first record fetched |
| RemoveDuplicates.NoDuplicatesRemain | scripts/remove_duplicates.py:66-80 | after every planned delete succeeds, the verification grouping finds no duplicate |
| Distance.ParseDistance | scripts/populate_distance_data.py:23-34 | NaN, "N/A" and blank cells give no distance; otherwise the stripped text with commas turned into points is parsed |
| Distance.ParsedTextHasNoComma | scripts/populate_distance_data.py:29 | the text handed to the float parser never contains a comma |
| Distance.CategorizeDistance | scripts/populate_distance_data.py:36-62 | no distance gives no category; the five categories are the ranges up to 1, 2, 5 and 10 km, each upper bound inclusive, and beyond |
| Distance.CategorizeMonotone | scripts/populate_distance_data.py:50-62 | a longer distance never gets a nearer category |
| Distance.NormalizeAddress | scripts/populate_distance_data.py:64-82 | NaN gives ""; the result is lowered, has no quote or comma, and has single spaces between words and none at the ends |
| Distance.CategorizeStored | scripts/populate_distance_data.py:50-62 | a NaN distance fails every bound and is "Muy lejos"; a number gets the category CategorizeDistance gives it |
| Distance.LookupOf | scripts/populate_distance_data.py:103-112 | with no parsed distance in the table the lookup is empty; once one row parses, every non-empty address is in it, since unparsed rows then hold NaN rather than None |
| Distance.BuildLookup | scripts/populate_distance_data.py:103-112 | with the column stored as `apply` stores it (floats, NaN for an unparsed row, once one row parses), the lookup loop computes the lookup function |
| Distance.LookupKeepsFirst | scripts/populate_distance_data.py:103-112 | every non-empty address whose row holds a value other than None is in the lookup once, with the value of its first such row, and nothing else is |
| Distance.FirstRowDecides | scripts/populate_distance_data.py:103-112 | once one row parses, the first row of each non-empty address gives its entry: its distance, or NaN when it has none |
| Distance.Overlap | scripts/populate_distance_data.py:150-152 | the overlap score lies between 0 and 1 |
| Distance.Find | scripts/populate_distance_data.py:137-138 | an address is found exactly when it is a key of the lookup |
| Distance.BestOverlap | scripts/populate_distance_data.py:141-157 | the scan over the lookup computes the best-score function |
| Distance.FindBestMatch | scripts/populate_distance_data.py:129-157 | a falsy address has no match; an exact hit on the normalised address returns its stored value (possibly NaN); otherwise the best word overlap decides |
| Distance.BestIsFirstMaximum | scripts/populate_distance_data.py:141-157 | the match is the distance of the first entry with the greatest overlap when that overlap is above 0.3; with none above 0.3 there is no match |
| FindMissing.NormalizeText | scripts/find_missing_students.py:43 | the result is lowered and has no whitespace at either end |
| FindMissing.NormalizeIdempotent | scripts/find_missing_students.py:40-43 | normalising twice is normalising once |
| FindMissing.NormalizeName | scripts/find_missing_students.py:40-47 | a missing or null name gives ""; a present one is lowered and stripped |
| FindMissing.MissingEntry | scripts/find_missing_students.py:59-66 | the entry's name is "Nombres Apellidos" and its quintil is None exactly when the cell is NaN |
| FindMissing.BuildDbNames | scripts/find_missing_students.py:45-48 | the loop yields the set of normalised database names |
| FindMissing.FindMissingStudents | scripts/find_missing_students.py:54-66 | the loop yields the missing-students function, in CSV order |
| FindMissing.OnlyAbsentReported | scripts/find_missing_students.py:58 | every reported student comes from a row whose normalised name is not a database name |
| FindMissing.EveryAbsentReported | scripts/find_missing_students.py:58 | every row whose normalised name is not a database name is reported |
| FindMissing.Put | scripts/find_missing_students.py:85 | the key gets the new count and every other key keeps its count |
| FindMissing.PutTotal | scripts/find_missing_students.py:85 | the sum of counts changes by the new count minus the old one |
| FindMissing.TallyGrades | scripts/find_missing_students.py:82-85 | the tally loop computes the tally function |
| FindMissing.TallyCounts | scripts/find_missing_students.py:82-85 | each grade's count is the number of missing students with that stripped grade, and the counts add up to the number of missing students |
| FindMissing.TallyTotal | scripts/find_missing_students.py:82-85 | the counts of a tally of grades add up to the number of grades |
| FindMissing.TallyMultiplicities | scripts/find_missing_students.py:82-85 | each count of a tally is the number of times its grade occurs |
| FindMissing.TallyAppend | scripts/find_missing_students.py:84-85 | tallying one more grade is one more `d[g] = d.get(g, 0) + 1` on the tally so far |
| Training.NivelEducativo | analysis/train_enhanced_model.py:86-96 | the level is Básica Elemental, Media, Superior or Bachillerato exactly for the grades "1"-"4", "5"-"7", "8"-"10" and "1BGU"-"3BGU", and Unknown otherwise |
| Training.KnownLevelIffExpectedAge | analysis/train_enhanced_model.py:55-96 | a grade has a known level exactly when it has an expected age |
| Training.AgeGradeStatus | analysis/train_enhanced_model.py:98-110 | unknown without an age or a grade with an expected age; young exactly when more than one year below the expected age, old exactly when more than one year above |
| Training.KnownAgeStatusHasKnownLevel | analysis/train_enhanced_model.py:98-110 | a known age status implies a known education level |
| Training.ParseSiNo | analysis/train_enhanced_model.py:112-116 | 1 exactly when the stripped, upper-cased text is "SI", else 0 |
| Training.UpperSi | analysis/train_enhanced_model.py:116 | a text whose upper case is "SI" lowers to "si" |
| Training.SiNoStricterThanYesNo | analysis/train_enhanced_model.py:112-116 | every answer read as 1 here is a yes for the household import's yes/no reader |
| Training.AccentedSiIsNo | analysis/train_enhanced_model.py:112-116 | the converse fails: the text "sí", with its accent, is 0 here and a yes for the household import |
| Training.ParseCount | analysis/train_enhanced_model.py:118-128 | a blank cell is 0; a text holding one of the "or more" answers is 4; otherwise the integer of the stripped text, or 0 when it is not one |
| Training.ParseBathrooms | analysis/train_enhanced_model.py:130-143 | the result lies in 0..3; blank is 1; otherwise the first of "No tiene", "3 o más", '2', '1' found decides 0, 3, 2, 1, and anything else is 1 |
| Training.LevelOf | analysis/train_enhanced_model.py:150-160 | a level is found exactly when some key matches, and it is the level of a listed entry |
| Training.ParseEducationLevel | analysis/train_enhanced_model.py:145-160 | at most 5; an empty text is 2; otherwise the mapping's level for the stripped, lowered text, or 2 when unlisted |
| Training.LowerKeysOfLoweredTable | analysis/train_enhanced_model.py:150-160 | with lower-case keys, lower-casing them changes no lookup |
| Training.LowerKeysAgreeOnOthers | analysis/train_enhanced_model.py:150-160 | a key that is not lower case can only change a lookup of its own lowered text |
| Training.LevelOfFirst | analysis/train_enhanced_model.py:159-160 | the lookup gives the level of the first matching entry |
| Training.NormalizeSubject | analysis/train_enhanced_model.py:162-170 | a falsy name is None; otherwise the stripped name, turned into the plural when its lower case is one of the two singular spellings |
| Training.LoweredAgreesWhenSpelledLowerCase | analysis/train_comprehensive_model.py:167-175 | when the singular spelling is lower case, as in the comprehensive script, the intended comparison is the written one |
| Training.AccentedSubjectIsLowerCase | analysis/train_comprehensive_model.py:173 | the comprehensive script's singular subject name is lower case |
| Training.AccentedLevelsAreLowerCase | analysis/train_comprehensive_model.py:155-161 | every level key of the comprehensive script is lower case, so its lookup has no unreachable key |
| Training.StudentNumber | analysis/train_enhanced_model.py:249-256 | a NULL id raises; an id starting with "EST" whose rest, with every "EST" removed, is an integer gives that integer; every other id is skipped |
| Training.ImportedCodesReadBack | analysis/train_enhanced_model.py:254 | the "EST" code the import scripts give student number n reads back as n |
| Training.RowFor | analysis/train_enhanced_model.py:328-330 | the first sheet row whose ID is the number, or none exactly when no row has it |
| Training.Quintil | analysis/train_enhanced_model.py:328-343 | the first-page sheet's quintil when the student has a row with one, else the database's (3 when missing); a missing value is 3; then the integer conversion, which may raise |
| Training.TechScore | analysis/train_enhanced_model.py:474 | at most 3, and 0 without a house row |
| Training.Bathrooms | analysis/train_enhanced_model.py:348-367 | in 0..3, and 1 without a house row |
| Training.ParentAge | analysis/train_enhanced_model.py:418-436 | 35 without a parent row or a parent age, else the integer of the age |
| Training.AssetScore | analysis/train_enhanced_model.py:469-471 | at most 6, and 3 with the defaults of a missing habit row |
| Training.DigitalScore | analysis/train_enhanced_model.py:477 | at most 3, and 3 with the defaults of a missing habit row |
| Training.Genero | analysis/train_enhanced_model.py:505-507 | never empty: a missing or empty gender becomes "Masculino" |
| Training.GradesOf | analysis/train_enhanced_model.py:270-274 | no more grades than rows, and none exactly when no row has a grade |
| Training.Append | analysis/train_enhanced_model.py:276-278 | the key gets the value appended to its list (a new list when absent) and every other key is unchanged |
| Training.SubjectGradesKeys | analysis/train_enhanced_model.py:270-278 | the subjects filed are exactly those of the graded rows with a named subject, plus the initial keys |
| Training.SubjectGradesValues | analysis/train_enhanced_model.py:270-278 | a subject's list is what the initial map held for it followed, in row order, by exactly the grades of the rows filed under it |
| Training.SubjectKey | analysis/train_enhanced_model.py:273-278 | a row files its grade exactly when it has a grade and its name, normalised as written, is non-empty, and then under that name |
| Training.RowKeys | analysis/train_enhanced_model.py:270-278 | one subject key per grade row, in order: the key each row files its grade under, normalised as written |
| Training.SubjectGradesAppend | analysis/train_enhanced_model.py:270-283 | filing two row lists in turn is filing their concatenation |
| Training.GatherGrades | analysis/train_comprehensive_model.py:269-279 | the grade loop computes the grade list and the per-subject grade map |
| Training.Tallied | analysis/train_enhanced_model.py:243-601 | each screened student adds exactly one to the records or to one of the two skip counts, except a code that is no student number, which adds nothing |
| Training.TallyOutcome | analysis/train_enhanced_model.py:243-601 | the counter updates of one student compute the tally function |
| Training.Min | analysis/train_comprehensive_model.py:286 | the minimum is a grade and no grade is below it |
| Training.MinAtMostMean | analysis/train_comprehensive_model.py:286 | the lowest grade is never above the mean, so the comprehensive target flags every student the enhanced target flags |
| Training.ParseEducationLevelLowered | analysis/train_enhanced_model.py:145-160 | the intended lookup: the stripped, lowered text is compared with the lowered keys; an empty or unlisted text is 2 |
| Training.NormalizeSubjectLowered | analysis/train_enhanced_model.py:162-170 | the intended merge: None exactly for a falsy name; a name whose lower case is the lowered singular becomes the plural, any other is kept stripped |
| Training.LoweredMergesSingular | analysis/train_enhanced_model.py:166-169 | under the intended reading every capitalisation of the singular, with or without blanks around it, becomes the plural |
| EnhancedModel.MisdecodedSingularNeverMatches | analysis/train_enhanced_model.py:168 | no lower-cased text equals the singular key as the script spells it, since that key holds a capital letter |
| EnhancedModel.NothingElseMerged | analysis/train_enhanced_model.py:162-170 | as written, every stripped name other than "matematica" is kept unchanged |
| EnhancedModel.SingularNotMerged | analysis/train_enhanced_model.py:168-169 | as written, the singular subject name of the script's own data stays apart from the plural |
| EnhancedModel.SingularMergedWhenLowered | analysis/train_enhanced_model.py:168-169 | under the intended comparison the singular merges into the plural |
| EnhancedModel.MisdecodedLevelKeysNeverMatch | analysis/train_enhanced_model.py:152-159 | no stripped, lowered text equals either accented level key, since both hold a capital letter |
| EnhancedModel.BasicaLevelLost | analysis/train_enhanced_model.py:152 | as written, the listed "educación básica" key, in any capitalisation, gets the fallback 2 instead of its level 1 |
| EnhancedModel.SuperiorLevelLost | analysis/train_enhanced_model.py:155 | as written, the listed "educación superior" key gets 2 instead of 4 |
| EnhancedModel.BasicaLevelFoundWhenLowered | analysis/train_enhanced_model.py:152 | under the intended comparison that text gets level 1 |
| EnhancedModel.SuperiorLevelFoundWhenLowered | analysis/train_enhanced_model.py:155 | under the intended comparison that text gets level 4 |
| EnhancedModel.LoweredAgreesOffTheMisdecodedKeys | analysis/train_enhanced_model.py:150-160 | away from the two accented keys, the intended and the written lookup agree |
| EnhancedModel.Taken | analysis/train_enhanced_model.py:488-498 | the number of `takes_*` flags set is at most the number of names |
| EnhancedModel.TakenCountsSubjects | analysis/train_enhanced_model.py:488-502 | for distinct names, the flags count exactly the names that are subjects of the student |
| EnhancedModel.StemAndLanguageWithinSubjects | analysis/train_enhanced_model.py:485-502 | the STEM and language counts together never exceed the number of subjects |
| EnhancedModel.MissingInstructionIsNan | analysis/train_enhanced_model.py:424-441 | a parent row without an instruction text yields the text "nan", which is level 2 |
| EnhancedModel.RecordOf | analysis/train_enhanced_model.py:298-601 | raises exactly when the quintil or parent-age conversion raises; at risk exactly when the mean grade is at most 7.5; the quintil and the score bounds; transport exactly with a vehicle; subject counts within the number of subjects; the instruction level is the as-written lookup, so the two accented keys fall back to 2 |
| EnhancedModel.NewRecord | analysis/train_enhanced_model.py:485-601 | the record's target is "mean grade at most 7.5" and its mean grade and quintil are the ones given; the gender is never empty, the instruction level at most 5, bathrooms 0..3, the tech, asset and digital scores within 3, 6 and 3; transport exactly with a vehicle; the subject count is the number of subjects, and the STEM and language counts stay within it |
| EnhancedModel.Screen | analysis/train_enhanced_model.py:248-601 | a NULL id raises; a student is passed over exactly when the id is not a code, skipped exactly when no grade or an unknown level, kept otherwise, with the mean-grade label and a known level; subjects are merged as written, so "MatemÃ¡tica" stays its own subject |
| EnhancedModel.GatherGradesAndStats | analysis/train_enhanced_model.py:270-289 | the inner loop yields the grades, the per-subject grades (names normalised as written) and the subject statistics extended by this student's grades |
| EnhancedModel.ScreenOne | analysis/train_enhanced_model.py:248-601 | one loop turn gives the screening outcome, and the statistics grow only for a coded student |
| EnhancedModel.BuildEnhancedDataset | analysis/train_enhanced_model.py:243-601 | the student loop computes the dataset function as written, including its error |
| EnhancedModel.DatasetAccounts | analysis/train_enhanced_model.py:244-601 | the statistics hold the grades of every coded student, in order, and every coded student is a record or counted as skipped |
| EnhancedModel.RecordsComeFromKeptStudents | analysis/train_enhanced_model.py:248-601 | every record comes from a kept student of the input |
| EnhancedModel.RecordsLabelledByMean | analysis/train_enhanced_model.py:298-299 | every record is at risk exactly when its mean grade is at most 7.5 |
| ComprehensiveModel.HighRiskCount | analysis/train_comprehensive_model.py:472 | the high-risk count never exceeds the number of subjects, and is 0 exactly when none of the subjects is listed as high risk |
| ComprehensiveModel.SingularNeverAKey | analysis/train_comprehensive_model.py:167-175 | as written, no subject name is ever normalised to the singular "Matemática" |
| ComprehensiveModel.SingularNotASubject | analysis/train_comprehensive_model.py:269-279 | the singular is never a key of the per-subject grades |
| ComprehensiveModel.HighRiskAtMostSeven | analysis/train_comprehensive_model.py:74-78 | since the listed singular never occurs, a student's high-risk count is at most seven |
| ComprehensiveModel.Categorical | analysis/train_comprehensive_model.py:338-366 | the default without a row, column or value; the default again in place of "nan"; the cell's text otherwise |
| ComprehensiveModel.InstructionLevel | analysis/train_comprehensive_model.py:409-427 | the representative's instruction level is at most 5 |
| ComprehensiveModel.AccentedLevelAgrees | analysis/train_comprehensive_model.py:155-165 | the script's keys are lower case, so its lookup is the intended lowered lookup |
| ComprehensiveModel.SecundariaCompletaIsThree | analysis/train_comprehensive_model.py:159 | any capitalisation of "secundaria completa" is level 3 |
| ComprehensiveModel.MissingInstructionDiverges | analysis/train_comprehensive_model.py:424-427 | a parent row without an instruction text is level 3 here, where the enhanced script gives 2 |
| ComprehensiveModel.ThreeOrMoreCountsDiffer | analysis/train_comprehensive_model.py:123-133 | "3 o más" counts four TVs for the training scripts and three for the household import |
| ComprehensiveModel.RecordOf | analysis/train_comprehensive_model.py:285-564 | raises exactly when a sheet conversion raises; at risk exactly when some grade is at most 7.5; the quintil, the parent age, no "nan" categorical, the score bounds, the subject counts and the enrolment flags |
| ComprehensiveModel.NewRecord | analysis/train_comprehensive_model.py:468-562 | the record is at risk exactly when some grade, equivalently the lowest, is at most 7.5; the quintil and parent age are the ones given; no categorical text is "nan"; the gender is never empty, the instruction level at most 5, bathrooms 0..3, the three scores within their bounds; the subject count is the number of subjects and the high-risk count within it; it takes mathematics exactly when the plural subject is among them |
| ComprehensiveModel.Screen | analysis/train_comprehensive_model.py:252-564 | raises exactly on a NULL id or a failed conversion; passed over, skipped or kept exactly as the script decides; a kept student has the lowest-grade label, a known level and at most seven high-risk subjects |
| ComprehensiveModel.ScreenOne | analysis/train_comprehensive_model.py:252-564 | one loop turn gives the screening outcome |
| ComprehensiveModel.BuildComprehensiveDataset | analysis/train_comprehensive_model.py:247-564 | the student loop computes the dataset function, including its error |
| ComprehensiveModel.DatasetAccounts | analysis/train_comprehensive_model.py:247-564 | every coded student is a record or counted as skipped |
| ComprehensiveModel.RecordsComeFromKeptStudents | analysis/train_comprehensive_model.py:252-564 | every record comes from a kept student of the input |
| ComprehensiveModel.RecordsLabelledByLowestGrade | analysis/train_comprehensive_model.py:285-287 | every record is at risk exactly when its student has some grade of at most 7.5 |
| ComprehensiveModel.ScreeningAgrees | analysis/train_comprehensive_model.py:252-564 | this script and the enhanced one keep, pass over and skip the same students |
| ComprehensiveModel.MeanFlagImpliesLowestFlag | analysis/train_comprehensive_model.py:285-287 | every student the enhanced script flags by the mean is flagged here by the lowest grade |
| ComprehensiveModel.LowestFlagsMore | analysis/train_comprehensive_model.py:285-287 | the converse fails: grades 7.0 and 9.0 are flagged here and not by the mean |
| ComprehensiveModel.CompositeBounds | analysis/train_comprehensive_model.py:803 | the composite of scores in [0, 1] lies in [0, 1] and is 1 exactly for a perfect model |
| ComprehensiveModel.SelectionIsFirstBest | analysis/train_comprehensive_model.py:748-811 | the selection is the first model of greatest composite, and there is none exactly when no composite is positive |
| ComprehensiveModel.Selection | analysis/train_comprehensive_model.py:748-811 | the best score is never negative; a selected model trained and the best score is its composite, which is positive; with no model selected the best score stays 0 |
| ComprehensiveModel.SelectBest | analysis/train_comprehensive_model.py:748-817 | the comparison loop reports exactly the models that trained and picks the selection |
| ComprehensiveModel.BestName | analysis/train_comprehensive_model.py:934 | unpacking the best model raises exactly when no composite is positive; otherwise it is the first best model's name |
| ComprehensiveModel.ConfusionAt | analysis/train_comprehensive_model.py:833-839 | the four confusion counts add up to the number of test students |
| ComprehensiveModel.ConfusionMonotone | analysis/train_comprehensive_model.py:832-839 | every threshold splits the same positives into found and missed; a lower threshold finds at least as many and raises at least as many false alarms |
| ComprehensiveModel.RatesBounded | analysis/train_comprehensive_model.py:835-837 | recall, precision and F1 lie in [0, 1], with 0 on a zero division |
| ComprehensiveModel.RecallMonotone | analysis/train_comprehensive_model.py:832-835 | lowering the threshold never lowers the recall |
| ComprehensiveModel.OptimizeThresholds | analysis/train_comprehensive_model.py:823-854 | one row per threshold, in the listed order, each the row for that threshold |
| ComprehensiveModel.RecommendThreshold | analysis/train_comprehensive_model.py:1038-1042 | the first row whose recall is at least 0.90, and none exactly when no row reaches it |
| ComprehensiveModel.ThresholdsDescend | analysis/train_comprehensive_model.py:832 | the thresholds strictly descend |
| ComprehensiveModel.RecommendedIsHighest | analysis/train_comprehensive_model.py:832-1042 | the recommended threshold is the highest one reaching the target recall, and every lower one reaches it too |
| EarlyWarning.NormalizeSubjectName | analysis/predictive_early_warning.py:41-60 | a name outside the spelling map is returned unchanged; a mapped name becomes one of the four merged subject names |
| EarlyWarning.MergedNamesAreNotKeys | analysis/predictive_early_warning.py:41-52 | no merged subject name is itself a spelling the map rewrites |
| EarlyWarning.NormalizeIdempotent | analysis/predictive_early_warning.py:58-60 | normalising twice is normalising once |
| EarlyWarning.NonAcademicBeforeOrAfter | analysis/predictive_early_warning.py:56-60 | a name is non-academic exactly when its normalised form is |
| EarlyWarning.SubjectOf | analysis/predictive_early_warning.py:139 | no subject exactly for a NULL name; a missing name reads "Unknown"; an unmapped name is kept and a mapped one becomes a merged name; the subject is academic exactly when the raw name is, and is already in normal form |
| EarlyWarning.PositiveGrade | analysis/predictive_early_warning.py:145-146 | a record's grade enters the per-subject grades exactly when it is present and positive |
| EarlyWarning.FinalGrade | analysis/predictive_early_warning.py:158-161 | a record yields a row exactly when its grade is present and non-zero |
| EarlyWarning.LastOccurrenceWins | analysis/predictive_early_warning.py:137-148 | a subject has a grade exactly when one of its academic records has a positive grade, and the grade is that of the last such record |
| EarlyWarning.BuildNotas | analysis/predictive_early_warning.py:137-148 | the first loop over a student's records yields the per-subject grade map |
| EarlyWarning.QuintilComponent | analysis/predictive_early_warning.py:122-125 | the quintil component lies in 0..100, and is 0 when the risk score fell back |
| EarlyWarning.BarriersComponent | analysis/predictive_early_warning.py:122-126 | the barriers component lies in 0..75.5 |
| EarlyWarning.BaselineRange | analysis/predictive_early_warning.py:194-195 | the baseline lies in 0..40.1 |
| EarlyWarning.BaselineIsPartOfRiskScore | analysis/predictive_early_warning.py:194-195 | the baseline is the quintil and barrier terms of the weighted risk total |
| EarlyWarning.OtherGrades | analysis/predictive_early_warning.py:202-205 | raises exactly when a None subject is among the grades and the row has a named subject; otherwise every named graded subject but the row's own, each with its grade |
| EarlyWarning.RowsOf | analysis/predictive_early_warning.py:151-212 | raises exactly as the other-grades step does for some kept record; otherwise one well-formed row per academic record with a non-zero grade |
| EarlyWarning.StudentRows | analysis/predictive_early_warning.py:131-212 | a student without academic records adds no row; every row added is well formed |
| EarlyWarning.BuildStudentRows | analysis/predictive_early_warning.py:131-212 | the two loops over a student's records compute the per-student rows function, including its error |
| EarlyWarning.AddRow | analysis/predictive_early_warning.py:151-212 | one record of the second loop computes the row step |
| EarlyWarning.RowStep | analysis/predictive_early_warning.py:151-212 | an academic record with a non-zero grade adds one well-formed row at the end and keeps the rows before it; it raises exactly when it names its subject and the grade map holds a None subject; any other record changes nothing |
| EarlyWarning.FetchHistoricalData | analysis/predictive_early_warning.py:63-217 | None without students; otherwise raises exactly when some student's rows raise or no student yields a row (the KeyError on `student_id` of an empty frame), and is the non-empty dataset of all students otherwise |
| EarlyWarning.DataRowsWellFormed | analysis/predictive_early_warning.py:89-212 | every row of the dataset is well formed for some student of the input |
| EarlyWarning.ScalePosWeight | analysis/predictive_early_warning.py:389-390 | the weight lies in 0..10; with no positive label it is the cap 10; otherwise the ratio of negatives to positives, capped at 10 |
| EarlyWarning.ScalePosWeightAntitone | analysis/predictive_early_warning.py:389-390 | more positive labels never raise the weight |
| EarlyWarning.Unique | analysis/predictive_early_warning.py:558 | the ids of the predictions, each exactly once |
| EarlyWarning.Bucket | analysis/predictive_early_warning.py:559-571 | exactly the student's predictions in the bucket's probability range |
| EarlyWarning.GenerateProactiveAlerts | analysis/predictive_early_warning.py:542-602 | the alert loop computes the alerts function over the unique student ids |
| EarlyWarning.AlertsSound | analysis/predictive_early_warning.py:573-596 | every alert is about a listed student and has some subject; each high subject is that student's and above 0.5, each medium one is in 0.3..0.5; no subject is in both |
| EarlyWarning.AlertsComplete | analysis/predictive_early_warning.py:558-596 | every high- or medium-risk prediction of a listed student appears in that student's alert |
| EarlyWarning.AlertsDistinct | analysis/predictive_early_warning.py:558 | no student gets two alerts |

## Left out

- Supabase, HTTP and file I/O are not modelled: the Supabase client calls, Flask routing with `jsonify` and CORS, reading CSV and Excel files, the interactive prompts, and the React fetch and state plumbing. A fetched table is an input sequence. The outcome of an insert, update or delete is an oracle parameter (`accepts`, `deletes`, `saved`). A student lookup is a parameter (`lookup`).
- Model fitting and evaluation are not modelled: sklearn, CatBoost, XGBoost and LightGBM training, cross-validation, ROC-AUC and the predicted probabilities. Trained metrics and probabilities enter as inputs. Printing-only functions (`data_quality_check`, `get_feature_importance`, the reports) and the JSON and joblib output are left out too.
- Pandas merges, `fillna`/`replace` on data frames and categorical encoding are left out. The survey sheets are lists of rows looked up by student number.
- `round(x, 2)` and text formatting such as `{:.1f}` are left out: every score, percentage and mean is carried as an unrounded real. The risk level is classified on the unrounded total, as the code does, and the rounding applied afterwards is not modelled.
- `Math.round` in the hooks is `floor(x + 1/2)` on reals; floating-point representation is not modelled.
- JsValues.RoundValue: `Number()` of text is modelled for decimal notation only (sign, digits, a point). Exponents ("1e2"), the 0x, 0o and 0b prefixes and "Infinity" give NaN in the model, while JavaScript reads them as numbers. An infinite `Math.round` result has no integer to stand for it.
- `float()` on text is the abstract parameter `parseFloat`. `int()` on text is modelled for ASCII digits with an optional sign and surrounding whitespace, which excludes underscores and non-ASCII digits.
- The student-id regular expression is a character predicate, not a regex engine.
- Validators.ValidateStudentId: Python's `\d` on text also matches non-ASCII decimal digits (Arabic-Indic or full-width digits, for instance). The model accepts ASCII digits only, so an id such as "EST" followed by three full-width digits is valid in the code and invalid in the model.
- Case mapping covers ASCII and the Latin-1 letters only. Python's full Unicode `lower`/`upper` is not modelled. (Whitespace for `strip` and `split` is the full `str.isspace` set.)
- The first-name gender table of scripts/update_gender_from_names.py is the parameter `names`, not its several hundred entries.
- The `eval`/`exec` cleaning loops of analysis/train_enhanced_model.py:378-381 and 437-439 are left out: in CPython `exec` cannot rebind a function's locals, so these loops change nothing. The model keeps the uncleaned values, so a missing instruction text reads as "nan".
- The enhanced and comprehensive records carry only the fields a property is stated about: the target, the level, the quintil, the parent age, the derived scores, the subject counts and flags, and the categorical defaults. The other survey columns copied verbatim are left out, and so is `indice_accesibilidad_geografica`.
- The confusion-matrix unpacking with a single class present, and the `class_ratio` division by zero of the training scripts, are not modelled.
- EarlyWarning row features copied verbatim from the student (age, gender, laptop, internet, TV, reading, siblings, parent age and instruction, distance) are left out. So are the always-zero attendance features.
- EarlyWarning.OtherGrades: each other-subject grade is keyed by its subject name, not by the `nota_…` column name built with `replace`. Two subjects whose column names collide are therefore not merged, and the insertion order of the columns is not kept.
- EarlyWarning.GenerateProactiveAlerts: student ids are strings; a None or NaN id in the data frame, and the unused `predicted_fail` column, are not modelled.
- EarlyWarning.ScalePosWeight requires at least one training label: an empty training split makes the mean undefined, and that case is not modelled.
- MissingSocio.UpdateDataOf states in its own contract only when the update is empty and that a TV or bathroom column puts its key in the update; the converse and the count values are stated by MissingSocio.UpdateCounts, and the flags and texts by the two Writes lemmas about the passes that build it.
- `format_student_profile` and `format_error_response` in utils/formatters.py are not modelled: the first is not used by the endpoints modelled here and the second only adds a timestamp.
- routes/institutional.py, models/database.py, app.py, config.py, mock_server.py and the React components and pages are not part of this model: they are fixed payloads, declarations or presentation.
- scripts/clean_tables.py, scripts/investigate_unknown.py, scripts/analyze_csv_students.py and `update_database_by_name` in scripts/populate_distance_data.py only print or call the database, and are not part of this model.

## Findings

| source | as written | input that shows it | evidently intended | confidence | as-written member | corrected member |
|---|---|---|---|---|---|---|
| analysis/train_enhanced_model.py:168 | the singular key `'matemÃ¡tica'` holds the capital `Ã`, so no `.lower()` result equals it, and only "matematica" is merged | the subject "MatemÃ¡tica" stays apart from "MatemÃ¡ticas" | compare with the lowered key, so both spellings merge into the plural (EnhancedModel.SingularMergedWhenLowered); the enhanced dataset itself is modelled as written | not executed | EnhancedModel.SingularNotMerged | Training.NormalizeSubjectLowered |
| analysis/train_enhanced_model.py:152,155 | the keys `'educaciÃ³n bÃ¡sica'` and `'educaciÃ³n superior'` hold a capital `Ã`, so the lowered text never finds them | "educaciÃ³n bÃ¡sica" gives level 2 instead of 1; "educaciÃ³n superior" gives 2 instead of 4 | compare with the lowered keys, so the listed texts get their listed levels (EnhancedModel.BasicaLevelFoundWhenLowered, EnhancedModel.SuperiorLevelFoundWhenLowered); the enhanced dataset itself is modelled as written | not executed | EnhancedModel.BasicaLevelLost | Training.ParseEducationLevelLowered |
| routes/predictions.py:232 | `.get("indice_cobertura_salud", "").lower()` falls back to "" only for a missing key; a NULL column gives None, and `.lower()` raises | a socioeconomic row whose health index is NULL | read a NULL text as empty, so the estimate is always a quintil in 1..5; the endpoints are modelled as written (500 for one student, skipped in a batch) | not executed | Predictions.NullIndexRaises | Predictions.PredictQuintil |
| utils/validators.py:122-126 | the sum is checked on the raw values after they were only checked to convert to int, so text counts are concatenated | total "32", justified "3", unjustified "2" pass, since "3" + "2" is "32" (likewise any two digits "ju", "j", "u" with j > 0) | compare the converted integers (Validators.IntendedCheckOnTextCounts) | not executed | Validators.TextCountsConcatenate | Validators.ValidateAttendance |
