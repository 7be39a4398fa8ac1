# Patient feedback ETL and VIP segmentation, modelled in Dafny

This project models the two batch scripts of a small healthcare-feedback pipeline.

The transform step of the ETL script works as follows:
- It strips `patient_id` and `treatment_id` in the feedback and patient/treatment tables.
- It rewrites each feedback `treatment_id` into its standard form: every `T` deleted, the rest read as an integer, then `T` plus the number zero-filled to at least four characters.
- It inner-merges feedback with patient data on `patient_id`.
- It left-merges the result with the doctor table on `doctor_id`.
- It derives `total_cost = treatment_cost + room_cost`.

The feature stage of the machine-learning script works as follows:
- It aggregates the warehouse rows per patient, giving the mean score, total spent, distinct treatments and last visit.
- It computes each patient's recency in days against the latest visit and drops `last_visit`.
- It checks the features the way the scaler and k-means do.
- It takes the cluster with the highest mean `total_spent` as VIP and labels every patient "VIP" or "Non-VIP".
- It left-merges the label back onto every warehouse row.

Tables are sequences of records. Missing values are `Option`. Dates are day numbers and costs are exact integers. The data frames that the scripts change in place are classes whose methods are proved against the functions that specify them:
- `FeedbackFrame`, `PatientFrame` and `FinalFrame` for the ETL script;
- `AggFrame` for the feature stage.

`Etl.RunEtl` and `Features.RunSegmentation` run each script's steps in order, and each is proved equal to the pure specification, `Etl.Transform` and `Features.Segment` respectively.

Modules, one per file:
- `Wrappers` (wrappers.dfy): `Option` and `Result`.
- `Text` (text.dfy): Python's `str.strip()`, `int()` on a string (including its default limit of 4300 digits), `str(int)` and `str.zfill`.
- `TreatmentIds` (treatment_ids.dfy): standardising one feedback `treatment_id`.
- `Joins` (joins.dfy): `pandas.merge` on one key column, inner and left, with its cardinality and membership laws.
- `Etl` (etl.dfy): the records, the transform and the ETL data frames.
- `Groups` (groups.dfy): `groupby` on a string key (sorted keys, one group per key), a sum and a maximum that skip missing values.
- `Features` (features.dfy): aggregation, recency, the VIP rule, the clustering errors, the merge back and `agg_df`.

Two behaviours of the code worth knowing:
- **Bad `treatment_id` values.** `astype(int)` raises on the first value `int()` refuses (ETL_Pipeline.py:49-54), so the run stops there: `Etl.StandardizeFeedback` and `Etl.Transform` return that row's error, and no row is set aside.
- **The merge key.** The comment above the first merge names `patient_id` and `treatment_id` as the key, but the merge uses `patient_id` only. The model joins on `patient_id`, and `Etl.TreatmentIdNotAJoinKey` shows a feedback row and a patient row about different treatments of the same patient being paired.

## Model

| member | source | states |
|---|---|---|
| Text.StripSpec | Building_a_Basic_ETL_Data_Pipeline_Using_Python/ETL_Pipeline.py:45-46 | `str.strip()` leaves no whitespace at either end and removes only an all-whitespace prefix and suffix of the input |
| Text.StripIdempotent | Building_a_Basic_ETL_Data_Pipeline_Using_Python/ETL_Pipeline.py:45-46 | stripping twice is stripping once |
| Text.StripKeepsStripped | Building_a_Basic_ETL_Data_Pipeline_Using_Python/ETL_Pipeline.py:45-46 | a value with no whitespace at its ends is left unchanged by stripping |
| Text.DecimalDigits | Building_a_Basic_ETL_Data_Pipeline_Using_Python/ETL_Pipeline.py:53 | `str(n)` of a non-negative number is a digit string whose value is `n`, with no leading zero |
| Text.ShortNumberDigits | Building_a_Basic_ETL_Data_Pipeline_Using_Python/ETL_Pipeline.py:53 | a number below 10000 is written with at most four digits |
| Text.ZFill | Building_a_Basic_ETL_Data_Pipeline_Using_Python/ETL_Pipeline.py:53 | `zfill(width)` has the length of its input or `width`, whichever is larger |
| Text.ZFilledRenderBody | Building_a_Basic_ETL_Data_Pipeline_Using_Python/ETL_Pipeline.py:53 | `str(n).zfill(w)` is an optional minus sign followed by a non-empty digit string whose value is `abs(n)` |
| Text.ParseZFilledRender | Building_a_Basic_ETL_Data_Pipeline_Using_Python/ETL_Pipeline.py:52-53 | `int()` reads `str(n).zfill(w)` back as `n`, for any integer `n` of at most 4300 digits and any width `w` up to 4300 |
| Text.ParseDigits | Building_a_Basic_ETL_Data_Pipeline_Using_Python/ETL_Pipeline.py:52 | `int()` of a non-empty digit string of at most 4300 digits is its decimal value |
| Text.TooManyDigits | Building_a_Basic_ETL_Data_Pipeline_Using_Python/ETL_Pipeline.py:52 | `int()` refuses a digit string longer than 4300 digits, leading zeros included, whatever its value |
| Text.DigitsBelowPow10 | Building_a_Basic_ETL_Data_Pipeline_Using_Python/ETL_Pipeline.py:53 | a number below 10^k is written with at most k digits |
| Text.ParseNegativeDigits | Building_a_Basic_ETL_Data_Pipeline_Using_Python/ETL_Pipeline.py:52 | `int()` of a minus sign followed by at most 4300 digits is the negated value |
| Text.ParseIntChars | Building_a_Basic_ETL_Data_Pipeline_Using_Python/ETL_Pipeline.py:52 | a string `int()` accepts holds only spaces, signs, digits and underscores |
| TreatmentIds.RemoveT | Building_a_Basic_ETL_Data_Pipeline_Using_Python/ETL_Pipeline.py:51 | `replace("T", "")` leaves no `T` and never lengthens the value |
| TreatmentIds.RemoveTChar | Building_a_Basic_ETL_Data_Pipeline_Using_Python/ETL_Pipeline.py:51 | on one character, `replace("T", "")` deletes a `T` and keeps anything else |
| TreatmentIds.RemoveTAppend | Building_a_Basic_ETL_Data_Pipeline_Using_Python/ETL_Pipeline.py:51 | `replace("T", "")` of a concatenation is the concatenation of the results; with `RemoveTChar` this fixes the result on every input: every other character kept, in order |
| TreatmentIds.RemoveTInsideExample | Building_a_Basic_ETL_Data_Pipeline_Using_Python/ETL_Pipeline.py:51 | `1T2` becomes `12` |
| TreatmentIds.RemoveTKeeps | Building_a_Basic_ETL_Data_Pipeline_Using_Python/ETL_Pipeline.py:51 | a value without `T` passes through `replace("T", "")` unchanged |
| TreatmentIds.NormalizedShape | Building_a_Basic_ETL_Data_Pipeline_Using_Python/ETL_Pipeline.py:49-54 | a standardised id is `T` plus at least four characters, has no surrounding whitespace, and its tail reads as the integer the input held |
| TreatmentIds.NormalizeIdempotent | Building_a_Basic_ETL_Data_Pipeline_Using_Python/ETL_Pipeline.py:51-53 | standardising an already standardised id gives the same id |
| TreatmentIds.ShortIdHasFiveChars | Building_a_Basic_ETL_Data_Pipeline_Using_Python/ETL_Pipeline.py:49-54 | `T` plus at most 4300 digits whose value is below 10000 standardises to exactly five characters: `T` and four digits of the same value |
| TreatmentIds.NonNumeralFails | Building_a_Basic_ETL_Data_Pipeline_Using_Python/ETL_Pipeline.py:52 | when nothing or a non-numeral character is left after deleting the `T`s, standardisation fails with `NotAnInteger` |
| TreatmentIds.Int64Digits | Building_a_Basic_ETL_Data_Pipeline_Using_Python/ETL_Pipeline.py:52-53 | an int64 value takes at most 19 digits, so its rendering stays within `int()`'s digit limit |
| TreatmentIds.TooManyDigitsFails | Building_a_Basic_ETL_Data_Pipeline_Using_Python/ETL_Pipeline.py:49-54 | `T` followed by more than 4300 digits fails with `NotAnInteger`, not `Int64Overflow`, even when its value is small |
| TreatmentIds.LongZeroPaddingFails | Building_a_Basic_ETL_Data_Pipeline_Using_Python/ETL_Pipeline.py:49-54 | `T`, 4300 or more zeros and then `1` fails with `NotAnInteger`: the zeros count towards the limit |
| TreatmentIds.StandardizeExample | Building_a_Basic_ETL_Data_Pipeline_Using_Python/ETL_Pipeline.py:48-54 | `T1` becomes `T0001` |
| Joins.Matching | Building_a_Basic_ETL_Data_Pipeline_Using_Python/ETL_Pipeline.py:57-62 | the rows with a given key are exactly the rows of the table holding that key, as many as the key's count |
| Joins.MatchingMultiplicity | Building_a_Basic_ETL_Data_Pipeline_Using_Python/ETL_Pipeline.py:57-62 | a row with the key is among the matches as many times as it occurs in the table, and a row with another key never is |
| Joins.Lookup | Building_a_Basic_ETL_Data_Pipeline_Using_Python/ETL_Pipeline.py:65-70 | the looked-up row is absent exactly when no row has the key, and otherwise is a row with that key |
| Joins.InnerJoinFanOut | Building_a_Basic_ETL_Data_Pipeline_Using_Python/ETL_Pipeline.py:57-62 | an inner merge has `a * b` rows for a key held by `a` left rows and `b` right rows |
| Joins.InnerJoinMultiplicity | Building_a_Basic_ETL_Data_Pipeline_Using_Python/ETL_Pipeline.py:57-62 | a pair of rows with equal keys occurs in the inner merge as many times as the left row occurs times as many times as the right row occurs; a pair with different keys never occurs |
| Joins.InnerJoinMembers | Building_a_Basic_ETL_Data_Pipeline_Using_Python/ETL_Pipeline.py:57-62 | a pair is in the inner merge if and only if its left row and right row are in their tables and their keys agree |
| Joins.LeftJoinFanOut | Building_a_Basic_ETL_Data_Pipeline_Using_Python/ETL_Pipeline.py:65-70 | a left merge has `a * b` rows for a key held by `a` left rows and `b` right rows, and `a` rows when `b` is 0 |
| Joins.LeftJoinMembers | Building_a_Basic_ETL_Data_Pipeline_Using_Python/ETL_Pipeline.py:65-70 | a left merge keeps every left row: with each matching right row, or once with missing right columns exactly when nothing matches |
| Joins.LeftJoinRow | Building_a_Basic_ETL_Data_Pipeline_Using_Python/ETL_Pipeline.py:65-70 | each row of a left merge has a left row of the input and a matching right row, or missing right columns exactly when no right row matches |
| Joins.LeftJoinUnique | Building_a_Basic_ETL_Data_Pipeline_Using_Python/Machine_Learning.py:57 | with a unique right key, a left merge keeps the left rows one for one, in order, each beside its looked-up right row |
| Etl.StandardizeFeedback | Building_a_Basic_ETL_Data_Pipeline_Using_Python/ETL_Pipeline.py:49-54 | the column succeeds exactly when every value standardises, and then only `treatment_id` changes, row by row; otherwise it fails with the error of the first bad value |
| Etl.TotalCost | Building_a_Basic_ETL_Data_Pipeline_Using_Python/ETL_Pipeline.py:73 | `total_cost` is missing exactly when either cost is missing, and is otherwise their exact sum |
| Etl.FeedbackFrame.StripIds | Building_a_Basic_ETL_Data_Pipeline_Using_Python/ETL_Pipeline.py:44-46 | feedback_df keeps its rows and order, with both identifier columns stripped |
| Etl.PatientFrame.StripIds | Building_a_Basic_ETL_Data_Pipeline_Using_Python/ETL_Pipeline.py:44-46 | patient_data_df keeps its rows and order, with both identifier columns stripped |
| Etl.FeedbackFrame.StandardizeTreatmentIds | Building_a_Basic_ETL_Data_Pipeline_Using_Python/ETL_Pipeline.py:49-54 | the frame becomes the standardised column, or it is left unchanged and the first error is returned |
| Etl.FinalFrame.DeriveTotalCost | Building_a_Basic_ETL_Data_Pipeline_Using_Python/ETL_Pipeline.py:73 | the loop adds a `total_cost` column holding each row's cost sum and leaves the rows untouched |
| Etl.RunEtl | Building_a_Basic_ETL_Data_Pipeline_Using_Python/ETL_Pipeline.py:44-73 | the frame-by-frame run gives what `Transform` specifies, error included |
| Etl.EtlRowProvenance | Building_a_Basic_ETL_Data_Pipeline_Using_Python/ETL_Pipeline.py:44-73 | every warehouse row comes from one feedback row and one patient row, with stripped ids and the standardised treatment_id, and with the same patient_id whatever the treatment_ids; its doctor has its doctor_id, or is missing exactly when no doctor has it; its `total_cost` is the cost sum |
| Etl.EtlIdsNormalized | Building_a_Basic_ETL_Data_Pipeline_Using_Python/ETL_Pipeline.py:44-54 | in every warehouse row, patient_id, treatment_id_x and treatment_id_y have no surrounding whitespace, and treatment_id_x is `T` plus at least four characters and is a fixed point of standardisation |
| Etl.EtlFanOut | Building_a_Basic_ETL_Data_Pipeline_Using_Python/ETL_Pipeline.py:57-70 | with unique doctor ids, the table has as many rows as the inner merge, and a patient with `a` feedback rows and `b` patient rows has `a * b` rows, none if either is 0 |
| Etl.EtlDoctorFanOut | Building_a_Basic_ETL_Data_Pipeline_Using_Python/ETL_Pipeline.py:65-70 | a doctor_id on `a` merged rows and `b` doctor rows gives `a * b` warehouse rows, or `a` when `b` is 0 |
| Etl.TreatmentIdNotAJoinKey | Building_a_Basic_ETL_Data_Pipeline_Using_Python/ETL_Pipeline.py:49-62 | feedback about `T1` pairs with the same patient's row about `T0002`, and the row keeps `T0001` and `T0002` side by side |
| Groups.LessIrreflexive | Building_a_Basic_ETL_Data_Pipeline_Using_Python/Machine_Learning.py:22 | no key sorts before itself |
| Groups.LessTotal | Building_a_Basic_ETL_Data_Pipeline_Using_Python/Machine_Learning.py:22 | of two different keys, one sorts before the other |
| Groups.LessTrans | Building_a_Basic_ETL_Data_Pipeline_Using_Python/Machine_Learning.py:22 | the key order is transitive |
| Groups.InsertSpec | Building_a_Basic_ETL_Data_Pipeline_Using_Python/Machine_Learning.py:22 | placing a key into sorted keys keeps them strictly sorted and adds that key and nothing else |
| Groups.GroupKeysSpec | Building_a_Basic_ETL_Data_Pipeline_Using_Python/Machine_Learning.py:22 | the group keys are strictly ascending and distinct, and a key is among them exactly when some row holds it |
| Groups.GroupSumsPartition | Building_a_Basic_ETL_Data_Pipeline_Using_Python/Machine_Learning.py:24 | over distinct group keys covering every row, the per-group sums add up to the sum over all rows |
| Groups.MaxPresent | Building_a_Basic_ETL_Data_Pipeline_Using_Python/Machine_Learning.py:26 | the maximum skipping missing values is missing exactly when every value is; otherwise it is one of the values and no present value exceeds it |
| Groups.MaxPresentUnique | Building_a_Basic_ETL_Data_Pipeline_Using_Python/Machine_Learning.py:31 | a present value that no other present value exceeds is the maximum |
| Features.DistinctTreatments | Building_a_Basic_ETL_Data_Pipeline_Using_Python/Machine_Learning.py:25 | `nunique` of treatment_id_x counts exactly the values some row holds, at least 1 for a non-empty group and at most the number of rows |
| Features.AggregateOnePerPatient | Building_a_Basic_ETL_Data_Pipeline_Using_Python/Machine_Learning.py:22-27 | agg_df has one row per patient_id of the input and no other, in strictly ascending patient_id order, and is empty only when the input is |
| Features.NumTreatmentsSpec | Building_a_Basic_ETL_Data_Pipeline_Using_Python/Machine_Learning.py:25 | `num_treatments` is the number of distinct treatment_id_x values of the patient's rows, between 1 and the patient's row count |
| Features.LastVisitSpec | Building_a_Basic_ETL_Data_Pipeline_Using_Python/Machine_Learning.py:26 | `last_visit` is the latest treatment_date of the patient's rows, and is missing exactly when all of those dates are |
| Features.SatisfactionSpec | Building_a_Basic_ETL_Data_Pipeline_Using_Python/Machine_Learning.py:23 | the mean score averages no more scores than the patient has rows |
| Features.ScoreCountSpec | Building_a_Basic_ETL_Data_Pipeline_Using_Python/Machine_Learning.py:23 | `avg_satisfaction` is NaN exactly when none of the patient's rows has a score |
| Features.TotalSpentConservation | Building_a_Basic_ETL_Data_Pipeline_Using_Python/Machine_Learning.py:24 | `total_spent` over all patients adds up to the sum of every present `total_cost` of the input |
| Features.RecencyDays | Building_a_Basic_ETL_Data_Pipeline_Using_Python/Machine_Learning.py:30-32 | `recency_days` is missing exactly where last_visit is; otherwise it is the latest last_visit minus the patient's, never negative, and 0 for some patient whenever any date is present |
| Features.LatestDateIsLatestTreatment | Building_a_Basic_ETL_Data_Pipeline_Using_Python/Machine_Learning.py:26-31 | `latest_date`, the maximum of the per-patient last visits, is the latest treatment_date of any row |
| Features.VipClusterSpec | Building_a_Basic_ETL_Data_Pipeline_Using_Python/Machine_Learning.py:49 | there is a VIP cluster exactly when there are patients. It has patients, no cluster's mean `total_spent` is above it, and it is strictly above every lower label. Any cluster with those properties is that one |
| Features.VipTieGoesToLowest | Building_a_Basic_ETL_Data_Pipeline_Using_Python/Machine_Learning.py:49 | whenever both clusters have patients and their mean total_spent is equal, label 0 is VIP |
| Features.VipTieExample | Building_a_Basic_ETL_Data_Pipeline_Using_Python/Machine_Learning.py:49 | on spends [200, 100, 300] in clusters [1, 0, 0], the means tie and label 0 is VIP |
| Features.CustomerType | Building_a_Basic_ETL_Data_Pipeline_Using_Python/Machine_Learning.py:50-52 | the label is "VIP" exactly for the VIP cluster and "Non-VIP" otherwise |
| Features.FeatureError | Building_a_Basic_ETL_Data_Pipeline_Using_Python/Machine_Learning.py:40-46 | clustering raises nothing exactly when there are at least two patients and every feature is present, and raises the no-samples error exactly on an empty table |
| Features.GroupHasRow | Building_a_Basic_ETL_Data_Pipeline_Using_Python/Machine_Learning.py:22 | every patient of agg_df owns a row of the input |
| Features.FeaturesComplete | Building_a_Basic_ETL_Data_Pipeline_Using_Python/Machine_Learning.py:22-35 | every patient's mean score and recency are present exactly when each patient has some score and some treatment date |
| Features.TwoPatients | Building_a_Basic_ETL_Data_Pipeline_Using_Python/Machine_Learning.py:22-27 | agg_df has at least two rows exactly when the input holds two different patients |
| Features.SegmentErrors | Building_a_Basic_ETL_Data_Pipeline_Using_Python/Machine_Learning.py:22-57 | the stage fails with NoSamples exactly on an empty table. On a non-empty table it fails with MissingFeature exactly when some patient lacks a score or a date. It succeeds exactly when there are two patients and each has a score and a date |
| Features.LookupLabel | Building_a_Basic_ETL_Data_Pipeline_Using_Python/Machine_Learning.py:57 | for a patient of agg_df, the label found is the one built from that patient's cluster |
| Features.MergeBackRows | Building_a_Basic_ETL_Data_Pipeline_Using_Python/Machine_Learning.py:57 | merging labels keyed by distinct ids that cover every row keeps the rows one for one, in order and unchanged, each beside its own patient's label |
| Features.PatientIdsCoverRows | Building_a_Basic_ETL_Data_Pipeline_Using_Python/Machine_Learning.py:22-27 | the patient_ids of agg_df are distinct and include every row's patient_id |
| Features.MergeBackLaws | Building_a_Basic_ETL_Data_Pipeline_Using_Python/Machine_Learning.py:49-57 | on a successful run, enriched_df has every warehouse row once, in place and unchanged. Each row carries its patient's label, which is "VIP" exactly for the VIP cluster, and that cluster meets the VIP rule |
| Features.AggFrame.GroupBy | Building_a_Basic_ETL_Data_Pipeline_Using_Python/Machine_Learning.py:22-27 | agg_df starts as the columns of the aggregate, with no added columns yet |
| Features.AggFrame.AddRecency | Building_a_Basic_ETL_Data_Pipeline_Using_Python/Machine_Learning.py:30-32 | a first loop finds the latest last_visit and a second builds `recency_days`, which equals `RecencyDays` of last_visit; every other column is unchanged |
| Features.AggFrame.DropLastVisit | Building_a_Basic_ETL_Data_Pipeline_Using_Python/Machine_Learning.py:35 | last_visit is removed and every other column is unchanged |
| Features.AggFrame.FitPredict | Building_a_Basic_ETL_Data_Pipeline_Using_Python/Machine_Learning.py:40-46 | it returns the clustering error for these features; with no error it adds the cluster column from the given assignment, and otherwise changes nothing |
| Features.AggFrame.AddCustomerType | Building_a_Basic_ETL_Data_Pipeline_Using_Python/Machine_Learning.py:49-52 | a VIP cluster exists, and the loop adds each patient's label against it; every other column is unchanged |
| Features.RunSegmentation | Building_a_Basic_ETL_Data_Pipeline_Using_Python/Machine_Learning.py:22-57 | the step-by-step run on agg_df gives what `Segment` specifies, error included |

## Left out

- Reading and writing files is not modelled: the CSV and JSON sources, `to_csv`, `os.makedirs` and the hard-coded paths. The ETL transform starts from already-loaded tables. The feature stage starts from the warehouse rows as values, so the CSV round trip between the two scripts and pandas' type inference on reading are not modelled.
- `pd.to_datetime` date parsing is not modelled. Dates are already-parsed day numbers, and a date that does not parse is a missing value.
- `StandardScaler` and `KMeans` are floating-point numerics in a library. The cluster of each patient is an input function `assign` from patient_id to {0, 1}. Only the errors these steps raise on the feature table are modelled: no rows, a NaN feature, and fewer rows than clusters.
- `avg_satisfaction` is kept as an exact (sum, count) pair rather than a float, and cluster means are compared by cross-multiplication. A count of 0 is NaN.
- The `total_spent` and `total_cost` sums are unbounded integers; int64 wrap-around and float rounding of pandas sums are not modelled.
- `astype(str)` of non-string identifiers is not modelled: identifiers are strings from the start.
- The digit limit of `int()` is CPython's default, 4300 (`sys.int_info.default_max_str_digits`, from 3.11 and in the security releases of 3.7 to 3.10). Changing it through `PYTHONINTMAXSTRDIGITS` or `sys.set_int_max_str_digits`, and older versions with no limit, are not modelled.
- Non-ASCII decimal digits, which `int()` also accepts, are not modelled; such a value is treated as not an integer.
- Missing merge and group-by keys are not modelled; keys are always strings here. Two behaviours of the scripts therefore have no counterpart in the model:
  - `doctor_id` is neither stripped nor converted to a string (ETL_Pipeline.py:44-46 touch only patient_id and treatment_id). A blank doctor_id read from CSV is NaN, and the left merge at ETL_Pipeline.py:65-70 pairs it with every doctor row whose doctor_id is also NaN, rather than leaving the doctor columns missing.
  - A missing patient_id becomes the string "nan" through `astype(str)`. `read_csv` at Machine_Learning.py:15 reads it back as NaN, so the group-by at Machine_Learning.py:22 drops that patient and the merge at Machine_Learning.py:57 leaves those rows without a customer_type.
- The row order of a merge follows what pandas documents from version 2.2: left rows in order, each with its matches in right order. Earlier versions may order the rows differently.
- `review_date` is carried through as an opaque optional value. The `print` diagnostics are not modelled.
- Data_Analysis.py is not part of this model: it only reports and plots.
- TreatmentIds.NormalizeTreatmentId: the overflow bound is numpy's 64-bit default integer. On Windows with numpy before 2.0, `astype(int)` gives 32-bit integers, and the bound there is the 32-bit range, and that platform case is not modelled.
