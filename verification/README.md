# Breast-cancer batch prediction job: a Dafny model

The repository serves a scikit-learn pipeline that classifies breast-cancer tumours as
malignant or benign from thirty numeric features of a cell-nucleus image. Its distributed
batch job, `batch/batch_spark_predict.py`, works in these steps:

1. It reads a CSV file with Spark.
2. It checks that the header carries the thirty required feature columns. If any are
   missing, it stops with a `ValueError` naming them.
3. It collects the data into a pandas frame.
4. It renames the underscore-form column names (`mean_radius`) to the space-form names the
   model was trained on (`mean radius`).
5. It runs the model.
6. It writes three result columns — `prediction_code`, `prediction` and `probability` —
   before saving the frame.

This project models steps 2, 4 and 6, and the job that composes them, as pure functions.
It proves what each step guarantees.

- `wrappers.dfy` (`Wrappers`): `Option`, `Result` and `Outcome`, the error paths of the job.
- `feature_names.dfy` (`FeatureNames`):
  - `REQUIRED_COLUMNS`, as `RequiredColumns`;
  - `FEATURE_NAME_MAPPING`, as `FeatureNameMapping`, written as its three ten-row blocks;
  - the underscore and space name forms, and the facts about the two tables.
- `schema_check.dfy` (`SchemaCheck`): the required-column check, `REQUIRED_COLUMNS - set(columns)`.
  A non-empty result stops the job.
- `frames.dfy` (`Frames`): a pandas frame as an ordered list of labelled columns, and column
  assignment `frame[name] = cells`. Assignment replaces an existing column in place, and
  appends a new one otherwise.
- `rename.dfy` (`Rename`): `frame.rename(columns=table)` for any table, then its facts for
  the feature table.
- `labels.dfy` (`Labels`): the label table `{0: "malignant", 1: "benign"}` and the list
  comprehension that looks every predicted code up in it.
- `batch_job.dfy` (`BatchJob`): the three result columns and the whole job.
  - `RunJobWith` is stated for any pair of tables, with `JobTables` holding the pair.
  - `RunJob` is the job with its own two tables, `SourceTables`.
  - The model's predicted codes and class probabilities are parameters of the job.

## Model

| member | source | states |
|---|---|---|
| SchemaCheck.MissingColumns | batch/batch_spark_predict.py:36-37 | a name is missing exactly when it is required and absent from the header |
| SchemaCheck.Validate | batch/batch_spark_predict.py:36-40 | the check passes exactly when every required name is in the header; a failure carries a non-empty subset of the required names, namely every absent one |
| SchemaCheck.ValidateFailsIffMissing | batch/batch_spark_predict.py:37-40 | the job raises exactly when the missing set is non-empty, and the error carries exactly that set |
| SchemaCheck.MissingDependsOnlyOnRequiredNames | batch/batch_spark_predict.py:36-37 | headers that agree on the required names have the same missing set, whatever their other columns and their order |
| SchemaCheck.MoreColumnsFewerMissing | batch/batch_spark_predict.py:36-37 | a header containing another header's names has no more missing names |
| SchemaCheck.ExtraColumnsNeverFail | batch/batch_spark_predict.py:36-40 | adding columns before or after a passing header never makes it fail |
| SchemaCheck.SingleMissingColumn | batch/batch_spark_predict.py:37-40 | a header lacking exactly one required name fails with exactly that one name |
| FeatureNames.MeanRowsHead | batch/batch_spark_predict.py:59-63 | each of these rows maps an underscore name without spaces to the same name with its underscores replaced by spaces |
| FeatureNames.MeanRowsTail | batch/batch_spark_predict.py:64-68 | each of these rows maps an underscore name without spaces to the same name with its underscores replaced by spaces |
| FeatureNames.ErrorRowsHead | batch/batch_spark_predict.py:70-74 | each of these rows maps an underscore name without spaces to the same name with its underscores replaced by spaces |
| FeatureNames.ErrorRowsTail | batch/batch_spark_predict.py:75-79 | each of these rows maps an underscore name without spaces to the same name with its underscores replaced by spaces |
| FeatureNames.WorstRowsHead | batch/batch_spark_predict.py:81-85 | each of these rows maps an underscore name without spaces to the same name with its underscores replaced by spaces |
| FeatureNames.WorstRowsTail | batch/batch_spark_predict.py:86-90 | each of these rows maps an underscore name without spaces to the same name with its underscores replaced by spaces |
| FeatureNames.MeanRows | batch/batch_spark_predict.py:59-68 | every row of the `mean_` block is a spaced-form row |
| FeatureNames.ErrorRows | batch/batch_spark_predict.py:70-79 | every row of the `_error` block is a spaced-form row |
| FeatureNames.WorstRows | batch/batch_spark_predict.py:81-90 | every row of the `worst_` block is a spaced-form row |
| FeatureNames.MeanKeys | batch/batch_spark_predict.py:28-34 | the first ten required names are exactly the keys of the `mean_` block of the rename table |
| FeatureNames.ErrorKeys | batch/batch_spark_predict.py:28-34 | the next ten required names are exactly the keys of the `_error` block |
| FeatureNames.WorstKeys | batch/batch_spark_predict.py:28-34 | the last ten required names are exactly the keys of the `worst_` block |
| FeatureNames.RequiredColumnsAreBlockKeys | batch/batch_spark_predict.py:28-34 | the required set is the union of the keys of the three blocks |
| FeatureNames.MappingDomain | batch/batch_spark_predict.py:58-91 | the rename table's keys are exactly the required columns, and both have thirty entries |
| FeatureNames.MappingIsSpacedForm | batch/batch_spark_predict.py:58-91 | every key has an underscore and no space, and its value is the key with underscores spaced out |
| FeatureNames.MappingInjective | batch/batch_spark_predict.py:58-91 | no two keys map to the same training-schema name |
| FeatureNames.MappingValuesAreInternal | batch/batch_spark_predict.py:58-91 | every value has a space and no underscore, and no value is a key |
| FeatureNames.UnderscoredSpaced | batch/batch_spark_predict.py:58-91 | spacing out a name without spaces and restoring its underscores gives the name back |
| FeatureNames.SpacedUnderscored | batch/batch_spark_predict.py:58-91 | restoring underscores in a name without underscores and spacing them out again gives the name back |
| Frames.Lookup | batch/batch_spark_predict.py:107-109 | a label reads a column exactly when the frame has a column with that label |
| Frames.SetColumn | batch/batch_spark_predict.py:107-109 | `frame[name] = cells` keeps the row count and the label set plus `name`; it replaces the cells of every column labelled `name` in place when the label is present, appends at the right when `name` is new, and leaves other columns untouched |
| Frames.LookupAfterSet | batch/batch_spark_predict.py:107-109 | reading a column right after assigning it gives the assigned cells |
| Frames.LookupOtherAfterSet | batch/batch_spark_predict.py:107-109 | assigning one column does not change what any other label reads |
| Frames.SetColumnTwice | batch/batch_spark_predict.py:107-109 | assigning the same label twice leaves the frame as a single assignment of the later cells |
| Rename.RenameLabels | batch/batch_spark_predict.py:94 | each label is replaced by its table value when it is a key, and kept otherwise, position by position |
| Rename.RenameColumns | batch/batch_spark_predict.py:94 | the rename keeps the column count, order, cells and row count; only the labels change, as `RenameLabels` says |
| Rename.FixesExactlyNonKeys | batch/batch_spark_predict.py:94 | when no value is a key, a label is unchanged exactly when it is not a key |
| Rename.RenameTwiceIsOnce | batch/batch_spark_predict.py:94 | when no value is a key, renaming twice equals renaming once |
| Rename.NoKeyLeft | batch/batch_spark_predict.py:94 | when no value is a key, no key remains among the renamed labels |
| Rename.PresentKeysBringValues | batch/batch_spark_predict.py:94 | every key present among the labels puts its value among the renamed labels |
| Rename.ValidatedKeysBringValues | batch/batch_spark_predict.py:36-94 | after a passing check against the table's keys, every table value labels a renamed column |
| Rename.RenamedLabelsMissAll | batch/batch_spark_predict.py:36-94 | when the table's keys are the required names and no value is a key, the check against the table's keys run after the rename would miss every key |
| Rename.FeatureTableHasNoChains | batch/batch_spark_predict.py:58-91 | no value of the feature table is one of its keys |
| Rename.FeatureRenameChangesExactlyRequired | batch/batch_spark_predict.py:28-94 | the feature rename changes a label exactly when it is a required column name |
| Rename.FeatureRenameIdempotent | batch/batch_spark_predict.py:94 | applying the feature rename twice equals applying it once |
| Rename.RenameAfterValidation | batch/batch_spark_predict.py:28-94 | after a passing check, every training-schema name labels a renamed column |
| Rename.RenamedLabelsMissAllRequired | batch/batch_spark_predict.py:28-94 | after the feature rename, no required underscore name is left |
| Rename.FeatureRenameRoundTrip | batch/batch_spark_predict.py:58-94 | mapping a renamed label back to its underscore form gives the original label, for every label that is not already a training-schema name |
| Labels.LabelOf | batch/batch_spark_predict.py:105 | a code has a label exactly when it is 0 or 1: 0 is "malignant", 1 is "benign" |
| Labels.LabelRoundTrip | batch/batch_spark_predict.py:105 | the label table is a bijection: a code's label reads back as that code, and only that code |
| Labels.LabelAll | batch/batch_spark_predict.py:108 | the lookup succeeds exactly when every code is 0 or 1, giving one label per code in order; otherwise it fails with the first code that has no label |
| Labels.LabelsAgreeWithCodes | batch/batch_spark_predict.py:105-108 | a row is "malignant" exactly when its code is 0, and "benign" exactly when its code is 1 |
| Labels.LabelAllExamples | batch/batch_spark_predict.py:105-108 | a worked example of `LabelAll`'s contract, not a further property: codes 0, 1, 1 are labelled malignant, benign, benign; codes 1, 2, 5 stop the lookup at 2 |
| BatchJob.RowMax | batch/batch_spark_predict.py:109 | the row maximum is one of the row's probabilities and no probability exceeds it |
| BatchJob.MaxProbabilities | batch/batch_spark_predict.py:109 | one maximum per row, each the maximum of its row |
| BatchJob.AppendPredictions | batch/batch_spark_predict.py:107-109 | setting the result columns succeeds exactly when every code is known; a failure names the first code in row order that has no label; the row count is kept |
| BatchJob.LabelsAreDiagnoses | batch/batch_spark_predict.py:105-108 | on known codes, the label column is the diagnosis of each code |
| BatchJob.ResultColumnsReadBack | batch/batch_spark_predict.py:107-109 | the three result columns read back as the codes, their diagnoses and each row's largest probability |
| BatchJob.OtherColumnsReadAsBefore | batch/batch_spark_predict.py:107-109 | every other column reads as it did before the result columns were set |
| BatchJob.AppendedLayout | batch/batch_spark_predict.py:107-109 | on a frame without the result names, the output is the old columns followed by the code, label and probability columns |
| BatchJob.AppendedNames | batch/batch_spark_predict.py:107-109 | a label is present afterwards exactly when it was present before or is a result column name |
| BatchJob.OutputNameNotRequired | batch/batch_spark_predict.py:28-34 | no name that starts with 'p' and does not end in 'r' is a required input column |
| BatchJob.OutputNamesAreNotRequired | batch/batch_spark_predict.py:28-34 | none of the three result column names is a required input column |
| BatchJob.TrainingNamesAreNotOutputNames | batch/batch_spark_predict.py:58-109 | no training-schema name of the rename table is one of the three result column names |
| BatchJob.SourceTablesConsistent | batch/batch_spark_predict.py:28-91 | the job's own tables rename exactly the required names, never rename a label twice, and never involve a result column name |
| BatchJob.RunJobWith | batch/batch_spark_predict.py:36-109 | given the model's outputs, the job stops with the missing set exactly when it is non-empty, and succeeds exactly when nothing is missing and every code is known; a label failure names the first unknown code in row order |
| BatchJob.RunJob | batch/batch_spark_predict.py:28-109 | with the job's own thirty required columns and rename table, and given the model's outputs: the missing-set failure exactly when a required column is absent, success exactly when none is and every code is known, a label failure naming the first unknown code in row order, and the row count kept |
| BatchJob.OutputNamesSurviveRename | batch/batch_spark_predict.py:94-109 | under consistent tables, a result column name absent from the input is still absent after the rename |
| BatchJob.JobOutputLayoutWith | batch/batch_spark_predict.py:94-109 | under consistent tables (the rename keys are the required names, no value is a key, and neither table contains a result name), on success, and on an input carrying none of the three result names, the output is the renamed input columns with unchanged cells, followed by the code, diagnosis and maximum-probability columns |
| BatchJob.JobOutputCarriesTrainingNamesWith | batch/batch_spark_predict.py:36-109 | under consistent tables (the rename keys are the required names, no value is a key, and neither table contains a result name), on success, every rename value labels an output column and no required name does |
| BatchJob.JobOutputLayout | batch/batch_spark_predict.py:58-109 | `JobOutputLayoutWith` for the job's own tables, on an input carrying none of the three result names |
| BatchJob.JobOutputCarriesTrainingNames | batch/batch_spark_predict.py:28-109 | `JobOutputCarriesTrainingNamesWith` for the job's own tables: all thirty training names are present and no required underscore name is |
| BatchJob.JobReportsSingleMissingColumn | batch/batch_spark_predict.py:28-40 | an input lacking exactly one required column stops the job with exactly that name |

## Left out

- Spark session set-up, the CSV read, `printSchema` and `show` (`batch/batch_spark_predict.py`
  lines 14-26, 51): I/O and diagnostics output. Of the Spark frame, the job reads only its column
  names (line 36); its cells reach `RunJob` through `toPandas` (line 55).
- The null-count step (lines 44-49): it counts nulls per column and reports them. It is not
  modelled. It can also stop the job, because `col(c)` reads a dot in a header name as a
  field path: a name such as `patient.id` raises there, before the model runs.
- `toPandas`, `joblib.load` and `to_csv` (lines 55, 97-99, 111-112): I/O. The collected
  frame is the input of `RunJob`, and the output frame is its result.
- `model.predict` and `model.predict_proba` (lines 102-103): the fitted pipeline is not
  part of this model. Its outputs are parameters of the job.
  - `FitsTable` requires one code and one non-empty probability row per frame row.
  - For other shapes, numpy or pandas would raise: a length mismatch fails the column
    assignment, and an empty probability row fails the row maximum. The pipeline never
    returns such shapes.
- BatchJob.RunJobWith and BatchJob.RunJob: the success condition holds only for runs in
  which `model.predict` and `model.predict_proba` (lines 102-103) return. The pipeline can
  itself raise, for example on columns it was not fit on or on null cells, which the
  null-count step (lines 44-53) only reports. The null-count step itself can raise on a
  header name containing a dot. Such failures are not modelled.
- BatchJob.MaxProbabilities: probabilities are exact reals, not 64-bit floats. NaN and
  rounding are not modelled.
- Spark's handling of duplicate or empty header names when it reads the CSV: not modelled.
  The header is taken as Spark reports it.
- Frames.SetColumn: pandas' dtype inference and index alignment are not modelled. A column
  is a list of cells.
- BatchJob.JobOutputLayout: the column layout is stated only for inputs that carry none of
  the three result column names. For other inputs, pandas overwrites those columns where they
  stand. `Frames.SetColumn` models that case, and `BatchJob.ResultColumnsReadBack` covers it.
- `app/main.py`, the web service's health-check route, and `batch/batch_predict.py`, which
  holds only a module docstring: not part of this model.

## Notes on the code

The job checks the required columns (`batch/batch_spark_predict.py` lines 36-40) before it
renames them (line 94). `RunJobWith` keeps that order: the check runs on the header as read,
and the rename runs only when the check passes.
