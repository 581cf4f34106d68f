/**
 * The Spark batch job end to end, between reading the input file and writing the output
 * file: the required-column check on the input header, the feature rename, and the three
 * result columns set on the renamed table. The model is opaque: its class codes and class
 * probabilities for the renamed table are parameters of the job.
 */
module BatchJob {
  import opened Wrappers
  import opened FeatureNames
  import opened SchemaCheck
  import opened Frames
  import opened Rename
  import opened Labels

  /** Why the job stops: the `ValueError` of the column check, or the `KeyError` of the label lookup. */
  datatype JobError = MissingRequiredColumns(missing: set<string>) | UnknownClassCode(code: int)

  const PredictionCodeColumn: string := "prediction_code"
  const PredictionColumn: string := "prediction"
  const ProbabilityColumn: string := "probability"

  /** The result columns, in the order the job sets them. */
  const OutputColumns: seq<string> := [PredictionCodeColumn, PredictionColumn, ProbabilityColumn]

  /** The largest class probability of one row. */
  function RowMax(row: seq<real>): (m: real)
    requires |row| > 0
    ensures m in row
    ensures forall x | x in row :: x <= m
  {
    if |row| == 1 then row[0]
    else
      var rest := RowMax(row[1..]);
      assert row == [row[0]] + row[1..];
      if row[0] >= rest then row[0] else rest
  }

  /** `probabilities.max(axis=1)`: the largest class probability of every row. */
  function MaxProbabilities(probabilities: seq<seq<real>>): (r: seq<real>)
    requires forall i | 0 <= i < |probabilities| :: |probabilities[i]| > 0
    ensures |r| == |probabilities|
    ensures forall i | 0 <= i < |r| :: r[i] == RowMax(probabilities[i])
  {
    seq(|probabilities|, i requires 0 <= i < |probabilities| && |probabilities[i]| > 0 => RowMax(probabilities[i]))
  }

  function IntCells(xs: seq<int>): (cells: seq<Cell>)
    ensures |cells| == |xs|
    ensures forall i | 0 <= i < |xs| :: cells[i] == IntCell(xs[i])
  {
    seq(|xs|, i requires 0 <= i < |xs| => IntCell(xs[i]))
  }

  function TextCells(xs: seq<string>): (cells: seq<Cell>)
    ensures |cells| == |xs|
    ensures forall i | 0 <= i < |xs| :: cells[i] == TextCell(xs[i])
  {
    seq(|xs|, i requires 0 <= i < |xs| => TextCell(xs[i]))
  }

  function RealCells(xs: seq<real>): (cells: seq<Cell>)
    ensures |cells| == |xs|
    ensures forall i | 0 <= i < |xs| :: cells[i] == RealCell(xs[i])
  {
    seq(|xs|, i requires 0 <= i < |xs| => RealCell(xs[i]))
  }

  /** The model's outputs fit the table: one class code and one non-empty probability row per row. */
  predicate FitsTable(f: Frame, codes: seq<int>, probabilities: seq<seq<real>>) {
    && |codes| == f.rowCount
    && |probabilities| == f.rowCount
    && forall i | 0 <= i < |probabilities| :: |probabilities[i]| > 0
  }

  /** Every code has a label in the label table. */
  predicate AllCodesKnown(codes: seq<int>) {
    forall i | 0 <= i < |codes| :: codes[i] == 0 || codes[i] == 1
  }

  /** The diagnosis the label table gives a known code. */
  function DiagnosisOf(code: int): string {
    if code == 0 then Malignant else Benign
  }

  /** The diagnosis column the job writes for codes that all have a label. */
  function DiagnosisCells(codes: seq<int>): seq<Cell> {
    TextCells(seq(|codes|, i requires 0 <= i < |codes| => DiagnosisOf(codes[i])))
  }

  /**
   * The three result columns set on a table in the job's order: codes, then labels, then
   * probabilities. The label lookup stops the job at the first code that has no label.
   */
  function AppendPredictions(f: Frame, codes: seq<int>, probabilities: seq<seq<real>>): (r: Result<Frame, JobError>)
    requires FitsTable(f, codes, probabilities)
    ensures r.Success? <==> AllCodesKnown(codes)
    ensures r.Failure? ==> r.error.UnknownClassCode? && r.error.code !in LabelMap
    ensures r.Failure? ==> exists i | 0 <= i < |codes| ::
      (codes[i] == r.error.code && forall j | 0 <= j < i :: codes[j] in LabelMap)
    ensures r.Success? ==> r.value.rowCount == f.rowCount && (WellFormed(f) ==> WellFormed(r.value))
  {
    var withCodes := SetColumn(f, PredictionCodeColumn, IntCells(codes));
    match LabelAll(codes)
    case Failure(code) => Failure(UnknownClassCode(code))
    case Success(labels) =>
      var withLabels := SetColumn(withCodes, PredictionColumn, TextCells(labels));
      Success(SetColumn(withLabels, ProbabilityColumn, RealCells(MaxProbabilities(probabilities))))
  }

  /** On known codes the label lookup yields exactly the diagnosis of every code. */
  lemma LabelsAreDiagnoses(codes: seq<int>)
    requires AllCodesKnown(codes)
    ensures LabelAll(codes).Success?
    ensures TextCells(LabelAll(codes).value) == DiagnosisCells(codes)
  {
    var labels := LabelAll(codes).value;
    assert labels == seq(|codes|, i requires 0 <= i < |codes| => DiagnosisOf(codes[i]));
  }

  /**
   * Reading each result column back gives what the job wrote, whatever columns the table
   * carried before: the codes, their diagnoses, and the largest probability of each row.
   */
  lemma ResultColumnsReadBack(f: Frame, codes: seq<int>, probabilities: seq<seq<real>>)
    requires FitsTable(f, codes, probabilities)
    requires AllCodesKnown(codes)
    ensures AppendPredictions(f, codes, probabilities).Success?
    ensures Lookup(AppendPredictions(f, codes, probabilities).value, PredictionCodeColumn) == Some(IntCells(codes))
    ensures Lookup(AppendPredictions(f, codes, probabilities).value, PredictionColumn) == Some(DiagnosisCells(codes))
    ensures Lookup(AppendPredictions(f, codes, probabilities).value, ProbabilityColumn)
         == Some(RealCells(MaxProbabilities(probabilities)))
  {
    LabelsAreDiagnoses(codes);
    var labels := TextCells(LabelAll(codes).value);
    var maxima := RealCells(MaxProbabilities(probabilities));
    var withCodes := SetColumn(f, PredictionCodeColumn, IntCells(codes));
    var withLabels := SetColumn(withCodes, PredictionColumn, labels);
    LookupAfterSet(f, PredictionCodeColumn, IntCells(codes));
    LookupOtherAfterSet(withCodes, PredictionColumn, labels, PredictionCodeColumn);
    LookupOtherAfterSet(withLabels, ProbabilityColumn, maxima, PredictionCodeColumn);
    LookupAfterSet(withCodes, PredictionColumn, labels);
    LookupOtherAfterSet(withLabels, ProbabilityColumn, maxima, PredictionColumn);
    LookupAfterSet(withLabels, ProbabilityColumn, maxima);
  }

  /** Setting the result columns leaves every column with another label reading as before. */
  lemma OtherColumnsReadAsBefore(f: Frame, codes: seq<int>, probabilities: seq<seq<real>>, name: string)
    requires FitsTable(f, codes, probabilities)
    requires AllCodesKnown(codes)
    requires name !in OutputColumns
    ensures AppendPredictions(f, codes, probabilities).Success?
    ensures Lookup(AppendPredictions(f, codes, probabilities).value, name) == Lookup(f, name)
  {
    var labels := TextCells(LabelAll(codes).value);
    var maxima := RealCells(MaxProbabilities(probabilities));
    var withCodes := SetColumn(f, PredictionCodeColumn, IntCells(codes));
    var withLabels := SetColumn(withCodes, PredictionColumn, labels);
    LookupOtherAfterSet(f, PredictionCodeColumn, IntCells(codes), name);
    LookupOtherAfterSet(withCodes, PredictionColumn, labels, name);
    LookupOtherAfterSet(withLabels, ProbabilityColumn, maxima, name);
  }

  /**
   * On success the result columns stand to the right of the table's columns, which are left
   * as they were, provided the table carries none of the result column names.
   */
  lemma AppendedLayout(f: Frame, codes: seq<int>, probabilities: seq<seq<real>>)
    requires FitsTable(f, codes, probabilities)
    requires AllCodesKnown(codes)
    requires forall n | n in OutputColumns :: n !in Names(f)
    ensures AppendPredictions(f, codes, probabilities).Success?
    ensures AppendPredictions(f, codes, probabilities).value.columns == f.columns + [
      Column(PredictionCodeColumn, IntCells(codes)),
      Column(PredictionColumn, DiagnosisCells(codes)),
      Column(ProbabilityColumn, RealCells(MaxProbabilities(probabilities)))]
  {
    LabelsAreDiagnoses(codes);
    var withCodes := SetColumn(f, PredictionCodeColumn, IntCells(codes));
    assert PredictionColumn !in Names(withCodes);
    var withLabels := SetColumn(withCodes, PredictionColumn, DiagnosisCells(codes));
    assert ProbabilityColumn !in Names(withLabels);
  }

  /** On success a name labels a column exactly when it labelled one before or is a result column name. */
  lemma AppendedNames(f: Frame, codes: seq<int>, probabilities: seq<seq<real>>)
    requires FitsTable(f, codes, probabilities)
    requires AllCodesKnown(codes)
    ensures AppendPredictions(f, codes, probabilities).Success?
    ensures forall n :: n in Names(AppendPredictions(f, codes, probabilities).value) <==> n in Names(f) || n in OutputColumns
  {
  }

  /**
   * The constants the job is configured with: the required input columns and the rename
   * table. `SourceTables` holds the job's own `REQUIRED_COLUMNS` and `FEATURE_NAME_MAPPING`.
   */
  datatype JobTables = JobTables(required: set<string>, renames: map<string, string>)

  const SourceTables: JobTables := JobTables(RequiredColumns, FeatureNameMapping)

  /**
   * What the job relies on its tables for: the rename table renames exactly the required
   * names, never renames a label twice, and neither table touches a result column name.
   */
  predicate Consistent(t: JobTables) {
    && t.renames.Keys == t.required
    && NoValueIsKey(t.renames)
    && (forall n | n in OutputColumns :: n !in t.required)
    && forall k | k in t.renames :: t.renames[k] !in OutputColumns
  }

  /** The result column names are not required input names. */
  lemma OutputNamesAreNotRequired()
    ensures forall n | n in OutputColumns :: n !in RequiredColumns
  {
    OutputNameNotRequired(PredictionCodeColumn);
    OutputNameNotRequired(PredictionColumn);
    OutputNameNotRequired(ProbabilityColumn);
  }

  /**
   * A name starting with 'p' and not ending in 'r' is not required: the `mean_` and `worst_`
   * names start with 'm' and 'w', and every `_error` name ends in 'r'.
   */
  lemma OutputNameNotRequired(n: string)
    requires |n| > 0 && n[0] == 'p' && n[|n| - 1] != 'r'
    ensures n !in RequiredColumns
  {
    MeanKeys();
    ErrorKeys();
    WorstKeys();
    MeanInitials();
    ErrorFinals();
    WorstInitials();
  }

  /** No training-schema name of the feature table is a result column name. */
  lemma TrainingNamesAreNotOutputNames()
    ensures forall k | k in FeatureNameMapping :: FeatureNameMapping[k] !in OutputColumns
  {
    MappingValuesAreInternal();
    assert forall n | n in OutputColumns :: ' ' !in n;
  }

  /** The job's own tables are consistent. */
  lemma SourceTablesConsistent()
    ensures Consistent(SourceTables)
  {
    assert SourceTables.renames.Keys == SourceTables.required by {
      MappingDomain();
    }
    assert NoValueIsKey(SourceTables.renames) by {
      FeatureTableHasNoChains();
    }
    assert forall n | n in OutputColumns :: n !in SourceTables.required by {
      OutputNamesAreNotRequired();
    }
    assert forall k | k in SourceTables.renames :: SourceTables.renames[k] !in OutputColumns by {
      TrainingNamesAreNotOutputNames();
    }
  }

  /**
   * The job under given tables: check the header, stop with the missing set if a required
   * column is absent, otherwise rename the columns and set the result columns from the
   * model's outputs.
   */
  function RunJobWith(t: JobTables, input: Frame, codes: seq<int>, probabilities: seq<seq<real>>): (r: Result<Frame, JobError>)
    requires FitsTable(input, codes, probabilities)
    ensures (r.Failure? && r.error.MissingRequiredColumns?) <==> MissingColumns(t.required, Names(input)) != {}
    ensures r.Failure? && r.error.MissingRequiredColumns? ==> r.error.missing == MissingColumns(t.required, Names(input))
    ensures r.Success? <==> MissingColumns(t.required, Names(input)) == {} && AllCodesKnown(codes)
    ensures r.Failure? && r.error.UnknownClassCode? ==> exists i | 0 <= i < |codes| ::
      (codes[i] == r.error.code && codes[i] !in LabelMap && forall j | 0 <= j < i :: codes[j] in LabelMap)
    ensures r.Success? ==> r.value.rowCount == input.rowCount
  {
    match Validate(t.required, Names(input))
    case Fail(missing) => Failure(MissingRequiredColumns(missing))
    case Pass =>
      assert MissingColumns(t.required, Names(input)) == {};
      AppendPredictions(RenameColumns(t.renames, input), codes, probabilities)
  }

  /** The Spark batch job as written: its own required columns and feature rename table. */
  function RunJob(input: Frame, codes: seq<int>, probabilities: seq<seq<real>>): (r: Result<Frame, JobError>)
    requires FitsTable(input, codes, probabilities)
    ensures (r.Failure? && r.error.MissingRequiredColumns?) <==> MissingColumns(RequiredColumns, Names(input)) != {}
    ensures r.Failure? && r.error.MissingRequiredColumns? ==> r.error.missing == MissingColumns(RequiredColumns, Names(input))
    ensures r.Success? <==> MissingColumns(RequiredColumns, Names(input)) == {} && AllCodesKnown(codes)
    ensures r.Failure? && r.error.UnknownClassCode? ==> exists i | 0 <= i < |codes| ::
      (codes[i] == r.error.code && codes[i] !in LabelMap && forall j | 0 <= j < i :: codes[j] in LabelMap)
    ensures r.Success? ==> r.value.rowCount == input.rowCount
  {
    RunJobWith(SourceTables, input, codes, probabilities)
  }

  /** A result column name absent from the input is absent after the rename too. */
  lemma OutputNamesSurviveRename(t: JobTables, names: seq<string>)
    requires Consistent(t)
    requires forall n | n in OutputColumns :: n !in names
    ensures forall n | n in OutputColumns :: n !in RenameLabels(t.renames, names)
  {
  }

  /**
   * When the input carries none of the result column names, the output is the renamed input
   * columns, each with its cells unchanged and in the same order, followed by the code, label
   * and probability columns; the row count is unchanged.
   */
  lemma JobOutputLayoutWith(t: JobTables, input: Frame, codes: seq<int>, probabilities: seq<seq<real>>)
    requires Consistent(t)
    requires FitsTable(input, codes, probabilities) && WellFormed(input)
    requires RunJobWith(t, input, codes, probabilities).Success?
    requires forall n | n in OutputColumns :: n !in Names(input)
    ensures var out := RunJobWith(t, input, codes, probabilities).value;
      && out.rowCount == input.rowCount && WellFormed(out)
      && Names(out) == RenameLabels(t.renames, Names(input)) + OutputColumns
      && |out.columns| == |input.columns| + 3
      && (forall j | 0 <= j < |input.columns| :: out.columns[j].cells == input.columns[j].cells)
      && out.columns[|input.columns|] == Column(PredictionCodeColumn, IntCells(codes))
      && out.columns[|input.columns| + 1] == Column(PredictionColumn, DiagnosisCells(codes))
      && out.columns[|input.columns| + 2] == Column(ProbabilityColumn, RealCells(MaxProbabilities(probabilities)))
  {
    var renamed := RenameColumns(t.renames, input);
    OutputNamesSurviveRename(t, Names(input));
    AppendedLayout(renamed, codes, probabilities);
    var out := RunJobWith(t, input, codes, probabilities).value;
    assert out == AppendPredictions(renamed, codes, probabilities).value;
    assert Names(out) == Names(renamed) + OutputColumns;
  }

  /**
   * On success every value of the rename table labels a column of the output and no
   * required name does: the check run on the output would report every required name missing.
   */
  lemma JobOutputCarriesTrainingNamesWith(t: JobTables, input: Frame, codes: seq<int>, probabilities: seq<seq<real>>)
    requires Consistent(t)
    requires FitsTable(input, codes, probabilities)
    requires RunJobWith(t, input, codes, probabilities).Success?
    ensures forall k | k in t.renames :: t.renames[k] in Names(RunJobWith(t, input, codes, probabilities).value)
    ensures MissingColumns(t.required, Names(RunJobWith(t, input, codes, probabilities).value)) == t.required
  {
    var renamed := RenameColumns(t.renames, input);
    ValidatedKeysBringValues(t.required, t.renames, Names(input));
    RenamedLabelsMissAll(t.required, t.renames, Names(input));
    AppendedNames(renamed, codes, probabilities);
    assert RunJobWith(t, input, codes, probabilities) == AppendPredictions(renamed, codes, probabilities);
  }

  /** `JobOutputLayoutWith` for the job's own tables. */
  lemma JobOutputLayout(input: Frame, codes: seq<int>, probabilities: seq<seq<real>>)
    requires FitsTable(input, codes, probabilities) && WellFormed(input)
    requires RunJob(input, codes, probabilities).Success?
    requires forall n | n in OutputColumns :: n !in Names(input)
    ensures var out := RunJob(input, codes, probabilities).value;
      && out.rowCount == input.rowCount && WellFormed(out)
      && Names(out) == RenameLabels(FeatureNameMapping, Names(input)) + OutputColumns
      && (forall j | 0 <= j < |input.columns| :: out.columns[j].cells == input.columns[j].cells)
      && out.columns[|input.columns|] == Column(PredictionCodeColumn, IntCells(codes))
      && out.columns[|input.columns| + 1] == Column(PredictionColumn, DiagnosisCells(codes))
      && out.columns[|input.columns| + 2] == Column(ProbabilityColumn, RealCells(MaxProbabilities(probabilities)))
  {
    SourceTablesConsistent();
    JobOutputLayoutWith(SourceTables, input, codes, probabilities);
  }

  /** `JobOutputCarriesTrainingNamesWith` for the job's own tables. */
  lemma JobOutputCarriesTrainingNames(input: Frame, codes: seq<int>, probabilities: seq<seq<real>>)
    requires FitsTable(input, codes, probabilities)
    requires RunJob(input, codes, probabilities).Success?
    ensures forall k | k in FeatureNameMapping :: FeatureNameMapping[k] in Names(RunJob(input, codes, probabilities).value)
    ensures MissingColumns(RequiredColumns, Names(RunJob(input, codes, probabilities).value)) == RequiredColumns
  {
    SourceTablesConsistent();
    JobOutputCarriesTrainingNamesWith(SourceTables, input, codes, probabilities);
  }

  /** An input lacking exactly one required column stops the job with exactly that name. */
  lemma JobReportsSingleMissingColumn(input: Frame, codes: seq<int>, probabilities: seq<seq<real>>, absent: string)
    requires FitsTable(input, codes, probabilities)
    requires absent in RequiredColumns && absent !in Names(input)
    requires forall c | c in RequiredColumns && c != absent :: c in Names(input)
    ensures RunJob(input, codes, probabilities) == Failure(MissingRequiredColumns({absent}))
  {
    SingleMissingColumn(RequiredColumns, Names(input), absent);
  }
}
