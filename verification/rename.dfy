/**
 * The rename the job applies to the collected table before handing it to the model,
 * `pdf.rename(columns=FEATURE_NAME_MAPPING)`: every column labelled with a key of the table
 * takes that key's value as its label, every other column keeps its label. The operation is
 * stated for any rename table, as pandas defines it, and its facts are then drawn for the
 * feature table.
 */
module Rename {
  import opened FeatureNames
  import opened Frames
  import opened SchemaCheck

  /** The new label of one column: a key of `table` is replaced by its value, any other label kept. */
  function RenameLabel(table: map<string, string>, name: string): string {
    if name in table then table[name] else name
  }

  /** The labels of a table after the rename, position by position. */
  function RenameLabels(table: map<string, string>, names: seq<string>): (renamed: seq<string>)
    ensures |renamed| == |names|
    ensures forall i | 0 <= i < |names| :: renamed[i] == RenameLabel(table, names[i])
  {
    seq(|names|, i requires 0 <= i < |names| => RenameLabel(table, names[i]))
  }

  /**
   * The table after the rename: the same number of columns in the same order, every column
   * keeping its cells and the row count, only the labels changed.
   */
  function RenameColumns(table: map<string, string>, f: Frame): (g: Frame)
    ensures g.rowCount == f.rowCount
    ensures |g.columns| == |f.columns|
    ensures forall j | 0 <= j < |f.columns| :: g.columns[j].cells == f.columns[j].cells
    ensures Names(g) == RenameLabels(table, Names(f))
    ensures WellFormed(f) ==> WellFormed(g)
  {
    Frame(seq(|f.columns|, j requires 0 <= j < |f.columns| =>
      Column(RenameLabel(table, f.columns[j].name), f.columns[j].cells)), f.rowCount)
  }

  /** A rename table none of whose values is itself one of its keys. */
  predicate NoValueIsKey(table: map<string, string>) {
    forall k | k in table :: table[k] !in table
  }

  /** Under such a table a label survives unchanged exactly when it is not a key. */
  lemma FixesExactlyNonKeys(table: map<string, string>, name: string)
    requires NoValueIsKey(table)
    ensures RenameLabel(table, name) == name <==> name !in table
  {
  }

  /** Under such a table renaming twice is renaming once. */
  lemma RenameTwiceIsOnce(table: map<string, string>, names: seq<string>)
    requires NoValueIsKey(table)
    ensures RenameLabels(table, RenameLabels(table, names)) == RenameLabels(table, names)
  {
    var once := RenameLabels(table, names);
    forall i | 0 <= i < |names|
      ensures RenameLabel(table, once[i]) == once[i]
    {
      FixesExactlyNonKeys(table, names[i]);
    }
  }

  /** Under such a table no key is left among the renamed labels. */
  lemma NoKeyLeft(table: map<string, string>, names: seq<string>)
    requires NoValueIsKey(table)
    ensures forall c | c in table :: c !in RenameLabels(table, names)
  {
  }

  /** Every key present among the labels brings its value among the renamed labels. */
  lemma PresentKeysBringValues(table: map<string, string>, names: seq<string>)
    ensures forall k | k in table && k in names :: table[k] in RenameLabels(table, names)
  {
    var renamed := RenameLabels(table, names);
    forall k | k in table && k in names
      ensures table[k] in renamed
    {
      var i :| 0 <= i < |names| && names[i] == k;
      assert renamed[i] == table[k];
    }
  }

  /** The feature table renames no label twice: none of its values is one of its keys. */
  lemma FeatureTableHasNoChains()
    ensures NoValueIsKey(FeatureNameMapping)
  {
    MappingValuesAreInternal();
  }

  /** With the feature table, a label changes exactly when it is a required column name. */
  lemma FeatureRenameChangesExactlyRequired(name: string)
    ensures RenameLabel(FeatureNameMapping, name) != name <==> name in RequiredColumns
  {
    assert FeatureNameMapping.Keys == RequiredColumns by {
      MappingDomain();
    }
    FeatureTableHasNoChains();
    FixesExactlyNonKeys(FeatureNameMapping, name);
  }

  /** With the feature table, renaming the labels twice is renaming them once. */
  lemma FeatureRenameIdempotent(names: seq<string>)
    ensures RenameLabels(FeatureNameMapping, RenameLabels(FeatureNameMapping, names))
         == RenameLabels(FeatureNameMapping, names)
  {
    FeatureTableHasNoChains();
    RenameTwiceIsOnce(FeatureNameMapping, names);
  }

  /**
   * When the rename table's keys are the required names and the required-column check has
   * passed, every value of the table labels a column after the rename.
   */
  lemma ValidatedKeysBringValues(required: set<string>, table: map<string, string>, names: seq<string>)
    requires table.Keys == required
    requires Validate(required, names).Pass?
    ensures forall k | k in table :: table[k] in RenameLabels(table, names)
  {
    PresentKeysBringValues(table, names);
  }

  /**
   * When the rename table's keys are the required names and no value is a key, no required
   * name is left after the rename: the check run on the renamed labels misses every one.
   */
  lemma RenamedLabelsMissAll(required: set<string>, table: map<string, string>, names: seq<string>)
    requires table.Keys == required && NoValueIsKey(table)
    ensures MissingColumns(required, RenameLabels(table, names)) == required
  {
    NoKeyLeft(table, names);
  }

  /** When the required-column check passes, the renamed labels carry every training-schema name of the feature table. */
  lemma RenameAfterValidation(names: seq<string>)
    requires Validate(RequiredColumns, names).Pass?
    ensures forall k | k in FeatureNameMapping :: FeatureNameMapping[k] in RenameLabels(FeatureNameMapping, names)
  {
    MappingDomain();
    ValidatedKeysBringValues(RequiredColumns, FeatureNameMapping, names);
  }

  /**
   * After the feature rename no required name is left among the labels, so the
   * required-column check run on renamed labels reports every required name missing.
   */
  lemma RenamedLabelsMissAllRequired(names: seq<string>)
    ensures MissingColumns(RequiredColumns, RenameLabels(FeatureNameMapping, names)) == RequiredColumns
  {
    MappingDomain();
    FeatureTableHasNoChains();
    RenamedLabelsMissAll(RequiredColumns, FeatureNameMapping, names);
  }

  /** The label a training-schema name of the feature table had before the rename; any other label is its own. */
  function ExternalNameOf(name: string): string {
    if IsInternalName(name) && Underscored(name) in FeatureNameMapping then Underscored(name) else name
  }

  /**
   * The feature rename is undone label by label, for every label that is not already a
   * training-schema name of the table (such a label is indistinguishable from a renamed one).
   */
  lemma FeatureRenameRoundTrip(name: string)
    requires name !in FeatureNameMapping.Values
    ensures ExternalNameOf(RenameLabel(FeatureNameMapping, name)) == name
  {
    MappingIsSpacedForm();
    if name in FeatureNameMapping {
      SpacedIsInternal(name);
      UnderscoredSpaced(name);
    } else if IsInternalName(name) && Underscored(name) in FeatureNameMapping {
      SpacedUnderscored(name);
      assert false;
    }
  }
}
