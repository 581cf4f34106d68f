/**
 * The fixed naming tables of the Spark batch job: the thirty feature columns an input
 * file must carry (external, underscore-joined names such as `mean_radius`) and the
 * mapping from each of them to the name the model was trained with (space-joined,
 * `mean radius`).
 */
module FeatureNames {

  /** The training-schema character for one character of an external name. */
  function SpaceFor(c: char): char {
    if c == '_' then ' ' else c
  }

  /** The external-name character for one character of a training-schema name. */
  function UnderscoreFor(c: char): char {
    if c == ' ' then '_' else c
  }

  /** `name` with every underscore replaced by a space. */
  function Spaced(name: string): string {
    seq(|name|, i requires 0 <= i < |name| => SpaceFor(name[i]))
  }

  /** `name` with every space replaced by an underscore. */
  function Underscored(name: string): string {
    seq(|name|, i requires 0 <= i < |name| => UnderscoreFor(name[i]))
  }

  /** An input-file column name: joined by underscores, never by spaces. */
  predicate IsExternalName(name: string) {
    '_' in name && ' ' !in name
  }

  /** A training-schema column name: joined by spaces, never by underscores. */
  predicate IsInternalName(name: string) {
    ' ' in name && '_' !in name
  }

  /** Replacing underscores by spaces turns an external name into an internal one. */
  lemma SpacedIsInternal(name: string)
    requires IsExternalName(name)
    ensures IsInternalName(Spaced(name))
  {
    var i :| 0 <= i < |name| && name[i] == '_';
    assert Spaced(name)[i] == ' ';
  }

  /** Underscoring undoes spacing on every name that has no space of its own. */
  lemma UnderscoredSpaced(name: string)
    requires ' ' !in name
    ensures Underscored(Spaced(name)) == name
  {
    var back := Underscored(Spaced(name));
    assert |back| == |name|;
    forall i | 0 <= i < |name|
      ensures back[i] == name[i]
    {
      assert name[i] != ' ';
    }
  }

  /** Spacing undoes underscoring on every name that has no underscore of its own. */
  lemma SpacedUnderscored(name: string)
    requires '_' !in name
    ensures Spaced(Underscored(name)) == name
  {
    var back := Spaced(Underscored(name));
    assert |back| == |name|;
    forall i | 0 <= i < |name|
      ensures back[i] == name[i]
    {
      assert name[i] != '_';
    }
  }

  /** Spacing never merges two different names that have no space of their own. */
  lemma SpacedInjective(a: string, b: string)
    requires ' ' !in a && ' ' !in b
    requires Spaced(a) == Spaced(b)
    ensures a == b
  {
    UnderscoredSpaced(a);
    UnderscoredSpaced(b);
  }

  /** The first block of the mapping: the ten `mean` measurements. */
  const MeanFeatures: map<string, string> := map[
    "mean_radius" := "mean radius",
    "mean_texture" := "mean texture",
    "mean_perimeter" := "mean perimeter",
    "mean_area" := "mean area",
    "mean_smoothness" := "mean smoothness",
    "mean_compactness" := "mean compactness",
    "mean_concavity" := "mean concavity",
    "mean_concave_points" := "mean concave points",
    "mean_symmetry" := "mean symmetry",
    "mean_fractal_dimension" := "mean fractal dimension"
  ]

  /** The second block of the mapping: the ten standard-error measurements. */
  const ErrorFeatures: map<string, string> := map[
    "radius_error" := "radius error",
    "texture_error" := "texture error",
    "perimeter_error" := "perimeter error",
    "area_error" := "area error",
    "smoothness_error" := "smoothness error",
    "compactness_error" := "compactness error",
    "concavity_error" := "concavity error",
    "concave_points_error" := "concave points error",
    "symmetry_error" := "symmetry error",
    "fractal_dimension_error" := "fractal dimension error"
  ]

  /** The third block of the mapping: the ten `worst` measurements. */
  const WorstFeatures: map<string, string> := map[
    "worst_radius" := "worst radius",
    "worst_texture" := "worst texture",
    "worst_perimeter" := "worst perimeter",
    "worst_area" := "worst area",
    "worst_smoothness" := "worst smoothness",
    "worst_compactness" := "worst compactness",
    "worst_concavity" := "worst concavity",
    "worst_concave_points" := "worst concave points",
    "worst_symmetry" := "worst symmetry",
    "worst_fractal_dimension" := "worst fractal dimension"
  ]

  /** The rename table, external name to training-schema name, as the three blocks together. */
  const FeatureNameMapping: map<string, string> := MeanFeatures + ErrorFeatures + WorstFeatures

  /** The columns an input file must carry before the job goes on, in three groups of ten as listed. */
  const RequiredColumns: set<string> := MeanColumns + ErrorColumns + WorstColumns

  const MeanColumns: set<string> := {
    "mean_radius", "mean_texture", "mean_perimeter", "mean_area", "mean_smoothness", "mean_compactness",
    "mean_concavity", "mean_concave_points", "mean_symmetry", "mean_fractal_dimension"
  }

  const ErrorColumns: set<string> := {
    "radius_error", "texture_error", "perimeter_error", "area_error", "smoothness_error", "compactness_error",
    "concavity_error", "concave_points_error", "symmetry_error", "fractal_dimension_error"
  }

  const WorstColumns: set<string> := {
    "worst_radius", "worst_texture", "worst_perimeter", "worst_area", "worst_smoothness",
    "worst_compactness", "worst_concavity", "worst_concave_points", "worst_symmetry",
    "worst_fractal_dimension"
  }

  /**
   * One row of the rename table, checked character by character: `internal` is `external`
   * with its underscores spaced out, `external` has no space, and position `u` of
   * `external` is an underscore.
   */
  predicate SpacedRow(external: string, internal: string, u: nat) {
    && |external| == |internal|
    && u < |external| && external[u] == '_'
    && forall i :: 0 <= i < |external| ==> external[i] != ' ' && internal[i] == SpaceFor(external[i])
  }

  /** A row checked character by character pairs an external name with its spaced form. */
  lemma SpacedRowIsSpacedForm(external: string, internal: string, u: nat)
    requires SpacedRow(external, internal, u)
    ensures IsExternalName(external)
    ensures internal == Spaced(external)
  {
    assert external[u] == '_';
  }

  /*
   * The rows of each block, checked literally. Each block is checked in two halves of five
   * rows so that every proof stays small; the block lemma then lifts the rows to the map.
   */
  lemma MeanRowsHead()
    ensures SpacedRow("mean_radius", "mean radius", 4)
    ensures SpacedRow("mean_texture", "mean texture", 4)
    ensures SpacedRow("mean_perimeter", "mean perimeter", 4)
    ensures SpacedRow("mean_area", "mean area", 4)
    ensures SpacedRow("mean_smoothness", "mean smoothness", 4)
  {
  }

  lemma MeanRowsTail()
    ensures SpacedRow("mean_compactness", "mean compactness", 4)
    ensures SpacedRow("mean_concavity", "mean concavity", 4)
    ensures SpacedRow("mean_concave_points", "mean concave points", 4)
    ensures SpacedRow("mean_symmetry", "mean symmetry", 4)
    ensures SpacedRow("mean_fractal_dimension", "mean fractal dimension", 4)
  {
  }

  lemma MeanRows()
    ensures forall k | k in MeanFeatures :: exists u :: SpacedRow(k, MeanFeatures[k], u)
  {
    MeanRowsHead();
    MeanRowsTail();
  }

  lemma ErrorRowsHead()
    ensures SpacedRow("radius_error", "radius error", 6)
    ensures SpacedRow("texture_error", "texture error", 7)
    ensures SpacedRow("perimeter_error", "perimeter error", 9)
    ensures SpacedRow("area_error", "area error", 4)
    ensures SpacedRow("smoothness_error", "smoothness error", 10)
  {
  }

  lemma ErrorRowsTail()
    ensures SpacedRow("compactness_error", "compactness error", 11)
    ensures SpacedRow("concavity_error", "concavity error", 9)
    ensures SpacedRow("concave_points_error", "concave points error", 7)
    ensures SpacedRow("symmetry_error", "symmetry error", 8)
    ensures SpacedRow("fractal_dimension_error", "fractal dimension error", 7)
  {
  }

  lemma ErrorRows()
    ensures forall k | k in ErrorFeatures :: exists u :: SpacedRow(k, ErrorFeatures[k], u)
  {
    ErrorRowsHead();
    ErrorRowsTail();
  }

  lemma WorstRowsHead()
    ensures SpacedRow("worst_radius", "worst radius", 5)
    ensures SpacedRow("worst_texture", "worst texture", 5)
    ensures SpacedRow("worst_perimeter", "worst perimeter", 5)
    ensures SpacedRow("worst_area", "worst area", 5)
    ensures SpacedRow("worst_smoothness", "worst smoothness", 5)
  {
  }

  lemma WorstRowsTail()
    ensures SpacedRow("worst_compactness", "worst compactness", 5)
    ensures SpacedRow("worst_concavity", "worst concavity", 5)
    ensures SpacedRow("worst_concave_points", "worst concave points", 5)
    ensures SpacedRow("worst_symmetry", "worst symmetry", 5)
    ensures SpacedRow("worst_fractal_dimension", "worst fractal dimension", 5)
  {
  }

  lemma WorstRows()
    ensures forall k | k in WorstFeatures :: exists u :: SpacedRow(k, WorstFeatures[k], u)
  {
    WorstRowsHead();
    WorstRowsTail();
  }

  /** The three blocks are told apart by the first letter of their keys. */
  lemma MeanInitials()
    ensures forall k | k in MeanFeatures :: |k| > 0 && k[0] == 'm'
  {
  }

  lemma ErrorInitials()
    ensures forall k | k in ErrorFeatures :: |k| > 0 && k[0] != 'm' && k[0] != 'w'
  {
  }

  lemma WorstInitials()
    ensures forall k | k in WorstFeatures :: |k| > 0 && k[0] == 'w'
  {
  }

  /** Every key of the error block ends in `_error`, so in an `r`. */
  lemma ErrorFinals()
    ensures forall k | k in ErrorFeatures :: |k| > 0 && k[|k| - 1] == 'r'
  {
  }

  /** Each block has ten distinct keys. */
  lemma MeanSize()
    ensures |MeanFeatures| == 10
  {
  }

  lemma ErrorSize()
    ensures |ErrorFeatures| == 10
  {
  }

  lemma WorstSize()
    ensures |WorstFeatures| == 10
  {
  }

  /** Each group of required columns is exactly the keys of the matching block. */
  lemma MeanKeys()
    ensures MeanFeatures.Keys == MeanColumns
  {
  }

  lemma ErrorKeys()
    ensures ErrorFeatures.Keys == ErrorColumns
  {
  }

  lemma WorstKeys()
    ensures WorstFeatures.Keys == WorstColumns
  {
  }

  /** The required set is exactly the keys of the three blocks. */
  lemma RequiredColumnsAreBlockKeys()
    ensures RequiredColumns == MeanFeatures.Keys + ErrorFeatures.Keys + WorstFeatures.Keys
  {
    MeanKeys();
    ErrorKeys();
    WorstKeys();
  }

  /** No key is in two blocks. */
  lemma BlocksDisjoint()
    ensures MeanFeatures.Keys !! ErrorFeatures.Keys
    ensures MeanFeatures.Keys !! WorstFeatures.Keys
    ensures ErrorFeatures.Keys !! WorstFeatures.Keys
  {
    MeanInitials();
    ErrorInitials();
    WorstInitials();
  }

  /** The sizes of two disjoint sets add up in their union. */
  lemma DisjointUnionSize<T>(a: set<T>, b: set<T>)
    requires a !! b
    ensures |a + b| == |a| + |b|
  {
    assert a * b == {};
  }

  /** The keys of the rename table are exactly the required columns, thirty of each. */
  lemma MappingDomain()
    ensures FeatureNameMapping.Keys == RequiredColumns
    ensures |RequiredColumns| == 30 && |FeatureNameMapping| == 30
  {
    RequiredColumnsAreBlockKeys();
    BlocksDisjoint();
    MeanSize();
    ErrorSize();
    WorstSize();
    var meanKeys, errorKeys, worstKeys := MeanFeatures.Keys, ErrorFeatures.Keys, WorstFeatures.Keys;
    assert FeatureNameMapping.Keys == meanKeys + errorKeys + worstKeys;
    DisjointUnionSize(meanKeys, errorKeys);
    DisjointUnionSize(meanKeys + errorKeys, worstKeys);
  }

  /** Every row of the rename table maps an external name to that name with its underscores spaced out. */
  lemma MappingIsSpacedForm()
    ensures forall k | k in FeatureNameMapping :: IsExternalName(k) && FeatureNameMapping[k] == Spaced(k)
  {
    MeanRows();
    ErrorRows();
    WorstRows();
    forall k | k in FeatureNameMapping
      ensures IsExternalName(k) && FeatureNameMapping[k] == Spaced(k)
    {
      var block :=
        if k in WorstFeatures then WorstFeatures
        else if k in ErrorFeatures then ErrorFeatures
        else MeanFeatures;
      assert k in block && FeatureNameMapping[k] == block[k];
      var u :| SpacedRow(k, block[k], u);
      SpacedRowIsSpacedForm(k, block[k], u);
    }
  }

  /** No two external names are renamed to the same training-schema name. */
  lemma MappingInjective()
    ensures forall a, b | a in FeatureNameMapping && b in FeatureNameMapping ::
      FeatureNameMapping[a] == FeatureNameMapping[b] ==> a == b
  {
    MappingIsSpacedForm();
    forall a, b | a in FeatureNameMapping && b in FeatureNameMapping && FeatureNameMapping[a] == FeatureNameMapping[b]
      ensures a == b
    {
      SpacedInjective(a, b);
    }
  }

  /** Every renamed name is a training-schema name, so no renamed name is itself a key of the table. */
  lemma MappingValuesAreInternal()
    ensures forall k | k in FeatureNameMapping ::
      IsInternalName(FeatureNameMapping[k]) && FeatureNameMapping[k] !in FeatureNameMapping
  {
    MappingIsSpacedForm();
    forall k | k in FeatureNameMapping
      ensures IsInternalName(FeatureNameMapping[k]) && FeatureNameMapping[k] !in FeatureNameMapping
    {
      SpacedIsInternal(k);
    }
  }
}
