/**
 * The required-column check the Spark job runs on the header of its input file before
 * anything else: the set of required names absent from the header is computed, and the job
 * stops with that set as its error when it is not empty. The check is stated for any
 * required set; the job runs it with `RequiredColumns`.
 */
module SchemaCheck {
  import opened Wrappers

  /** The required names that `columns` lacks: `required - set(columns)`. */
  function MissingColumns(required: set<string>, columns: seq<string>): (missing: set<string>)
    ensures forall c :: c in missing <==> c in required && c !in columns
  {
    required - set c | c in columns
  }

  /**
   * The check as the job runs it: it fails exactly when a required name is absent, and the
   * failure carries the set of every absent required name and nothing else.
   */
  function Validate(required: set<string>, columns: seq<string>): (r: Outcome<set<string>>)
    ensures r.Pass? <==> forall c | c in required :: c in columns
    ensures r.Fail? ==> r.error != {} && r.error <= required
    ensures r.Fail? ==> forall c :: c in r.error <==> c in required && c !in columns
  {
    var missing := MissingColumns(required, columns);
    if missing != {} then Fail(missing) else Pass
  }

  /** The check fails if and only if the missing set is non-empty, and then reports exactly that set. */
  lemma ValidateFailsIffMissing(required: set<string>, columns: seq<string>)
    ensures Validate(required, columns).Fail? <==> MissingColumns(required, columns) != {}
    ensures Validate(required, columns).Fail? ==> Validate(required, columns).error == MissingColumns(required, columns)
  {
  }

  /**
   * Only required names matter: two headers that agree on which required names they carry
   * have the same missing set, whatever other columns they carry and in whatever order.
   */
  lemma MissingDependsOnlyOnRequiredNames(required: set<string>, a: seq<string>, b: seq<string>)
    requires forall c | c in required :: c in a <==> c in b
    ensures MissingColumns(required, a) == MissingColumns(required, b)
  {
  }

  /** Carrying more columns can only shrink the missing set. */
  lemma MoreColumnsFewerMissing(required: set<string>, a: seq<string>, b: seq<string>)
    requires forall c | c in a :: c in b
    ensures MissingColumns(required, b) <= MissingColumns(required, a)
  {
  }

  /** Extra columns, before or after, never make a passing header fail. */
  lemma ExtraColumnsNeverFail(required: set<string>, columns: seq<string>, extra: seq<string>)
    requires Validate(required, columns).Pass?
    ensures Validate(required, columns + extra).Pass?
    ensures Validate(required, extra + columns).Pass?
  {
    MoreColumnsFewerMissing(required, columns, columns + extra);
    MoreColumnsFewerMissing(required, columns, extra + columns);
  }

  /** A header that lacks exactly one required name fails with exactly that name. */
  lemma SingleMissingColumn(required: set<string>, columns: seq<string>, absent: string)
    requires absent in required && absent !in columns
    requires forall c | c in required && c != absent :: c in columns
    ensures Validate(required, columns) == Fail({absent})
  {
    assert MissingColumns(required, columns) == {absent};
  }
}
