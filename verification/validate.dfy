/** The required-columns check. The reporting tool spells it out four
    times (once as `ensure_required_columns`, three times inline in the
    readers); it is defined once here, the readers differing only in the
    source named by the error. */
module Validate {
  import opened Wrappers
  import opened Orders
  import opened Tables
  import opened Ingestion

  /** The entries of `req` that `columns` lacks, in the order of `req`. */
  function MissingFrom(req: seq<string>, columns: seq<string>): (r: seq<string>)
    ensures forall c :: c in r <==> c in req && c !in columns
    ensures IsSubsequence(r, req)
  {
    if req == [] then []
    else if req[0] in columns then
      var rest := MissingFrom(req[1..], columns);
      SkipHeadKeepsSubsequence(rest, req);
      rest
    else [req[0]] + MissingFrom(req[1..], columns)
  }

  /** `[c for c in REQUIRED_COLUMNS if c not in df.columns]`. */
  function Missing(columns: seq<string>): (r: seq<string>)
    ensures forall c :: c in r <==> c in Required && c !in columns
    ensures IsSubsequence(r, Required)
  {
    MissingFrom(Required, columns)
  }

  predicate HasRequiredColumns(columns: seq<string>) {
    forall c :: c in Required ==> c in columns
  }

  /** The check the three readers run after mapping: raise a schema error
      naming the source and every missing column, or pass. */
  function CheckSchema(t: RawTable, source: SourceLabel): (r: Outcome<Error>)
    ensures r.Pass? <==> HasRequiredColumns(t.columns)
    ensures r.Fail? ==> r.error == MissingColumns(source, Missing(t.columns))
    ensures r.Fail? ==> forall c :: c in Required && c !in t.columns ==> c in r.error.missing
  {
    var missing := Missing(t.columns);
    assert missing == [] <==> HasRequiredColumns(t.columns) by {
      if missing != [] {
        assert missing[0] in missing;
      }
    }
    if missing == [] then Pass else Fail(MissingColumns(source, missing))
  }

  /** `ensure_required_columns(df)`. */
  function EnsureRequiredColumns(t: RawTable): (r: Outcome<Error>)
    ensures r.Pass? <==> forall c :: c in Required ==> c in t.columns
    ensures r.Fail? ==> r.error.MissingColumns? && r.error.missing != [] && forall c :: c in r.error.missing <==> c in Required && c !in t.columns
  {
    CheckSchema(t, Unlabelled)
  }

  /** Columns beyond the required ones never cause a schema error. */
  lemma ExtraColumnsHarmless(t: RawTable, extra: seq<string>, source: SourceLabel)
    requires CheckSchema(t, source).Pass?
    ensures CheckSchema(RawTable(t.columns + extra, t.rows), source).Pass?
    ensures CheckSchema(RawTable(extra + t.columns, t.rows), source).Pass?
  {
  }
}
