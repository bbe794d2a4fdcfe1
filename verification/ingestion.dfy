/** Column renaming from the logical→source mapping of the configuration,
    and the required canonical columns. */
module Ingestion {
  import opened Wrappers
  import opened Tables

  /** The canonical columns every source must provide, in this order. */
  const Required: seq<string> := ["date", "produit", "categorie", "montant", "client"]

  /** One entry of `column_mapping`: a logical (canonical) column name and
      the source column that holds it. */
  datatype MapEntry = MapEntry(logical: string, source: string)

  /** The mapping's entries in dictionary order. */
  type Mapping = seq<MapEntry>

  /** The logical name of the LAST entry whose source is `c`, if any: the
      name `c` should end up with when later entries override earlier ones. */
  function LastLogicalFor(m: Mapping, c: string): (r: Option<string>)
    ensures r.None? <==> forall i :: 0 <= i < |m| ==> m[i].source != c
    ensures r.Some? ==> exists i :: 0 <= i < |m| && m[i] == MapEntry(r.value, c)
  {
    if m == [] then None
    else match LastLogicalFor(m[1..], c)
      case Some(l) => Some(l)
      case None => if m[0].source == c then Some(m[0].logical) else None
  }

  /** The loop of `apply_mapping`: walks the entries in order and records
      `rename[source] = logical` for each source column the table has. */
  function BuildRename(acc: map<string, string>, m: Mapping, columns: seq<string>): map<string, string>
    decreases |m|
  {
    if m == [] then acc
    else
      var e := m[0];
      BuildRename(if e.source in columns then acc[e.source := e.logical] else acc, m[1..], columns)
  }

  /** `df.rename(columns=rename)`: every column is renamed at once. */
  function RenameColumn(rename: map<string, string>, c: string): string {
    if c in rename then rename[c] else c
  }

  /** `apply_mapping(df, mapping)`. */
  function ApplyMapping(t: RawTable, m: Mapping): (r: RawTable)
    ensures r.rows == t.rows
    ensures |r.columns| == |t.columns|
    ensures forall i :: 0 <= i < |t.columns| ==>
              r.columns[i] == (match LastLogicalFor(m, t.columns[i])
                               case Some(l) => l
                               case None => t.columns[i])
  {
    var rename := BuildRename(map[], m, t.columns);
    BuildRenameIsLastEntry(map[], m, t.columns);
    RawTable(seq(|t.columns|, i requires 0 <= i < |t.columns| => RenameColumn(rename, t.columns[i])), t.rows)
  }

  /** For a column of the table, the accumulated rename is the last entry
      naming it, or whatever was there before the walk. */
  lemma {:induction false} BuildRenameIsLastEntry(acc: map<string, string>, m: Mapping, columns: seq<string>)
    ensures forall c :: c in columns ==>
              RenameColumn(BuildRename(acc, m, columns), c)
              == (match LastLogicalFor(m, c)
                  case Some(l) => l
                  case None => RenameColumn(acc, c))
    decreases |m|
  {
    if m != [] {
      var e := m[0];
      var acc' := if e.source in columns then acc[e.source := e.logical] else acc;
      BuildRenameIsLastEntry(acc', m[1..], columns);
    }
  }

  /** Entries whose source column the table lacks change nothing. */
  lemma AbsentSourcesIgnored(t: RawTable, m: Mapping, e: MapEntry)
    requires e.source !in t.columns
    ensures ApplyMapping(t, m + [e]) == ApplyMapping(t, m)
    ensures ApplyMapping(t, [e] + m) == ApplyMapping(t, m)
  {
    forall c | c in t.columns
      ensures LastLogicalFor(m + [e], c) == LastLogicalFor(m, c)
      ensures LastLogicalFor([e] + m, c) == LastLogicalFor(m, c)
    {
      LastLogicalAppend(m, e, c);
      assert ([e] + m)[1..] == m;
    }
  }

  lemma {:induction false} LastLogicalAppend(m: Mapping, e: MapEntry, c: string)
    ensures LastLogicalFor(m + [e], c)
            == if e.source == c then Some(e.logical) else LastLogicalFor(m, c)
  {
    if m != [] {
      assert (m + [e])[1..] == m[1..] + [e];
      LastLogicalAppend(m[1..], e, c);
    } else {
      assert (m + [e])[1..] == [];
    }
  }

  /** When two entries name the same source column, the later one wins. */
  lemma LaterEntryWins(t: RawTable, m: Mapping, e1: MapEntry, e2: MapEntry, i: nat)
    requires e1.source == e2.source && i < |t.columns| && t.columns[i] == e1.source
    ensures ApplyMapping(t, m + [e1, e2]).columns[i] == e2.logical
  {
    assert m + [e1, e2] == (m + [e1]) + [e2];
    LastLogicalAppend(m + [e1], e2, t.columns[i]);
  }

  /** A mapping whose every entry maps a name to itself, like the default
      configuration, leaves the table unchanged. */
  lemma IdentityMappingUnchanged(t: RawTable, m: Mapping)
    requires forall i :: 0 <= i < |m| ==> m[i].logical == m[i].source
    ensures ApplyMapping(t, m) == t
  {
    var r := ApplyMapping(t, m);
    assert r.columns == t.columns;
  }
}
