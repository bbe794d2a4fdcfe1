/** The readers: record normalisation (`_finalize`), the CSV file, CSV
    directory and MySQL readers, and the dispatch on the source type.
    Files, directories and the database are given as values. */
module Datasources {
  import opened Wrappers
  import opened Calendar
  import opened Orders
  import opened Text
  import opened Tables
  import opened Ingestion
  import opened Validate
  import opened Config

  // ---------------------------------------------------------------------
  // _finalize
  // ---------------------------------------------------------------------

  /** Position of the first column called `name`, or `|columns|`. */
  function ColumnIndex(columns: seq<string>, name: string): (i: nat)
    ensures i <= |columns|
    ensures i < |columns| <==> name in columns
    ensures i < |columns| ==> columns[i] == name
    ensures forall j :: 0 <= j < i ==> columns[j] != name
  {
    if columns == [] then 0
    else if columns[0] == name then 0
    else 1 + ColumnIndex(columns[1..], name)
  }

  /** The text of column `name` in `row`; a missing cell reads as empty. */
  function CellText(columns: seq<string>, row: seq<string>, name: string): string {
    var j := ColumnIndex(columns, name);
    if j < |row| then row[j] else ""
  }

  /** Coercion of one row: its date and amount parsed, or None when either
      fails (the rows `dropna(subset=["date","montant"])` removes). */
  function Coerce(columns: seq<string>, row: seq<string>, p: Parsers): (r: Option<Record>)
    ensures r.Some? <==> p.date(CellText(columns, row, "date")).Some? && p.amount(CellText(columns, row, "montant")).Some?
    ensures r.Some? ==> && r.value.date == p.date(CellText(columns, row, "date")).value
                        && r.value.amount == p.amount(CellText(columns, row, "montant")).value
                        && r.value.product == CellText(columns, row, "produit")
                        && r.value.category == CellText(columns, row, "categorie")
                        && r.value.client == CellText(columns, row, "client")
  {
    match (p.date(CellText(columns, row, "date")), p.amount(CellText(columns, row, "montant")))
    case (Some(d), Some(a)) =>
      Some(Record(d, CellText(columns, row, "produit"), CellText(columns, row, "categorie"), a,
                  CellText(columns, row, "client")))
    case _ => None
  }

  /** Every row's coercion, in row order. */
  function Coerced(columns: seq<string>, rows: seq<seq<string>>, p: Parsers): (cs: seq<Option<Record>>)
    ensures |cs| == |rows| && forall i :: 0 <= i < |rows| ==> cs[i] == Coerce(columns, rows[i], p)
  {
    if rows == [] then [] else [Coerce(columns, rows[0], p)] + Coerced(columns, rows[1..], p)
  }

  /** `r` holds each record exactly as often as `cs` holds it parsed. */
  ghost predicate CountsParsed(r: seq<Record>, cs: seq<Option<Record>>) {
    forall x :: multiset(r)[x] == multiset(cs)[Some(x)]
  }

  /** `r` holds each record dated inside `period` exactly as often as
      `recs` does, and no other record. */
  ghost predicate CountsInPeriod(r: seq<Record>, recs: seq<Record>, period: Period) {
    forall x :: multiset(r)[x] == if InPeriod(x.date, period) then multiset(recs)[x] else 0
  }

  /** `r` holds each record dated inside `period` exactly as often as `cs`
      holds it parsed, and no other record. */
  ghost predicate CountsParsedInPeriod(r: seq<Record>, cs: seq<Option<Record>>, period: Period) {
    forall x :: multiset(r)[x] == if InPeriod(x.date, period) then multiset(cs)[Some(x)] else 0
  }

  /** Coerce every row and drop those that fail, keeping the order: each
      record appears as often as rows coerce to it. */
  function DropUnparsable(columns: seq<string>, rows: seq<seq<string>>, p: Parsers): (r: seq<Record>)
    ensures |r| <= |rows|
    ensures forall x :: x in r ==> exists i :: 0 <= i < |rows| && Coerce(columns, rows[i], p) == Some(x)
    ensures forall i :: 0 <= i < |rows| && Coerce(columns, rows[i], p).Some? ==>
              Coerce(columns, rows[i], p).value in r
  {
    if rows == [] then []
    else
      var rest := DropUnparsable(columns, rows[1..], p);
      assert forall x :: x in rest ==> exists i :: 0 <= i < |rows| && Coerce(columns, rows[i], p) == Some(x) by {
        forall x | x in rest
          ensures exists i :: 0 <= i < |rows| && Coerce(columns, rows[i], p) == Some(x)
        {
          var k :| 0 <= k < |rows[1..]| && Coerce(columns, rows[1..][k], p) == Some(x);
          assert rows[1..][k] == rows[k + 1];
        }
      }
      assert forall i :: 1 <= i < |rows| ==> rows[i] == rows[1..][i - 1];
      match Coerce(columns, rows[0], p)
      case Some(x) => [x] + rest
      case None => rest
  }

  /** Each record survives exactly as often as rows coerce to it. */
  lemma {:induction false} DropUnparsableCounts(columns: seq<string>, rows: seq<seq<string>>, p: Parsers)
    ensures CountsParsed(DropUnparsable(columns, rows, p), Coerced(columns, rows, p))
  {
    if rows != [] {
      DropUnparsableCounts(columns, rows[1..], p);
      assert Coerced(columns, rows, p) == [Coerce(columns, rows[0], p)] + Coerced(columns, rows[1..], p);
    }
  }

  /** Dropping is row by row: it distributes over concatenation. */
  lemma {:induction false} DropUnparsableConcat(columns: seq<string>, a: seq<seq<string>>, b: seq<seq<string>>, p: Parsers)
    ensures DropUnparsable(columns, a + b, p) == DropUnparsable(columns, a, p) + DropUnparsable(columns, b, p)
  {
    if a != [] {
      assert (a + b)[0] == a[0];
      assert (a + b)[1..] == a[1..] + b;
      DropUnparsableConcat(columns, a[1..], b, p);
    } else {
      assert a + b == b;
    }
  }

  /** `df[df.date >= start]` then `df[df.date <= end]`, each only when the
      bound is set. */
  function FilterPeriod(recs: seq<Record>, period: Period): (r: seq<Record>)
    ensures |r| <= |recs|
    ensures forall x :: x in r ==> x in recs && InPeriod(x.date, period)
    ensures forall x :: x in recs && InPeriod(x.date, period) ==> x in r
    ensures CountsInPeriod(r, recs, period)
    ensures IsSubsequence(r, recs)
  {
    if recs == [] then []
    else
      var rest := FilterPeriod(recs[1..], period);
      assert recs == [recs[0]] + recs[1..];
      if InPeriod(recs[0].date, period) then [recs[0]] + rest
      else
        SkipHeadKeepsSubsequence(rest, recs);
        rest
  }

  /** An unbounded period filters nothing. */
  lemma {:induction false} FilterUnboundedKeepsAll(recs: seq<Record>)
    ensures FilterPeriod(recs, Unbounded) == recs
  {
    if recs != [] {
      FilterUnboundedKeepsAll(recs[1..]);
    }
  }

  /** `_finalize(df, date_start, date_end)` on a table that has the required
      columns. */
  function Finalize(t: RawTable, p: Parsers, period: Period): (r: seq<Record>)
    requires HasRequiredColumns(t.columns)
    ensures |r| <= |t.rows|
    ensures forall x :: x in r ==> InPeriod(x.date, period)
    ensures forall x :: x in r ==> exists i :: 0 <= i < |t.rows| && Coerce(t.columns, t.rows[i], p) == Some(x)
    ensures forall i :: 0 <= i < |t.rows| && Coerce(t.columns, t.rows[i], p).Some?
                         && InPeriod(Coerce(t.columns, t.rows[i], p).value.date, period) ==>
              Coerce(t.columns, t.rows[i], p).value in r
    ensures CountsParsedInPeriod(r, Coerced(t.columns, t.rows, p), period)
    ensures IsSubsequence(r, DropUnparsable(t.columns, t.rows, p))
  {
    var kept := DropUnparsable(t.columns, t.rows, p);
    var r := FilterPeriod(kept, period);
    var cs := Coerced(t.columns, t.rows, p);
    assert CountsParsedInPeriod(r, cs, period) by {
      DropUnparsableCounts(t.columns, t.rows, p);
      assert CountsParsed(kept, cs) && CountsInPeriod(r, kept, period);
      forall x ensures multiset(r)[x] == if InPeriod(x.date, period) then multiset(cs)[Some(x)] else 0 {
        assert multiset(kept)[x] == multiset(cs)[Some(x)];
      }
    }
    r
  }

  // ---------------------------------------------------------------------
  // read_csv_file
  // ---------------------------------------------------------------------

  /** The files and directories the readers see. A directory maps to its
      entries as full paths, in whatever order the listing gives. */
  datatype Fs = Fs(files: map<string, RawTable>, dirs: map<string, seq<string>>)

  /** The rows of several tables, one table after the other. */
  function ConcatRows(ts: seq<RawTable>): seq<seq<string>> {
    if ts == [] then [] else ts[0].rows + ConcatRows(ts[1..])
  }

  /** Concatenating rows is a homomorphism: a split list of tables gives
      the concatenation of the two parts' rows. */
  lemma {:induction false} ConcatRowsAppend(a: seq<RawTable>, b: seq<RawTable>)
    ensures ConcatRows(a + b) == ConcatRows(a) + ConcatRows(b)
  {
    if a != [] {
      assert (a + b)[1..] == a[1..] + b;
      ConcatRowsAppend(a[1..], b);
    } else {
      assert a + b == b;
    }
  }

  /** `pd.read_csv(path, chunksize=n)`: consecutive blocks of `n` rows, the
      last possibly shorter, each with the file's header. A file without
      rows still gives one chunk: its header with no rows. */
  function Chunks(t: RawTable, n: nat): (cs: seq<RawTable>)
    requires n > 0
    ensures cs != []
    ensures forall i :: 0 <= i < |cs| ==> cs[i].columns == t.columns && |cs[i].rows| <= n
    ensures forall i :: 0 <= i < |cs| - 1 ==> |cs[i].rows| == n
    ensures forall i :: 0 <= i < |cs| ==> (cs[i].rows == [] <==> t.rows == [])
    ensures ConcatRows(cs) == t.rows
    decreases |t.rows|
  {
    if |t.rows| <= n then
      assert ConcatRows([t]) == t.rows + ConcatRows([]);
      [t]
    else
      var head := RawTable(t.columns, t.rows[..n]);
      var rest := Chunks(RawTable(t.columns, t.rows[n..]), n);
      assert ([head] + rest)[1..] == rest;
      assert t.rows[..n] + t.rows[n..] == t.rows;
      [head] + rest
  }

  predicate SameColumns(ts: seq<RawTable>) {
    forall i :: 0 <= i < |ts| ==> ts[i].columns == ts[0].columns
  }

  /** `pd.concat(chunks, ignore_index=True)` of tables sharing a header. */
  function ConcatTables(ts: seq<RawTable>): RawTable
    requires |ts| > 0 && SameColumns(ts)
  {
    RawTable(ts[0].columns, ConcatRows(ts))
  }

  /** The chunk loop: map each chunk and check its schema, stopping at the
      first chunk that lacks a required column. */
  function MapAndValidate(cs: seq<RawTable>, m: Mapping, path: string): (r: Result<seq<RawTable>, Error>)
    ensures r.Ok? <==> forall i :: 0 <= i < |cs| ==> HasRequiredColumns(ApplyMapping(cs[i], m).columns)
    ensures r.Ok? ==> |r.value| == |cs| && forall i :: 0 <= i < |cs| ==> r.value[i] == ApplyMapping(cs[i], m)
    ensures r.Err? ==> exists i :: 0 <= i < |cs|
                        && (forall j :: 0 <= j < i ==> HasRequiredColumns(ApplyMapping(cs[j], m).columns))
                        && !HasRequiredColumns(ApplyMapping(cs[i], m).columns)
                        && r.error == MissingColumns(CsvPath(path), Missing(ApplyMapping(cs[i], m).columns))
  {
    var rs := seq(|cs|, i requires 0 <= i < |cs| => MapChunk(cs[i], m, path));
    assert forall i :: 0 <= i < |cs| ==> rs[i] == MapChunk(cs[i], m, path);
    Collect(rs)
  }

  /** One pass of the chunk loop: map the chunk, then check its schema. */
  function MapChunk(c: RawTable, m: Mapping, path: string): (r: Result<RawTable, Error>)
    ensures r.Ok? <==> HasRequiredColumns(ApplyMapping(c, m).columns)
    ensures r.Ok? ==> r.value == ApplyMapping(c, m)
    ensures r.Err? ==> r.error == MissingColumns(CsvPath(path), Missing(ApplyMapping(c, m).columns))
  {
    var mapped := ApplyMapping(c, m);
    match CheckSchema(mapped, CsvPath(path))
    case Fail(e) => Err(e)
    case Pass => Ok(mapped)
  }

  lemma {:induction false} MappingKeepsRows(cs: seq<RawTable>, ms: seq<RawTable>, m: Mapping)
    requires |ms| == |cs| && forall i :: 0 <= i < |cs| ==> ms[i] == ApplyMapping(cs[i], m)
    ensures ConcatRows(ms) == ConcatRows(cs)
  {
    if cs != [] {
      MappingKeepsRows(cs[1..], ms[1..], m);
    }
  }

  /** `if chunk_size:`: None and 0 both mean a whole-file read. */
  predicate Chunked(chunkSize: Option<int>) {
    chunkSize.Some? && chunkSize.value != 0
  }

  /** A negative `chunk_size`, which pandas refuses before opening the file. */
  predicate BadChunk(chunkSize: Option<int>) {
    Chunked(chunkSize) && chunkSize.value < 0
  }

  /** `read_csv_file(path, mapping, date_start, date_end, chunk_size)`. */
  function ReadCsvFile(fs: Fs, path: string, m: Mapping, p: Parsers, period: Period, chunkSize: Option<int>)
    : (r: Result<seq<Record>, Error>)
    ensures BadChunk(chunkSize) ==> r == Err(BadChunkSize(chunkSize.value))
    ensures !BadChunk(chunkSize) && path !in fs.files ==> r == Err(FileNotFound(path))
    ensures !BadChunk(chunkSize) && path in fs.files ==>
              (r.Ok? <==> HasRequiredColumns(ApplyMapping(fs.files[path], m).columns))
    ensures r.Ok? ==> && path in fs.files
                      && HasRequiredColumns(ApplyMapping(fs.files[path], m).columns)
                      && r.value == Finalize(ApplyMapping(fs.files[path], m), p, period)
    ensures r.Ok? ==> forall x :: x in r.value ==> InPeriod(x.date, period)
    ensures r.Err? && r.error.MissingColumns? ==>
              path in fs.files && r.error == MissingColumns(CsvPath(path), Missing(ApplyMapping(fs.files[path], m).columns))
  {
    if BadChunk(chunkSize) then Err(BadChunkSize(chunkSize.value))
    else if path !in fs.files then Err(FileNotFound(path))
    else
      var t := fs.files[path];
      if Chunked(chunkSize) then
        var cs := Chunks(t, chunkSize.value);
        match MapAndValidate(cs, m, path)
        case Err(e) => Err(e)
        case Ok(mapped) =>
          ChunksRejoinWhole(t, chunkSize.value, mapped, m);
          Ok(Finalize(ConcatTables(mapped), p, period))
      else
        var df := ApplyMapping(t, m);
        match CheckSchema(df, CsvPath(path))
        case Fail(e) => Err(e)
        case Pass => Ok(Finalize(df, p, period))
  }

  /** The renamed chunks of a file, put back together, are the renamed file. */
  lemma ChunksRejoinWhole(t: RawTable, n: nat, mapped: seq<RawTable>, m: Mapping)
    requires n > 0
    requires |mapped| == |Chunks(t, n)|
    requires forall i :: 0 <= i < |mapped| ==> mapped[i] == ApplyMapping(Chunks(t, n)[i], m)
    ensures |mapped| > 0 && SameColumns(mapped) && ConcatTables(mapped) == ApplyMapping(t, m)
  {
    var cs := Chunks(t, n);
    assert forall i :: 0 <= i < |cs| ==> ApplyMapping(cs[i], m).columns == ApplyMapping(t, m).columns;
    MappingKeepsRows(cs, mapped, m);
  }

  /** Reading in chunks gives what a whole-file read gives. */
  lemma ChunkedReadMatchesWholeRead(fs: Fs, path: string, m: Mapping, p: Parsers, period: Period, n: nat)
    requires n > 0
    ensures ReadCsvFile(fs, path, m, p, period, Some(n)) == ReadCsvFile(fs, path, m, p, period, None)
  {
  }

  /** A file with a header and no rows, read in chunks, still has its
      header checked: it yields no records when the header is complete and
      the missing-columns error otherwise. */
  lemma ChunkedReadOfEmptyFile(fs: Fs, path: string, m: Mapping, p: Parsers, period: Period, n: nat)
    requires n > 0 && path in fs.files && fs.files[path].rows == []
    ensures var df := ApplyMapping(fs.files[path], m);
            ReadCsvFile(fs, path, m, p, period, Some(n))
            == if HasRequiredColumns(df.columns) then Ok([])
               else Err(MissingColumns(CsvPath(path), Missing(df.columns)))
  {
  }

  // ---------------------------------------------------------------------
  // read_csv_dir
  // ---------------------------------------------------------------------

  function FilterCsv(entries: seq<string>): (r: seq<string>)
    ensures forall f :: f in r <==> f in entries && EndsWith(f, ".csv")
  {
    if entries == [] then []
    else if EndsWith(entries[0], ".csv") then [entries[0]] + FilterCsv(entries[1..])
    else FilterCsv(entries[1..])
  }

  /** `sorted(p.glob("*.csv"))`. */
  function CsvFiles(entries: seq<string>): (r: seq<string>)
    ensures StrictlySorted(r, StrLt)
    ensures forall f :: f in r <==> f in entries && EndsWith(f, ".csv")
  {
    SortStrings(FilterCsv(entries))
  }

  /** The listing order does not matter: only which entries there are. */
  lemma CsvFilesIgnoreListingOrder(a: seq<string>, b: seq<string>)
    requires forall f :: f in a <==> f in b
    ensures CsvFiles(a) == CsvFiles(b)
  {
    StrLtIsStrictTotalOrder();
    SortedUnique(CsvFiles(a), CsvFiles(b), StrLt);
  }

  /** `pd.concat(frames, ignore_index=True)`: the frames one after the other. */
  function Flatten(frames: seq<seq<Record>>): (r: seq<Record>)
    ensures forall x :: x in r <==> exists i :: 0 <= i < |frames| && x in frames[i]
    ensures |frames| == 1 ==> r == frames[0]
  {
    if frames == [] then []
    else
      var rest := Flatten(frames[1..]);
      assert forall i :: 1 <= i < |frames| ==> frames[i] == frames[1..][i - 1];
      assert forall x :: x in rest ==> exists i :: 0 <= i < |frames| && x in frames[i] by {
        forall x | x in rest
          ensures exists i :: 0 <= i < |frames| && x in frames[i]
        {
          var k :| 0 <= k < |frames[1..]| && x in frames[1..][k];
          assert frames[k + 1] == frames[1..][k];
        }
      }
      assert |frames| == 1 ==> rest == [];
      frames[0] + rest
  }

  /** Concatenating frames is associative: a split list of frames gives the
      concatenation of the two parts' results. */
  lemma {:induction false} FlattenAppend(a: seq<seq<Record>>, b: seq<seq<Record>>)
    ensures Flatten(a + b) == Flatten(a) + Flatten(b)
  {
    if a != [] {
      assert (a + b)[0] == a[0];
      assert (a + b)[1..] == a[1..] + b;
      FlattenAppend(a[1..], b);
    } else {
      assert a + b == b;
    }
  }

  /** The values of a sequence of results in order, or the first error. */
  function Collect<T>(rs: seq<Result<T, Error>>): (r: Result<seq<T>, Error>)
    ensures r.Ok? <==> forall i :: 0 <= i < |rs| ==> rs[i].Ok?
    ensures r.Ok? ==> |r.value| == |rs| && forall i :: 0 <= i < |rs| ==> rs[i] == Ok(r.value[i])
    ensures r.Err? ==> exists i :: 0 <= i < |rs| && rs[i] == Err(r.error) && forall j :: 0 <= j < i ==> rs[j].Ok?
  {
    if rs == [] then Ok([])
    else if rs[0].Err? then
      assert rs[0] == Err(rs[0].error);
      Err(rs[0].error)
    else
      var rest := Collect(rs[1..]);
      if rest.Err? then
        CollectErrorShifts(rs, rest.error);
        Err(rest.error)
      else
        CollectValuesShift(rs, rest.value);
        Ok([rs[0].value] + rest.value)
  }

  lemma CollectErrorShifts<T>(rs: seq<Result<T, Error>>, e: Error)
    requires rs != [] && rs[0].Ok?
    requires exists i :: 0 <= i < |rs[1..]| && rs[1..][i] == Err(e) && forall j :: 0 <= j < i ==> rs[1..][j].Ok?
    ensures exists i :: 0 <= i < |rs| && rs[i] == Err(e) && forall j :: 0 <= j < i ==> rs[j].Ok?
  {
    var k :| 0 <= k < |rs[1..]| && rs[1..][k] == Err(e) && forall j :: 0 <= j < k ==> rs[1..][j].Ok?;
    assert rs[k + 1] == rs[1..][k];
    assert forall j :: 1 <= j < k + 1 ==> rs[j] == rs[1..][j - 1];
  }

  lemma CollectValuesShift<T>(rs: seq<Result<T, Error>>, vs: seq<T>)
    requires rs != [] && rs[0].Ok?
    requires |vs| == |rs| - 1 && forall i :: 0 <= i < |vs| ==> rs[1..][i] == Ok(vs[i])
    ensures var ws := [rs[0].value] + vs;
            |ws| == |rs| && forall i :: 0 <= i < |rs| ==> rs[i] == Ok(ws[i])
  {
    var ws := [rs[0].value] + vs;
    forall i | 0 <= i < |rs|
      ensures rs[i] == Ok(ws[i])
    {
      if i > 0 {
        assert rs[i] == rs[1..][i - 1];
      }
    }
  }

  /** The loop of `read_csv_dir`: read each file in order, stopping at the
      first error (reading has no effect, so stopping is invisible). */
  function ReadFiles(fs: Fs, files: seq<string>, m: Mapping, p: Parsers, period: Period, chunkSize: Option<int>)
    : (r: Result<seq<seq<Record>>, Error>)
    ensures r.Ok? <==> forall i :: 0 <= i < |files| ==> ReadCsvFile(fs, files[i], m, p, period, chunkSize).Ok?
    ensures r.Ok? ==> |r.value| == |files|
                      && forall i :: 0 <= i < |files| ==> ReadCsvFile(fs, files[i], m, p, period, chunkSize) == Ok(r.value[i])
    ensures r.Err? ==> exists i :: && 0 <= i < |files|
                                   && ReadCsvFile(fs, files[i], m, p, period, chunkSize) == Err(r.error)
                                   && forall j :: 0 <= j < i ==> ReadCsvFile(fs, files[j], m, p, period, chunkSize).Ok?
  {
    Collect(Reads(fs, files, m, p, period, chunkSize))
  }

  /** Every file's read, in order. */
  function Reads(fs: Fs, files: seq<string>, m: Mapping, p: Parsers, period: Period, chunkSize: Option<int>)
    : (rs: seq<Result<seq<Record>, Error>>)
    ensures |rs| == |files| && forall i :: 0 <= i < |files| ==> rs[i] == ReadCsvFile(fs, files[i], m, p, period, chunkSize)
  {
    seq(|files|, i requires 0 <= i < |files| => ReadCsvFile(fs, files[i], m, p, period, chunkSize))
  }

  /** `read_csv_dir(path_dir, mapping, date_start, date_end, chunk_size)`. */
  function ReadCsvDir(fs: Fs, dir: string, m: Mapping, p: Parsers, period: Period, chunkSize: Option<int>)
    : (r: Result<seq<Record>, Error>)
    ensures dir !in fs.dirs ==> r == Err(DirNotFound(dir))
    ensures dir in fs.dirs && CsvFiles(fs.dirs[dir]) == [] ==> r == Err(NoCsvFiles(dir))
    ensures r.Ok? ==> forall x :: x in r.value ==> InPeriod(x.date, period)
    ensures r.Ok? ==> dir in fs.dirs && CsvFiles(fs.dirs[dir]) != []
                      && forall f :: f in CsvFiles(fs.dirs[dir]) ==> ReadCsvFile(fs, f, m, p, period, chunkSize).Ok?
    ensures r.Ok? ==> var rs := ReadFiles(fs, CsvFiles(fs.dirs[dir]), m, p, period, chunkSize);
                      rs.Ok? && r.value == Flatten(rs.value)
    ensures r.Err? && dir in fs.dirs && CsvFiles(fs.dirs[dir]) != [] ==>
              var files := CsvFiles(fs.dirs[dir]);
              exists i :: && 0 <= i < |files|
                          && ReadCsvFile(fs, files[i], m, p, period, chunkSize) == Err(r.error)
                          && forall j :: 0 <= j < i ==> ReadCsvFile(fs, files[j], m, p, period, chunkSize).Ok?
  {
    if dir !in fs.dirs then Err(DirNotFound(dir))
    else
      var files := CsvFiles(fs.dirs[dir]);
      match ReadFiles(fs, files, m, p, period, chunkSize)
      case Err(e) => Err(e)
      case Ok(frames) =>
        if frames == [] then Err(NoCsvFiles(dir))
        else
          assert forall x :: x in Flatten(frames) ==> InPeriod(x.date, period) by {
            forall x | x in Flatten(frames)
              ensures InPeriod(x.date, period)
            {
              var i :| 0 <= i < |frames| && x in frames[i];
              assert ReadCsvFile(fs, files[i], m, p, period, chunkSize) == Ok(frames[i]);
            }
          }
          Ok(Flatten(frames))
  }

  /** Files are read in sorted-name order, so the result does not depend on
      the order in which the directory lists them. */
  lemma ReadCsvDirIgnoresListingOrder(fs: Fs, dir: string, entries: seq<string>,
                                      m: Mapping, p: Parsers, period: Period, chunkSize: Option<int>)
    requires dir in fs.dirs
    requires forall f :: f in entries <==> f in fs.dirs[dir]
    ensures ReadCsvDir(fs, dir, m, p, period, chunkSize)
            == ReadCsvDir(Fs(fs.files, fs.dirs[dir := entries]), dir, m, p, period, chunkSize)
  {
    CsvFilesIgnoreListingOrder(fs.dirs[dir], entries);
    var fs' := Fs(fs.files, fs.dirs[dir := entries]);
    var files := CsvFiles(entries);
    assert ReadFiles(fs, files, m, p, period, chunkSize) == ReadFiles(fs', files, m, p, period, chunkSize)
      by { ReadFilesOnlyReadsFiles(fs, fs', files, m, p, period, chunkSize); }
  }

  lemma ReadFilesOnlyReadsFiles(fs: Fs, fs': Fs, files: seq<string>, m: Mapping, p: Parsers,
                                period: Period, chunkSize: Option<int>)
    requires fs.files == fs'.files
    ensures ReadFiles(fs, files, m, p, period, chunkSize) == ReadFiles(fs', files, m, p, period, chunkSize)
  {
    assert fs' == Fs(fs.files, fs'.dirs);
    forall f | f in files
      ensures ReadCsvFile(fs, f, m, p, period, chunkSize) == ReadCsvFile(fs', f, m, p, period, chunkSize)
    {
      ReadCsvFileOnlyReadsFiles(fs, fs'.dirs, f, m, p, period, chunkSize);
    }
    assert Reads(fs, files, m, p, period, chunkSize) == Reads(fs', files, m, p, period, chunkSize);
  }

  lemma ReadCsvFileOnlyReadsFiles(fs: Fs, dirs: map<string, seq<string>>, path: string, m: Mapping, p: Parsers,
                                  period: Period, chunkSize: Option<int>)
    ensures ReadCsvFile(fs, path, m, p, period, chunkSize) == ReadCsvFile(Fs(fs.files, dirs), path, m, p, period, chunkSize)
  {
  }

  // ---------------------------------------------------------------------
  // read_mysql
  // ---------------------------------------------------------------------

  const DefaultMysqlPort := 3306
  const DefaultQuery := "SELECT date, produit, categorie, montant, client FROM ventes"

  datatype ConnParams = ConnParams(
    host: Option<string>, port: Option<int>, user: Option<string>, password: Option<string>, database: Option<string>)

  /** The `date_start` / `date_end` query parameters. */
  datatype QueryParams = QueryParams(dateStart: Option<string>, dateEnd: Option<string>)

  /** The database driver: whether a connection with these parameters
      succeeds, and what a query returns (None when it raises). A missing
      driver is a connect that always fails. */
  datatype Database = Database(connect: ConnParams -> bool, execute: (string, QueryParams) -> Option<RawTable>)

  /** What the reader does with the connection, in order. */
  datatype DbEvent = Connect(params: ConnParams) | Execute(query: string, bounds: QueryParams) | Close

  datatype MysqlRun = MysqlRun(result: Result<seq<Record>, Error>, events: seq<DbEvent>)

  function ConnectionParams(c: MysqlConfig): (cp: ConnParams)
    ensures c.port == Absent ==> cp.port == Some(DefaultMysqlPort)
    ensures c.port == Null ==> cp.port == None
    ensures c.port.Given? ==> cp.port == Some(c.port.value)
    ensures cp.host == c.host && cp.user == c.user && cp.password == c.password && cp.database == c.database
  {
    ConnParams(c.host, c.port.GetWithDefault(DefaultMysqlPort), c.user, c.password, c.database)
  }

  /** `mysql_cfg.get("query") or DEFAULT`. */
  function QueryText(c: MysqlConfig): (q: string)
    ensures Truthy(c.query) ==> q == c.query.value
    ensures !Truthy(c.query) ==> q == DefaultQuery
  {
    if Truthy(c.query) then c.query.value else DefaultQuery
  }

  function FormatBound(b: Option<Day>): (s: Option<string>)
    ensures s.None? <==> b.None?
    ensures s.Some? ==> |s.value| == 10 && ParseIso(s.value) == Some(b.value)
  {
    match b
    case None => None
    case Some(d) => FormatIsoRoundTrip(d); Some(FormatIso(d))
  }

  /** The period bounds as `YYYY-MM-DD` strings, or None. */
  function DateParams(period: Period): (q: QueryParams)
    ensures q.dateStart.None? <==> period.start.None?
    ensures q.dateEnd.None? <==> period.end.None?
    ensures q.dateStart.Some? ==> ParseIso(q.dateStart.value) == Some(period.start.value)
    ensures q.dateEnd.Some? ==> ParseIso(q.dateEnd.value) == Some(period.end.value)
  {
    QueryParams(FormatBound(period.start), FormatBound(period.end))
  }

  /** `read_mysql(mysql_cfg, mapping, date_start, date_end)`. */
  function ReadMysql(cfg: Option<MysqlConfig>, m: Mapping, p: Parsers, period: Period, db: Database): (run: MysqlRun)
    ensures cfg.None? ==> run == MysqlRun(Err(MysqlConfigMissing), [])
    ensures cfg.Some? && !db.connect(ConnectionParams(cfg.value)) ==>
              run == MysqlRun(Err(ConnectionFailed), [Connect(ConnectionParams(cfg.value))])
    ensures cfg.Some? && db.connect(ConnectionParams(cfg.value)) ==>
              run.events == [Connect(ConnectionParams(cfg.value)), Execute(QueryText(cfg.value), DateParams(period)), Close]
    ensures (cfg.Some? && db.connect(ConnectionParams(cfg.value)) &&
             db.execute(QueryText(cfg.value), DateParams(period)).None?) ==> run.result == Err(QueryFailed)
    ensures run.result.Ok? ==>
              && cfg.Some? && db.connect(ConnectionParams(cfg.value))
              && db.execute(QueryText(cfg.value), DateParams(period)).Some?
              && var df := ApplyMapping(db.execute(QueryText(cfg.value), DateParams(period)).value, m);
                 HasRequiredColumns(df.columns) && run.result.value == Finalize(df, p, period)
    ensures (cfg.Some? && db.connect(ConnectionParams(cfg.value)) &&
             db.execute(QueryText(cfg.value), DateParams(period)).Some?) ==>
              var df := ApplyMapping(db.execute(QueryText(cfg.value), DateParams(period)).value, m);
              (run.result.Ok? <==> HasRequiredColumns(df.columns)) &&
              (run.result.Err? ==> run.result.error == MissingColumns(MySql, Missing(df.columns)))
    ensures run.result.Ok? ==> forall x :: x in run.result.value ==> InPeriod(x.date, period)
    // Every connection that is opened is closed exactly once, as the last
    // thing the reader does with it.
    ensures (exists i :: 0 <= i < |run.events| && run.events[i].Connect? && db.connect(run.events[i].params)) <==>
            (|run.events| > 0 && run.events[|run.events| - 1] == Close &&
             forall i :: 0 <= i < |run.events| - 1 ==> run.events[i] != Close)
  {
    match cfg
    case None => MysqlRun(Err(MysqlConfigMissing), [])
    case Some(c) =>
      var cp := ConnectionParams(c);
      if !db.connect(cp) then
        assert [Connect(cp)][0] == Connect(cp);
        MysqlRun(Err(ConnectionFailed), [Connect(cp)])
      else
        var q := QueryText(c);
        var qp := DateParams(period);
        var trace := [Connect(cp), Execute(q, qp), Close];
        assert trace[0].Connect? && db.connect(trace[0].params);
        match db.execute(q, qp)
        case None => MysqlRun(Err(QueryFailed), trace)
        case Some(raw) =>
          var df := ApplyMapping(raw, m);
          match CheckSchema(df, MySql)
          case Fail(e) => MysqlRun(Err(e), trace)
          case Pass => MysqlRun(Ok(Finalize(df, p, period)), trace)
  }

  // ---------------------------------------------------------------------
  // load_dataframe_from_source
  // ---------------------------------------------------------------------

  /** Everything outside the process the readers depend on. */
  datatype Env = Env(fs: Fs, db: Database, parsers: Parsers)

  /** `cfg.get("data_source", {}) or {}`. */
  function SourceSection(cfg: AppConfig): DataSourceConfig {
    match cfg.dataSource
    case Given(d) => d
    case _ => EmptyDataSource
  }

  /** `ds.get("type", "csv_file")`: None when the key holds null. */
  function SourceKind(cfg: AppConfig): (k: Option<string>)
    ensures cfg.dataSource.Absent? || cfg.dataSource.Null? ==> k == Some("csv_file")
    ensures cfg.dataSource.Given? ==>
              var kind := cfg.dataSource.value.kind;
              && (kind.Absent? ==> k == Some("csv_file"))
              && (kind.Null? ==> k == None)
              && (kind.Given? ==> k == Some(kind.value))
  {
    SourceSection(cfg).kind.GetWithDefault("csv_file")
  }

  /** `cfg.get("mysql", {})`: None only when the key holds null. */
  function MysqlSection(cfg: AppConfig): Option<MysqlConfig> {
    cfg.mysql.GetWithDefault(EmptyMysql)
  }

  /** `load_dataframe_from_source(cfg, date_start, date_end)`. */
  function LoadDataframe(cfg: AppConfig, period: Period, env: Env): (r: Result<seq<Record>, Error>)
    ensures var ds := SourceSection(cfg);
            SourceKind(cfg) == Some("csv_file") ==>
              if Truthy(ds.path) then r == ReadCsvFile(env.fs, ds.path.value, cfg.columnMapping, env.parsers, period, ds.chunkSize)
              else if Truthy(cfg.dataPath) then r == ReadCsvFile(env.fs, cfg.dataPath.value, cfg.columnMapping, env.parsers, period, ds.chunkSize)
              else r == Err(NoCsvPath)
    ensures var ds := SourceSection(cfg);
            SourceKind(cfg) == Some("csv_dir") ==>
              if Truthy(ds.path) then r == ReadCsvDir(env.fs, ds.path.value, cfg.columnMapping, env.parsers, period, ds.chunkSize)
              else r == Err(NoCsvDir)
    ensures SourceKind(cfg) == Some("mysql") ==>
              r == ReadMysql(MysqlSection(cfg), cfg.columnMapping, env.parsers, period, env.db).result
    ensures SourceKind(cfg) !in {Some("csv_file"), Some("csv_dir"), Some("mysql")} ==>
              r == Err(UnknownSourceType(SourceKind(cfg)))
    ensures r.Ok? ==> forall x :: x in r.value ==> InPeriod(x.date, period)
  {
    var ds := SourceSection(cfg);
    var kind := SourceKind(cfg);
    var mapping := cfg.columnMapping;
    if kind == Some("csv_file") then
      var path := if Truthy(ds.path) then ds.path else cfg.dataPath;
      if !Truthy(path) then Err(NoCsvPath)
      else ReadCsvFile(env.fs, path.value, mapping, env.parsers, period, ds.chunkSize)
    else if kind == Some("csv_dir") then
      if !Truthy(ds.path) then Err(NoCsvDir)
      else ReadCsvDir(env.fs, ds.path.value, mapping, env.parsers, period, ds.chunkSize)
    else if kind == Some("mysql") then
      ReadMysql(MysqlSection(cfg), mapping, env.parsers, period, env.db).result
    else Err(UnknownSourceType(kind))
  }
}
