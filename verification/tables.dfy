/** The table abstraction the pipeline works on: raw tables as read from a
    source, canonical sales records after coercion, reporting periods and
    the errors the pipeline raises. */
module Tables {
  import opened Wrappers
  import opened Calendar

  /** A table as read: a header and rows of cell texts. A row shorter than
      the header reads as empty cells (pandas fills them with NaN). */
  datatype RawTable = RawTable(columns: seq<string>, rows: seq<seq<string>>)

  /** One sale after normalisation: parsed date and numeric amount; the text
      columns are kept as read. */
  datatype Record = Record(date: Day, product: string, category: string, amount: real, client: string)

  /** Inclusive reporting period; a missing bound filters nothing. */
  datatype Period = Period(start: Option<Day>, end: Option<Day>)

  const Unbounded := Period(None, None)

  predicate InPeriod(d: Day, p: Period) {
    && (p.start.None? || DateLeq(p.start.value, d))
    && (p.end.None? || DateLeq(d, p.end.value))
  }

  /** The coercions `pd.to_datetime(errors="coerce")` and
      `pd.to_numeric(errors="coerce")`: None where pandas produces NaT/NaN. */
  datatype Parsers = Parsers(date: string -> Option<Day>, amount: string -> Option<real>)

  /** Where a schema error was found: a CSV path, the MySQL source, or no
      label (the stand-alone validator). */
  datatype SourceLabel = CsvPath(path: string) | MySql | Unlabelled

  datatype Error =
    | MissingColumns(source: SourceLabel, missing: seq<string>)
    | FileNotFound(path: string)
    | BadChunkSize(size: int)
    | DirNotFound(path: string)
    | NoCsvFiles(path: string)
    | MysqlConfigMissing
    | ConnectionFailed
    | QueryFailed
    | NoCsvPath
    | NoCsvDir
    | UnknownSourceType(kind: Option<string>)
    | BadDate(text: string)
    | DateOutOfRange
    | NoData
    | NotAnInteger
    | NullTemplate
    | EmailIncomplete
}
