/** The command-line run: the `--data` override, the reporting period, the
    empty-data guard, the `top_n` default and the non-blocking e-mail step.
    The clock, the command line and the filesystem come in as parameters. */
module App {
  import opened Wrappers
  import opened Calendar
  import opened Tables
  import opened Config
  import opened Datasources
  import opened Kpi
  import opened Emailer

  // ---------------------------------------------------------------------
  // resolve_period
  // ---------------------------------------------------------------------

  const DefaultMode := "last_full_month"
  const RangeMode := "range"

  /** `pd.to_datetime(x) if x else None`: a falsy bound is open, a truthy one
      must parse or the run stops. */
  function ParseBound(text: Option<string>, parse: string -> Option<Day>): (r: Result<Option<Day>, Error>)
    ensures !Truthy(text) ==> r == Ok(None)
    ensures Truthy(text) ==> match parse(text.value)
                             case Some(d) => r == Ok(Some(d))
                             case None => r == Err(BadDate(text.value))
  {
    if !Truthy(text) then Ok(None)
    else match parse(text.value)
      case Some(d) => Ok(Some(d))
      case None => Err(BadDate(text.value))
  }

  /** The period of the calendar month before `today`'s month; the first
      month of the modelled calendar has none. */
  function LastFullMonth(today: Day): (r: Result<Period, Error>)
    ensures r.Err? <==> today.year == MinYear && today.month == 1
    ensures r.Ok? ==> r.value.start.Some? && r.value.end.Some?
  {
    var first := FirstOfMonth(today);
    if first == Date(MinYear, 1, 1) then Err(DateOutOfRange)
    else
      var end := DayBefore(first);
      Ok(Period(Some(FirstOfMonth(end)), Some(end)))
  }

  /** The last full month runs from the first to the last day of the month
      before today's, January wrapping to December of the year before. */
  lemma LastFullMonthBounds(today: Day)
    requires !(today.year == MinYear && today.month == 1)
    ensures var p := LastFullMonth(today).value;
            var s, e := p.start.value, p.end.value;
            && MonthOf(s) == PrevMonth(MonthOf(today)) && MonthOf(e) == MonthOf(s)
            && s.day == 1 && e.day == DaysInMonth(e.year, e.month)
            && DateLeq(s, e)
            && (today.month == 1 ==> s.year == today.year - 1 && s.month == 12)
  {
  }

  /** The days the last-full-month period keeps are exactly the days of the
      previous calendar month. */
  lemma LastFullMonthIsPreviousMonth(today: Day, d: Day)
    requires !(today.year == MinYear && today.month == 1)
    ensures InPeriod(d, LastFullMonth(today).value) <==> MonthOf(d) == PrevMonth(MonthOf(today))
  {
    LastFullMonthBounds(today);
  }

  /** `(cfg_period or {}).get("mode", "last_full_month")`. */
  function Mode(cfgPeriod: Option<PeriodConfig>): Option<string> {
    match cfgPeriod
    case None => Some(DefaultMode)
    case Some(c) => c.mode.GetWithDefault(DefaultMode)
  }

  /** A command-line bound was given: both bounds come from the command line. */
  predicate CliGiven(cliStart: Option<string>, cliEnd: Option<string>) {
    Truthy(cliStart) || Truthy(cliEnd)
  }

  /** `resolve_period(cfg_period, cli_start, cli_end)` with today's date and
      the date parser passed in. */
  function ResolvePeriod(cfgPeriod: Option<PeriodConfig>, cliStart: Option<string>, cliEnd: Option<string>,
                         today: Day, parse: string -> Option<Day>): (r: Result<Period, Error>)
    ensures CliGiven(cliStart, cliEnd) ==>
              match (ParseBound(cliStart, parse), ParseBound(cliEnd, parse))
              case (Ok(s), Ok(e)) => r == Ok(Period(s, e))
              case (Err(x), _) => r == Err(x)
              case (_, Err(x)) => r == Err(x)
    ensures !CliGiven(cliStart, cliEnd) && Mode(cfgPeriod) == Some(RangeMode) ==>
              match (ParseBound(cfgPeriod.value.dateStart, parse), ParseBound(cfgPeriod.value.dateEnd, parse))
              case (Ok(s), Ok(e)) => r == Ok(Period(s, e))
              case (Err(x), _) => r == Err(x)
              case (_, Err(x)) => r == Err(x)
    ensures !CliGiven(cliStart, cliEnd) && Mode(cfgPeriod) != Some(RangeMode) ==> r == LastFullMonth(today)
  {
    if CliGiven(cliStart, cliEnd) then
      var s :- ParseBound(cliStart, parse);
      var e :- ParseBound(cliEnd, parse);
      Ok(Period(s, e))
    else if Mode(cfgPeriod) == Some(RangeMode) then
      var s :- ParseBound(cfgPeriod.value.dateStart, parse);
      var e :- ParseBound(cfgPeriod.value.dateEnd, parse);
      Ok(Period(s, e))
    else LastFullMonth(today)
  }

  /** A command-line bound overrides the configuration and the clock, and a
      missing command-line side leaves that side open. */
  lemma CliOverridesConfig(c1: Option<PeriodConfig>, c2: Option<PeriodConfig>, cliStart: Option<string>,
                           cliEnd: Option<string>, t1: Day, t2: Day, parse: string -> Option<Day>)
    requires CliGiven(cliStart, cliEnd)
    ensures ResolvePeriod(c1, cliStart, cliEnd, t1, parse) == ResolvePeriod(c2, cliStart, cliEnd, t2, parse)
    ensures var r := ResolvePeriod(c1, cliStart, cliEnd, t1, parse);
            r.Ok? ==> (r.value.start.None? <==> !Truthy(cliStart)) && (r.value.end.None? <==> !Truthy(cliEnd))
  {
  }

  /** Without a command-line bound, no period section, a missing mode, an
      explicit null mode and any mode other than "range" all select the
      last full month. */
  lemma NonRangeModesAreLastFullMonth(cfgPeriod: Option<PeriodConfig>, today: Day, parse: string -> Option<Day>)
    requires cfgPeriod.None? || cfgPeriod.value.mode != Given(RangeMode)
    ensures ResolvePeriod(cfgPeriod, None, None, today, parse) == LastFullMonth(today)
  {
  }

  /** In range mode every empty or missing configured bound is open. */
  lemma RangeModeOpenBounds(c: PeriodConfig, today: Day, parse: string -> Option<Day>)
    requires c.mode == Given(RangeMode) && !Truthy(c.dateStart) && !Truthy(c.dateEnd)
    ensures ResolvePeriod(Some(c), None, None, today, parse) == Ok(Unbounded)
  {
  }

  // ---------------------------------------------------------------------
  // run
  // ---------------------------------------------------------------------

  /** `--data`, `--start`, `--end`, `--no-email`. */
  datatype CliArgs = CliArgs(data: Option<string>, start: Option<string>, end: Option<string>, noEmail: bool)

  /** `cfg["data_source"] = {"type": ..., "path": args.data}` when `--data`
      is given: a directory selects `csv_dir`, anything else `csv_file`. */
  function DataOverride(cfg: AppConfig, data: Option<string>, fs: Fs): (c: AppConfig)
    ensures !Truthy(data) ==> c == cfg
    ensures Truthy(data) ==>
              && c == cfg.(dataSource := c.dataSource)
              && SourceSection(c).path == data && SourceSection(c).chunkSize.None?
              && SourceKind(c) == Some(if data.value in fs.dirs then "csv_dir" else "csv_file")
  {
    if !Truthy(data) then cfg
    else
      var kind := if data.value in fs.dirs then "csv_dir" else "csv_file";
      cfg.(dataSource := Given(DataSourceConfig(Given(kind), data, None)))
  }

  /** With `--data`, the table is read from that path by the reader its
      kind selects, whole (the override carries no chunk size). */
  lemma DataOverrideSelectsReader(cfg: AppConfig, data: string, period: Period, env: Env)
    requires data != ""
    ensures LoadDataframe(DataOverride(cfg, Some(data), env.fs), period, env)
            == if data in env.fs.dirs
               then ReadCsvDir(env.fs, data, cfg.columnMapping, env.parsers, period, None)
               else ReadCsvFile(env.fs, data, cfg.columnMapping, env.parsers, period, None)
  {
  }

  const DefaultTopN := 10

  /** `int(((cfg.get("excel") or {}).get("top_n_products")) or 10)`. */
  function TopN(excel: Option<ExcelConfig>): (n: int)
    ensures n != 0
    ensures excel.Some? && excel.value.topNProducts.Some? && excel.value.topNProducts.value != 0
            ==> n == excel.value.topNProducts.value
    ensures excel.None? || excel.value.topNProducts.None? || excel.value.topNProducts.value == 0
            ==> n == DefaultTopN
  {
    match excel
    case Some(ExcelConfig(Some(n), _, _)) => if n != 0 then n else DefaultTopN
    case _ => DefaultTopN
  }

  /** What a successful run hands on: the period, the table `compute_kpis`
      is called with and its `top_n`, and the e-mail outcome (None under
      `--no-email`). */
  datatype Report = Report(period: Period, rows: seq<Record>, topN: int, mail: Option<EmailOutcome>) {
    /** `compute_kpis(df, top_n_products=top_n)`. */
    function Figures(): Kpis
      requires rows != []
    {
      ComputeKpis(rows, topN)
    }
  }

  /** The part of `run()` after loading: the empty-data guard, `top_n`, the
      KPIs and, unless `--no-email`, the e-mail step. */
  function Summarize(cfg: AppConfig, args: CliArgs, period: Period, rows: seq<Record>, dateStr: string): (r: Result<Report, Error>)
    ensures r.Err? <==> rows == []
    ensures r.Err? ==> r.error == NoData
    ensures r.Ok? ==>
              && r.value.period == period && r.value.rows == rows
              && r.value.topN == TopN(cfg.excel) && r.value.topN != 0
              && r.value.mail == (if args.noEmail then None else Some(SendEmail(cfg.email, dateStr)))
  {
    if rows == [] then Err(NoData)
    else
      var n := TopN(cfg.excel);
      var mail := if args.noEmail then None else Some(SendEmail(cfg.email, dateStr));
      Ok(Report(period, rows, n, mail))
  }

  /** `run()`: override, period, load, then `Summarize`. `dateStr` is today's
      date in the configured format. An e-mail failure is logged and does
      not fail the run. */
  function Run(cfg: AppConfig, args: CliArgs, today: Day, dateStr: string, env: Env): (r: Result<Report, Error>)
    ensures var cfg' := DataOverride(cfg, args.data, env.fs);
            var period := ResolvePeriod(cfg'.period, args.start, args.end, today, env.parsers.date);
            && (period.Err? ==> r == Err(period.error))
            && (period.Ok? ==>
                  var load := LoadDataframe(cfg', period.value, env);
                  && (load.Err? ==> r == Err(load.error))
                  && (load == Ok([]) ==> r == Err(NoData))
                  && (r.Ok? <==> load.Ok? && load.value != [])
                  && (r.Ok? ==> && r.value.period == period.value
                                && r.value.rows == load.value
                                && r.value.topN == TopN(cfg.excel)))
    ensures r.Ok? ==>
              && r.value.rows != []
              && (forall x :: x in r.value.rows ==> InPeriod(x.date, r.value.period))
              && r.value.topN != 0
              && r.value.mail == (if args.noEmail then None else Some(SendEmail(cfg.email, dateStr)))
  {
    var cfg' := DataOverride(cfg, args.data, env.fs);
    var period :- ResolvePeriod(cfg'.period, args.start, args.end, today, env.parsers.date);
    var rows :- LoadDataframe(cfg', period, env);
    Summarize(cfg', args, period, rows, dateStr)
  }

  /** An empty table after filtering stops the run before any KPI is
      computed. */
  lemma EmptyDataStopsRun(cfg: AppConfig, args: CliArgs, today: Day, dateStr: string, env: Env)
    requires var cfg' := DataOverride(cfg, args.data, env.fs);
             var p := ResolvePeriod(cfg'.period, args.start, args.end, today, env.parsers.date);
             p.Ok? && LoadDataframe(cfg', p.value, env) == Ok([])
    ensures Run(cfg, args, today, dateStr, env) == Err(NoData)
  {
  }

  /** Loading reads nothing from the e-mail section. */
  lemma LoadIgnoresEmail(cfg: AppConfig, e: Option<EmailConfig>, period: Period, env: Env)
    ensures LoadDataframe(cfg.(email := e), period, env) == LoadDataframe(cfg, period, env)
  {
  }

  /** The e-mail step never decides the run: whatever the e-mail settings,
      the run succeeds or fails alike and produces the same KPIs. */
  lemma EmailNeverBlocksRun(cfg: AppConfig, e: Option<EmailConfig>, args: CliArgs, today: Day, dateStr: string, env: Env)
    ensures var r1 := Run(cfg, args, today, dateStr, env);
            var r2 := Run(cfg.(email := e), args, today, dateStr, env);
            && r1.Ok? == r2.Ok?
            && (r1.Ok? ==> r1.value.(mail := None) == r2.value.(mail := None))
            && (r1.Err? ==> r1 == r2)
  {
    var c1 := DataOverride(cfg, args.data, env.fs);
    var p := ResolvePeriod(c1.period, args.start, args.end, today, env.parsers.date);
    if p.Ok? {
      LoadIgnoresEmail(c1, e, p.value, env);
    }
  }
}
