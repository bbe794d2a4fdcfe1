/** The configuration dictionaries the tool reads, as explicit structures.
    A key read with `d.get(k, default)` is a `Field` (missing, null or
    given); a key only ever tested for truthiness is an `Option`. */
module Config {
  import opened Wrappers
  import opened Ingestion

  /** `data_source`: `type`, `path`, `chunk_size`. */
  datatype DataSourceConfig = DataSourceConfig(kind: Field<string>, path: Option<string>, chunkSize: Option<int>)

  const EmptyDataSource := DataSourceConfig(Absent, None, None)

  /** `mysql`: connection settings and an optional query. */
  datatype MysqlConfig = MysqlConfig(
    host: Option<string>,
    port: Field<int>,
    user: Option<string>,
    password: Option<string>,
    database: Option<string>,
    query: Option<string>)

  const EmptyMysql := MysqlConfig(None, Absent, None, None, None, None)

  /** `period`: `mode`, `date_start`, `date_end` as written in the file. */
  datatype PeriodConfig = PeriodConfig(mode: Field<string>, dateStart: Option<string>, dateEnd: Option<string>)

  /** `excel`: the settings `run` reads. */
  datatype ExcelConfig = ExcelConfig(
    topNProducts: Option<int>,
    includeSheets: Option<seq<string>>,
    includeKpis: Option<seq<string>>)

  /** `email`: `enabled` is only tested for truthiness. */
  datatype EmailConfig = EmailConfig(
    enabled: bool,
    smtpHost: Option<string>,
    smtpPort: Field<int>,
    useTls: Field<bool>,
    username: Option<string>,
    password: Option<string>,
    fromAddr: Field<string>,
    toAddrs: Field<seq<string>>,
    subject: Field<string>,
    html: Field<string>)

  /** The merged configuration (file over defaults). */
  datatype AppConfig = AppConfig(
    dataSource: Field<DataSourceConfig>,
    columnMapping: Mapping,
    dataPath: Option<string>,
    mysql: Field<MysqlConfig>,
    period: Option<PeriodConfig>,
    excel: Option<ExcelConfig>,
    email: Option<EmailConfig>)
}
