# Sales reporting pipeline — a Dafny model

This project models the core of a sales-reporting tool. The tool runs these steps in order:

1. It reads sales from one of three sources: a CSV file, a directory of CSV files, or a MySQL query.
2. It renames columns through a configurable mapping and checks that the five required columns are present (`date`, `produit`, `categorie`, `montant`, `client`).
3. It coerces dates and amounts, drops rows that do not parse, and filters the rows to a reporting period.
4. It computes the KPIs:
   - monthly totals, order counts and mean tickets;
   - totals per month and category, and per month and product;
   - the last month's turnover, the previous month's turnover and the growth between them;
   - the global mean ticket;
   - the top products and top categories;
   - a category pivot, and a product pivot restricted to the top products.
5. It lays out an Excel workbook. The model covers the sheet choice, KPI lines, column widths and chart ranges.
6. It optionally prepares a report e-mail.

The model is written over immutable values:

- **Tables.** A raw table is a header plus rows of cell texts. A sale is a `Record` with a parsed `Day` and a `real` amount.
- **Configuration.** Configuration sections are datatypes. A key read with `dict.get(k, default)` is a `Field` (`Absent | Null | Given(v)`), so "missing" and "explicitly null" stay distinct, as they do in Python. A key only tested for truthiness is an `Option`.
- **Outside world.** The file system is a value `Fs`: files are raw tables, and directories are listings. The database is a pair of functions, for connecting and for running a query. The clock, the date coercions and the formatted date string are parameters.
- **Errors.** Every `raise` becomes an `Err` of a `Tables.Error` constructor.

Modules, following the program's structure:

| module | models |
|---|---|
| `Wrappers` | `Option`, `Result`, `Outcome`, `Field` and Python truthiness of strings |
| `Calendar` | proleptic Gregorian dates, months, the day before a date, ISO formatting |
| `Text` | decimal digits, `str.replace`, `str.split`, `str.join` |
| `Orders` | strict total orders, sorting without duplicates, code-point string order |
| `Tables` | raw tables, records, periods, errors |
| `Ingestion` | `apply_mapping` |
| `Validate` | the required-column check |
| `Config` | the configuration dictionaries |
| `Datasources` | `_finalize`, `read_csv_file`, `read_csv_dir`, `read_mysql`, `load_dataframe_from_source` |
| `Kpi` | `compute_kpis` |
| `Emailer` | `_tpl` and the checks and defaults of `send_email` |
| `ExcelReport` | `_autofit_columns` and the layout decisions of `write_report` |
| `App` | `resolve_period` and the guards of `run` |

## Model

| member | source | states |
|---|---|---|
| Ingestion.LastLogicalFor | app/ingestion.py:6-7 | a column is renamed exactly when some mapping entry names it as its source, and then to the logical name of such an entry |
| Ingestion.ApplyMapping | app/ingestion.py:4-8 | renaming keeps every row and the column count; each column takes the logical name of the last entry that names it, or keeps its own name |
| Ingestion.BuildRenameIsLastEntry | app/ingestion.py:5-7 | the rename dictionary built by the loop maps each present column to the last matching entry, so a later entry overrides an earlier one |
| Ingestion.AbsentSourcesIgnored | app/ingestion.py:7 | an entry whose source column is not in the table changes nothing, wherever it stands in the mapping |
| Ingestion.LastLogicalAppend | app/ingestion.py:6-7 | appending an entry makes it win for its own source and leaves every other column's lookup as it was |
| Ingestion.LaterEntryWins | app/ingestion.py:6-8 | of two entries naming the same present column, the later one decides the new name |
| Ingestion.IdentityMappingUnchanged | app/ingestion.py:4-8 | a mapping whose every entry maps a name to itself leaves the table unchanged |
| Validate.MissingFrom | app/utils/validate.py:7 | the missing list holds exactly the required names absent from the columns, in the required list's order |
| Validate.Missing | app/utils/validate.py:4-7 | the same list for the five required columns |
| Validate.EnsureRequiredColumns | app/utils/validate.py:6-9 | the check passes iff every required column is present; otherwise the error lists exactly the absent required columns and that list is non-empty |
| Validate.CheckSchema | app/datasources.py:37-39 | the inline check in the readers passes iff every required column is present, and otherwise reports the missing list together with the source's label |
| Validate.ExtraColumnsHarmless | app/utils/validate.py:7-9 | adding columns before or after the existing ones never makes a passing table fail |
| Datasources.Coerce | app/datasources.py:15-17 | a row yields a record iff both its date and its amount parse; the record holds the parsed date and amount and the product, category and client texts of the row |
| Datasources.DropUnparsable | app/datasources.py:15-17 | every kept record comes from some row whose date and amount both parse, and every such row's record is kept |
| Datasources.DropUnparsableCounts | app/datasources.py:15-17 | each record is kept exactly as many times as there are rows that coerce to it |
| Datasources.DropUnparsableConcat | app/datasources.py:15-17 | coercion is row by row, so coercing a concatenation is concatenating the coercions |
| Datasources.FilterPeriod | app/datasources.py:18-21 | a record is kept iff its date lies within the inclusive bounds, as many times as it occurs; the kept records stay in their original order |
| Datasources.FilterUnboundedKeepsAll | app/datasources.py:18-21 | with neither bound given, the filter keeps every record |
| Datasources.Finalize | app/datasources.py:14-22 | each record dated in the period appears exactly as often as rows coerce to it, and no other record appears; the result keeps the rows' order |
| Datasources.Chunks | app/datasources.py:27 | the chunks all have the file's header and hold the file's rows in order, in blocks of exactly the chunk size except a shorter last one; a file without rows gives a single header-only chunk |
| Datasources.ConcatRowsAppend | app/datasources.py:33 | the rows of a split list of tables are the rows of the first part followed by those of the second |
| Datasources.MapChunk | app/datasources.py:28-31 | a chunk passes iff its renamed header holds every required column; a failure names the file and the missing columns |
| Datasources.MapAndValidate | app/datasources.py:27-32 | all chunks pass iff each renamed chunk holds the required columns; on failure some chunk lacks a required column, every chunk before it passes, and the error names that chunk's missing columns |
| Datasources.MappingKeepsRows | app/datasources.py:28-33 | renaming the chunks does not change the concatenated rows |
| Datasources.ReadCsvFile | app/datasources.py:24-40 | a negative chunk size is refused before the file is looked up; a missing file is an error; otherwise the read succeeds iff the renamed header is complete, and then returns the finalized renamed file, chunked or not; a schema error names the file and its missing columns |
| Datasources.ChunksRejoinWhole | app/datasources.py:27-33 | the renamed chunks, concatenated, are the renamed file |
| Datasources.ChunkedReadMatchesWholeRead | app/datasources.py:25-40 | for every file and positive chunk size, a chunked read returns exactly what a whole-file read returns, errors included |
| Datasources.ChunkedReadOfEmptyFile | app/datasources.py:27-33 | a header-only file read in chunks still has its header checked: it yields no records when the header is complete and the missing-columns error otherwise |
| Datasources.FilterCsv | app/datasources.py:47 | the listing keeps exactly the entries ending in `.csv` |
| Datasources.CsvFiles | app/datasources.py:47 | the files read are exactly the `.csv` entries, in strictly increasing code-point order |
| Datasources.CsvFilesIgnoreListingOrder | app/datasources.py:47 | the files read depend only on which entries the directory holds, not on the listing order |
| Datasources.Flatten | app/datasources.py:51 | the concatenated frames hold exactly the records of the individual frames, and a single frame comes back as it is |
| Datasources.FlattenAppend | app/datasources.py:51 | concatenating a split list of frames gives the first part's records followed by the second's |
| Datasources.Collect | app/datasources.py:47-48 | a loop of reads succeeds iff every read succeeds, keeping each result in place; otherwise it fails with the error of the first failing read |
| Datasources.ReadFiles | app/datasources.py:47-48 | reading a list of files succeeds iff every file reads, with each file's records in its place; otherwise the error is that of the first file that fails |
| Datasources.ReadCsvDir | app/datasources.py:42-51 | a missing directory and a directory without CSV files are distinct errors; on success the result is the concatenation, in sorted name order, of every CSV file's records; on a read failure the error is that of the first failing file |
| Datasources.ReadCsvDirIgnoresListingOrder | app/datasources.py:47 | reordering the directory listing does not change the result |
| Datasources.ReadFilesOnlyReadsFiles | app/datasources.py:47-48 | the reads depend on file contents only, not on the directory listings |
| Datasources.ReadCsvFileOnlyReadsFiles | app/datasources.py:24-40 | a single file read does not consult the directory listings |
| Datasources.ConnectionParams | app/datasources.py:57-63 | the connection uses the configured host, user, password and database; the port is 3306 when absent, none when null and the configured value otherwise |
| Datasources.QueryText | app/datasources.py:67 | a non-empty configured query is used as is; otherwise the default five-column query on `ventes` is used |
| Datasources.FormatBound | app/datasources.py:69-70 | a bound is passed as a ten-character ISO date that parses back to the bound, and an absent bound is passed as none |
| Datasources.DateParams | app/datasources.py:68-71 | each query parameter is present iff its bound is, and parses back to that bound |
| Datasources.ReadMysql | app/datasources.py:53-80 | a missing section fails before connecting; a failed connection fails after one connect attempt; an open connection is followed by the query and then a close, so a connection is closed exactly once, last, iff it was opened; once the query ran, the read succeeds iff the renamed columns are complete and then returns the finalized renamed result, and otherwise reports the missing columns labelled MySQL |
| Datasources.SourceKind | app/datasources.py:83-84 | a missing or null section, or one without `type`, selects `csv_file`; a null `type` selects none, which no reader accepts; a given type is used as is |
| Datasources.LoadDataframe | app/datasources.py:82-98 | the source type selects the reader; `path` wins over `data_path` for a file, a directory needs `path`, an unknown type is an error naming it, and every record returned lies in the period |
| Kpi.CellLtIsStrictTotalOrder | app/kpi.py:14-15 | the (month, key) group order is a strict total order |
| Kpi.Select | app/kpi.py:9 | a group holds exactly the records with its key, and is empty iff no record has that key |
| Kpi.Groups | app/kpi.py:9-15 | the group keys are sorted, distinct, exactly the keys some record has, and each group is non-empty |
| Kpi.Months | app/kpi.py:9 | the months of `by_month` are the months that occur in the data, sorted and distinct |
| Kpi.Keys | app/kpi.py:30-33 | the products or categories are those that occur, sorted and distinct |
| Kpi.Cells | app/kpi.py:14-15 | the (month, key) pairs are those that occur, sorted and distinct |
| Kpi.SelectStep | app/kpi.py:9-11 | a group and its total split off the first record |
| Kpi.PartitionTotal | app/kpi.py:9-11 | when every record's key is among distinct group keys, the group totals add up to the grand total and the group sizes add up to the record count |
| Kpi.MeanOf | app/kpi.py:12 | a mean times its count gives back the sum |
| Kpi.MonthRowOf | app/kpi.py:9-13 | a month's row holds that month's total, its record count, and a mean ticket consistent with both |
| Kpi.MonthRows | app/kpi.py:9-13 | one row per month, in order, each carrying its group's total, count and mean ticket |
| Kpi.ByMonth | app/kpi.py:9-13 | `by_month` has one row per occurring month, in month order; each row has a positive count, the month's total, and a mean ticket times count equal to that total |
| Kpi.MonthRowsSums | app/kpi.py:9-11 | the rows' totals and counts equal the sums of the groups they describe |
| Kpi.ByMonthConservesTotals | app/kpi.py:9-17 | the monthly totals add up to `ca_total` and the monthly counts add up to the number of sales |
| Kpi.ByPair | app/kpi.py:14-15 | `by_cat` and `by_prod` have one row per occurring (month, key) pair, in order, each carrying that group's total |
| Kpi.ByPairConservesTotal | app/kpi.py:14-17 | the per-pair totals add up to `ca_total` |
| Kpi.LastMonth | app/kpi.py:18 | the last month occurs in the data and no sale is in a later month |
| Kpi.CaAt | app/kpi.py:21-22 | a month with no row gives 0, and a month with exactly one row gives that row's total |
| Kpi.CaAtMonthRows | app/kpi.py:21-22 | looking a month up in the monthly rows gives its total, or 0 when it has no row |
| Kpi.CaAtIsMonthTotal | app/kpi.py:21-22 | `ca_M` and `ca_M1` are the month's total and 0 for a month without sales, never an error |
| Kpi.Growth | app/kpi.py:24-26 | growth is absent iff the previous month's total is 0, and is otherwise the relative change |
| Kpi.TicketMoyen | app/kpi.py:28 | the global mean ticket times the number of sales is the grand total |
| Kpi.KeyTotals | app/kpi.py:30-31 | one total per key, in key order, each the sum over that key's sales |
| Kpi.InsertDesc | app/kpi.py:31 | inserting into a descending list keeps it descending and adds exactly the new element |
| Kpi.InsertDescPermutes | app/kpi.py:31 | the insertion is a permutation of the old list plus the new element |
| Kpi.SortDesc | app/kpi.py:31 | the descending sort is a permutation that is non-increasing by total |
| Kpi.HeadLength | app/kpi.py:31 | `head(n)` keeps the first n rows, all of them when n exceeds the length, and all but the last -n when n is negative |
| Kpi.Head | app/kpi.py:31 | `head(n)` is the prefix of that length |
| Kpi.TopOfSorted | app/kpi.py:30-31 | a prefix of a descending sort holds only original elements, and no element left out has a larger total than one kept |
| Kpi.Top | app/kpi.py:30-33 | the top list has the `head` length, is descending, holds distinct keys with their true totals, and every key left out totals no more than any kept one |
| Kpi.PivotOf | app/kpi.py:36 | the pivot's index and columns are the sorted distinct months and keys of its rows, and each cell is the pair's total or 0 |
| Kpi.KeepKeys | app/kpi.py:39 | the filter keeps exactly the pairs whose key is listed, in their original order |
| Kpi.KeepKeysCa | app/kpi.py:38-39 | after keeping only listed keys, a pair's total is unchanged when its key is listed and 0 otherwise |
| Kpi.PairRowsLookup | app/kpi.py:14-15 | looking a pair up gives its group total when it occurs and 0 otherwise |
| Kpi.ByPairLookup | app/kpi.py:14-15 | looking any (month, key) up in `by_cat` or `by_prod` gives the total of the sales with that month and key |
| Kpi.ByPairMonth | app/kpi.py:14-15 | a month appears among the pairs iff it has sales |
| Kpi.ByPairKey | app/kpi.py:14-15 | a key appears among the pairs iff it has sales |
| Kpi.PivotRowSum | app/kpi.py:36 | a pivot row over a list of keys sums to the month's total over those keys |
| Kpi.PivotCatIsZeroFilledGrid | app/kpi.py:36 | `pivot_cat` has every occurring month as index and every occurring category as column; each cell is that month and category's total (0 where none); each row adds up to its month's total |
| Kpi.PivotCatLabels | app/kpi.py:36 | the category pivot's index and columns are the months and categories of the data |
| Kpi.PivotCatCells | app/kpi.py:36 | every category-pivot cell is its group total |
| Kpi.PivotCatRowSums | app/kpi.py:36 | every category-pivot row adds up to its month's total |
| Kpi.TopKeys | app/kpi.py:38 | `keep_prods` is exactly the set of products in the top list |
| Kpi.KeptKey | app/kpi.py:38-39 | when the kept products all occur, a product survives the filter iff it is kept |
| Kpi.KeptMonthOfRow | app/kpi.py:39-40 | a sale of a kept product puts its month in the product pivot |
| Kpi.RowOfKeptMonth | app/kpi.py:39-40 | every month of the product pivot has a sale of a kept product |
| Kpi.PivotProdColumns | app/kpi.py:38-40 | the product pivot's columns are exactly the top products, sorted |
| Kpi.PivotProdIndex | app/kpi.py:38-40 | the product pivot's index is exactly the months with a sale of a top product, sorted |
| Kpi.PivotProdCells | app/kpi.py:38-40 | every product-pivot cell is the total of that month and product |
| Kpi.PivotProd | app/kpi.py:38-40 | the product pivot is a well-shaped grid: one row per index month, one cell per column |
| Kpi.ComputeKpis | app/kpi.py:5-55 | `ca_total` is the grand total and the sum of `by_month`; `ca_M` and `ca_M1` are the totals of the last month with sales and of the month before it; growth is computed from those two; the mean ticket is global; the top lists hold the `top_n` products and 5 categories; `pivot_prod` is built from the top products only |
| Kpi.ExampleByMonth | app/kpi.py:9-13 | on three sales over two months, `by_month` is January 150 over 2 sales at 75 and February 200 over 1 sale |
| Kpi.ExampleTop | app/kpi.py:30-31 | on the same sales with `top_n = 1`, product A with 300 is the whole top list |
| Kpi.ExamplePivotProd | app/kpi.py:38-40 | on the same sales, the product pivot is months January and February by product A, with cells 100 and 200 |
| Kpi.WorkedExample | app/kpi.py:5-55 | on the same sales, the KPIs are total 350, last month 200, previous month 150, growth one third, top product A, and the pivot above |
| Calendar.FirstOfMonth | app/main.py:33 | `replace(day=1)` stays in the same month, on day 1, not after the date |
| Calendar.MonthOf | app/kpi.py:7 | a day's month key is the one month whose first and last days enclose it |
| Calendar.DayBefore | app/main.py:34 | subtracting one day gives the latest date strictly before the given one |
| Calendar.DayBeforeThenNext | app/main.py:34 | the day before, followed by the next day, is the original date |
| Calendar.PrevMonth | app/kpi.py:19 | `MonthBegin(1)` subtracted from a month start is the month just before it, wrapping January to December of the previous year |
| Calendar.PrevMonthIsImmediate | app/kpi.py:19 | no month lies strictly between a month and its predecessor |
| Calendar.FormatIsoRoundTrip | app/datasources.py:69-70 | `%Y-%m-%d` formatting parses back to the same date |
| Text.ReplaceIsSplitJoin | app/emailer.py:9 | `str.replace` equals joining the split pieces with the replacement |
| Text.ReplaceAbsent | app/emailer.py:9 | replacing a pattern that does not occur leaves the text unchanged |
| Text.ReplaceBySelf | app/emailer.py:9 | replacing a pattern by itself leaves the text unchanged |
| Text.ReplaceKeepsCleanPrefix | app/emailer.py:9 | the text before the first occurrence of the pattern comes through unchanged |
| Text.ReplaceKeepsOccurrence | app/emailer.py:9 | an occurrence of another text that no occurrence of the pattern overlaps survives the replacement |
| Text.DigitsRoundTrip | app/excel_report.py:99-100 | the decimal text of a row number reads back as that number |
| Orders.SortUnique | app/kpi.py:9 | sorting keys without duplicates yields a strictly sorted list of exactly the input's elements |
| Orders.StrLtIsStrictTotalOrder | app/datasources.py:47 | Python's code-point string order is a strict total order |
| Emailer.Placeholder | app/emailer.py:9 | a placeholder is the key wrapped in double braces |
| Emailer.Tpl | app/emailer.py:7-10 | a text holding none of the supplied placeholders comes back unchanged |
| Emailer.TplOneKey | app/emailer.py:7-10 | substituting one key is splitting on its placeholder and joining with the value |
| Emailer.TplAppend | app/emailer.py:8-9 | keys are substituted in argument order, each on the text left by the earlier ones |
| Emailer.TplSelfBindings | app/emailer.py:7-10 | binding each key to its own placeholder leaves the text unchanged |
| Emailer.PlaceholderAt | app/emailer.py:9 | where the placeholder of a brace-free key occurs, it is two opening braces, the key and two closing braces, with no other brace in between |
| Emailer.PlaceholdersApart | app/emailer.py:9 | placeholders of two different brace-free keys never overlap |
| Emailer.TplKeepsUnsuppliedPlaceholder | app/emailer.py:7-10 | with brace-free keys, a placeholder whose key is not supplied is still in the text after substitution, whatever the values |
| Emailer.SendEmail | app/emailer.py:12-24 | mail is skipped iff the section is missing or disabled; a null port or template raises; otherwise the send fails, with the missing-host-or-recipients error, iff the host or recipients are missing; a ready message goes to exactly the configured `to_addrs` at the configured host, and carries port 587, TLS on and the username as sender unless configured, and date-substituted subject and body |
| Emailer.SendEmailDefaults | app/emailer.py:15-23 | a section giving only host and recipients gets every default |
| Emailer.NoRecipientsNeverReady | app/emailer.py:21-24 | without `to_addrs` no message is ever sent |
| ExcelReport.MaxLen | app/excel_report.py:9-14 | the measured length is at least the header's and every sampled value's, and is attained by one of them |
| ExcelReport.Sample | app/excel_report.py:12 | the sample is the prefix of the first 100 values, or the whole column when it is shorter |
| ExcelReport.Clamp | app/excel_report.py:15 | the width is the length when it lies between the bounds, the minimum when the length is below it, and the maximum when the length reaches it or the bounds are inverted |
| ExcelReport.ColumnWidth | app/excel_report.py:8-15 | the width lies between the bounds; unless capped, it leaves two characters beyond the header and each of the first 100 values; and it is the minimum, the maximum, or the header's or one of those values' length plus two; it is capped exactly when the minimum reaches the maximum or the header or a sampled value needs the maximum or more |
| ExcelReport.DefaultWidthBounds | app/excel_report.py:6-15 | with the default bounds every width is between 8 and 40 |
| ExcelReport.LaterRowsIgnored | app/excel_report.py:11-14 | values after the first 100 never change the width |
| ExcelReport.AutofitColumns | app/excel_report.py:6-16 | one `set_column(i, i, width)` call per column, in column order, each with that column's width |
| ExcelReport.OrDefault | app/excel_report.py:31-34 | a missing list falls back to the default list, and a given list is used as is |
| ExcelReport.KeepListed | app/excel_report.py:44-122 | a sheet is written iff it is one the writer knows and it is listed, in the writer's order |
| ExcelReport.SheetsWritten | app/excel_report.py:31-122 | the sheets written are the known sheets that the selected list names, in the writer's fixed order |
| ExcelReport.AllSheetsByDefault | app/excel_report.py:31-32 | without `include_sheets` all five sheets are written |
| ExcelReport.KpiLabel | app/excel_report.py:56-64 | a known KPI key shows its French label, and any other key shows itself |
| ExcelReport.KpiValue | app/excel_report.py:65-74 | the four amounts are money cells, growth is a percentage or `n/a`, a key holding one of the seven tables cannot be written, and a key absent from the KPI dictionary gives an empty cell |
| ExcelReport.GrowthCell | app/excel_report.py:68-72 | growth shows `n/a` iff the previous month's total is 0, and otherwise the growth ratio itself |
| ExcelReport.KpiLines | app/excel_report.py:55-75 | the i-th listed key is written on row 2 + i with its label and value |
| ExcelReport.Layout | app/excel_report.py:63-83 | the top-table headings come two rows after the last KPI line, so exactly one blank row separates them, and the tables start on the row after the headings |
| ExcelReport.WriteKpiLines | app/excel_report.py:64-75 | the KPI lines are written iff no listed key holds a table, and are then exactly the lines above; otherwise the error names the first listed key that holds a table |
| ExcelReport.DefaultKpiLinesWritten | app/excel_report.py:33-75 | the default KPI list never fails to write |
| ExcelReport.DefaultKpiLines | app/excel_report.py:33-75 | the default KPI list writes five lines from row 2, with the four amounts as money cells |
| ExcelReport.ChartRows | app/excel_report.py:96-100 | the chart range has as many rows as `by_month` and runs from the sheet row of its first row to that of its last |
| ExcelReport.SeriesRef | app/excel_report.py:96-110 | each series reference names the data sheet and the column, then ends in the decimal number of the chart range's last row |
| ExcelReport.ChartRangeNonEmpty | app/excel_report.py:96-110 | on a non-empty data set the chart range is never empty |
| App.ParseBound | app/main.py:22-23 | an empty or missing bound is none, a parsable one is its date, and an unparsable one is an error naming the text |
| App.LastFullMonth | app/main.py:32-36 | the last full month has both bounds, and fails only when there is no earlier month to go back to |
| App.LastFullMonthBounds | app/main.py:32-36 | the period runs from day 1 to the last day of the previous month, rolling January back to December of the previous year |
| App.LastFullMonthIsPreviousMonth | app/main.py:32-36 | a date is in the last full month iff its month is the month before today's |
| App.ResolvePeriod | app/main.py:20-36 | a start or end on the command line decides alone; otherwise `range` mode takes the configured bounds; every other mode gives the last full month |
| App.CliOverridesConfig | app/main.py:21-24 | with a command-line bound the configuration and the clock are irrelevant, and a bound is open iff it was not given |
| App.NonRangeModesAreLastFullMonth | app/main.py:25-36 | a missing section, a missing mode or any mode other than `range` gives the last full month |
| App.RangeModeOpenBounds | app/main.py:26-31 | `range` mode without bounds filters nothing |
| App.DataOverride | app/main.py:43-46 | `--data` replaces the whole source section by one that has only a path and a type, `csv_dir` for a directory and `csv_file` otherwise; nothing else changes |
| App.DataOverrideSelectsReader | app/main.py:43-46 | after `--data`, loading reads that directory or that file, without chunks |
| App.TopN | app/main.py:56 | the top size is the configured non-zero value, and 10 when it is missing or zero |
| App.Summarize | app/main.py:54-77 | an empty data set stops the run with an error; otherwise the report keeps the period and the data, takes the top size from the `excel` section, and prepares mail unless `--no-email` |
| App.Run | app/main.py:42-80 | a period error or a load error is the run's error; an empty load gives the no-data error; otherwise the run succeeds with the resolved period, the loaded records, the configured top size and the mail outcome dictated by the e-mail section and `--no-email` |
| App.EmptyDataStopsRun | app/main.py:53-54 | when loading yields no sale, the run fails with the no-data error |
| App.LoadIgnoresEmail | app/main.py:53 | the e-mail section has no influence on loading |
| App.EmailNeverBlocksRun | app/main.py:69-77 | changing the e-mail section changes nothing but the mail outcome: e-mail failures never fail the run |

## Left out

- Reading CSV text, MySQL's wire protocol, writing the workbook, the SMTP session and the message attachment are I/O. Files are given as tables, the database as two functions, and `send_email` stops at the message it would send.
- Time is a parameter. `pd.Timestamp.today()` and `dt.date.today()` are passed in as `today` and `dateStr`. `strftime(cfg["date_format"])` is not modelled: its result is given.
- Coercion is a parameter. `pd.to_datetime` and `pd.to_numeric` with `errors="coerce"` are a pair of parser functions that return none where pandas produces NaT or NaN.
- Amounts are exact reals, not floating point. Sums therefore do not depend on the order of addition.
- Pandas drops NaN keys from `groupby`; the model does not. An empty cell is the key `""`.
- Dates run from year 1 to 9999, not over pandas' `Timestamp` range.
- App.LastFullMonth: fails with `DateOutOfRange` in January of year 1. That is the one date whose previous month lies outside the modelled calendar.
- Path.is_dir is modelled as membership in the file system's directory map, and `glob("*.csv")` as the suffix `.csv`.
- A header-only CSV read in chunks yields one chunk with the header and no rows, so the `pd.DataFrame(columns=REQUIRED_COLUMNS)` fallback of `app/datasources.py:33` is never reached and is not modelled.
- Datasources.FilterPeriod: dates carry no time of day. The period bounds are compared with whole days, so a sale at 15:30 on the end date is kept. Pandas compares full timestamps against a midnight end bound and would drop it.
- Datasources.Coerce: when renaming gives two columns the same required name, pandas raises on `df["date"]` or `df["montant"]`. The model reads the first such column instead.
- Kpi.ComputeKpis: requires at least one sale. `compute_kpis` itself does not guard this, but `run` raises on an empty frame before calling it. Kpi.LastMonth and Kpi.TicketMoyen carry the same requirement.
- Kpi.Top: the order among equal totals is not pinned down. `sort_values` is not stable by default.
- Kpi.PivotProd: its own contract only says the grid is well shaped. Its columns, index and cells are stated by Kpi.PivotProdColumns, Kpi.PivotProdIndex and Kpi.PivotProdCells.
- The `reset_index` step of `pivot_cat` and `pivot_prod`, which turns the month index back into an ordinary column, column renames such as `montant` to `CA`, and the xlsxwriter cell formats and theme colours (`_formats`) are presentation only.
- `freeze_panes`, `insert_chart` positions, chart titles and the conditional format on the KPI sheet are presentation only.
- ExcelReport.KpiValue: the outcome of `ws_kpi.write` comes from xlsxwriter's type dispatch, which is outside the sources. `None` writes an empty cell. A table value has no number or text form, so `write` raises `TypeError`; that makes `write_report` fail and `run` re-raise. The model records this failure in ExcelReport.WriteKpiLines but does not thread it into App.Run, because the workbook is not modelled there.
- Emailer.Tpl: there is no claim that no supplied placeholder survives substitution. A substituted value can itself contain or complete a placeholder.
- Emailer.TplKeepsUnsuppliedPlaceholder: only covers keys without braces. Python keyword-argument names never contain braces.
- `load_config`, `ensure_dir`, the logger and `parse_args` (`app/utils/io.py` and argparse) are outside the core. The command line is given as a `CliArgs` value.
- The Excel output path, built from `report_prefix` and the date string, is not modelled.
