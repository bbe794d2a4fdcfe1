/** The pure decisions of the workbook writer: column widths, which sheets
    and KPI lines are written, how each KPI value is formatted, where the
    tables go on the KPI sheet and the rows the dashboard charts span.
    Rendering the workbook itself is outside the model. */
module ExcelReport {
  import opened Wrappers
  import opened Text
  import opened Orders
  import opened Tables
  import opened Kpi

  // ---------------------------------------------------------------------
  // _autofit_columns
  // ---------------------------------------------------------------------

  const DefaultMinWidth := 8
  const DefaultMaxWidth := 40
  /** Only the first rows of a column are sampled. */
  const SampleRows := 100

  /** One column of a sheet: its header and its cells as `astype(str)`
      renders them. */
  datatype Column = Column(header: string, cells: seq<string>)

  /** `ws.set_column(first, last, width)`. */
  datatype SetColumn = SetColumn(first: nat, last: nat, width: int)

  /** The longest of the header and the given values, found as the loop
      finds it: scanning in order and keeping a strictly longer value. */
  function MaxLen(header: string, values: seq<string>): (m: nat)
    ensures m >= |header|
    ensures forall i :: 0 <= i < |values| ==> |values[i]| <= m
    ensures m == |header| || exists i :: 0 <= i < |values| && |values[i]| == m
  {
    if values == [] then |header|
    else
      var rest := MaxLen(header, values[..|values| - 1]);
      var last := values[|values| - 1];
      if |last| > rest then |last| else rest
  }

  /** `df[col].astype(str).head(100)`. */
  function Sample(cells: seq<string>): (s: seq<string>)
    ensures |s| <= SampleRows && s <= cells
    ensures |s| == if |cells| < SampleRows then |cells| else SampleRows
    ensures |cells| <= SampleRows ==> s == cells
  {
    if |cells| <= SampleRows then cells else cells[..SampleRows]
  }

  /** `min(max(max_len + 2, min_width), max_width)`. */
  function Clamp(len: int, minWidth: int, maxWidth: int): (w: int)
    ensures w <= maxWidth
    ensures minWidth <= maxWidth ==> minWidth <= w
    ensures minWidth <= len <= maxWidth ==> w == len
    ensures len <= minWidth <= maxWidth ==> w == minWidth
    ensures len >= maxWidth || minWidth >= maxWidth ==> w == maxWidth
    ensures w == len || w == minWidth || w == maxWidth
  {
    var lower := if len > minWidth then len else minWidth;
    if lower < maxWidth then lower else maxWidth
  }

  /** The width `_autofit_columns` gives a column: two characters more
      than the longest of the header and the first hundred values, raised
      to the minimum and then capped at the maximum. */
  function ColumnWidth(c: Column, minWidth: int, maxWidth: int): (w: int)
    ensures w <= maxWidth
    ensures minWidth <= maxWidth ==> minWidth <= w
    // Unless capped, the width leaves two characters beyond the header and
    // every sampled value ...
    ensures w == maxWidth
            || (|c.header| + 2 <= w && forall i :: 0 <= i < |c.cells| && i < SampleRows ==> |c.cells[i]| + 2 <= w)
    // ... and it is no wider than the minimum, the maximum or one of them
    // with its two characters demands.
    ensures || w == minWidth || w == maxWidth || w == |c.header| + 2
            || exists i :: 0 <= i < |c.cells| && i < SampleRows && w == |c.cells[i]| + 2
    // It is capped exactly when the minimum already reaches the maximum or
    // the header or some sampled value demands at least the maximum.
    ensures w == maxWidth <==>
              || minWidth >= maxWidth || |c.header| + 2 >= maxWidth
              || exists i :: 0 <= i < |c.cells| && i < SampleRows && |c.cells[i]| + 2 >= maxWidth
  {
    var sample := Sample(c.cells);
    assert forall i :: 0 <= i < |c.cells| && i < SampleRows ==> c.cells[i] == sample[i];
    Clamp(MaxLen(c.header, sample) + 2, minWidth, maxWidth)
  }

  /** With the default bounds every width lies between 8 and 40. */
  lemma DefaultWidthBounds(c: Column)
    ensures DefaultMinWidth <= ColumnWidth(c, DefaultMinWidth, DefaultMaxWidth) <= DefaultMaxWidth
  {
  }

  /** Values beyond the first hundred rows never change a width. */
  lemma LaterRowsIgnored(header: string, cells: seq<string>, more: seq<string>, minWidth: int, maxWidth: int)
    requires |cells| >= SampleRows
    ensures ColumnWidth(Column(header, cells + more), minWidth, maxWidth)
            == ColumnWidth(Column(header, cells), minWidth, maxWidth)
  {
    assert (cells + more)[..SampleRows] == cells[..SampleRows];
  }

  /** `_autofit_columns(ws, df, workbook, min_width, max_width)`: one
      `set_column` per column, at its position, in column order. */
  method AutofitColumns(columns: seq<Column>, minWidth: int, maxWidth: int) returns (calls: seq<SetColumn>)
    ensures |calls| == |columns|
    ensures forall i :: 0 <= i < |calls| ==>
              calls[i] == SetColumn(i, i, ColumnWidth(columns[i], minWidth, maxWidth))
  {
    calls := [];
    var idx := 0;
    while idx < |columns|
      invariant 0 <= idx <= |columns| && |calls| == idx
      invariant forall i :: 0 <= i < idx ==> calls[i] == SetColumn(i, i, ColumnWidth(columns[i], minWidth, maxWidth))
    {
      var col := columns[idx];
      var sample := Sample(col.cells);
      var maxLen := |col.header|;
      var j := 0;
      while j < |sample|
        invariant 0 <= j <= |sample|
        invariant maxLen == MaxLen(col.header, sample[..j])
      {
        assert sample[..j + 1][..j] == sample[..j];
        if |sample[j]| > maxLen {
          maxLen := |sample[j]|;
        }
        j := j + 1;
      }
      assert sample[..j] == sample;
      var width := Clamp(maxLen + 2, minWidth, maxWidth);
      calls := calls + [SetColumn(idx, idx, width)];
      idx := idx + 1;
    }
  }

  // ---------------------------------------------------------------------
  // write_report: sheets and KPI lines
  // ---------------------------------------------------------------------

  const DefaultSheets: seq<string> := ["Données", "KPI", "Dashboard", "Par catégorie", "Par produit"]
  const DefaultKpis: seq<string> := ["ca_total", "ca_M", "ca_M1", "croissance", "ticket_moyen_global"]

  /** `if include_x is None: include_x = default`; an empty list stays empty. */
  function OrDefault(given: Option<seq<string>>, default: seq<string>): (r: seq<string>)
    ensures given.Some? ==> r == given.value
    ensures given.None? ==> r == default
  {
    match given
    case Some(l) => l
    case None => default
  }

  /** The entries of `known` that `wanted` lists, in the order of `known`. */
  function KeepListed(known: seq<string>, wanted: seq<string>): (r: seq<string>)
    ensures forall n :: n in r <==> n in known && n in wanted
    ensures IsSubsequence(r, known)
  {
    if known == [] then []
    else if known[0] in wanted then [known[0]] + KeepListed(known[1..], wanted)
    else
      var rest := KeepListed(known[1..], wanted);
      SkipHeadKeepsSubsequence(rest, known);
      rest
  }

  /** The sheets `write_report` writes, in the order it writes them: the
      five known sheets the list names, whatever order the list is in;
      unknown names are ignored. */
  function SheetsWritten(includeSheets: Option<seq<string>>): (r: seq<string>)
    ensures forall n :: n in r <==> n in DefaultSheets && n in OrDefault(includeSheets, DefaultSheets)
    ensures IsSubsequence(r, DefaultSheets)
  {
    KeepListed(DefaultSheets, OrDefault(includeSheets, DefaultSheets))
  }

  /** Without an explicit list, all five sheets are written. */
  lemma AllSheetsByDefault()
    ensures SheetsWritten(None) == DefaultSheets
  {
    KeepAllListed(DefaultSheets, DefaultSheets);
  }

  /** When every known entry is wanted, all are kept, in order. */
  lemma {:induction false} KeepAllListed(known: seq<string>, wanted: seq<string>)
    requires forall i :: 0 <= i < |known| ==> known[i] in wanted
    ensures KeepListed(known, wanted) == known
  {
    if known != [] {
      assert known[0] in wanted;
      KeepAllListed(known[1..], wanted);
    }
  }

  /** The KPI sheet's labels; other keys are shown under their own name. */
  const Labels: map<string, string> := map[
    "ca_total" := "CA total",
    "ca_M" := "CA mois courant",
    "ca_M1" := "CA mois précédent",
    "croissance" := "Croissance M vs M-1",
    "ticket_moyen_global" := "Ticket moyen (global)"]

  /** `labels.get(key, key)`. */
  function KpiLabel(key: string): (l: string)
    ensures key in Labels ==> l == Labels[key]
    ensures key !in Labels ==> l == key
  {
    if key in Labels then Labels[key] else key
  }

  const MoneyKeys: set<string> := {"ca_total", "ca_M", "ca_M1", "ticket_moyen_global"}

  /** The keys under which `compute_kpis` stores a table rather than a
      number: the monthly and per-key aggregates, the pivots and the tops. */
  const TableKeys: set<string> :=
    {"by_month", "by_cat", "by_prod", "pivot_cat", "pivot_prod", "top_prod", "top_cat"}

  /** Every key of the dictionary `compute_kpis` returns. */
  const KpiDictKeys: set<string> := MoneyKeys + {"croissance"} + TableKeys

  /** The value column of a KPI line: a money amount, a percentage, the
      text "n/a", an empty cell (the `None` that `kpis.get` gives for a key
      the dictionary lacks), or a table, which xlsxwriter's `write` rejects
      with a `TypeError`. */
  datatype KpiCell = Money(amount: real) | Percent(ratio: real) | Text(text: string) | Blank | Unwritable(key: string)

  /** The value written for `key` and the format chosen for it. */
  function KpiValue(key: string, k: Kpis): (c: KpiCell)
    ensures c.Money? <==> key in MoneyKeys
    ensures c.Percent? || c.Text? <==> key == "croissance"
    ensures c.Unwritable? <==> key in TableKeys
    ensures c.Unwritable? ==> c.key == key
    ensures c.Blank? <==> key !in KpiDictKeys
  {
    if key == "ca_total" then Money(k.caTotal)
    else if key == "ca_M" then Money(k.caM)
    else if key == "ca_M1" then Money(k.caM1)
    else if key == "ticket_moyen_global" then Money(k.ticketMoyenGlobal)
    else if key == "croissance" then
      match k.croissance
      case None => Text("n/a")
      case Some(g) => Percent(g)
    else if key in TableKeys then Unwritable(key)
    else Blank
  }

  /** Growth as `compute_kpis` states it is shown as a percentage when it
      exists and as "n/a" when the previous month had no sales. */
  lemma GrowthCell(k: Kpis)
    requires IsGrowth(k.croissance, k.caM, k.caM1)
    ensures var c := KpiValue("croissance", k);
            && (c == Text("n/a") <==> k.caM1 == 0.0)
            && (c.Percent? ==> k.croissance == Some(c.ratio))
  {
  }

  /** A KPI line: sheet row (0-based, as xlsxwriter counts), caption, value. */
  datatype KpiLine = KpiLine(row: nat, caption: string, value: KpiCell)

  const FirstKpiRow := 2

  /** The sheet row of the `i`-th KPI line. */
  function KpiRow(i: nat): nat {
    FirstKpiRow + i
  }

  /** The loop over `include_kpis`: one line per key, from row 2 down. */
  function KpiLines(keys: seq<string>, k: Kpis): (r: seq<KpiLine>)
    ensures |r| == |keys|
    ensures forall i :: 0 <= i < |r| ==>
              r[i] == KpiLine(KpiRow(i), KpiLabel(keys[i]), KpiValue(keys[i], k))
  {
    seq(|keys|, i requires 0 <= i < |keys| => KpiLine(KpiRow(i), KpiLabel(keys[i]), KpiValue(keys[i], k)))
  }

  /** Where the KPI sheet puts the two top tables: their headings one row
      below the row after the last KPI line, their bodies one row lower. */
  datatype KpiLayout = KpiLayout(headingRow: nat, tableRow: nat)

  function Layout(keys: seq<string>): (l: KpiLayout)
    ensures l.tableRow == l.headingRow + 1
    // The headings leave exactly one blank row after the last KPI line (or
    // after the first KPI row when there are no lines), so no line is
    // overwritten.
    ensures forall i :: 0 <= i < |keys| ==> KpiRow(i) + 1 < l.headingRow
    ensures keys != [] ==> l.headingRow == KpiRow(|keys| - 1) + 2
    ensures keys == [] ==> l.headingRow == FirstKpiRow + 1
  {
    var row := FirstKpiRow + |keys|;
    KpiLayout(row + 1, row + 2)
  }

  /** With no explicit list, the five headline figures appear in their fixed
      order, under their labels. */
  lemma DefaultKpiLines(k: Kpis)
    ensures var r := KpiLines(OrDefault(None, DefaultKpis), k);
            && |r| == 5
            && r[0] == KpiLine(2, "CA total", Money(k.caTotal))
            && r[1] == KpiLine(3, "CA mois courant", Money(k.caM))
            && r[2] == KpiLine(4, "CA mois précédent", Money(k.caM1))
            && r[4] == KpiLine(6, "Ticket moyen (global)", Money(k.ticketMoyenGlobal))
  {
  }

  /** The position of the first key in `keys` whose value is a table. */
  function FirstTableKey(keys: seq<string>): (r: Option<nat>)
    ensures r.None? <==> forall i :: 0 <= i < |keys| ==> keys[i] !in TableKeys
    ensures r.Some? ==> && r.value < |keys| && keys[r.value] in TableKeys
                        && forall j :: 0 <= j < r.value ==> keys[j] !in TableKeys
  {
    if keys == [] then None
    else if keys[0] in TableKeys then Some(0)
    else match FirstTableKey(keys[1..])
      case None => None
      case Some(i) => Some(i + 1)
  }

  /** The KPI lines of `write_report` with their failure: the sheet is
      written when no listed key holds a table; otherwise the write of the
      first such key raises, and the error names that key. */
  function WriteKpiLines(keys: seq<string>, k: Kpis): (r: Result<seq<KpiLine>, string>)
    ensures r.Ok? <==> forall i :: 0 <= i < |keys| ==> KpiValue(keys[i], k) != Unwritable(keys[i])
    ensures r.Ok? ==> r.value == KpiLines(keys, k)
    ensures r.Err? ==> exists i :: && 0 <= i < |keys| && r.error == keys[i]
                                   && KpiValue(keys[i], k).Unwritable?
                                   && forall j :: 0 <= j < i ==> !KpiValue(keys[j], k).Unwritable?
  {
    match FirstTableKey(keys)
    case None => Ok(KpiLines(keys, k))
    case Some(i) => Err(keys[i])
  }

  /** The default KPI list holds no table, so the sheet is always written. */
  lemma DefaultKpiLinesWritten(k: Kpis)
    ensures WriteKpiLines(OrDefault(None, DefaultKpis), k) == Ok(KpiLines(DefaultKpis, k))
  {
    assert forall i :: 0 <= i < |DefaultKpis| ==> DefaultKpis[i] !in TableKeys;
  }

  // ---------------------------------------------------------------------
  // write_report: dashboard chart ranges
  // ---------------------------------------------------------------------

  /** An inclusive range of Excel rows (1-based, as A1 references count). */
  datatype RowRange = RowRange(first: nat, last: nat)

  /** Excel row of the `i`-th row written by `to_excel(index=False)`: the
      header takes row 1. */
  function DataRow(i: nat): nat {
    i + 2
  }

  /** The rows the chart series take from the "Données" sheet:
      `$A$2:$A${len(by_month)+1}`. The range holds exactly the rows of
      `by_month`, from its first to its last. */
  function ChartRows(byMonthLen: nat): (r: RowRange)
    ensures r.last - r.first + 1 == byMonthLen
    ensures forall i :: 0 <= i < byMonthLen ==> r.first <= DataRow(i) <= r.last
    ensures byMonthLen > 0 ==> r.first == DataRow(0) && r.last == DataRow(byMonthLen - 1)
  {
    RowRange(2, byMonthLen + 1)
  }

  /** `f"=Données!${col}$2:${col}${nrows}"`: after the sheet and the column
      comes the decimal number of the chart range's last row. */
  function SeriesRef(col: char, byMonthLen: nat): (s: string)
    ensures var prefix := "=Données!$" + [col] + "$2:$" + [col] + "$";
            && |s| > |prefix| && s[..|prefix|] == prefix
            && AllDigits(s[|prefix|..])
            && DigitsValue(s[|prefix|..]) == ChartRows(byMonthLen).last
  {
    var prefix := "=Données!$" + [col] + "$2:$" + [col] + "$";
    DigitsRoundTrip(byMonthLen + 1);
    var s := prefix + NatToDigits(byMonthLen + 1);
    assert s[|prefix|..] == NatToDigits(byMonthLen + 1);
    s
  }

  /** A successful run has at least one month, so the chart range is never
      empty. */
  lemma ChartRangeNonEmpty(rows: seq<Record>, topN: int)
    requires rows != []
    ensures var r := ChartRows(|ComputeKpis(rows, topN).byMonth|);
            r.first <= r.last
  {
    var k := ComputeKpis(rows, topN);
    assert MonthKey(rows[0]) in Months(rows);
    assert |k.byMonth| == |Months(rows)|;
  }
}
