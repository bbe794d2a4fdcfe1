/** The KPI engine of `compute_kpis`: grouping sums by month, by category
    and by product, the headline figures, the top lists and the zero-filled
    pivots. Grouping is stated once, generically over the grouping key. */
module Kpi {
  import opened Wrappers
  import opened Calendar
  import opened Orders
  import opened Tables

  // ---------------------------------------------------------------------
  // Grouping keys
  // ---------------------------------------------------------------------

  /** The two text dimensions the report groups by. */
  datatype Dim = ByProduct | ByCategory

  function KeyOf(r: Record, d: Dim): string {
    match d
    case ByProduct => r.product
    case ByCategory => r.category
  }

  /** The `mois` column: the month a sale falls in. */
  function MonthKey(r: Record): Month {
    MonthOf(r.date)
  }

  function KeyFn(d: Dim): Record -> string {
    r => KeyOf(r, d)
  }

  /** A (month, key) group of `groupby(["mois", key])`. */
  datatype Cell = Cell(month: Month, key: string)

  function CellFn(d: Dim): Record -> Cell {
    r => Cell(MonthKey(r), KeyOf(r, d))
  }

  /** Group order: by month, then by key. */
  predicate CellLt(a: Cell, b: Cell) {
    MonthLt(a.month, b.month) || (a.month == b.month && StrLt(a.key, b.key))
  }

  lemma CellLtIsStrictTotalOrder()
    ensures StrictTotalOrder(CellLt)
  {
    StrLtIsStrictTotalOrder();
    MonthLtIsStrictTotalOrder();
  }

  // ---------------------------------------------------------------------
  // Sums and groups
  // ---------------------------------------------------------------------

  /** `df["montant"].sum()`. */
  function Total(rows: seq<Record>): real {
    if rows == [] then 0.0 else rows[0].amount + Total(rows[1..])
  }

  lemma {:induction false} TotalAppend(a: seq<Record>, b: seq<Record>)
    ensures Total(a + b) == Total(a) + Total(b)
  {
    if a == [] {
      assert a + b == b;
    } else {
      assert (a + b)[1..] == a[1..] + b;
      TotalAppend(a[1..], b);
    }
  }

  /** The rows of one group, in table order. */
  function Select<K(==)>(rows: seq<Record>, key: Record -> K, k: K): (r: seq<Record>)
    ensures forall x :: x in r <==> x in rows && key(x) == k
    ensures r == [] <==> forall i :: 0 <= i < |rows| ==> key(rows[i]) != k
    ensures |r| <= |rows|
  {
    if rows == [] then []
    else
      var rest := Select(rows[1..], key, k);
      assert forall i :: 1 <= i < |rows| ==> rows[i] == rows[1..][i - 1];
      if key(rows[0]) == k then [rows[0]] + rest else rest
  }

  /** The distinct keys, in ascending order: the groups `groupby` forms. */
  function Groups<K(==,!new)>(rows: seq<Record>, key: Record -> K, lt: (K, K) -> bool): (ks: seq<K>)
    requires StrictTotalOrder(lt)
    ensures StrictlySorted(ks, lt) && Distinct(ks)
    ensures forall k :: k in ks <==> exists i :: 0 <= i < |rows| && key(rows[i]) == k
    ensures forall k :: k in ks ==> Select(rows, key, k) != []
  {
    var all := seq(|rows|, i requires 0 <= i < |rows| => key(rows[i]));
    assert forall k :: k in all <==> exists i :: 0 <= i < |rows| && key(rows[i]) == k by {
      forall k | k in all
        ensures exists i :: 0 <= i < |rows| && key(rows[i]) == k
      {
        var i :| 0 <= i < |all| && all[i] == k;
      }
      forall k | exists i :: 0 <= i < |rows| && key(rows[i]) == k
        ensures k in all
      {
        var i :| 0 <= i < |rows| && key(rows[i]) == k;
        assert all[i] == k;
      }
    }
    var ks := SortUnique(all, lt);
    SortedIsDistinct(ks, lt);
    ks
  }

  function Months(rows: seq<Record>): (ms: seq<Month>)
    ensures StrictlySorted(ms, MonthLt) && Distinct(ms)
    ensures forall m :: m in ms <==> exists i :: 0 <= i < |rows| && MonthKey(rows[i]) == m
  {
    MonthLtIsStrictTotalOrder();
    Groups(rows, MonthKey, MonthLt)
  }

  function Keys(rows: seq<Record>, d: Dim): (ks: seq<string>)
    ensures StrictlySorted(ks, StrLt) && Distinct(ks)
    ensures forall k :: k in ks <==> exists i :: 0 <= i < |rows| && KeyOf(rows[i], d) == k
  {
    StrLtIsStrictTotalOrder();
    Groups(rows, KeyFn(d), StrLt)
  }

  function Cells(rows: seq<Record>, d: Dim): (cs: seq<Cell>)
    ensures StrictlySorted(cs, CellLt) && Distinct(cs)
    ensures forall c :: c in cs <==> exists i :: 0 <= i < |rows| && CellFn(d)(rows[i]) == c
  {
    CellLtIsStrictTotalOrder();
    Groups(rows, CellFn(d), CellLt)
  }

  /** The group totals over a list of keys, added up. */
  function SumOver<K(==)>(ks: seq<K>, rows: seq<Record>, key: Record -> K): real {
    if ks == [] then 0.0 else Total(Select(rows, key, ks[0])) + SumOver(ks[1..], rows, key)
  }

  /** The group sizes over a list of keys, added up. */
  function CountOver<K(==)>(ks: seq<K>, rows: seq<Record>, key: Record -> K): nat {
    if ks == [] then 0 else |Select(rows, key, ks[0])| + CountOver(ks[1..], rows, key)
  }

  lemma SelectStep<K>(rows: seq<Record>, key: Record -> K, k: K)
    requires rows != []
    ensures Select(rows, key, k)
            == (if key(rows[0]) == k then [rows[0]] else []) + Select(rows[1..], key, k)
    ensures Total(Select(rows, key, k))
            == (if key(rows[0]) == k then rows[0].amount else 0.0) + Total(Select(rows[1..], key, k))
  {
    var rest := Select(rows[1..], key, k);
    if key(rows[0]) == k {
      assert ([rows[0]] + rest)[1..] == rest;
    } else {
      assert [] + rest == rest;
    }
  }

  /** Moving the first row out of every group of a duplicate-free key list. */
  lemma {:induction false} SumOverStep<K>(ks: seq<K>, rows: seq<Record>, key: Record -> K)
    requires rows != [] && Distinct(ks)
    ensures SumOver(ks, rows, key)
            == SumOver(ks, rows[1..], key) + (if key(rows[0]) in ks then rows[0].amount else 0.0)
    ensures CountOver(ks, rows, key)
            == CountOver(ks, rows[1..], key) + (if key(rows[0]) in ks then 1 else 0)
  {
    if ks != [] {
      SelectStep(rows, key, ks[0]);
      assert Distinct(ks[1..]);
      SumOverStep(ks[1..], rows, key);
      assert key(rows[0]) in ks <==> key(rows[0]) == ks[0] || key(rows[0]) in ks[1..];
      assert key(rows[0]) == ks[0] ==> key(rows[0]) !in ks[1..];
    }
  }

  /** Grouping partitions the rows: over keys that cover every row once, the
      group totals add up to the grand total and the group sizes to the row
      count. */
  lemma {:induction false} PartitionTotal<K>(ks: seq<K>, rows: seq<Record>, key: Record -> K)
    requires Distinct(ks)
    requires forall i :: 0 <= i < |rows| ==> key(rows[i]) in ks
    ensures SumOver(ks, rows, key) == Total(rows)
    ensures CountOver(ks, rows, key) == |rows|
  {
    if rows == [] {
      EmptyGroups(ks, key);
    } else {
      assert forall i :: 1 <= i < |rows| ==> rows[i] == rows[1..][i - 1];
      PartitionTotal(ks, rows[1..], key);
      SumOverStep(ks, rows, key);
    }
  }

  lemma {:induction false} EmptyGroups<K>(ks: seq<K>, key: Record -> K)
    ensures SumOver(ks, [], key) == 0.0 && CountOver(ks, [], key) == 0
  {
    if ks != [] {
      EmptyGroups(ks[1..], key);
    }
  }

  /** Selecting a (month, key) group is selecting the month, then the key. */
  lemma {:induction false} SelectCell(rows: seq<Record>, d: Dim, m: Month, k: string)
    ensures Select(rows, CellFn(d), Cell(m, k)) == Select(Select(rows, MonthKey, m), KeyFn(d), k)
  {
    if rows != [] {
      SelectCell(rows[1..], d, m, k);
      SelectStep(rows, CellFn(d), Cell(m, k));
      SelectStep(rows, MonthKey, m);
      var inMonth := Select(rows, MonthKey, m);
      if MonthKey(rows[0]) == m {
        assert inMonth[0] == rows[0] && inMonth[1..] == Select(rows[1..], MonthKey, m);
        SelectStep(inMonth, KeyFn(d), k);
      }
    }
  }

  // ---------------------------------------------------------------------
  // by_month, by_cat, by_prod
  // ---------------------------------------------------------------------

  /** One row of `by_month`: the month's total, its number of sales and
      their mean. */
  datatype MonthRow = MonthRow(month: Month, ca: real, commandes: nat, ticketMoyen: real)

  function MonthRows(ms: seq<Month>, rows: seq<Record>): (r: seq<MonthRow>)
    ensures |r| == |ms|
    ensures forall i :: 0 <= i < |ms| ==>
              && r[i].month == ms[i]
              && r[i].ca == Total(Select(rows, MonthKey, ms[i]))
              && r[i].commandes == |Select(rows, MonthKey, ms[i])|
    ensures forall i :: 0 <= i < |ms| ==> MeanConsistent(r[i])
  {
    if ms == [] then []
    else
      var rest := MonthRows(ms[1..], rows);
      assert forall i :: 1 <= i < |ms| ==> ms[i] == ms[1..][i - 1];
      [MonthRowOf(ms[0], rows)] + rest
  }

  /** The `by_month` row of one month. */
  function MonthRowOf(m: Month, rows: seq<Record>): (row: MonthRow)
    ensures row.month == m
    ensures row.ca == Total(Select(rows, MonthKey, m)) && row.commandes == |Select(rows, MonthKey, m)|
    ensures MeanConsistent(row)
  {
    var g := Select(rows, MonthKey, m);
    var ticket := if |g| == 0 then 0.0 else MeanOf(Total(g), |g|);
    var row := MonthRow(m, Total(g), |g|, ticket);
    assert MeanConsistent(row);
    row
  }

  /** `ticket_moyen` is `CA / commandes` for a non-empty group. */
  predicate MeanConsistent(row: MonthRow) {
    row.commandes > 0 ==> row.ticketMoyen * (row.commandes as real) == row.ca
  }

  /** A sum divided by a positive count. */
  function MeanOf(sum: real, n: nat): (mean: real)
    requires n > 0
    ensures mean * (n as real) == sum
  {
    sum / (n as real)
  }

  /** `groupby("mois").agg(CA=sum, commandes=size, ticket_moyen=mean)`. */
  function ByMonth(rows: seq<Record>): (r: seq<MonthRow>)
    ensures |r| == |Months(rows)|
    ensures forall i :: 0 <= i < |r| ==> r[i].month == Months(rows)[i]
    ensures forall i :: 0 <= i < |r| ==>
              && r[i].commandes > 0
              && r[i].ca == Total(Select(rows, MonthKey, r[i].month))
              && r[i].commandes == |Select(rows, MonthKey, r[i].month)|
              && MeanConsistent(r[i])
  {
    var ms := Months(rows);
    assert forall i :: 0 <= i < |ms| ==> ms[i] in ms;
    MonthRows(ms, rows)
  }

  function SumCa(r: seq<MonthRow>): real {
    if r == [] then 0.0 else r[0].ca + SumCa(r[1..])
  }

  function SumCommandes(r: seq<MonthRow>): nat {
    if r == [] then 0 else r[0].commandes + SumCommandes(r[1..])
  }

  lemma {:induction false} MonthRowsSums(ms: seq<Month>, rows: seq<Record>)
    ensures SumCa(MonthRows(ms, rows)) == SumOver(ms, rows, MonthKey)
    ensures SumCommandes(MonthRows(ms, rows)) == CountOver(ms, rows, MonthKey)
  {
    if ms != [] {
      MonthRowsSums(ms[1..], rows);
      assert MonthRows(ms, rows)[1..] == MonthRows(ms[1..], rows);
    }
  }

  /** The months partition the sales: `by_month.CA` adds up to `ca_total`
      and `by_month.commandes` to the number of rows. */
  lemma ByMonthConservesTotals(rows: seq<Record>)
    ensures SumCa(ByMonth(rows)) == Total(rows)
    ensures SumCommandes(ByMonth(rows)) == |rows|
  {
    var ms := Months(rows);
    MonthRowsSums(ms, rows);
    assert forall i :: 0 <= i < |rows| ==> MonthKey(rows[i]) in ms;
    PartitionTotal(ms, rows, MonthKey);
  }

  /** One row of `by_cat` or `by_prod`. */
  datatype PairRow = PairRow(month: Month, key: string, ca: real)

  function PairRows(cs: seq<Cell>, rows: seq<Record>, d: Dim): (r: seq<PairRow>)
    ensures |r| == |cs|
    ensures forall i :: 0 <= i < |cs| ==> r[i].month == cs[i].month && r[i].key == cs[i].key
  {
    if cs == [] then []
    else [PairRow(cs[0].month, cs[0].key, Total(Select(rows, CellFn(d), cs[0])))] + PairRows(cs[1..], rows, d)
  }

  /** `groupby(["mois", key]).agg(CA=("montant","sum"))`. */
  function ByPair(rows: seq<Record>, d: Dim): (r: seq<PairRow>)
    ensures |r| == |Cells(rows, d)|
    ensures forall i :: 0 <= i < |r| ==> Cell(r[i].month, r[i].key) == Cells(rows, d)[i]
    ensures forall i :: 0 <= i < |r| ==>
              r[i].ca == Total(Select(rows, CellFn(d), Cell(r[i].month, r[i].key)))
  {
    var cs := Cells(rows, d);
    PairRowsCa(cs, rows, d);
    PairRows(cs, rows, d)
  }

  lemma {:induction false} PairRowsCa(cs: seq<Cell>, rows: seq<Record>, d: Dim)
    ensures var r := PairRows(cs, rows, d);
            forall i :: 0 <= i < |r| ==> r[i].ca == Total(Select(rows, CellFn(d), cs[i]))
  {
    if cs != [] {
      PairRowsCa(cs[1..], rows, d);
      assert PairRows(cs, rows, d)[1..] == PairRows(cs[1..], rows, d);
    }
  }

  function SumPairCa(r: seq<PairRow>): real {
    if r == [] then 0.0 else r[0].ca + SumPairCa(r[1..])
  }

  lemma {:induction false} PairRowsSum(cs: seq<Cell>, rows: seq<Record>, d: Dim)
    ensures SumPairCa(PairRows(cs, rows, d)) == SumOver(cs, rows, CellFn(d))
  {
    if cs != [] {
      PairRowsSum(cs[1..], rows, d);
      assert PairRows(cs, rows, d)[1..] == PairRows(cs[1..], rows, d);
    }
  }

  /** The (month, key) groups partition the sales too. */
  lemma ByPairConservesTotal(rows: seq<Record>, d: Dim)
    ensures SumPairCa(ByPair(rows, d)) == Total(rows)
  {
    var cs := Cells(rows, d);
    PairRowsSum(cs, rows, d);
    assert forall i :: 0 <= i < |rows| ==> CellFn(d)(rows[i]) in cs;
    PartitionTotal(cs, rows, CellFn(d));
  }

  // ---------------------------------------------------------------------
  // Headline figures
  // ---------------------------------------------------------------------

  /** `by_month["mois"].max()`. */
  function LastMonth(rows: seq<Record>): (m: CalendarMonth)
    requires rows != []
    ensures exists i :: 0 <= i < |rows| && MonthKey(rows[i]) == m
    ensures forall i :: 0 <= i < |rows| ==> !MonthLt(m, MonthKey(rows[i]))
  {
    var ms := Months(rows);
    assert MonthKey(rows[0]) in ms;
    var m := ms[|ms| - 1];
    assert m in ms;
    forall i | 0 <= i < |rows|
      ensures !MonthLt(m, MonthKey(rows[i]))
    {
      SortedLastIsGreatest(ms, MonthKey(rows[i]), MonthLt);
    }
    var i :| 0 <= i < |rows| && MonthKey(rows[i]) == m;
    MonthKey(rows[i])
  }

  /** `by_month.loc[by_month["mois"] == m, "CA"].sum()`. */
  function CaAt(byMonth: seq<MonthRow>, m: Month): (v: real)
    ensures (forall i :: 0 <= i < |byMonth| ==> byMonth[i].month != m) ==> v == 0.0
    ensures forall i :: && 0 <= i < |byMonth| && byMonth[i].month == m
                        && (forall j :: 0 <= j < |byMonth| && j != i ==> byMonth[j].month != m)
                        ==> v == byMonth[i].ca
  {
    if byMonth == [] then 0.0
    else
      var rest := CaAt(byMonth[1..], m);
      assert forall j :: 1 <= j < |byMonth| ==> byMonth[j] == byMonth[1..][j - 1];
      (if byMonth[0].month == m then byMonth[0].ca else 0.0) + rest
  }

  lemma {:induction false} CaAtMonthRows(ms: seq<Month>, rows: seq<Record>, m: Month)
    requires Distinct(ms)
    ensures CaAt(MonthRows(ms, rows), m) == if m in ms then Total(Select(rows, MonthKey, m)) else 0.0
  {
    if ms != [] {
      assert Distinct(ms[1..]);
      CaAtMonthRows(ms[1..], rows, m);
      assert MonthRows(ms, rows)[1..] == MonthRows(ms[1..], rows);
      assert m in ms <==> m == ms[0] || m in ms[1..];
      assert m == ms[0] ==> m !in ms[1..];
    }
  }

  /** Looking a month up in `by_month` gives that month's total, and 0 for
      a month without sales. */
  lemma CaAtIsMonthTotal(rows: seq<Record>, m: Month)
    ensures CaAt(ByMonth(rows), m) == Total(Select(rows, MonthKey, m))
    ensures (forall i :: 0 <= i < |rows| ==> MonthKey(rows[i]) != m) ==> CaAt(ByMonth(rows), m) == 0.0
  {
    CaAtMonthRows(Months(rows), rows, m);
  }

  /** `g` is the relative change from `caM1` to `caM`, or None when there
      is no base to compare with. */
  predicate IsGrowth(g: Option<real>, caM: real, caM1: real) {
    && (g.None? <==> caM1 == 0.0)
    && (g.Some? ==> g.value * caM1 == caM - caM1)
  }

  /** `croissance`: None when the previous month's total is 0, otherwise
      the relative change. */
  function Growth(caM: real, caM1: real): (g: Option<real>)
    ensures IsGrowth(g, caM, caM1)
  {
    if caM1 != 0.0 then Some((caM - caM1) / caM1) else None
  }

  /** `df["montant"].mean()`: the mean over all sales (not the mean of the
      monthly means). */
  function TicketMoyen(rows: seq<Record>): (t: real)
    requires rows != []
    ensures t * (|rows| as real) == Total(rows)
  {
    MeanOf(Total(rows), |rows|)
  }

  // ---------------------------------------------------------------------
  // Top lists
  // ---------------------------------------------------------------------

  /** One row of `groupby(key)["montant"].sum()`. */
  datatype KeyTotal = KeyTotal(key: string, total: real)

  function KeyTotals(ks: seq<string>, rows: seq<Record>, d: Dim): (r: seq<KeyTotal>)
    ensures |r| == |ks|
    ensures forall i :: 0 <= i < |ks| ==> r[i] == KeyTotal(ks[i], Total(Select(rows, KeyFn(d), ks[i])))
  {
    seq(|ks|, i requires 0 <= i < |ks| => KeyTotal(ks[i], Total(Select(rows, KeyFn(d), ks[i]))))
  }

  predicate NonIncreasing(s: seq<KeyTotal>) {
    forall i, j :: 0 <= i < j < |s| ==> s[i].total >= s[j].total
  }

  function InsertDesc(s: seq<KeyTotal>, x: KeyTotal): (r: seq<KeyTotal>)
    requires NonIncreasing(s)
    ensures NonIncreasing(r)
    ensures forall y :: y in r <==> y in s || y == x
  {
    if s == [] then [x]
    else if x.total >= s[0].total then [x] + s
    else
      var rest := InsertDesc(s[1..], x);
      assert s == [s[0]] + s[1..];
      assert forall k :: 0 <= k < |rest| ==> s[0].total >= rest[k].total by {
        forall k | 0 <= k < |rest|
          ensures s[0].total >= rest[k].total
        {
          assert rest[k] in rest;
          if rest[k] != x {
            var j :| 0 <= j < |s[1..]| && s[1..][j] == rest[k];
            assert s[j + 1] == rest[k];
          }
        }
      }
      [s[0]] + rest
  }

  lemma {:induction false} InsertDescPermutes(s: seq<KeyTotal>, x: KeyTotal)
    requires NonIncreasing(s)
    ensures multiset(InsertDesc(s, x)) == multiset(s) + multiset{x}
  {
    if s != [] && x.total < s[0].total {
      InsertDescPermutes(s[1..], x);
      var rest := InsertDesc(s[1..], x);
      assert InsertDesc(s, x) == [s[0]] + rest;
      assert multiset([s[0]] + rest) == multiset{s[0]} + multiset(rest);
      assert s == [s[0]] + s[1..];
      assert multiset(s) == multiset{s[0]} + multiset(s[1..]);
    }
  }

  /** `sort_values(total, ascending=False)`: a non-increasing permutation.
      Which of several equal totals comes first is not specified. */
  function SortDesc(xs: seq<KeyTotal>): (r: seq<KeyTotal>)
    ensures NonIncreasing(r)
    ensures multiset(r) == multiset(xs)
    ensures |r| == |xs|
  {
    if xs == [] then []
    else
      assert xs == [xs[0]] + xs[1..];
      var rest := SortDesc(xs[1..]);
      InsertDescPermutes(rest, xs[0]);
      InsertDesc(rest, xs[0])
  }

  /** The length of `head(n)` on `len` rows: the first `n`, or for a
      negative `n` all but the last `-n`. */
  function HeadLength(len: nat, n: int): (k: nat)
    ensures k <= len
    ensures n >= 0 ==> k == if n < len then n else len
    ensures n < 0 ==> k == if len + n > 0 then len + n else 0
  {
    if n >= 0 then (if n < len then n else len)
    else if len + n > 0 then len + n else 0
  }

  /** `head(n)`. */
  function Head<T>(s: seq<T>, n: int): (r: seq<T>)
    ensures |r| == HeadLength(|s|, n)
    ensures forall i :: 0 <= i < |r| ==> r[i] == s[i]
  {
    s[..HeadLength(|s|, n)]
  }

  lemma {:induction false} DistinctCount<T>(a: seq<T>, x: T)
    requires Distinct(a)
    ensures multiset(a)[x] <= 1
  {
    if a != [] {
      assert a == [a[0]] + a[1..];
      assert Distinct(a[1..]);
      DistinctCount(a[1..], x);
      assert a[0] == x ==> x !in a[1..];
    }
  }

  lemma RepeatCount<T>(b: seq<T>, i: nat, j: nat)
    requires i < j < |b|
    ensures b[i] == b[j] ==> multiset(b)[b[i]] >= 2
  {
    assert b == b[..j] + [b[j]] + b[j + 1..];
    assert b[..j][i] == b[i];
    assert b[i] in multiset(b[..j]);
  }

  /** A permutation of a duplicate-free sequence is duplicate-free. */
  lemma DistinctPermutation<T>(a: seq<T>, b: seq<T>)
    requires Distinct(a) && multiset(a) == multiset(b)
    ensures Distinct(b)
  {
    forall i, j | 0 <= i < j < |b|
      ensures b[i] != b[j]
    {
      RepeatCount(b, i, j);
      DistinctCount(a, b[i]);
    }
  }

  /** The first rows of a non-increasing permutation of `g` come from `g`,
      and every other element of `g` is at most each of them. */
  lemma TopOfSorted(g: seq<KeyTotal>, s: seq<KeyTotal>, r: seq<KeyTotal>)
    requires multiset(s) == multiset(g) && NonIncreasing(s)
    requires |r| <= |s| && forall i :: 0 <= i < |r| ==> r[i] == s[i]
    ensures forall i :: 0 <= i < |r| ==> r[i] in g
    ensures forall i, y :: 0 <= i < |r| && y in g && y !in r ==> y.total <= r[i].total
  {
    forall i | 0 <= i < |r|
      ensures r[i] in g
    {
      assert r[i] in multiset(s);
    }
    forall i, y | 0 <= i < |r| && y in g && y !in r
      ensures y.total <= r[i].total
    {
      assert y in multiset(s);
      var p :| 0 <= p < |s| && s[p] == y;
      assert forall j :: 0 <= j < |r| ==> s[j] != y;
    }
  }

  /** `groupby(key)["montant"].sum().sort_values(ascending=False).head(n)`. */
  function Top(rows: seq<Record>, d: Dim, n: int): (r: seq<KeyTotal>)
    ensures |r| == HeadLength(|Keys(rows, d)|, n)
    ensures NonIncreasing(r)
    ensures forall i :: 0 <= i < |r| ==>
              r[i].key in Keys(rows, d) && r[i].total == Total(Select(rows, KeyFn(d), r[i].key))
    ensures forall i, j :: 0 <= i < j < |r| ==> r[i].key != r[j].key
    ensures forall i, k :: 0 <= i < |r| && k in Keys(rows, d) && (forall j :: 0 <= j < |r| ==> r[j].key != k) ==>
              Total(Select(rows, KeyFn(d), k)) <= r[i].total
  {
    var ks := Keys(rows, d);
    var g := KeyTotals(ks, rows, d);
    var s := SortDesc(g);
    var r := Head(s, n);
    TopOfSorted(g, s, r);
    assert Distinct(g);
    DistinctPermutation(g, s);
    assert Distinct(r);
    forall k | k in ks
      ensures KeyTotal(k, Total(Select(rows, KeyFn(d), k))) in g
    {
      var q :| 0 <= q < |ks| && ks[q] == k;
      assert g[q] == KeyTotal(k, Total(Select(rows, KeyFn(d), k)));
    }
    r
  }

  // ---------------------------------------------------------------------
  // Pivots
  // ---------------------------------------------------------------------

  /** A month × key table: `index` are the row labels, `columns` the column
      labels and `cells[i][j]` the value at (`index[i]`, `columns[j]`). */
  datatype Pivot = Pivot(index: seq<Month>, columns: seq<string>, cells: seq<seq<real>>)

  predicate WellShaped(p: Pivot) {
    |p.cells| == |p.index| && forall i :: 0 <= i < |p.cells| ==> |p.cells[i]| == |p.columns|
  }

  function PairMonths(ps: seq<PairRow>): (ms: seq<Month>)
    ensures |ms| == |ps| && forall i :: 0 <= i < |ps| ==> ms[i] == ps[i].month
  {
    seq(|ps|, i requires 0 <= i < |ps| => ps[i].month)
  }

  function PairKeys(ps: seq<PairRow>): (ks: seq<string>)
    ensures |ks| == |ps| && forall i :: 0 <= i < |ps| ==> ks[i] == ps[i].key
  {
    seq(|ps|, i requires 0 <= i < |ps| => ps[i].key)
  }

  /** The `CA` of the grouped rows at (m, k), added up; 0 when there is
      none (the `fillna(0)`). */
  function PairCa(ps: seq<PairRow>, m: Month, k: string): (v: real)
    ensures (forall i :: 0 <= i < |ps| ==> ps[i].month != m || ps[i].key != k) ==> v == 0.0
  {
    if ps == [] then 0.0
    else (if ps[0].month == m && ps[0].key == k then ps[0].ca else 0.0) + PairCa(ps[1..], m, k)
  }

  function PivotRow(ps: seq<PairRow>, m: Month, ks: seq<string>): (row: seq<real>)
    ensures |row| == |ks| && forall j :: 0 <= j < |ks| ==> row[j] == PairCa(ps, m, ks[j])
  {
    if ks == [] then [] else [PairCa(ps, m, ks[0])] + PivotRow(ps, m, ks[1..])
  }

  function PivotRows(ps: seq<PairRow>, ms: seq<Month>, ks: seq<string>): (cells: seq<seq<real>>)
    ensures |cells| == |ms| && forall i :: 0 <= i < |ms| ==> cells[i] == PivotRow(ps, ms[i], ks)
  {
    if ms == [] then [] else [PivotRow(ps, ms[0], ks)] + PivotRows(ps, ms[1..], ks)
  }

  /** `pivot(index="mois", columns=key, values="CA").fillna(0)`: rows are the
      months present in ascending order, columns the keys present in
      ascending order. */
  function PivotOf(ps: seq<PairRow>): (p: Pivot)
    ensures WellShaped(p)
    ensures StrictlySorted(p.index, MonthLt) && StrictlySorted(p.columns, StrLt)
    ensures forall m :: m in p.index <==> m in PairMonths(ps)
    ensures forall k :: k in p.columns <==> k in PairKeys(ps)
    ensures forall i, j :: 0 <= i < |p.index| && 0 <= j < |p.columns| ==>
              p.cells[i][j] == PairCa(ps, p.index[i], p.columns[j])
  {
    var ms := SortMonths(PairMonths(ps));
    var ks := SortStrings(PairKeys(ps));
    Pivot(ms, ks, PivotRows(ps, ms, ks))
  }

  /** `by_prod[by_prod["produit"].isin(keep)]`. */
  function KeepKeys(ps: seq<PairRow>, keep: set<string>): (r: seq<PairRow>)
    ensures forall x :: x in r <==> x in ps && x.key in keep
    ensures IsSubsequence(r, ps)
  {
    if ps == [] then []
    else
      var rest := KeepKeys(ps[1..], keep);
      assert ps == [ps[0]] + ps[1..];
      if ps[0].key in keep then [ps[0]] + rest
      else
        SkipHeadKeepsSubsequence(rest, ps);
        rest
  }

  lemma {:induction false} KeepKeysCa(ps: seq<PairRow>, keep: set<string>, m: Month, k: string)
    ensures PairCa(KeepKeys(ps, keep), m, k) == if k in keep then PairCa(ps, m, k) else 0.0
  {
    if ps != [] {
      KeepKeysCa(ps[1..], keep, m, k);
      if ps[0].key in keep {
        assert ([ps[0]] + KeepKeys(ps[1..], keep))[1..] == KeepKeys(ps[1..], keep);
      }
    }
  }

  lemma {:induction false} PairRowsLookup(cs: seq<Cell>, rows: seq<Record>, d: Dim, m: Month, k: string)
    requires Distinct(cs)
    ensures PairCa(PairRows(cs, rows, d), m, k)
            == if Cell(m, k) in cs then Total(Select(rows, CellFn(d), Cell(m, k))) else 0.0
  {
    if cs != [] {
      assert Distinct(cs[1..]);
      PairRowsLookup(cs[1..], rows, d, m, k);
      assert PairRows(cs, rows, d)[1..] == PairRows(cs[1..], rows, d);
      assert Cell(m, k) in cs <==> Cell(m, k) == cs[0] || Cell(m, k) in cs[1..];
      assert Cell(m, k) == cs[0] ==> Cell(m, k) !in cs[1..];
    }
  }

  /** Looking (m, k) up in `by_cat` / `by_prod` gives that group's total,
      and 0 for a pair without sales. */
  lemma ByPairLookup(rows: seq<Record>, d: Dim, m: Month, k: string)
    ensures PairCa(ByPair(rows, d), m, k) == Total(Select(rows, CellFn(d), Cell(m, k)))
  {
    PairRowsLookup(Cells(rows, d), rows, d, m, k);
  }

  lemma ByPairMonth(rows: seq<Record>, d: Dim, m: Month)
    ensures m in PairMonths(ByPair(rows, d)) <==> m in Months(rows)
  {
    var ps := ByPair(rows, d);
    var cs := Cells(rows, d);
    if m in Months(rows) {
      var j :| 0 <= j < |rows| && MonthKey(rows[j]) == m;
      assert CellFn(d)(rows[j]) in cs;
      var i :| 0 <= i < |cs| && cs[i] == CellFn(d)(rows[j]);
      assert PairMonths(ps)[i] == m;
    }
    if m in PairMonths(ps) {
      var i :| 0 <= i < |ps| && PairMonths(ps)[i] == m;
      assert cs[i] in cs;
      var j :| 0 <= j < |rows| && CellFn(d)(rows[j]) == cs[i];
    }
  }

  lemma ByPairKey(rows: seq<Record>, d: Dim, k: string)
    ensures k in PairKeys(ByPair(rows, d)) <==> k in Keys(rows, d)
  {
    var ps := ByPair(rows, d);
    var cs := Cells(rows, d);
    if k in Keys(rows, d) {
      var j :| 0 <= j < |rows| && KeyOf(rows[j], d) == k;
      assert CellFn(d)(rows[j]) in cs;
      var i :| 0 <= i < |cs| && cs[i] == CellFn(d)(rows[j]);
      assert PairKeys(ps)[i] == k;
    }
    if k in PairKeys(ps) {
      var i :| 0 <= i < |ps| && PairKeys(ps)[i] == k;
      assert cs[i] in cs;
      var j :| 0 <= j < |rows| && CellFn(d)(rows[j]) == cs[i];
    }
  }

  function SumReals(xs: seq<real>): real {
    if xs == [] then 0.0 else xs[0] + SumReals(xs[1..])
  }

  lemma {:induction false} PivotRowSum(rows: seq<Record>, d: Dim, m: Month, ks: seq<string>)
    ensures SumReals(PivotRow(ByPair(rows, d), m, ks)) == SumOver(ks, Select(rows, MonthKey, m), KeyFn(d))
  {
    if ks != [] {
      PivotRowSum(rows, d, m, ks[1..]);
      assert PivotRow(ByPair(rows, d), m, ks)[1..] == PivotRow(ByPair(rows, d), m, ks[1..]);
      ByPairLookup(rows, d, m, ks[0]);
      SelectCell(rows, d, m, ks[0]);
    }
  }

  /** `pivot_cat`: one row per month with sales and one column per category
      sold, ascending; each cell is that month's sales of that category, 0
      when there are none; and each row adds up to the month's `CA`. */
  lemma PivotCatIsZeroFilledGrid(rows: seq<Record>)
    ensures var p := PivotOf(ByPair(rows, ByCategory));
            && p.index == Months(rows)
            && p.columns == Keys(rows, ByCategory)
            && CellsAreGroupTotals(p, rows, ByCategory)
            && RowsAddUpToMonths(p, rows)
  {
    PivotCatLabels(rows);
    PivotCatCells(rows);
    PivotCatRowSums(rows);
  }

  /** Each cell of a pivot is the total of its (month, key) group; a pair
      without sales has an empty group, whose total is 0. */
  predicate CellsAreGroupTotals(p: Pivot, rows: seq<Record>, d: Dim)
    requires WellShaped(p)
  {
    forall i, j :: 0 <= i < |p.index| && 0 <= j < |p.columns| ==>
      p.cells[i][j] == Total(Select(rows, CellFn(d), Cell(p.index[i], p.columns[j])))
  }

  /** Each row of a pivot adds up to its month's total. */
  predicate RowsAddUpToMonths(p: Pivot, rows: seq<Record>)
    requires WellShaped(p)
  {
    forall i :: 0 <= i < |p.index| ==> SumReals(p.cells[i]) == Total(Select(rows, MonthKey, p.index[i]))
  }

  lemma PivotCatCells(rows: seq<Record>)
    ensures CellsAreGroupTotals(PivotOf(ByPair(rows, ByCategory)), rows, ByCategory)
  {
    ByPairLookupAll(rows, ByCategory);
    GroupTotalsFromLookup(PivotOf(ByPair(rows, ByCategory)), ByPair(rows, ByCategory), rows, ByCategory);
  }

  lemma PivotCatRowSums(rows: seq<Record>)
    ensures RowsAddUpToMonths(PivotOf(ByPair(rows, ByCategory)), rows)
  {
    var p := PivotOf(ByPair(rows, ByCategory));
    forall i | 0 <= i < |p.index|
      ensures SumReals(p.cells[i]) == Total(Select(rows, MonthKey, p.index[i]))
    {
      PivotCatRowSum(rows, i);
    }
  }

  /** The labels of `pivot_cat` are the months and the categories present. */
  lemma PivotCatLabels(rows: seq<Record>)
    ensures var p := PivotOf(ByPair(rows, ByCategory));
            p.index == Months(rows) && p.columns == Keys(rows, ByCategory)
  {
    var d := ByCategory;
    var p := PivotOf(ByPair(rows, d));
    forall m ensures m in p.index <==> m in Months(rows) { ByPairMonth(rows, d, m); }
    forall k ensures k in p.columns <==> k in Keys(rows, d) { ByPairKey(rows, d, k); }
    MonthLtIsStrictTotalOrder();
    StrLtIsStrictTotalOrder();
    SortedUnique(p.index, Months(rows), MonthLt);
    SortedUnique(p.columns, Keys(rows, d), StrLt);
  }

  /** A row of `pivot_cat` adds up to its month's `CA`. */
  lemma PivotCatRowSum(rows: seq<Record>, i: nat)
    requires i < |PivotOf(ByPair(rows, ByCategory)).index|
    ensures var p := PivotOf(ByPair(rows, ByCategory));
            SumReals(p.cells[i]) == Total(Select(rows, MonthKey, p.index[i]))
  {
    var d := ByCategory;
    var p := PivotOf(ByPair(rows, d));
    PivotCatLabels(rows);
    var m := p.index[i];
    var sel := Select(rows, MonthKey, m);
    PivotRowSum(rows, d, m, p.columns);
    forall t | 0 <= t < |sel|
      ensures KeyFn(d)(sel[t]) in p.columns
    {
      assert sel[t] in sel;
      var j :| 0 <= j < |rows| && rows[j] == sel[t];
    }
    PartitionTotal(p.columns, sel, KeyFn(d));
  }

  /** The set of keys of a top list. */
  function TopKeys(top: seq<KeyTotal>): (s: set<string>)
    ensures forall k :: k in s <==> exists i :: 0 <= i < |top| && top[i].key == k
  {
    set i | 0 <= i < |top| :: top[i].key
  }

  /** Every sale's (month, key) group is a row of `by_cat` / `by_prod`. */
  lemma RowHasPair(rows: seq<Record>, d: Dim, j: nat)
    requires j < |rows|
    ensures exists i :: 0 <= i < |ByPair(rows, d)| &&
              ByPair(rows, d)[i].month == MonthKey(rows[j]) && ByPair(rows, d)[i].key == KeyOf(rows[j], d)
  {
    var cs := Cells(rows, d);
    assert CellFn(d)(rows[j]) in cs;
    var i :| 0 <= i < |cs| && cs[i] == CellFn(d)(rows[j]);
    assert Cell(ByPair(rows, d)[i].month, ByPair(rows, d)[i].key) == cs[i];
  }

  /** Every row of `by_cat` / `by_prod` is the group of some sale. */
  lemma PairHasRow(rows: seq<Record>, d: Dim, i: nat)
    requires i < |ByPair(rows, d)|
    ensures exists j :: 0 <= j < |rows| &&
              ByPair(rows, d)[i].month == MonthKey(rows[j]) && ByPair(rows, d)[i].key == KeyOf(rows[j], d)
  {
    var cs := Cells(rows, d);
    assert cs[i] in cs;
    var j :| 0 <= j < |rows| && CellFn(d)(rows[j]) == cs[i];
  }

  /** A key is a column label of the kept rows iff some row carries it and
      it is kept. */
  lemma KeptKeyOf(ps: seq<PairRow>, keep: set<string>, k: string)
    ensures k in PairKeys(KeepKeys(ps, keep)) <==> k in keep && exists i :: 0 <= i < |ps| && ps[i].key == k
  {
    var kept := KeepKeys(ps, keep);
    if k in PairKeys(kept) {
      var t :| 0 <= t < |kept| && PairKeys(kept)[t] == k;
      assert kept[t] in kept;
      var i :| 0 <= i < |ps| && ps[i] == kept[t];
    }
    if k in keep && exists i :: 0 <= i < |ps| && ps[i].key == k {
      var i :| 0 <= i < |ps| && ps[i].key == k;
      assert ps[i] in ps;
      LabelsListed(kept, ps[i]);
    }
  }

  /** A month is a row label of the kept rows iff some kept row falls in it. */
  lemma KeptMonthOf(ps: seq<PairRow>, keep: set<string>, m: Month)
    ensures m in PairMonths(KeepKeys(ps, keep)) <==> exists i :: 0 <= i < |ps| && ps[i].month == m && ps[i].key in keep
  {
    var kept := KeepKeys(ps, keep);
    if m in PairMonths(kept) {
      var t :| 0 <= t < |kept| && PairMonths(kept)[t] == m;
      assert kept[t] in kept;
      var i :| 0 <= i < |ps| && ps[i] == kept[t];
    }
    if exists i :: 0 <= i < |ps| && ps[i].month == m && ps[i].key in keep {
      var i :| 0 <= i < |ps| && ps[i].month == m && ps[i].key in keep;
      assert ps[i] in ps;
      LabelsListed(kept, ps[i]);
    }
  }

  lemma KeptKey(rows: seq<Record>, keep: set<string>, k: string)
    requires forall x :: x in keep ==> x in Keys(rows, ByProduct)
    ensures k in PairKeys(KeepKeys(ByPair(rows, ByProduct), keep)) <==> k in keep
  {
    var all := ByPair(rows, ByProduct);
    KeptKeyOf(all, keep, k);
    if k in keep {
      var j :| 0 <= j < |rows| && KeyOf(rows[j], ByProduct) == k;
      RowHasPair(rows, ByProduct, j);
    }
  }

  lemma LabelsListed(ps: seq<PairRow>, x: PairRow)
    requires x in ps
    ensures x.month in PairMonths(ps) && x.key in PairKeys(ps)
  {
    var t :| 0 <= t < |ps| && ps[t] == x;
    assert PairMonths(ps)[t] == x.month && PairKeys(ps)[t] == x.key;
  }

  lemma KeptMonthOfRow(rows: seq<Record>, keep: set<string>, j: nat)
    requires j < |rows| && rows[j].product in keep
    ensures MonthKey(rows[j]) in PairMonths(KeepKeys(ByPair(rows, ByProduct), keep))
  {
    RowHasPair(rows, ByProduct, j);
    KeptMonthOf(ByPair(rows, ByProduct), keep, MonthKey(rows[j]));
  }

  lemma RowOfKeptMonth(rows: seq<Record>, keep: set<string>, m: Month)
    requires m in PairMonths(KeepKeys(ByPair(rows, ByProduct), keep))
    ensures exists j :: 0 <= j < |rows| && MonthKey(rows[j]) == m && rows[j].product in keep
  {
    var all := ByPair(rows, ByProduct);
    KeptMonthOf(all, keep, m);
    var i :| 0 <= i < |all| && all[i].month == m && all[i].key in keep;
    PairHasRow(rows, ByProduct, i);
  }

  /** `pivot_prod = by_prod[produit.isin(top keys)].pivot(...).fillna(0)`. */
  function PivotProd(rows: seq<Record>, top: seq<KeyTotal>): (p: Pivot)
    ensures WellShaped(p)
  {
    PivotOf(KeepKeys(ByPair(rows, ByProduct), TopKeys(top)))
  }

  /** The columns of `pivot_prod` are exactly the top products. */
  lemma PivotProdColumns(rows: seq<Record>, top: seq<KeyTotal>)
    requires forall i :: 0 <= i < |top| ==> top[i].key in Keys(rows, ByProduct)
    ensures StrictlySorted(PivotProd(rows, top).columns, StrLt)
    ensures forall k :: k in PivotProd(rows, top).columns <==> k in TopKeys(top)
  {
    forall k ensures k in PivotProd(rows, top).columns <==> k in TopKeys(top) {
      KeptKey(rows, TopKeys(top), k);
    }
  }

  /** The rows of `pivot_prod` are the months in which a top product sold. */
  lemma PivotProdIndex(rows: seq<Record>, top: seq<KeyTotal>)
    ensures StrictlySorted(PivotProd(rows, top).index, MonthLt)
    ensures forall m :: m in PivotProd(rows, top).index <==>
              exists j :: 0 <= j < |rows| && MonthKey(rows[j]) == m && rows[j].product in TopKeys(top)
  {
    var keep := TopKeys(top);
    forall m
      ensures m in PivotProd(rows, top).index <==>
              exists j :: 0 <= j < |rows| && MonthKey(rows[j]) == m && rows[j].product in keep
    {
      if m in PivotProd(rows, top).index {
        RowOfKeptMonth(rows, keep, m);
      }
      forall j | 0 <= j < |rows| && MonthKey(rows[j]) == m && rows[j].product in keep
        ensures m in PivotProd(rows, top).index
      {
        KeptMonthOfRow(rows, keep, j);
      }
    }
  }

  /** Each cell of `pivot_prod` is that month's sales of that product, 0 when
      there are none. */
  lemma PivotProdCells(rows: seq<Record>, top: seq<KeyTotal>)
    ensures CellsAreGroupTotals(PivotProd(rows, top), rows, ByProduct)
  {
    PivotKeptCells(rows, ByPair(rows, ByProduct), TopKeys(top));
  }

  /** The cells of a pivot of kept `by_prod` rows are group totals. */
  lemma PivotKeptCells(rows: seq<Record>, all: seq<PairRow>, keep: set<string>)
    requires all == ByPair(rows, ByProduct)
    ensures CellsAreGroupTotals(PivotOf(KeepKeys(all, keep)), rows, ByProduct)
  {
    var p := PivotOf(KeepKeys(all, keep));
    forall i, j | 0 <= i < |p.index| && 0 <= j < |p.columns|
      ensures p.cells[i][j] == PairCa(all, p.index[i], p.columns[j])
    {
      KeptPivotCell(all, keep, i, j);
    }
    ByPairLookupAll(rows, ByProduct);
    GroupTotalsFromLookup(p, all, rows, ByProduct);
  }

  lemma ByPairLookupAll(rows: seq<Record>, d: Dim)
    ensures forall m, k :: PairCa(ByPair(rows, d), m, k) == Total(Select(rows, CellFn(d), Cell(m, k)))
  {
    forall m, k ensures PairCa(ByPair(rows, d), m, k) == Total(Select(rows, CellFn(d), Cell(m, k))) {
      ByPairLookup(rows, d, m, k);
    }
  }

  lemma GroupTotalsFromLookup(p: Pivot, ps: seq<PairRow>, rows: seq<Record>, d: Dim)
    requires WellShaped(p)
    requires forall i, j :: 0 <= i < |p.index| && 0 <= j < |p.columns| ==>
               p.cells[i][j] == PairCa(ps, p.index[i], p.columns[j])
    requires forall m, k :: PairCa(ps, m, k) == Total(Select(rows, CellFn(d), Cell(m, k)))
    ensures CellsAreGroupTotals(p, rows, d)
  {
  }

  /** A cell of the pivot of kept rows is the unfiltered (month, key) total:
      its column is a kept key. */
  lemma KeptPivotCell(all: seq<PairRow>, keep: set<string>, i: nat, j: nat)
    requires i < |PivotOf(KeepKeys(all, keep)).index| && j < |PivotOf(KeepKeys(all, keep)).columns|
    ensures var p := PivotOf(KeepKeys(all, keep));
            p.cells[i][j] == PairCa(all, p.index[i], p.columns[j])
  {
    var p := PivotOf(KeepKeys(all, keep));
    var m, k := p.index[i], p.columns[j];
    assert k in p.columns;
    KeptKeyOf(all, keep, k);
    KeepKeysCa(all, keep, m, k);
  }

  // ---------------------------------------------------------------------
  // compute_kpis
  // ---------------------------------------------------------------------

  /** The number of categories in `top_cat`. */
  const TopCategories := 5

  /** The dictionary `compute_kpis` returns. */
  datatype Kpis = Kpis(
    byMonth: seq<MonthRow>,
    byCat: seq<PairRow>,
    byProd: seq<PairRow>,
    pivotCat: Pivot,
    pivotProd: Pivot,
    caTotal: real,
    caM: real,
    caM1: real,
    croissance: Option<real>,
    ticketMoyenGlobal: real,
    topProd: seq<KeyTotal>,
    topCat: seq<KeyTotal>)

  /** `compute_kpis(df, top_n_products)` on a non-empty table. */
  function ComputeKpis(rows: seq<Record>, topN: int): (k: Kpis)
    requires rows != []
    ensures k.caTotal == Total(rows) && SumCa(k.byMonth) == k.caTotal
    ensures k.caM == Total(Select(rows, MonthKey, LastMonth(rows)))
    ensures k.caM1 == Total(Select(rows, MonthKey, PrevMonth(LastMonth(rows))))
    ensures IsGrowth(k.croissance, k.caM, k.caM1)
    ensures k.ticketMoyenGlobal == TicketMoyen(rows)
    ensures k.byMonth == ByMonth(rows)
    ensures k.byCat == ByPair(rows, ByCategory) && k.byProd == ByPair(rows, ByProduct)
    ensures k.topProd == Top(rows, ByProduct, topN) && k.topCat == Top(rows, ByCategory, TopCategories)
    ensures k.pivotCat == PivotOf(k.byCat) && k.pivotProd == PivotProd(rows, k.topProd)
  {
    var byMonth := ByMonth(rows);
    var last := LastMonth(rows);
    var prev := PrevMonth(last);
    CaAtIsMonthTotal(rows, last);
    CaAtIsMonthTotal(rows, prev);
    ByMonthConservesTotals(rows);
    var caM := CaAt(byMonth, last);
    var caM1 := CaAt(byMonth, prev);
    var topProd := Top(rows, ByProduct, topN);
    var byCat := ByPair(rows, ByCategory);
    var growth := Growth(caM, caM1);
    var ticket := TicketMoyen(rows);
    Kpis(byMonth, byCat, ByPair(rows, ByProduct), PivotOf(byCat), PivotProd(rows, topProd),
         Total(rows), caM, caM1, growth, ticket,
         topProd, Top(rows, ByCategory, TopCategories))
  }

  // ---------------------------------------------------------------------
  // A worked example
  // ---------------------------------------------------------------------

  function ExampleRows(): seq<Record> {
    [ Record(Date(2024, 1, 5), "A", "cat1", 100.0, "c1"),
      Record(Date(2024, 1, 20), "B", "cat1", 50.0, "c2"),
      Record(Date(2024, 2, 1), "A", "cat2", 200.0, "c1") ]
  }

  lemma ExampleMonthGroups()
    ensures Select(ExampleRows(), MonthKey, Month(2024, 1)) == ExampleRows()[..2]
    ensures Select(ExampleRows(), MonthKey, Month(2024, 2)) == ExampleRows()[2..]
  {
    var rows := ExampleRows();
    assert MonthKey(rows[0]) == Month(2024, 1) && MonthKey(rows[1]) == Month(2024, 1);
    assert MonthKey(rows[2]) == Month(2024, 2);
  }

  lemma ExampleMonthList()
    ensures Months(ExampleRows()) == [Month(2024, 1), Month(2024, 2)]
  {
    var rows := ExampleRows();
    var jan, feb := Month(2024, 1), Month(2024, 2);
    assert MonthKey(rows[0]) == jan && MonthKey(rows[1]) == jan && MonthKey(rows[2]) == feb;
    MonthLtIsStrictTotalOrder();
    SortedUnique(Months(rows), [jan, feb], MonthLt);
  }

  lemma ExampleMonths()
    ensures Months(ExampleRows()) == [Month(2024, 1), Month(2024, 2)]
    ensures Total(Select(ExampleRows(), MonthKey, Month(2024, 1))) == 150.0
    ensures |Select(ExampleRows(), MonthKey, Month(2024, 1))| == 2
    ensures Total(Select(ExampleRows(), MonthKey, Month(2024, 2))) == 200.0
    ensures |Select(ExampleRows(), MonthKey, Month(2024, 2))| == 1
  {
    var rows := ExampleRows();
    ExampleMonthList();
    ExampleMonthGroups();
    assert rows[..2] == [rows[0], rows[1]] && [rows[0], rows[1]][1..] == [rows[1]];
    assert Total([rows[1]]) == 50.0;
    assert rows[2..] == [rows[2]];
  }

  lemma ExampleByMonth()
    ensures ByMonth(ExampleRows())
            == [MonthRow(Month(2024, 1), 150.0, 2, 75.0), MonthRow(Month(2024, 2), 200.0, 1, 200.0)]
  {
    var r := ByMonth(ExampleRows());
    ExampleMonths();
    assert MeanConsistent(r[0]) && MeanConsistent(r[1]);
  }

  lemma ExampleLastMonth()
    ensures LastMonth(ExampleRows()) == Month(2024, 2)
    ensures PrevMonth(LastMonth(ExampleRows())) == Month(2024, 1)
  {
    var rows := ExampleRows();
    assert MonthKey(rows[0]) == Month(2024, 1) && MonthKey(rows[2]) == Month(2024, 2);
  }

  lemma ExampleProducts()
    ensures Keys(ExampleRows(), ByProduct) == ["A", "B"]
    ensures Total(Select(ExampleRows(), KeyFn(ByProduct), "A")) == 300.0
    ensures Total(Select(ExampleRows(), KeyFn(ByProduct), "B")) == 50.0
  {
    var rows := ExampleRows();
    StrLtIsStrictTotalOrder();
    assert StrLt("A", "B");
    SortedUnique(Keys(rows, ByProduct), ["A", "B"], StrLt);
    ExampleProductGroups();
    assert [rows[0], rows[2]][1..] == [rows[2]];
  }

  lemma ExampleProductGroups()
    ensures Select(ExampleRows(), KeyFn(ByProduct), "A") == [ExampleRows()[0], ExampleRows()[2]]
    ensures Select(ExampleRows(), KeyFn(ByProduct), "B") == [ExampleRows()[1]]
  {
  }

  lemma ExampleTop()
    ensures Top(ExampleRows(), ByProduct, 1) == [KeyTotal("A", 300.0)]
  {
    var top := Top(ExampleRows(), ByProduct, 1);
    ExampleProducts();
    assert top[0].key == "A";
  }

  lemma ExamplePivotProd()
    ensures PivotProd(ExampleRows(), [KeyTotal("A", 300.0)])
            == Pivot([Month(2024, 1), Month(2024, 2)], ["A"], [[100.0], [200.0]])
  {
    var top := [KeyTotal("A", 300.0)];
    ExamplePivotColumns();
    ExamplePivotIndex();
    ExamplePivotCells(top);
  }

  lemma ExamplePivotColumns()
    ensures PivotProd(ExampleRows(), [KeyTotal("A", 300.0)]).columns == ["A"]
  {
    var rows := ExampleRows();
    var top := [KeyTotal("A", 300.0)];
    ExampleTopKeys();
    ExampleProducts();
    assert top[0].key == "A" && "A" in ["A", "B"];
    PivotProdColumns(rows, top);
    StrLtIsStrictTotalOrder();
    SortedUnique(PivotProd(rows, top).columns, ["A"], StrLt);
  }

  lemma ExamplePivotIndex()
    ensures PivotProd(ExampleRows(), [KeyTotal("A", 300.0)]).index == [Month(2024, 1), Month(2024, 2)]
  {
    var rows := ExampleRows();
    var top := [KeyTotal("A", 300.0)];
    var p := PivotProd(rows, top);
    ExampleTopKeys();
    PivotProdIndex(rows, top);
    ExamplePivotMonths(p.index);
  }

  lemma ExamplePivotMonths(index: seq<Month>)
    requires StrictlySorted(index, MonthLt)
    requires forall m :: m in index <==>
               exists j :: 0 <= j < |ExampleRows()| && MonthKey(ExampleRows()[j]) == m && ExampleRows()[j].product in {"A"}
    ensures index == [Month(2024, 1), Month(2024, 2)]
  {
    var rows := ExampleRows();
    MonthLtIsStrictTotalOrder();
    assert MonthKey(rows[0]) == Month(2024, 1) && MonthKey(rows[2]) == Month(2024, 2);
    assert MonthKey(rows[1]) == Month(2024, 1);
    SortedUnique(index, [Month(2024, 1), Month(2024, 2)], MonthLt);
  }

  lemma ExampleTopKeys()
    ensures TopKeys([KeyTotal("A", 300.0)]) == {"A"}
  {
    var top := [KeyTotal("A", 300.0)];
    assert top[0].key == "A";
    assert forall k :: k in TopKeys(top) <==> k == "A";
  }

  lemma ExamplePivotCells(top: seq<KeyTotal>)
    requires PivotProd(ExampleRows(), top).index == [Month(2024, 1), Month(2024, 2)]
    requires PivotProd(ExampleRows(), top).columns == ["A"]
    ensures PivotProd(ExampleRows(), top).cells == [[100.0], [200.0]]
  {
    var p := PivotProd(ExampleRows(), top);
    PivotProdCells(ExampleRows(), top);
    TwoByOneCells(p, ExampleRows(), ByProduct);
    ExampleCells();
  }

  /** A two-month, one-column grid of group totals, cell by cell. */
  lemma TwoByOneCells(p: Pivot, rows: seq<Record>, d: Dim)
    requires WellShaped(p) && |p.index| == 2 && |p.columns| == 1
    requires CellsAreGroupTotals(p, rows, d)
    ensures p.cells == [[Total(Select(rows, CellFn(d), Cell(p.index[0], p.columns[0])))],
                        [Total(Select(rows, CellFn(d), Cell(p.index[1], p.columns[0])))]]
  {
    assert |p.cells[0]| == 1 && |p.cells[1]| == 1;
    assert p.cells[0] == [p.cells[0][0]] && p.cells[1] == [p.cells[1][0]];
    assert p.cells == [p.cells[0], p.cells[1]];
  }

  lemma ExampleCells()
    ensures Total(Select(ExampleRows(), CellFn(ByProduct), Cell(Month(2024, 1), "A"))) == 100.0
    ensures Total(Select(ExampleRows(), CellFn(ByProduct), Cell(Month(2024, 2), "A"))) == 200.0
  {
    var rows := ExampleRows();
    assert MonthKey(rows[0]) == Month(2024, 1) && MonthKey(rows[1]) == Month(2024, 1);
    assert MonthKey(rows[2]) == Month(2024, 2);
    assert Select(rows, CellFn(ByProduct), Cell(Month(2024, 1), "A")) == [rows[0]];
    assert Select(rows, CellFn(ByProduct), Cell(Month(2024, 2), "A")) == [rows[2]];
  }

  /** Three sales over two months with `top_n = 1`: January holds 150 over
      two sales, February 200 over one; growth is a third; product A leads
      with 300 and is the only column of the product pivot. */
  lemma WorkedExample()
    ensures var k := ComputeKpis(ExampleRows(), 1);
            && k.byMonth == [MonthRow(Month(2024, 1), 150.0, 2, 75.0), MonthRow(Month(2024, 2), 200.0, 1, 200.0)]
            && k.caTotal == 350.0 && k.caM == 200.0 && k.caM1 == 150.0
            && k.croissance == Some(1.0 / 3.0)
            && k.topProd == [KeyTotal("A", 300.0)]
            && k.pivotProd == Pivot([Month(2024, 1), Month(2024, 2)], ["A"], [[100.0], [200.0]])
  {
    var k := ComputeKpis(ExampleRows(), 1);
    ExampleMonths();
    ExampleByMonth();
    ExampleLastMonth();
    ExampleTop();
    ExamplePivotProd();
    assert Total(ExampleRows()) == 350.0;
    assert k.croissance.value * 150.0 == 50.0;
  }
}
