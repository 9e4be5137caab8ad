/** The aggregate queries of `TransactionService`, each a pure function of
    the rows the repository returns. */
module TransactionQueries {
  import opened Wrappers
  import opened Entities
  import opened Sequences

  // =====================================================================
  // getTotals

  datatype Totals = Totals(net: int, income: int, expense: int)

  const ZERO_TOTALS := Totals(0, 0, 0)

  /** `t.date >= :start AND t.date <= :end` after `setTime(0, 0)` on the
      start and `setTime(23, 59, 59)` on the end. */
  predicate InWindow(d: Date, start: Date, end: Date)
  {
    NotAfter(StartOfDay(start), d) && NotAfter(d, EndOfDay(end))
  }

  /** Calendar order of the days alone, ignoring the time of day. */
  predicate DayNotAfter(a: Date, b: Date)
  {
    NotAfter(StartOfDay(a), StartOfDay(b))
  }

  function WindowAmounts(s: seq<Transaction>, start: Date, end: Date): seq<int>
  {
    if s == [] then []
    else (if InWindow(s[0].date, start, end) then [s[0].amount] else []) + WindowAmounts(s[1..], start, end)
  }

  /** `getTotals`: income, expenses and net over the window. The query has
      no user condition: `s` is every transaction row. */
  function GetTotals(s: seq<Transaction>, start: Date, end: Date): (r: Totals)
    ensures r.income >= 0 && r.expense <= 0
    ensures r.net == r.income + r.expense
  {
    var a := WindowAmounts(s, start, end);
    Totals(Income(a) + Expense(a), Income(a), Expense(a))
  }

  /** What one more row of the window adds to the totals. */
  function AddAmount(t: Totals, amount: int): Totals
  {
    if amount > 0 then Totals(t.net + amount, t.income + amount, t.expense)
    else if amount < 0 then Totals(t.net + amount, t.income, t.expense + amount)
    else t
  }

  lemma {:induction false} WindowAmountsOfConcat(a: seq<Transaction>, b: seq<Transaction>, start: Date, end: Date)
    ensures WindowAmounts(a + b, start, end) == WindowAmounts(a, start, end) + WindowAmounts(b, start, end)
  {
    if a == [] {
      assert a + b == b;
    } else {
      assert (a + b)[1..] == a[1..] + b;
      WindowAmountsOfConcat(a[1..], b, start, end);
    }
  }

  /** With the time of day in range, a date is in the window exactly when
      its day lies between the start day and the end day, both included,
      whatever times of day `start` and `end` carried. */
  lemma InWindowByDay(d: Date, start: Date, end: Date)
    requires ValidTime(d)
    ensures InWindow(d, start, end) <==> DayNotAfter(start, d) && DayNotAfter(d, end)
  {
  }

  /** A row counts exactly when it is inside the window: inserting one
      anywhere adds its amount to income (if positive) or to expense (if
      negative) and to net, and leaves the totals alone otherwise. */
  lemma {:induction false} GetTotalsOfInsert(a: seq<Transaction>, t: Transaction, b: seq<Transaction>, start: Date, end: Date)
    ensures GetTotals(a + [t] + b, start, end)
         == if InWindow(t.date, start, end) then AddAmount(GetTotals(a + b, start, end), t.amount)
            else GetTotals(a + b, start, end)
  {
    WindowAmountsOfConcat(a + [t], b, start, end);
    WindowAmountsOfConcat(a, [t], start, end);
    WindowAmountsOfConcat(a, b, start, end);
    assert [t][1..] == [];
    var wa, wt, wb := WindowAmounts(a, start, end), WindowAmounts([t], start, end), WindowAmounts(b, start, end);
    SumsOfConcat(wa + wt, wb);
    SumsOfConcat(wa, wt);
    SumsOfConcat(wa, wb);
    assert wt == if InWindow(t.date, start, end) then [t.amount] else [];
  }

  /** Net is the plain signed sum of the window's amounts (expenses are
      already negative). */
  lemma NetIsSignedSum(s: seq<Transaction>, start: Date, end: Date)
    ensures GetTotals(s, start, end).net == Sum(WindowAmounts(s, start, end))
  {
    IncomePlusExpense(WindowAmounts(s, start, end));
  }

  /** No row in the window (in particular, no rows at all) gives zeros. */
  lemma GetTotalsOfEmptyWindow(s: seq<Transaction>, start: Date, end: Date)
    requires forall i :: 0 <= i < |s| ==> !InWindow(s[i].date, start, end)
    ensures GetTotals(s, start, end) == ZERO_TOTALS
  {
    NoWindowAmounts(s, start, end);
  }

  lemma {:induction false} NoWindowAmounts(s: seq<Transaction>, start: Date, end: Date)
    requires forall i :: 0 <= i < |s| ==> !InWindow(s[i].date, start, end)
    ensures WindowAmounts(s, start, end) == []
  {
    if s != [] {
      assert forall i :: 0 <= i < |s[1..]| ==> s[1..][i] == s[i + 1];
      NoWindowAmounts(s[1..], start, end);
    }
  }

  /** An end day earlier than the start day is not an error: the totals are
      zero whatever the rows. */
  lemma ReversedWindowGivesZeros(s: seq<Transaction>, start: Date, end: Date)
    requires !DayNotAfter(start, end)
    ensures GetTotals(s, start, end) == ZERO_TOTALS
  {
    forall i | 0 <= i < |s|
      ensures !InWindow(s[i].date, start, end)
    {
      if InWindow(s[i].date, start, end) {
        NotAfterTransitive(StartOfDay(start), s[i].date, EndOfDay(end));
      }
    }
    GetTotalsOfEmptyWindow(s, start, end);
  }

  /** The boundary rows: one at the start day's 00:00:00 and one at the end
      day's 23:59:59 both count. */
  lemma BoundaryRowsCount(t1: Transaction, t2: Transaction, start: Date, end: Date)
    requires t1.date == StartOfDay(start) && t2.date == EndOfDay(end)
    requires DayNotAfter(start, end)
    ensures GetTotals([t1, t2], start, end).net == t1.amount + t2.amount
  {
    assert InWindow(t1.date, start, end);
    assert InWindow(t2.date, start, end);
    assert [] + [t1] + [t2] == [t1, t2];
    assert [] + [t2] + [] == [] + [t2] == [t2];
    GetTotalsOfInsert([], t1, [t2], start, end);
    GetTotalsOfInsert([], t2, [], start, end);
    GetTotalsOfEmptyWindow([], start, end);
  }

  // =====================================================================
  // getRecentTransactions

  /** `t.description, t.amount, t.date, c.name AS categoryName`. */
  datatype RecentRow = RecentRow(description: string, amount: int, date: Date, categoryName: Option<string>)

  function RecentRows(s: seq<Transaction>, cats: seq<Category>): (r: seq<RecentRow>)
    ensures |r| == |s|
  {
    seq(|s|, i requires 0 <= i < |s| =>
      RecentRow(s[i].description, s[i].amount, s[i].date, CategoryName(cats, s[i].categoryId)))
  }

  /** Newest first. */
  predicate DateDescending(r: seq<RecentRow>)
  {
    forall i, j :: 0 <= i < j < |r| ==> NotAfter(r[j].date, r[i].date)
  }

  function InsertByDate(x: RecentRow, r: seq<RecentRow>): (q: seq<RecentRow>)
    ensures |q| == |r| + 1
    ensures multiset(q) == multiset(r) + multiset{x}
  {
    if r == [] then [x]
    else if NotAfter(r[0].date, x.date) then [x] + r
    else
      assert r == [r[0]] + r[1..];
      [r[0]] + InsertByDate(x, r[1..])
  }

  lemma {:induction false} InsertByDateSorted(x: RecentRow, r: seq<RecentRow>)
    requires DateDescending(r)
    ensures DateDescending(InsertByDate(x, r))
  {
    if r != [] && !NotAfter(r[0].date, x.date) {
      InsertByDateSorted(x, r[1..]);
      var q := InsertByDate(x, r[1..]);
      forall k | 0 <= k < |q|
        ensures NotAfter(q[k].date, r[0].date)
      {
        assert q[k] in multiset(q);
        if q[k] != x {
          assert q[k] in multiset(r[1..]);
          var j :| 0 <= j < |r[1..]| && r[1..][j] == q[k];
          assert r[j + 1] == q[k];
        }
      }
    } else if r != [] {
      forall j | 0 < j < |r| + 1
        ensures NotAfter(([x] + r)[j].date, x.date)
      {
        NotAfterTransitive(r[j - 1].date, r[0].date, x.date);
      }
    }
  }

  /** `ORDER BY t.date DESC` (an insertion sort; the order of rows with the
      same date is not specified by the query). */
  function SortByDateDesc(r: seq<RecentRow>): (q: seq<RecentRow>)
    ensures multiset(q) == multiset(r)
  {
    if r == [] then []
    else
      assert r == [r[0]] + r[1..];
      InsertByDate(r[0], SortByDateDesc(r[1..]))
  }

  lemma {:induction false} SortByDateDescSorted(r: seq<RecentRow>)
    ensures DateDescending(SortByDateDesc(r))
  {
    if r != [] {
      SortByDateDescSorted(r[1..]);
      InsertByDateSorted(r[0], SortByDateDesc(r[1..]));
    }
  }

  /** The query of `getRecentTransactions`. */
  function RecentTransactions(s: seq<Transaction>, cats: seq<Category>, limit: nat): seq<RecentRow>
  {
    Take(SortByDateDesc(RecentRows(s, cats)), limit)
  }

  /** At most `limit` rows (fewer only when there are fewer transactions),
      newest first, each the row of some transaction, and no transaction
      left out is newer than any row returned. */
  lemma RecentTransactionsSpec(s: seq<Transaction>, cats: seq<Category>, limit: nat)
    ensures var r := RecentTransactions(s, cats, limit);
      && |r| == Min(limit, |s|)
      && DateDescending(r)
      && multiset(r) <= multiset(RecentRows(s, cats))
      && forall x, i :: x in multiset(RecentRows(s, cats)) - multiset(r) && 0 <= i < |r| ==> NotAfter(x.date, r[i].date)
  {
    var rows := RecentRows(s, cats);
    var sorted := SortByDateDesc(rows);
    SortByDateDescSorted(rows);
    NewestPrefix(sorted, Min(limit, |s|));
  }

  /** A prefix of newest-first rows is newest first, and no row after it is
      newer than a row in it. */
  lemma NewestPrefix(sorted: seq<RecentRow>, n: nat)
    requires DateDescending(sorted) && n <= |sorted|
    ensures var r := sorted[..n];
      && DateDescending(r)
      && multiset(r) <= multiset(sorted)
      && forall x, i :: x in multiset(sorted) - multiset(r) && 0 <= i < |r| ==> NotAfter(x.date, r[i].date)
  {
    var r, rest := sorted[..n], sorted[n..];
    assert sorted == r + rest;
    assert multiset(sorted) == multiset(r) + multiset(rest);
    forall x, i | x in multiset(sorted) - multiset(r) && 0 <= i < |r|
      ensures NotAfter(x.date, r[i].date)
    {
      assert x in multiset(rest);
      var j :| 0 <= j < |rest| && rest[j] == x;
      assert sorted[n + j] == x && sorted[i] == r[i];
    }
  }

  // =====================================================================
  // getMonthlySummary

  /** The two columns the date-grouped aggregates read. */
  datatype Dated = Dated(date: Date, amount: int)

  function DatedAmounts(s: seq<Transaction>): (d: seq<Dated>)
    ensures |d| == |s|
  {
    seq(|s|, i requires 0 <= i < |s| => Dated(s[i].date, s[i].amount))
  }

  /** `m`, `income` and `expense` of one month group. */
  datatype MonthRow = MonthRow(m: int, income: int, expense: int)

  /** `WHERE YEAR(t.date) = :year`. */
  function InYear(d: seq<Dated>, year: int): (e: seq<Dated>)
    ensures forall x :: x in e <==> x in d && x.date.year == year
  {
    if d == [] then []
    else (if d[0].date.year == year then [d[0]] else []) + InYear(d[1..], year)
  }

  function Months(d: seq<Dated>): (ms: seq<int>)
    ensures forall m :: m in ms <==> exists x :: x in d && x.date.month == m
  {
    if d == [] then []
    else [d[0].date.month] + Months(d[1..])
  }

  function MonthAmounts(d: seq<Dated>, m: int): seq<int>
  {
    if d == [] then []
    else (if d[0].date.month == m then [d[0].amount] else []) + MonthAmounts(d[1..], m)
  }

  /** One row per month key, in the order of the keys. */
  function MonthRows(d: seq<Dated>, ms: seq<int>): (r: seq<MonthRow>)
    ensures |r| == |ms|
    ensures forall i :: 0 <= i < |ms| ==> r[i].m == ms[i]
  {
    if ms == [] then []
    else [MonthRow(ms[0], Income(MonthAmounts(d, ms[0])), -Expense(MonthAmounts(d, ms[0])))] + MonthRows(d, ms[1..])
  }

  /** The query of `getMonthlySummary`: `GROUP BY m` over the year's rows.
      The query has no ORDER BY; the groups come in order of first
      occurrence. */
  function MonthlySummary(s: seq<Transaction>, year: int): seq<MonthRow>
  {
    var e := InYear(DatedAmounts(s), year);
    MonthRows(e, Distinct(Months(e)))
  }

  /** The amounts dated in the given year and month, read straight off the
      rows: the reference the summary is checked against. */
  function AmountsIn(d: seq<Dated>, year: int, m: int): seq<int>
  {
    if d == [] then []
    else (if d[0].date.year == year && d[0].date.month == m then [d[0].amount] else []) + AmountsIn(d[1..], year, m)
  }

  lemma {:induction false} MonthAmountsOfYear(d: seq<Dated>, year: int, m: int)
    ensures MonthAmounts(InYear(d, year), m) == AmountsIn(d, year, m)
  {
    if d != [] {
      MonthAmountsOfYear(d[1..], year, m);
      var head := if d[0].date.year == year then [d[0]] else [];
      MonthAmountsOfConcat(head, InYear(d[1..], year), m);
      if d[0].date.year == year {
        assert [d[0]][1..] == [];
      }
    }
  }

  lemma {:induction false} MonthAmountsOfConcat(a: seq<Dated>, b: seq<Dated>, m: int)
    ensures MonthAmounts(a + b, m) == MonthAmounts(a, m) + MonthAmounts(b, m)
  {
    if a == [] {
      assert a + b == b;
    } else {
      var c := a + b;
      assert c[0] == a[0] && c[1..] == a[1..] + b;
      MonthAmountsOfConcat(a[1..], b, m);
      var h := if a[0].date.month == m then [a[0].amount] else [];
      assert MonthAmounts(c, m) == h + MonthAmounts(c[1..], m);
      assert MonthAmounts(a, m) == h + MonthAmounts(a[1..], m);
    }
  }

  /** Every row is a month of the year that has transactions. */
  lemma MonthlySummaryMonthsExist(s: seq<Transaction>, year: int)
    ensures var r := MonthlySummary(s, year);
      forall i :: 0 <= i < |r| ==>
        exists j :: 0 <= j < |s| && s[j].date.year == year && s[j].date.month == r[i].m
  {
    var d := DatedAmounts(s);
    var e := InYear(d, year);
    var ms := Distinct(Months(e));
    var r := MonthlySummary(s, year);
    forall i | 0 <= i < |r|
      ensures exists j :: 0 <= j < |s| && s[j].date.year == year && s[j].date.month == r[i].m
    {
      assert ms[i] in ms;
      var x :| x in e && x.date.month == ms[i];
      var j :| 0 <= j < |d| && d[j] == x;
      assert s[j].date == x.date;
    }
  }

  /** Every month of the year that has transactions has a row. */
  lemma MonthlySummaryCoversMonths(s: seq<Transaction>, year: int)
    ensures var r := MonthlySummary(s, year);
      forall j :: 0 <= j < |s| && s[j].date.year == year ==>
        exists i :: 0 <= i < |r| && r[i].m == s[j].date.month
  {
    var d := DatedAmounts(s);
    var e := InYear(d, year);
    var ms := Distinct(Months(e));
    var r := MonthlySummary(s, year);
    forall j | 0 <= j < |s| && s[j].date.year == year
      ensures exists i :: 0 <= i < |r| && r[i].m == s[j].date.month
    {
      assert d[j] in d && d[j] in e;
      assert s[j].date.month in ms;
      var i :| 0 <= i < |ms| && ms[i] == s[j].date.month;
      assert r[i].m == ms[i];
    }
  }

  /** Each month appears in at most one row. */
  lemma MonthlySummaryDistinctMonths(s: seq<Transaction>, year: int)
    ensures var r := MonthlySummary(s, year);
      forall i, k :: 0 <= i < k < |r| ==> r[i].m != r[k].m
  {
    var e := InYear(DatedAmounts(s), year);
    var ms := Distinct(Months(e));
    assert NoDuplicates(ms);
  }

  /** A row's income is the sum of the positive amounts of that month and
      its expense the magnitude of the sum of the negative ones; both are
      non-negative. */
  lemma MonthlySummaryAmounts(s: seq<Transaction>, year: int)
    ensures var r := MonthlySummary(s, year);
      forall i :: 0 <= i < |r| ==>
        && r[i].income == Income(AmountsIn(DatedAmounts(s), year, r[i].m))
        && r[i].expense == -Expense(AmountsIn(DatedAmounts(s), year, r[i].m))
        && r[i].income >= 0 && r[i].expense >= 0
  {
    var d := DatedAmounts(s);
    var e := InYear(d, year);
    var ms := Distinct(Months(e));
    var r := MonthlySummary(s, year);
    forall i | 0 <= i < |r|
      ensures r[i].income == Income(AmountsIn(d, year, r[i].m))
      ensures r[i].expense == -Expense(AmountsIn(d, year, r[i].m))
    {
      MonthRowAt(e, ms, i);
      MonthAmountsOfYear(d, year, ms[i]);
    }
  }

  lemma {:induction false} MonthRowAt(d: seq<Dated>, ms: seq<int>, i: nat)
    requires i < |ms|
    ensures MonthRows(d, ms)[i] == MonthRow(ms[i], Income(MonthAmounts(d, ms[i])), -Expense(MonthAmounts(d, ms[i])))
  {
    if i > 0 {
      MonthRowAt(d, ms[1..], i - 1);
    }
  }

  // =====================================================================
  // getTransactionsYears

  /** One result row of `SELECT DISTINCT YEAR(t.date) AS year`. */
  datatype YearRow = YearRow(year: int)

  predicate StrictlyDescending(ys: seq<int>)
  {
    forall i, j :: 0 <= i < j < |ys| ==> ys[i] > ys[j]
  }

  /** Puts `y` into a strictly descending list, unless it is there. */
  function InsertYear(y: int, ys: seq<int>): (r: seq<int>)
    requires StrictlyDescending(ys)
    ensures StrictlyDescending(r)
    ensures forall z :: z in r <==> z == y || z in ys
  {
    if ys == [] then [y]
    else if y > ys[0] then [y] + ys
    else if y == ys[0] then ys
    else
      var tail := InsertYear(y, ys[1..]);
      assert forall z :: z in ys <==> z == ys[0] || z in ys[1..];
      assert forall k :: 0 <= k < |tail| ==> tail[k] < ys[0] by {
        forall k | 0 <= k < |tail|
          ensures tail[k] < ys[0]
        {
          assert tail[k] in tail;
          if tail[k] != y {
            var j :| 0 <= j < |ys[1..]| && ys[1..][j] == tail[k];
            assert ys[j + 1] == tail[k];
          }
        }
      }
      [ys[0]] + tail
  }

  /** `DISTINCT ... ORDER BY year DESC`. */
  function DistinctYears(d: seq<Dated>): (ys: seq<int>)
    ensures StrictlyDescending(ys)
    ensures forall y :: y in ys <==> exists x :: x in d && x.date.year == y
  {
    if d == [] then []
    else
      assert forall x :: x in d <==> x == d[0] || x in d[1..];
      InsertYear(d[0].date.year, DistinctYears(d[1..]))
  }

  /** The rows of the years query. */
  function YearRows(s: seq<Transaction>): (rows: seq<YearRow>)
  {
    var ys := DistinctYears(DatedAmounts(s));
    seq(|ys|, i requires 0 <= i < |ys| => YearRow(ys[i]))
  }

  /** The years `getTransactionsYears` returns: those of the query rows. */
  function TransactionYears(s: seq<Transaction>): seq<int>
  {
    var rows := YearRows(s);
    seq(|rows|, i requires 0 <= i < |rows| => rows[i].year)
  }

  /** The distinct years of the rows, strictly descending, and exactly the
      years some transaction is dated in. */
  lemma TransactionYearsSpec(s: seq<Transaction>)
    ensures StrictlyDescending(TransactionYears(s))
    ensures forall y :: y in TransactionYears(s) <==> exists j :: 0 <= j < |s| && s[j].date.year == y
  {
    var d := DatedAmounts(s);
    var ys := DistinctYears(d);
    assert TransactionYears(s) == ys;
    forall y
      ensures y in ys <==> exists j :: 0 <= j < |s| && s[j].date.year == y
    {
      if y in ys {
        var x :| x in d && x.date.year == y;
        var j :| 0 <= j < |d| && d[j] == x;
        assert s[j].date.year == y;
      }
      if exists j :: 0 <= j < |s| && s[j].date.year == y {
        var j :| 0 <= j < |s| && s[j].date.year == y;
        assert d[j] in d;
      }
    }
  }
}
