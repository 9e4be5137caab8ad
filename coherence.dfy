/** What the read-through cache is meant to keep: for one user, every live
    entry under one of that user's keys equals what its query would compute
    from the rows as they are now. The lemmas say which operations keep
    this and which do not. The rows are the user's view of the database
    (the queries carry no user condition of their own). */
module Coherence {
  import opened Wrappers
  import opened Entities
  import opened Sequences
  import opened CacheKeys
  import opened CacheStore
  import opened TransactionQueries
  import opened CategoryQueries

  /** `10 * 60` seconds. */
  const TTL: int := 10 * 60

  /** What the services put in the cache, one case per metric. */
  datatype CachedValue =
    | RecentValue(recent: seq<RecentRow>)
    | MonthlyValue(months: seq<MonthRow>)
    | YearsValue(years: seq<int>)
    | TopValue(top: seq<TopRow>)

  type Entries = map<string, Entry<CachedValue>>

  function RecentKey(u: int): string
  {
    UserKey(u, CacheKey.RecentTransactions)
  }

  function YearsKey(u: int): string
  {
    UserKey(u, TransactionsYears)
  }

  function TopKey(u: int): string
  {
    UserKey(u, TopCategories)
  }

  /** The recent-transactions entry, if live, is the query's result for
      `limit` rows (the limit is not part of the key). */
  predicate HoldsRecent(m: Entries, now: int, u: int, s: seq<Transaction>, cats: seq<Category>, limit: nat)
  {
    Live(m, now, RecentKey(u)) ==>
      m[RecentKey(u)].value == RecentValue(TransactionQueries.RecentTransactions(s, cats, limit))
  }

  /** Every live monthly entry is that year's summary. */
  ghost predicate HoldsMonthly(m: Entries, now: int, u: int, s: seq<Transaction>)
  {
    forall y :: Live(m, now, MonthlyKey(u, y)) ==> m[MonthlyKey(u, y)].value == MonthlyValue(MonthlySummary(s, y))
  }

  predicate HoldsYears(m: Entries, now: int, u: int, s: seq<Transaction>)
  {
    Live(m, now, YearsKey(u)) ==> m[YearsKey(u)].value == YearsValue(TransactionYears(s))
  }

  predicate HoldsTop(m: Entries, now: int, u: int, s: seq<Transaction>, cats: seq<Category>, limit: nat)
  {
    Live(m, now, TopKey(u)) ==> m[TopKey(u)].value == TopValue(TopSpendingCategories(s, cats, limit))
  }

  /** All four metrics of user `u`, for the limits the callers use. */
  ghost predicate Coherent(m: Entries, now: int, u: int, s: seq<Transaction>, cats: seq<Category>, recentLimit: nat, topLimit: nat)
  {
    && HoldsRecent(m, now, u, s, cats, recentLimit)
    && HoldsMonthly(m, now, u, s)
    && HoldsYears(m, now, u, s)
    && HoldsTop(m, now, u, s, cats, topLimit)
  }

  /** The user's three non-monthly keys differ from each other and from
      every monthly key of the user. */
  lemma KeysOfUserDiffer(u: int)
    ensures RecentKey(u) != YearsKey(u) && RecentKey(u) != TopKey(u) && YearsKey(u) != TopKey(u)
    ensures forall y :: MonthlyKey(u, y) != RecentKey(u) && MonthlyKey(u, y) != YearsKey(u) && MonthlyKey(u, y) != TopKey(u)
  {
    var p := IntToString(u);
    DifferentKindsNeverCollide(p, p, CacheKey.RecentTransactions, TransactionsYears);
    DifferentKindsNeverCollide(p, p, CacheKey.RecentTransactions, TopCategories);
    DifferentKindsNeverCollide(p, p, TransactionsYears, TopCategories);
    forall y
      ensures MonthlyKey(u, y) != RecentKey(u) && MonthlyKey(u, y) != YearsKey(u) && MonthlyKey(u, y) != TopKey(u)
    {
      MonthlyKeyIsNotUserKey(u, y, u, CacheKey.RecentTransactions);
      MonthlyKeyIsNotUserKey(u, y, u, TransactionsYears);
      MonthlyKeyIsNotUserKey(u, y, u, TopCategories);
    }
  }

  // ---------------------------------------------------------------------
  // Reads and time

  /** A miss of `getRecentTransactions` stores the query's result; storing
      it keeps every other metric of the user as it was. */
  lemma StoreRecentKeepsCoherence(m: Entries, now: int, u: int, s: seq<Transaction>, cats: seq<Category>, recentLimit: nat, topLimit: nat)
    requires Coherent(m, now, u, s, cats, recentLimit, topLimit)
    ensures Coherent(m[RecentKey(u) := Entry(RecentValue(TransactionQueries.RecentTransactions(s, cats, recentLimit)), now + TTL)],
                     now, u, s, cats, recentLimit, topLimit)
  {
    KeysOfUserDiffer(u);
  }

  /** Storing one year's summary under its key leaves the other years'
      entries of the user alone. */
  lemma StoreMonthlyKeepsMonthly(m: Entries, now: int, u: int, year: int, s: seq<Transaction>, expiry: int)
    requires HoldsMonthly(m, now, u, s)
    ensures HoldsMonthly(m[MonthlyKey(u, year) := Entry(MonthlyValue(MonthlySummary(s, year)), expiry)], now, u, s)
  {
    var m' := m[MonthlyKey(u, year) := Entry(MonthlyValue(MonthlySummary(s, year)), expiry)];
    forall y | Live(m', now, MonthlyKey(u, y))
      ensures m'[MonthlyKey(u, y)].value == MonthlyValue(MonthlySummary(s, y))
    {
      if MonthlyKey(u, y) == MonthlyKey(u, year) {
        MonthlyKeyInjectiveInYear(u, y, year);
      }
    }
  }

  /** A miss of `getMonthlySummary` for one year keeps every metric of the
      user coherent. */
  lemma StoreMonthlyKeepsCoherence(m: Entries, now: int, u: int, year: int, s: seq<Transaction>, cats: seq<Category>, recentLimit: nat, topLimit: nat)
    requires Coherent(m, now, u, s, cats, recentLimit, topLimit)
    ensures Coherent(m[MonthlyKey(u, year) := Entry(MonthlyValue(MonthlySummary(s, year)), now + TTL)],
                     now, u, s, cats, recentLimit, topLimit)
  {
    KeysOfUserDiffer(u);
    StoreMonthlyKeepsMonthly(m, now, u, year, s, now + TTL);
  }

  lemma StoreYearsKeepsCoherence(m: Entries, now: int, u: int, s: seq<Transaction>, cats: seq<Category>, recentLimit: nat, topLimit: nat)
    requires Coherent(m, now, u, s, cats, recentLimit, topLimit)
    ensures Coherent(m[YearsKey(u) := Entry(YearsValue(TransactionYears(s)), now + TTL)],
                     now, u, s, cats, recentLimit, topLimit)
  {
    KeysOfUserDiffer(u);
  }

  lemma StoreTopKeepsCoherence(m: Entries, now: int, u: int, s: seq<Transaction>, cats: seq<Category>, recentLimit: nat, topLimit: nat)
    requires Coherent(m, now, u, s, cats, recentLimit, topLimit)
    ensures Coherent(m[TopKey(u) := Entry(TopValue(TopSpendingCategories(s, cats, topLimit)), now + TTL)],
                     now, u, s, cats, recentLimit, topLimit)
  {
    KeysOfUserDiffer(u);
  }

  /** The clock moving forward only expires entries. */
  lemma TimeKeepsCoherence(m: Entries, now: int, later: int, u: int, s: seq<Transaction>, cats: seq<Category>, recentLimit: nat, topLimit: nat)
    requires now <= later
    requires Coherent(m, now, u, s, cats, recentLimit, topLimit)
    ensures Coherent(m, later, u, s, cats, recentLimit, topLimit)
  {
    forall y | Live(m, later, MonthlyKey(u, y))
      ensures m[MonthlyKey(u, y)].value == MonthlyValue(MonthlySummary(s, y))
    {
      LiveEarlier(m, now, later, MonthlyKey(u, y));
    }
  }

  // ---------------------------------------------------------------------
  // Transaction writes

  /** The rows agree on every year's summary except `year`'s. */
  ghost predicate SameOutsideYear(s: seq<Transaction>, s': seq<Transaction>, year: int)
  {
    forall y :: y != year ==> MonthlySummary(s', y) == MonthlySummary(s, y)
  }

  /** `unsetCache($userId, $year)` after a change to the rows that touches
      no other year's summary restores coherence, whatever the change did to
      the recent, years and top metrics (their keys are deleted too). */
  lemma InvalidationRestoresCoherence(m: Entries, now: int, u: int, year: int, s: seq<Transaction>, cats: seq<Category>,
                                      s': seq<Transaction>, cats': seq<Category>, recentLimit: nat, topLimit: nat)
    requires Coherent(m, now, u, s, cats, recentLimit, topLimit)
    requires SameOutsideYear(s, s', year)
    ensures Coherent(Without(m, set k | k in InvalidatedKeys(u, year)), now, u, s', cats', recentLimit, topLimit)
  {
    InvalidatedKeysAreTheReadKeys(u, year);
    var m' := Without(m, set k | k in InvalidatedKeys(u, year));
    assert RecentKey(u) in InvalidatedKeys(u, year);
    assert YearsKey(u) in InvalidatedKeys(u, year);
    assert TopKey(u) in InvalidatedKeys(u, year);
    assert MonthlyKey(u, year) in InvalidatedKeys(u, year);
  }

  /** `WHERE YEAR(t.date) = :year` distributes over concatenation. */
  lemma {:induction false} InYearOfConcat(a: seq<Dated>, b: seq<Dated>, year: int)
    ensures InYear(a + b, year) == InYear(a, year) + InYear(b, year)
  {
    if a == [] {
      assert a + b == b;
    } else {
      assert (a + b)[1..] == a[1..] + b;
      InYearOfConcat(a[1..], b, year);
    }
  }

  lemma InYearOfOther(x: Dated, year: int)
    requires x.date.year != year
    ensures InYear([x], year) == []
  {
  }

  /** Removing one row of another year does not change a year's rows. */
  lemma DropOtherYear(a: seq<Dated>, x: Dated, b: seq<Dated>, year: int)
    requires x.date.year != year
    ensures InYear(a + [x] + b, year) == InYear(a + b, year)
  {
    InYearOfConcat(a + [x], b, year);
    InYearOfConcat(a, [x], year);
    InYearOfConcat(a, b, year);
    InYearOfOther(x, year);
    assert InYear(a, year) + [] == InYear(a, year);
  }

  /** A row of the transaction at `i` split out of the rest. */
  lemma DatedAround(s: seq<Transaction>, i: nat)
    requires i < |s|
    ensures DatedAmounts(s) == DatedAmounts(s[..i]) + [Dated(s[i].date, s[i].amount)] + DatedAmounts(s[i + 1..])
  {
  }

  /** A created transaction changes only the summary of its own year. */
  lemma CreateTouchesOnlyItsYear(s: seq<Transaction>, t: Transaction)
    ensures SameOutsideYear(s, s + [t], t.date.year)
  {
    assert DatedAmounts(s + [t]) == DatedAmounts(s) + [Dated(t.date, t.amount)] + [];
    assert DatedAmounts(s) == DatedAmounts(s) + [];
    forall y | y != t.date.year
      ensures MonthlySummary(s + [t], y) == MonthlySummary(s, y)
    {
      DropOtherYear(DatedAmounts(s), Dated(t.date, t.amount), [], y);
    }
  }

  /** `create` followed by its `unsetCache`: coherence is restored. */
  lemma CreateRestoresCoherence(m: Entries, now: int, u: int, s: seq<Transaction>, cats: seq<Category>, t: Transaction,
                                recentLimit: nat, topLimit: nat)
    requires Coherent(m, now, u, s, cats, recentLimit, topLimit)
    ensures Coherent(Without(m, set k | k in InvalidatedKeys(u, t.date.year)), now, u, s + [t], cats, recentLimit, topLimit)
  {
    CreateTouchesOnlyItsYear(s, t);
    InvalidationRestoresCoherence(m, now, u, t.date.year, s, cats, s + [t], cats, recentLimit, topLimit);
  }

  /** A deleted transaction changes only the summary of the year it was
      dated in. */
  lemma DeleteTouchesOnlyItsYear(s: seq<Transaction>, i: nat)
    requires i < |s|
    ensures SameOutsideYear(s, s[..i] + s[i + 1..], s[i].date.year)
  {
    DatedAround(s, i);
    assert DatedAmounts(s[..i] + s[i + 1..]) == DatedAmounts(s[..i]) + DatedAmounts(s[i + 1..]);
    forall y | y != s[i].date.year
      ensures MonthlySummary(s[..i] + s[i + 1..], y) == MonthlySummary(s, y)
    {
      DropOtherYear(DatedAmounts(s[..i]), Dated(s[i].date, s[i].amount), DatedAmounts(s[i + 1..]), y);
    }
  }

  /** `delete` and its `unsetCache` for the deleted row's year: coherence
      is restored. */
  lemma DeleteRestoresCoherence(m: Entries, now: int, u: int, s: seq<Transaction>, cats: seq<Category>, i: nat,
                                recentLimit: nat, topLimit: nat)
    requires i < |s|
    requires Coherent(m, now, u, s, cats, recentLimit, topLimit)
    ensures Coherent(Without(m, set k | k in InvalidatedKeys(u, s[i].date.year)), now, u, s[..i] + s[i + 1..], cats,
                     recentLimit, topLimit)
  {
    DeleteTouchesOnlyItsYear(s, i);
    InvalidationRestoresCoherence(m, now, u, s[i].date.year, s, cats, s[..i] + s[i + 1..], cats, recentLimit, topLimit);
  }

  /** An updated transaction changes at most the summaries of its old and
      its new year. */
  lemma UpdateTouchesOnlyItsYears(s: seq<Transaction>, i: nat, t: Transaction, y: int)
    requires i < |s|
    requires y != s[i].date.year && y != t.date.year
    ensures MonthlySummary(s[i := t], y) == MonthlySummary(s, y)
  {
    DatedAround(s, i);
    DatedAround(s[i := t], i);
    assert s[i := t][..i] == s[..i] && s[i := t][i + 1..] == s[i + 1..];
    DropOtherYear(DatedAmounts(s[..i]), Dated(s[i].date, s[i].amount), DatedAmounts(s[i + 1..]), y);
    DropOtherYear(DatedAmounts(s[..i]), Dated(t.date, t.amount), DatedAmounts(s[i + 1..]), y);
  }

  /** An update that keeps the transaction in its year: deleting the four
      keys of the new date's year restores coherence. */
  lemma UpdateWithinYearRestoresCoherence(m: Entries, now: int, u: int, s: seq<Transaction>, cats: seq<Category>,
                                          i: nat, t: Transaction, cats': seq<Category>, recentLimit: nat, topLimit: nat)
    requires i < |s| && s[i].date.year == t.date.year
    requires Coherent(m, now, u, s, cats, recentLimit, topLimit)
    ensures Coherent(Without(m, set k | k in InvalidatedKeys(u, t.date.year)), now, u, s[i := t], cats', recentLimit, topLimit)
  {
    forall y | y != t.date.year
      ensures MonthlySummary(s[i := t], y) == MonthlySummary(s, y)
    {
      UpdateTouchesOnlyItsYears(s, i, t, y);
    }
    InvalidationRestoresCoherence(m, now, u, t.date.year, s, cats, s[i := t], cats', recentLimit, topLimit);
  }

  /** Changing the year of a transaction leaves the old year's monthly
      entry in the cache: `update` only deletes the new date's key. */
  lemma UpdateAcrossYearsKeepsOldYearEntry(m: Entries, u: int, oldYear: int, newYear: int)
    requires oldYear != newYear
    ensures var m' := Without(m, set k | k in InvalidatedKeys(u, newYear));
      MonthlyKey(u, oldYear) in m ==> MonthlyKey(u, oldYear) in m' && m'[MonthlyKey(u, oldYear)] == m[MonthlyKey(u, oldYear)]
  {
    InvalidatedKeysAreTheReadKeys(u, newYear);
    KeysOfUserDiffer(u);
    if MonthlyKey(u, oldYear) == MonthlyKey(u, newYear) {
      MonthlyKeyInjectiveInYear(u, oldYear, newYear);
    }
  }

  /** The 2023 summaries of the example below, before and after the move. */
  lemma RentSummaries(t: Transaction, t': Transaction)
    requires t == Transaction(1, "rent", -100, Date(2023, 5, 1, 0), None, false)
    requires t' == t.(date := Date(2024, 5, 1, 0))
    ensures MonthlySummary([t], 2023) == [MonthRow(5, 0, 100)]
    ensures MonthlySummary([t'], 2023) == []
  {
    var d := Dated(t.date, t.amount);
    assert DatedAmounts([t]) == [d];
    assert InYear([d], 2023) == [d];
    assert Months([d]) == [5];
    assert Distinct([5]) == [5];
    assert MonthAmounts([d], 5) == [-100];
    assert Income([-100]) == 0 && Expense([-100]) == -100;
    assert MonthRows([d], [5]) == [MonthRow(5, 0, 100)] + MonthRows([d], []);
    assert DatedAmounts([t']) == [Dated(t'.date, t'.amount)];
  }

  /** Known defect, on an example: a cached summary for 2023 is coherent,
      the one transaction of 2023 is moved to 2024 through `update`, and
      the 2023 entry survives the invalidation while the year now has no
      rows at all. */
  lemma UpdateAcrossYearsLeavesStaleMonth()
    ensures var t := Transaction(1, "rent", -100, Date(2023, 5, 1, 0), None, false);
      var t' := t.(date := Date(2024, 5, 1, 0));
      var m := map[MonthlyKey(1, 2023) := Entry(MonthlyValue(MonthlySummary([t], 2023)), TTL)];
      var m' := Without(m, set k | k in InvalidatedKeys(1, t'.date.year));
      && HoldsMonthly(m, 0, 1, [t])
      && Live(m', 0, MonthlyKey(1, 2023))
      && m'[MonthlyKey(1, 2023)].value == MonthlyValue([MonthRow(5, 0, 100)])
      && MonthlySummary([t'], 2023) == []
      && !HoldsMonthly(m', 0, 1, [t'])
  {
    var t := Transaction(1, "rent", -100, Date(2023, 5, 1, 0), None, false);
    var t' := t.(date := Date(2024, 5, 1, 0));
    var m := map[MonthlyKey(1, 2023) := Entry(MonthlyValue(MonthlySummary([t], 2023)), TTL)];
    forall y | Live(m, 0, MonthlyKey(1, y))
      ensures m[MonthlyKey(1, y)].value == MonthlyValue(MonthlySummary([t], y))
    {
      MonthlyKeyInjectiveInYear(1, y, 2023);
    }
    RentSummaries(t, t');
    UpdateAcrossYearsKeepsOldYearEntry(m, 1, 2023, 2024);
  }

  // ---------------------------------------------------------------------
  // toggleReviewed

  /** Rows that agree on the columns the four queries read give the same
      metrics, so any coherent cache stays coherent. */
  lemma SameColumnsKeepCoherence(m: Entries, now: int, u: int, s: seq<Transaction>, s': seq<Transaction>, cats: seq<Category>,
                                 recentLimit: nat, topLimit: nat)
    requires RecentRows(s', cats) == RecentRows(s, cats)
    requires DatedAmounts(s') == DatedAmounts(s)
    requires KeyedAmounts(s') == KeyedAmounts(s)
    requires Coherent(m, now, u, s, cats, recentLimit, topLimit)
    ensures Coherent(m, now, u, s', cats, recentLimit, topLimit)
  {
  }

  /** `toggleReviewed` deletes no key and needs none deleted: the reviewed
      flag is read by none of the cached queries. */
  lemma ToggleReviewedKeepsCoherence(m: Entries, now: int, u: int, s: seq<Transaction>, cats: seq<Category>, i: nat,
                                     recentLimit: nat, topLimit: nat)
    requires i < |s|
    requires Coherent(m, now, u, s, cats, recentLimit, topLimit)
    ensures Coherent(m, now, u, s[i := s[i].(reviewed := !s[i].reviewed)], cats, recentLimit, topLimit)
  {
    var s' := s[i := s[i].(reviewed := !s[i].reviewed)];
    assert RecentRows(s', cats) == RecentRows(s, cats);
    assert DatedAmounts(s') == DatedAmounts(s);
    assert KeyedAmounts(s') == KeyedAmounts(s);
    SameColumnsKeepCoherence(m, now, u, s, s', cats, recentLimit, topLimit);
  }

  // ---------------------------------------------------------------------
  // Category writes

  /** Deleting the top-categories key after a category write keeps the
      monthly and years entries coherent as long as the dates and amounts
      of the rows did not change, which no category write does. */
  lemma CategoryWriteKeepsDateMetrics(m: Entries, now: int, u: int, s: seq<Transaction>, s': seq<Transaction>)
    requires DatedAmounts(s') == DatedAmounts(s)
    requires HoldsMonthly(m, now, u, s) && HoldsYears(m, now, u, s)
    ensures HoldsMonthly(Without(m, {TopKey(u)}), now, u, s') && HoldsYears(Without(m, {TopKey(u)}), now, u, s')
  {
    var m' := Without(m, {TopKey(u)});
    forall y | Live(m', now, MonthlyKey(u, y))
      ensures m'[MonthlyKey(u, y)].value == MonthlyValue(MonthlySummary(s', y))
    {
    }
  }

  /** Deleting a category nulls references but keeps every date and
      amount, so the monthly and years entries stay coherent. */
  lemma CategoryDeleteKeepsDateMetrics(m: Entries, now: int, u: int, s: seq<Transaction>, id: int)
    requires HoldsMonthly(m, now, u, s) && HoldsYears(m, now, u, s)
    ensures HoldsMonthly(Without(m, {TopKey(u)}), now, u, UnlinkCategory(s, id))
    ensures HoldsYears(Without(m, {TopKey(u)}), now, u, UnlinkCategory(s, id))
  {
    assert DatedAmounts(UnlinkCategory(s, id)) == DatedAmounts(s);
    CategoryWriteKeepsDateMetrics(m, now, u, s, UnlinkCategory(s, id));
  }

  /** Creating a category no transaction refers to yet changes no recent
      row, so the whole cache stays coherent once the top-categories key is
      deleted. */
  lemma CategoryCreateKeepsCoherence(m: Entries, now: int, u: int, s: seq<Transaction>, cats: seq<Category>, c: Category,
                                     recentLimit: nat, topLimit: nat)
    requires forall j :: 0 <= j < |s| ==> s[j].categoryId != Some(c.id)
    requires Coherent(m, now, u, s, cats, recentLimit, topLimit)
    ensures Coherent(Without(m, {TopKey(u)}), now, u, s, cats + [c], recentLimit, topLimit)
  {
    forall j | 0 <= j < |s|
      ensures RecentRows(s, cats + [c])[j] == RecentRows(s, cats)[j]
    {
      CategoryNameOfAppend(cats, c, s[j].categoryId);
    }
    assert RecentRows(s, cats + [c]) == RecentRows(s, cats);
    KeysOfUserDiffer(u);
    CategoryWriteKeepsDateMetrics(m, now, u, s, s);
  }

  /** Known defect, on an example: the recent rows carry the category's
      name, and renaming the category deletes only the top-categories key,
      so the cached recent rows still show the old name. */
  lemma CategoryRenameLeavesRecentStale()
    ensures var s := [Transaction(1, "bread", -5, Date(2024, 1, 1, 0), Some(7), false)];
      var cats := [Category(7, 1, "Food")];
      var cats' := [Category(7, 1, "Groceries")];
      var m := map[RecentKey(1) := Entry(RecentValue(TransactionQueries.RecentTransactions(s, cats, 10)), TTL)];
      var m' := Without(m, {TopKey(1)});
      && HoldsRecent(m, 0, 1, s, cats, 10)
      && Live(m', 0, RecentKey(1))
      && m'[RecentKey(1)].value.recent[0].categoryName == Some("Food")
      && !HoldsRecent(m', 0, 1, s, cats', 10)
  {
    var s := [Transaction(1, "bread", -5, Date(2024, 1, 1, 0), Some(7), false)];
    var cats := [Category(7, 1, "Food")];
    var cats' := [Category(7, 1, "Groceries")];
    var x := RecentRow("bread", -5, Date(2024, 1, 1, 0), Some("Food"));
    var x' := RecentRow("bread", -5, Date(2024, 1, 1, 0), Some("Groceries"));
    assert RecentRows(s, cats) == [x];
    assert RecentRows(s, cats') == [x'];
    assert SortByDateDesc([x]) == [x];
    assert SortByDateDesc([x']) == [x'];
    assert TransactionQueries.RecentTransactions(s, cats, 10) == [x];
    assert TransactionQueries.RecentTransactions(s, cats', 10) == [x'];
    KeysOfUserDiffer(1);
  }

  /** The same defect for a delete: the category's row goes and the
      references to it become null, but only the top-categories key is
      deleted, so the cached recent rows still show the deleted name. */
  lemma CategoryDeleteLeavesRecentStale()
    ensures var s := [Transaction(1, "bread", -5, Date(2024, 1, 1, 0), Some(7), false)];
      var cats := [Category(7, 1, "Food")];
      var s' := UnlinkCategory(s, 7);
      var cats': seq<Category> := [];
      var m := map[RecentKey(1) := Entry(RecentValue(TransactionQueries.RecentTransactions(s, cats, 10)), TTL)];
      var m' := Without(m, {TopKey(1)});
      && HoldsRecent(m, 0, 1, s, cats, 10)
      && Live(m', 0, RecentKey(1))
      && m'[RecentKey(1)].value.recent[0].categoryName == Some("Food")
      && !HoldsRecent(m', 0, 1, s', cats', 10)
  {
    var s := [Transaction(1, "bread", -5, Date(2024, 1, 1, 0), Some(7), false)];
    var cats := [Category(7, 1, "Food")];
    var s' := UnlinkCategory(s, 7);
    var cats': seq<Category> := [];
    assert s' == [Transaction(1, "bread", -5, Date(2024, 1, 1, 0), None, false)];
    var x := RecentRow("bread", -5, Date(2024, 1, 1, 0), Some("Food"));
    var x' := RecentRow("bread", -5, Date(2024, 1, 1, 0), None);
    assert RecentRows(s, cats) == [x];
    assert RecentRows(s', cats') == [x'];
    assert SortByDateDesc([x]) == [x];
    assert SortByDateDesc([x']) == [x'];
    assert TransactionQueries.RecentTransactions(s, cats, 10) == [x];
    assert TransactionQueries.RecentTransactions(s', cats', 10) == [x'];
    KeysOfUserDiffer(1);
  }

  // ---------------------------------------------------------------------
  // The limit is not part of the key

  /** A live recent-transactions entry has the length of the limit it was
      computed with, whatever limit a later hit asks for. */
  lemma RecentHitIgnoresLimit(m: Entries, now: int, u: int, s: seq<Transaction>, cats: seq<Category>, stored: nat, asked: nat)
    requires HoldsRecent(m, now, u, s, cats, stored) && Live(m, now, RecentKey(u))
    ensures |m[RecentKey(u)].value.recent| == Min(stored, |s|)
    ensures asked != stored && asked < |s| ==> |m[RecentKey(u)].value.recent| != Min(asked, |s|)
  {
    RecentTransactionsSpec(s, cats, stored);
  }
}
