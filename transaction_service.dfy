/** `TransactionService`: the three cached metrics read through the cache,
    and the entity writes that invalidate them. */
module TransactionServices {
  import opened Wrappers
  import opened Entities
  import opened CacheKeys
  import opened CacheStore
  import opened TransactionQueries
  import opened Coherence

  class TransactionService {
    const store: Store
    const cache: Cache<CachedValue>

    constructor (store: Store, cache: Cache<CachedValue>)
      ensures this.store == store && this.cache == cache
    {
      this.store := store;
      this.cache := cache;
    }

    /** `getRecentTransactions($userId, $limit)`: a live entry is returned
        as it is and nothing is written; otherwise the query's rows are
        stored for ten minutes and returned. */
    method GetRecentTransactions(userId: int, limit: nat) returns (r: CachedValue)
      modifies cache
      ensures cache.now == old(cache.now)
      ensures cache.Has(RecentKey(userId)) && cache.entries[RecentKey(userId)].value == r
      ensures old(cache.Has(RecentKey(userId))) ==>
        r == old(cache.entries)[RecentKey(userId)].value && cache.entries == old(cache.entries)
      ensures !old(cache.Has(RecentKey(userId))) ==>
        && r == RecentValue(TransactionQueries.RecentTransactions(store.transactions, store.categories, limit))
        && cache.entries == old(cache.entries)[RecentKey(userId) := Entry(r, cache.now + TTL)]
      ensures HoldsRecent(old(cache.entries), cache.now, userId, store.transactions, store.categories, limit) ==>
        && r == RecentValue(TransactionQueries.RecentTransactions(store.transactions, store.categories, limit))
        && HoldsRecent(cache.entries, cache.now, userId, store.transactions, store.categories, limit)
    {
      var key := UserKey(userId, CacheKey.RecentTransactions);
      if cache.Has(key) {
        r := cache.Get(key).value;
        return;
      }
      var transactions := TransactionQueries.RecentTransactions(store.transactions, store.categories, limit);
      r := RecentValue(transactions);
      cache.Set(key, r, 10 * 60);
    }

    /** `getMonthlySummary($userId, $year)`. */
    method GetMonthlySummary(userId: int, year: int) returns (r: CachedValue)
      modifies cache
      ensures cache.now == old(cache.now)
      ensures cache.Has(MonthlyKey(userId, year)) && cache.entries[MonthlyKey(userId, year)].value == r
      ensures old(cache.Has(MonthlyKey(userId, year))) ==>
        r == old(cache.entries)[MonthlyKey(userId, year)].value && cache.entries == old(cache.entries)
      ensures !old(cache.Has(MonthlyKey(userId, year))) ==>
        && r == MonthlyValue(MonthlySummary(store.transactions, year))
        && cache.entries == old(cache.entries)[MonthlyKey(userId, year) := Entry(r, cache.now + TTL)]
      ensures HoldsMonthly(old(cache.entries), cache.now, userId, store.transactions) ==>
        && r == MonthlyValue(MonthlySummary(store.transactions, year))
        && HoldsMonthly(cache.entries, cache.now, userId, store.transactions)
    {
      var key := MonthlyKey(userId, year);
      if cache.Has(key) {
        r := cache.Get(key).value;
        return;
      }
      var monthlyTotals := MonthlySummary(store.transactions, year);
      r := MonthlyValue(monthlyTotals);
      cache.Set(key, r, 10 * 60);
      if HoldsMonthly(old(cache.entries), cache.now, userId, store.transactions) {
        StoreMonthlyKeepsMonthly(old(cache.entries), cache.now, userId, year, store.transactions, cache.now + TTL);
      }
    }

    /** `getTransactionsYears($userId)`: on a miss, the years of the query's
        rows are copied one by one into a list, which is stored and
        returned. */
    method GetTransactionsYears(userId: int) returns (r: CachedValue)
      modifies cache
      ensures cache.now == old(cache.now)
      ensures cache.Has(YearsKey(userId)) && cache.entries[YearsKey(userId)].value == r
      ensures old(cache.Has(YearsKey(userId))) ==>
        r == old(cache.entries)[YearsKey(userId)].value && cache.entries == old(cache.entries)
      ensures !old(cache.Has(YearsKey(userId))) ==>
        && r == YearsValue(TransactionYears(store.transactions))
        && cache.entries == old(cache.entries)[YearsKey(userId) := Entry(r, cache.now + TTL)]
      ensures HoldsYears(old(cache.entries), cache.now, userId, store.transactions) ==>
        && r == YearsValue(TransactionYears(store.transactions))
        && HoldsYears(cache.entries, cache.now, userId, store.transactions)
    {
      var key := UserKey(userId, TransactionsYears);
      if cache.Has(key) {
        r := cache.Get(key).value;
        return;
      }
      var yearsArray: seq<int> := [];
      var queryResults := YearRows(store.transactions);
      for i := 0 to |queryResults|
        invariant |yearsArray| == i
        invariant forall j :: 0 <= j < i ==> yearsArray[j] == queryResults[j].year
      {
        yearsArray := yearsArray + [queryResults[i].year];
      }
      assert yearsArray == TransactionYears(store.transactions);
      r := YearsValue(yearsArray);
      cache.Set(key, r, 10 * 60);
    }

    /** `create($transactionData, $user)`: a new transaction of the user,
        filled in and invalidated through `update`. The new entity is not
        yet reviewed. */
    method Create(data: TransactionData, userId: int) returns (t: Transaction)
      modifies store, cache
      ensures t == Transaction(userId, data.description, data.amount, data.date, data.categoryId, false)
      ensures store.transactions == old(store.transactions) + [t]
      ensures store.categories == old(store.categories)
      ensures cache.entries == Without(old(cache.entries), set k | k in InvalidatedKeys(userId, data.date.year))
      ensures cache.now == old(cache.now)
    {
      store.transactions := store.transactions + [Transaction(userId, "", 0, data.date, None, false)];
      t := Update(|store.transactions| - 1, data, userId);
    }

    /** `update($transaction, $transactionData, $userId)`: the four setters,
        then `unsetCache` for the year of the new date. */
    method Update(i: nat, data: TransactionData, userId: int) returns (t: Transaction)
      requires i < |store.transactions|
      modifies store, cache
      ensures t == old(store.transactions[i]).(description := data.description, amount := data.amount,
                                               date := data.date, categoryId := data.categoryId)
      ensures store.transactions == old(store.transactions)[i := t]
      ensures store.categories == old(store.categories)
      ensures cache.entries == Without(old(cache.entries), set k | k in InvalidatedKeys(userId, data.date.year))
      ensures cache.now == old(cache.now)
    {
      store.transactions := store.transactions[i := store.transactions[i].(description := data.description)];
      store.transactions := store.transactions[i := store.transactions[i].(amount := data.amount)];
      store.transactions := store.transactions[i := store.transactions[i].(date := data.date)];
      store.transactions := store.transactions[i := store.transactions[i].(categoryId := data.categoryId)];
      UnsetCache(userId, data.date.year);
      t := store.transactions[i];
    }

    /** `delete($transaction)`: the year and the user are read before the row
        goes, and their four keys are deleted after. */
    method Delete(i: nat)
      requires i < |store.transactions|
      modifies store, cache
      ensures store.transactions == old(store.transactions[..i] + store.transactions[i + 1..])
      ensures store.categories == old(store.categories)
      ensures cache.entries == Without(old(cache.entries),
                                       set k | k in InvalidatedKeys(old(store.transactions[i].userId), old(store.transactions[i].date.year)))
      ensures cache.now == old(cache.now)
    {
      var year := store.transactions[i].date.year;
      var userId := store.transactions[i].userId;
      store.transactions := store.transactions[..i] + store.transactions[i + 1..];
      UnsetCache(userId, year);
    }

    /** `toggleReviewed($transaction)`: flips the flag and touches no cache
        entry. */
    method ToggleReviewed(i: nat)
      requires i < |store.transactions|
      modifies store
      ensures store.transactions == old(store.transactions)[i := old(store.transactions[i]).(reviewed := !old(store.transactions[i].reviewed))]
      ensures store.categories == old(store.categories)
    {
      store.transactions := store.transactions[i := store.transactions[i].(reviewed := !store.transactions[i].reviewed)];
    }

    /** `unsetCache($userId, $year)`: one `deleteMultiple` of the four
        keys. */
    method UnsetCache(userId: int, year: int)
      modifies cache
      ensures cache.entries == Without(old(cache.entries), set k | k in InvalidatedKeys(userId, year))
      ensures cache.now == old(cache.now)
      ensures forall k :: k in InvalidatedKeys(userId, year) ==> !cache.Has(k)
    {
      cache.DeleteMultiple(InvalidatedKeys(userId, year));
    }
  }
}
