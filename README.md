# Expenses dashboard: per-user read-through cache and aggregates

This project models the dashboard's cache layer in the Expenses application. There are three parts:

- `TransactionService` computes its three dashboard metrics from the transaction rows, caches them per user for ten minutes, and invalidates them on writes.
- `CategoryService` does the same for its one metric.
- The `CacheKey` enum and the string keys built from it.

It also models two pieces of pure logic that sit next to the cache: the table-query normalisation and the receipt upload validator.

## Modules

| module | file | what it holds |
|---|---|---|
| `Wrappers` | `wrappers.dfy` | `Option` and `Result` |
| `Sequences` | `sequences.dfy` | sums of positive and negative amounts, `DISTINCT`, `LIMIT` |
| `Text` | `text.dfy` | ASCII `strtolower` |
| `Entities` | `entities.dfy` | `Date`, `Transaction`, `Category`, the category left join, and the `Store` class (the rows the repositories return) |
| `CacheKeys` | `cache_key.dfy` | the enum's suffixes, PHP's int-to-string, the key strings, and their (non-)collision properties |
| `CacheStore` | `cache.dfy` | the `CacheInterface` as a class `Cache<V>` over `map<string, Entry<V>>` and an integer clock |
| `TransactionQueries` | `transaction_queries.dfy` | `getTotals` and the three cached queries of `TransactionService`, each a pure function of the rows |
| `CategoryQueries` | `category_queries.dfy` | the top-spending query, `findByName`, and the specification of `getAllKeyedByName` |
| `QueryParams` | `query_params.dfy` | `orderBy` whitelist, `orderDir`, `addcslashes` search pattern |
| `UploadReceipt` | `upload_receipt.dfy` | `UploadReceiptRequestValidator::validate` as an ordered guard chain |
| `Coherence` | `coherence.dfy` | the invariant "every live entry of a user equals its recomputation", and which operations keep it |
| `TransactionServices` | `transaction_service.dfy` | the class `TransactionService`: read-through methods, entity setters, `unsetCache` |
| `CategoryServices` | `category_service.dfy` | the class `CategoryService` |
| `DashboardExample` | `dashboard_example.dfy` | the metrics computed on a three-row example |

## How the model is built

- **Cache.**
  - The PSR-16 cache is the class `CacheStore.Cache<V>`. It has a field `entries: map<string, Entry<V>>`, where each entry is a value and an absolute expiry, and a field `now`, the clock.
  - `Has` and `Get` are functions that read the object. `Set`, `Delete`, `DeleteMultiple` and `Advance` are methods that modify it.
  - An entry is live while `now < expiry`. A `set` with a TTL of zero or less deletes the key, as PSR-16 prescribes.
- **Services and store.**
  - Both services are classes. Each holds the same `Store` and `Cache<CachedValue>` objects as `const` fields.
  - `CachedValue` tags what a service stores: recent rows, monthly rows, years or top rows.
  - The entity setters of `update`, `toggleReviewed` and the category `update` become in-place updates of the store's `transactions` and `categories` sequences. An entity is designated by its index in the store.
- **Queries.**
  - Every query is a pure function of the rows.
  - The columns a query reads are projected with a sequence comprehension: `RecentRows`, `DatedAmounts` and `KeyedAmounts`. So a write that leaves those columns alone provably leaves the query's result alone.
  - Amounts are integers (cents). Dates are `(year, month, day, second)`, ordered lexicographically.
- **Other conversions.**
  - PHP's `$userId . $year . 'suffix'` uses PHP's decimal int-to-string conversion, which is written out (`NatToString`, `IntToString`).
  - `strtolower` is ASCII-only.
  - `empty()` on a string is true for `""` and `"0"`.
  - PCRE's `\s` is space, tab, line feed, vertical tab, form feed and carriage return.
- **User scoping.** The queries hold no user condition. The `userId` only forms the cache key. The model therefore takes the rows as the user's view of the database, and `Coherence` states its invariant for one user `u` over those rows. `getTotals` is kept unscoped, as written.

## What is proved

- **Cache keys.**
  - The four suffixes are distinct, none ends with another, and so keys of different kinds never coincide, whatever the prefixes (`DifferentKindsNeverCollide`).
  - A user's key of one kind is injective in the user (`UserKeyInjective`), and the monthly key is injective in the year (`MonthlyKeyInjectiveInYear`).
  - The four keys `unsetCache` deletes are, string for string, the keys the three read paths and the top-categories read write (`InvalidatedKeysAreTheReadKeys`). They are also pairwise distinct.
- **Reads.**
  - Each read method states both cases. On a hit it returns the stored value and changes nothing. On a miss it stores the query's result with expiry `now + 600` and returns that same value.
  - Either way the key is then live with the returned value, so an immediate second call returns the same thing.
  - If the metric's own entry was coherent before the call, the value returned is the recomputation and that entry stays coherent after it.
  - The step from the one metric to all four is separate: the pure lemmas `StoreRecentKeepsCoherence`, `StoreMonthlyKeepsCoherence`, `StoreYearsKeepsCoherence` and `StoreTopKeepsCoherence` show that a miss's write keeps every metric of the user coherent.
- **Time.** Time passing keeps coherence (`TimeKeepsCoherence`), and an entry lives exactly `ttl` seconds (`TtlBoundsLife`).
- **Writes.**
  - `InvalidationRestoresCoherence` is the general rule: after any change of the rows that changes no year's summary except `year`'s, deleting the four keys for `year` restores coherence.
  - It is instantiated for `create` (`CreateRestoresCoherence`), `delete` (`DeleteRestoresCoherence`) and an `update` that stays within its year (`UpdateWithinYearRestoresCoherence`).
  - `toggleReviewed` needs no invalidation (`ToggleReviewedKeepsCoherence`).
  - Category writes delete only the top-categories key, which keeps the monthly and years entries coherent (`CategoryWriteKeepsDateMetrics`, `CategoryDeleteKeepsDateMetrics`). Creating a category that no row refers to keeps everything coherent (`CategoryCreateKeepsCoherence`).
- **Query results.**
  - `getTotals`: income is at least 0, expense at most 0, and net equals income plus expense. `GetTotalsOfInsert` states exactly which rows count: both days of the window are included, from 00:00:00 to 23:59:59. An empty or reversed window gives zeros.
  - The monthly summary has one row per month present in the year and no others, each month once. Each row's income and expense are the sums of that month's positive amounts and the magnitude of its negative ones.
  - The years are the distinct years present, strictly descending.
  - Recent rows: at most `limit`, newest first, drawn from the rows, and none left out is newer than one returned.
  - Top categories: at most `limit` groups, only expenses, every total negative, ascending, and none left out spent more.
  - `getAllKeyedByName` returns a map in which the last category with a given lower-cased name wins. `findByName` returns the first exact match.
  - The receipt validator runs its guards in the source's order and the first failure decides the rejection (`ValidateIsFirstFailure`). Under `strict_types=1` a null client filename is not a validation message but the type error `preg_match` raises (`NullFilenameIsATypeError`).

## Behaviour of the source the model keeps as it is

Each of these is stated and proved as a lemma about the model of the code as written:

- **Monthly keys collide across users.** `MonthlyKeysCollideAcrossUsers` shows that user 12's key for year 24 and user 1's key for year 224 are the same string. With four-digit years the key is unambiguous (`MonthlyKeyInjectiveForFourDigitYears`).
- **A year change leaves a stale entry.** `update` invalidates only the new date's year. `UpdateAcrossYearsKeepsOldYearEntry` shows that the old year's monthly entry survives. `UpdateAcrossYearsLeavesStaleMonth` exhibits a cache that was coherent and becomes incoherent this way.
- **A category rename leaves stale recent rows.** The recent-transactions rows carry the category name, and category writes delete only the top-categories key. `CategoryRenameLeavesRecentStale` exhibits the stale name. A category delete has the same effect through the nulled references (`CategoryDeleteLeavesRecentStale`).
- **The limit is not part of the key.** The recent and top keys leave out the limit. A hit returns the rows computed for the earlier limit (`RecentHitIgnoresLimit`). The coherence invariant is therefore stated for the limits the dashboard uses.
- **A backslash in the search term is not escaped.** `addcslashes($term, '%_')` leaves backslashes alone, so the term `\%` reaches the LIKE pattern as a literal backslash followed by a wildcard (`BackslashLetsWildcardThrough`). A term without backslashes is matched literally (`EscapedTermIsLiteral`).

## Model

| member | source | states |
|---|---|---|
| CacheKeys.NatToString | app/Services/TransactionService.php:124 | PHP's decimal rendering of a non-negative int: at least one character, all digits, a single digit exactly below 10 |
| CacheKeys.IntToString | app/Services/TransactionService.php:124 | PHP's rendering of an int: non-empty, starting with `-` exactly for negatives |
| CacheKeys.InvalidatedKeys | app/Services/TransactionService.php:200-212 | the four concatenations `unsetCache` deletes, the first being the monthly key of that user and year |
| CacheKeys.CategoryInvalidatedKey | app/Services/CategoryService.php:128-131 | the key `CategoryService::unsetCache` deletes is the key `getTopSpendingCategories` reads |
| CacheKeys.SuffixFree | app/Enum/CacheKey.php:7-10 | the four enum values are pairwise distinct and none is a suffix of another |
| CacheKeys.DifferentKindsNeverCollide | app/Enum/CacheKey.php:7-10 | keys of two different kinds differ whatever precedes the suffix |
| CacheKeys.NatToStringInjective | app/Services/TransactionService.php:124 | distinct naturals print differently |
| CacheKeys.IntToStringInjective | app/Services/TransactionService.php:124 | distinct integers print differently |
| CacheKeys.UserKeyInjective | app/Services/TransactionService.php:124 | two users never share a key of the same non-monthly kind |
| CacheKeys.MonthlyKeyInjectiveInYear | app/Services/TransactionService.php:147 | for one user, two years never share a monthly key |
| CacheKeys.MonthlyKeyIsNotUserKey | app/Services/TransactionService.php:147 | a monthly key is never a key of another kind, for any users |
| CacheKeys.InvalidatedKeysAreTheReadKeys | app/Services/TransactionService.php:202-205 | the deleted list equals the keys built at lines 124, 147 and 175 and in CategoryService.php:105, and the four are pairwise distinct |
| CacheKeys.MonthlyKeysCollideAcrossUsers | app/Services/TransactionService.php:147 | user 12 / year 24 and user 1 / year 224 give the one key "1224monthly_totals" |
| CacheKeys.MonthlyKeyInjectiveForFourDigitYears | app/Services/TransactionService.php:147 | with years of four digits, equal monthly keys mean the same user and year |
| CacheStore.TtlBoundsLife | app/Services/TransactionService.php:140 | an entry written at t0 with ttl > 0 is live at time t exactly when t < t0 + ttl |
| CacheStore.LiveEarlier | app/Services/TransactionService.php:126 | what is live later was live at any earlier time |
| CacheStore.Cache.Has | app/Services/TransactionService.php:126 | `has` is true exactly for a stored, unexpired key |
| CacheStore.Cache.Get | app/Services/TransactionService.php:127 | `get` returns the stored value of a live key and null otherwise |
| CacheStore.Cache.Set | app/Services/TransactionService.php:140 | `set` stores the value with expiry now + ttl and changes no other key; ttl <= 0 deletes |
| CacheStore.Cache.Delete | app/Services/CategoryService.php:130 | `delete` removes that key only |
| CacheStore.Cache.DeleteMultiple | app/Services/TransactionService.php:207-212 | `deleteMultiple` removes exactly the listed keys |
| CacheStore.Cache.Advance | app/Services/TransactionService.php:140 | the clock moves forward and no entry changes |
| Sequences.Income | app/Services/TransactionService.php:104 | the sum of the positive amounts, never negative |
| Sequences.Expense | app/Services/TransactionService.php:105 | the sum of the negative amounts, never positive |
| Sequences.IncomePlusExpense | app/Services/TransactionService.php:117 | income plus expense is the plain sum of the amounts |
| Sequences.Distinct | app/Services/TransactionService.php:186 | `DISTINCT`/`GROUP BY` keys: the same elements, each once (no order is promised without `ORDER BY`) |
| Sequences.Take | app/Services/TransactionService.php:136 | `setMaxResults`: the first min(limit, n) rows |
| Text.Lower | app/Services/CategoryService.php:97 | `strtolower` keeps the length and lowers each ASCII letter |
| Entities.StartOfDay | app/Services/TransactionService.php:96 | `setTime(0, 0)` keeps the day and sets the time to 00:00:00 |
| Entities.EndOfDay | app/Services/TransactionService.php:97 | `setTime(23, 59, 59)` keeps the day and sets the time to 23:59:59 |
| Entities.CategoryName | app/Services/TransactionService.php:133-134 | the left join yields a name exactly when the reference is non-null and matches a category, and it is that category's name |
| Entities.UnlinkCategory | app/Services/CategoryService.php:73 | after a category delete, exactly the references to it become null |
| Entities.CategoryNameOfAppend | app/Services/CategoryService.php:26-29 | a new category changes the joined name of no other reference |
| TransactionQueries.GetTotals | app/Services/TransactionService.php:94-120 | income >= 0, expense <= 0, net = income + expense |
| TransactionQueries.InWindowByDay | app/Services/TransactionService.php:96-109 | a row is in the window exactly when its day lies between the start and end days, both inclusive |
| TransactionQueries.GetTotalsOfInsert | app/Services/TransactionService.php:104-117 | a row inside the window adds its amount to net and to income or expense; a row outside changes nothing |
| TransactionQueries.NetIsSignedSum | app/Services/TransactionService.php:117 | net is the signed sum of the window's amounts |
| TransactionQueries.GetTotalsOfEmptyWindow | app/Services/TransactionService.php:115-116 | no row in the window gives zeros (the null sums default to 0) |
| TransactionQueries.ReversedWindowGivesZeros | app/Services/TransactionService.php:108-109 | an end day before the start day gives zeros, not an error |
| TransactionQueries.BoundaryRowsCount | app/Services/TransactionService.php:96-111 | rows at the start day's 00:00:00 and the end day's 23:59:59 both count |
| TransactionQueries.RecentRows | app/Services/TransactionService.php:133-134 | one row per transaction, with the four selected columns |
| TransactionQueries.InsertByDate | app/Services/TransactionService.php:135 | inserting one row adds exactly that row |
| TransactionQueries.SortByDateDesc | app/Services/TransactionService.php:135 | `ORDER BY t.date DESC` is a permutation of the rows |
| TransactionQueries.SortByDateDescSorted | app/Services/TransactionService.php:135 | the sorted rows are newest first |
| TransactionQueries.RecentTransactionsSpec | app/Services/TransactionService.php:130-138 | min(limit, n) rows, newest first, drawn from the rows, and no row left out is newer than a returned one |
| TransactionQueries.InYear | app/Services/TransactionService.php:162 | `YEAR(t.date) = :year` keeps exactly the rows of that year |
| TransactionQueries.Months | app/Services/TransactionService.php:157 | the month keys are exactly the months of the rows |
| TransactionQueries.MonthRows | app/Services/TransactionService.php:157-164 | one row per month key, carrying that key |
| TransactionQueries.MonthlySummaryMonthsExist | app/Services/TransactionService.php:153-166 | every row is a month with transactions in the year (no zero-filled months) |
| TransactionQueries.MonthlySummaryCoversMonths | app/Services/TransactionService.php:153-166 | every month with transactions in the year has a row |
| TransactionQueries.MonthlySummaryDistinctMonths | app/Services/TransactionService.php:164 | `GROUP BY m`: no month appears twice |
| TransactionQueries.MonthlySummaryAmounts | app/Services/TransactionService.php:157-159 | income = sum of positives and expense = abs(sum of negatives) of that month, both >= 0 |
| TransactionQueries.InsertYear | app/Services/TransactionService.php:185-187 | inserting a year into a strictly descending list keeps it strictly descending and adds just that year |
| TransactionQueries.DistinctYears | app/Services/TransactionService.php:185-187 | `DISTINCT YEAR ... ORDER BY year DESC`: strictly descending, exactly the years present |
| TransactionQueries.TransactionYearsSpec | app/Services/TransactionService.php:182-193 | the returned years are strictly descending and exactly the years some transaction is dated in |
| CategoryQueries.ExpenseCategories | app/Services/CategoryService.php:116-117 | the group keys are exactly the references of rows with amount < 0 |
| CategoryQueries.GroupAmounts | app/Services/CategoryService.php:114-117 | a group holds only negative amounts, and is empty exactly when no expense has that reference |
| CategoryQueries.GroupsSpec | app/Services/CategoryService.php:114-117 | one group per category with an expense, each once, total = sum of its expenses < 0, name from the join |
| CategoryQueries.GroupTotalOfInsert | app/Services/CategoryService.php:114-117 | a transaction adds its amount to exactly its own category's group total when it is an expense, and nothing otherwise; the empty table totals 0 |
| CategoryQueries.InsertByTotal | app/Services/CategoryService.php:118 | inserting one group adds exactly that group |
| CategoryQueries.SortByTotalAsc | app/Services/CategoryService.php:118 | `ORDER BY total ASC` is a permutation of the groups |
| CategoryQueries.SortByTotalAscSorted | app/Services/CategoryService.php:118 | the sorted groups are in ascending order of total |
| CategoryQueries.TopSpendingCategoriesShape | app/Services/CategoryService.php:111-121 | min(limit, groups) rows, ascending by total, drawn from the groups |
| CategoryQueries.TopSpendingCategoriesNegative | app/Services/CategoryService.php:116 | every returned total is negative |
| CategoryQueries.TopSpendingCategoriesAreTheTop | app/Services/CategoryService.php:118-119 | no group left out by the limit spent more than a returned one |
| CategoryQueries.FindByName | app/Services/CategoryService.php:86-89 | the first category with exactly that name, or null exactly when there is none |
| QueryParams.Whitelisted | app/Services/TransactionService.php:44-46 | the result is in the list, and it is the requested column exactly when that column is in the list |
| QueryParams.OrderDirection | app/Services/TransactionService.php:47 | `asc` exactly for a case-insensitive "asc", `desc` otherwise |
| QueryParams.EscapeWildcards | app/Services/TransactionService.php:51 | `addcslashes` never shortens the term |
| QueryParams.EscapeNeverStartsWithWildcard | app/Services/TransactionService.php:51 | the escaped term never begins with a bare wildcard |
| QueryParams.EscapeRoundTrip | app/Services/TransactionService.php:51 | unescaping the escaped term gives the term back |
| QueryParams.EscapedWildcardsArePreceded | app/Services/TransactionService.php:51 | every `%` and `_` of the escaped term has a backslash before it |
| QueryParams.EscapedTermIsLiteral | app/Services/TransactionService.php:51 | a term without backslashes reads, as a LIKE pattern, as exactly its own characters |
| QueryParams.BackslashLetsWildcardThrough | app/Services/TransactionService.php:51 | the term `\%` yields a literal backslash followed by a wildcard |
| QueryParams.SearchPattern | app/Services/TransactionService.php:49-52 | no condition exactly for an empty term ("" or "0"), else `%` + escaped term + `%` |
| QueryParams.TransactionTableQuery | app/Services/TransactionService.php:44-58 | a whitelisted column orders by `t.<column>` (`category` by `c.name`), anything else by `t.date`; direction and search as above |
| QueryParams.CategoryTableQuery | app/Services/CategoryService.php:40-50 | a whitelisted column orders by `c.<column>`, anything else by `c.updatedAt`; direction and search as above |
| UploadReceipt.AllFilenameChars | app/RequestValidators/UploadReceiptRequestValidator.php:37 | true exactly when every character is in `[a-zA-Z0-9\s._-]` |
| UploadReceipt.FilenameMatches | app/RequestValidators/UploadReceiptRequestValidator.php:37 | a non-null name matches exactly when it is non-empty and every character is in the class |
| UploadReceipt.FirstFailure | app/RequestValidators/UploadReceiptRequestValidator.php:21-56 | no rejection exactly when every guard passes; otherwise the rejection of the first failing guard |
| UploadReceipt.Validate | app/RequestValidators/UploadReceiptRequestValidator.php:3-57 | success returns the data unchanged; every validation error is about `receipt`; the type error of a null filename occurs exactly when a present, uploaded, small-enough file has no client filename |
| UploadReceipt.ValidateIsFirstFailure | app/RequestValidators/UploadReceiptRequestValidator.php:21-56 | the result is decided by the first failing guard in source order, and is the data itself when none fails |
| UploadReceipt.ValidateAccepts | app/RequestValidators/UploadReceiptRequestValidator.php:21-56 | accepted exactly when the file is present, uploaded OK, at most 5 MiB, has a non-null matching name, and both types allowed |
| UploadReceipt.MissingFileComesFirst | app/RequestValidators/UploadReceiptRequestValidator.php:18-23 | a missing file gives "Please select a receipt file" whatever else |
| UploadReceipt.FailedUploadComesSecond | app/RequestValidators/UploadReceiptRequestValidator.php:25-27 | a non-OK status gives the upload error whatever the size, name and types |
| UploadReceipt.SizeBoundary | app/RequestValidators/UploadReceiptRequestValidator.php:30-33 | exactly 5 MiB passes the size guard and one byte more fails it |
| UploadReceipt.ClientTypeBeforeDetectedType | app/RequestValidators/UploadReceiptRequestValidator.php:45-54 | a bad client type is reported before the detected type is looked at |
| UploadReceipt.NullFilenameIsATypeError | app/RequestValidators/UploadReceiptRequestValidator.php:3-39 | with `strict_types`, a null client filename past the size guard raises the type error, not a validation message, whatever the types |
| UploadReceipt.FilenameExamples | app/RequestValidators/UploadReceiptRequestValidator.php:37 | a name with `/` and an empty name are refused; `a b-1.pdf` passes |
| Coherence.KeysOfUserDiffer | app/Services/TransactionService.php:124-175 | a user's recent, years, top and monthly keys are pairwise distinct |
| Coherence.StoreRecentKeepsCoherence | app/Services/TransactionService.php:140 | storing the recomputed recent rows keeps all four metrics of the user coherent |
| Coherence.StoreMonthlyKeepsMonthly | app/Services/TransactionService.php:168 | storing one year's summary keeps every other year's entry coherent |
| Coherence.StoreMonthlyKeepsCoherence | app/Services/TransactionService.php:168 | storing a year's summary keeps all four metrics coherent |
| Coherence.StoreYearsKeepsCoherence | app/Services/TransactionService.php:195 | storing the years keeps all four metrics coherent |
| Coherence.StoreTopKeepsCoherence | app/Services/CategoryService.php:123 | storing the top categories keeps all four metrics coherent |
| Coherence.TimeKeepsCoherence | app/Services/TransactionService.php:140 | the clock moving forward keeps coherence |
| Coherence.InvalidationRestoresCoherence | app/Services/TransactionService.php:200-212 | after a change touching only one year's summary, deleting the four keys of that year restores coherence |
| Coherence.CreateTouchesOnlyItsYear | app/Services/TransactionService.php:24-31 | a created transaction changes the summary of its own year only |
| Coherence.CreateRestoresCoherence | app/Services/TransactionService.php:24-31 | create and its invalidation leave the cache coherent |
| Coherence.DeleteTouchesOnlyItsYear | app/Services/TransactionService.php:80-87 | a deleted transaction changes the summary of its own year only |
| Coherence.DeleteRestoresCoherence | app/Services/TransactionService.php:80-87 | delete and its invalidation (year read before the delete) leave the cache coherent |
| Coherence.UpdateTouchesOnlyItsYears | app/Services/TransactionService.php:68-78 | an update changes at most the old and the new year's summaries |
| Coherence.UpdateWithinYearRestoresCoherence | app/Services/TransactionService.php:68-78 | an update within a year and its invalidation leave the cache coherent |
| Coherence.UpdateAcrossYearsKeepsOldYearEntry | app/Services/TransactionService.php:75 | an update into another year leaves the old year's monthly entry untouched |
| Coherence.UpdateAcrossYearsLeavesStaleMonth | app/Services/TransactionService.php:75 | a coherent 2023 summary stays cached after its only row moves to 2024, so the cache is no longer coherent |
| Coherence.SameColumnsKeepCoherence | app/Services/TransactionService.php:133 | rows agreeing on the columns the queries read leave a coherent cache coherent |
| Coherence.ToggleReviewedKeepsCoherence | app/Services/TransactionService.php:89-92 | flipping the reviewed flag keeps coherence without any invalidation |
| Coherence.CategoryWriteKeepsDateMetrics | app/Services/CategoryService.php:60-75 | deleting only the top key keeps the monthly and years entries coherent when dates and amounts are unchanged |
| Coherence.CategoryDeleteKeepsDateMetrics | app/Services/CategoryService.php:69-75 | a category delete keeps the monthly and years entries coherent |
| Coherence.CategoryCreateKeepsCoherence | app/Services/CategoryService.php:24-30 | creating an unreferenced category and deleting the top key leaves the cache coherent |
| Coherence.CategoryRenameLeavesRecentStale | app/Services/CategoryService.php:60-67 | after a rename the cached recent rows still show the old name |
| Coherence.CategoryDeleteLeavesRecentStale | app/Services/CategoryService.php:69-75 | after a delete the cached recent rows still show the deleted category's name, while the recomputation has none |
| Coherence.RecentHitIgnoresLimit | app/Services/TransactionService.php:122-128 | a hit returns as many rows as the limit the entry was computed with, not the limit asked for |
| TransactionServices.TransactionService.GetRecentTransactions | app/Services/TransactionService.php:122-143 | hit: stored value, nothing written; miss: recomputed rows stored for 600 s and returned; if the recent entry was coherent, the fresh value is returned and the entry stays coherent |
| TransactionServices.TransactionService.GetMonthlySummary | app/Services/TransactionService.php:145-171 | the same read-through contract for a year's summary under the monthly key; with every monthly entry coherent before, the fresh summary is returned and every monthly entry stays coherent |
| TransactionServices.TransactionService.GetTransactionsYears | app/Services/TransactionService.php:173-198 | the same read-through contract for the years key; on a miss the copy loop yields exactly the query's years; the years entry's own coherence is kept |
| TransactionServices.TransactionService.Create | app/Services/TransactionService.php:24-31 | a new unreviewed row of the user with the form's data; exactly the four keys of its year are deleted |
| TransactionServices.TransactionService.Update | app/Services/TransactionService.php:68-78 | four fields set, the rest of the row kept; exactly the four keys of the new date's year deleted |
| TransactionServices.TransactionService.Delete | app/Services/TransactionService.php:80-87 | the row removed; exactly the four keys of its owner and of its year deleted |
| TransactionServices.TransactionService.ToggleReviewed | app/Services/TransactionService.php:89-92 | the flag flipped, nothing else in the row or the cache changed |
| TransactionServices.TransactionService.UnsetCache | app/Services/TransactionService.php:200-213 | exactly the four keys deleted, after which each is a miss |
| CategoryServices.CategoryService.GetTopSpendingCategories | app/Services/CategoryService.php:103-126 | hit: stored value unchanged; miss: query result stored for 600 s and returned; if the top entry was coherent, the fresh value is returned and the entry stays coherent |
| CategoryServices.CategoryService.Create | app/Services/CategoryService.php:24-30 | a new category of the user; only the top key deleted |
| CategoryServices.CategoryService.Update | app/Services/CategoryService.php:60-67 | renamed; only the top key deleted |
| CategoryServices.CategoryService.Delete | app/Services/CategoryService.php:69-75 | removed, references nulled; only the owner's top key deleted |
| CategoryServices.CategoryService.GetAllKeyedByName | app/Services/CategoryService.php:91-101 | every lower-cased name is a key, and each key maps to the last category with that lower-cased name |
| CategoryServices.CategoryService.UnsetCache | app/Services/CategoryService.php:128-131 | only the top-categories key deleted, after which it is a miss |
| DashboardExample.ExampleMonthlySummary | app/Services/TransactionService.php:153-166 | the three-row example gives January (income 100, expense 50) and February (0, 30) |
| DashboardExample.ExampleTopSpending | app/Services/CategoryService.php:111-121 | the example's one category with expenses totals -80 |
| DashboardExample.ExampleTopSpendingAfterDelete | app/Services/CategoryService.php:111-121 | without the February expense the total is -50 |
| DashboardExample.ExampleYears | app/Services/TransactionService.php:182-193 | the example's only year is 2024 |

## Left out

- Query execution: the Doctrine query builder, DQL joins and `Paginator` are replaced by pure functions over the rows. Pagination offsets (`setFirstResult`) only pass through as fields of `TableQuery`.
- User scoping of the repositories: it is not visible in the code. The rows are the user's view and `getTotals` stays unscoped.
- Persistence: the model puts a created row into the store at once. In the application the caller flushes the entity manager. `getById` and `getCategoryNames` are plain lookups with no logic and are not modelled.
- TransactionServices.TransactionService.Create: that a new `Transaction` starts unreviewed is taken as the entity's default, since that class is not part of this model.
- CategoryServices.CategoryService.Delete: the database's handling of references to a deleted category is not shown. It is modelled as `ON DELETE SET NULL`.
- CategoryServices.CategoryService.Create: takes the database identifier of the new category as a parameter.
- Decimal and float arithmetic: PHP adding the database's decimal strings is not modelled. Amounts are integer cents.
- Sub-second times: dates have a resolution of one second.
- The database's collation: an exact-name `findBy` and the row order without `ORDER BY` follow the collation. The model compares names exactly and takes groups in first-occurrence order.
- Ties: the order of rows with equal dates or equal totals is left unspecified by the queries. The model's insertion sorts fix one order, and the lemmas do not depend on it.
- PHP array key order: the key order of the `getAllKeyedByName` map is not modelled.
- Limits: a negative `$limit` is not modelled (limits are `nat`).
- Unicode: `strtolower` is modelled on ASCII only.
- `DateTime` mutation: `getTotals` calls `setTime` on the caller's objects. The model computes new dates instead.
- The cache-miss race between concurrent requests: the model is sequential.
- TransactionServices.TransactionService.GetRecentTransactions, TransactionServices.TransactionService.GetMonthlySummary, TransactionServices.TransactionService.GetTransactionsYears, CategoryServices.CategoryService.GetTopSpendingCategories: an entry expiring between `has($key)` and `get($key)` is not modelled. In the source, `get` then returns null, and the `array` return type under `strict_types=1` raises a `TypeError`. The model's clock moves only through `Advance`, so a hit always returns the stored value.
- `finfo` MIME detection: the detected type is an input of `Validate`.
- The stream URI lookup of the upload is not modelled.
- `Session`, the middlewares, the controllers, `ReceiptService` and `resources/js/dashboard.js` are not part of this model. They are HTTP, session, filesystem and UI code. The dashboard's month label list has eleven entries, missing "Nov".
