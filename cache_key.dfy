/** The cache-key scheme: the four metric-kind suffixes of the `CacheKey`
    enum and the string concatenations both services build keys with. */
module CacheKeys {

  /** The four cases of the enum. The source spells the last one
      `ResentTransactions`; its value is "recent_transactions". */
  datatype CacheKey = MonthlyTotals | TopCategories | TransactionsYears | RecentTransactions
  {
    /** The backing string of each case. */
    function Value(): string
    {
      match this
      case MonthlyTotals => "monthly_totals"
      case TopCategories => "top_categories"
      case TransactionsYears => "transactions_years"
      case RecentTransactions => "recent_transactions"
    }
  }

  predicate IsDigit(c: char)
  {
    '0' <= c <= '9'
  }

  /** `t` ends with `s`. */
  predicate IsSuffix(s: string, t: string)
  {
    |s| <= |t| && t[|t| - |s|..] == s
  }

  /** Decimal digits of a natural number, most significant first, as PHP
      prints an integer. */
  function NatToString(n: nat): (s: string)
    ensures |s| >= 1
    ensures forall i :: 0 <= i < |s| ==> IsDigit(s[i])
    ensures n < 10 <==> |s| == 1
    decreases n
  {
    var last := ('0' as int + n % 10) as char;
    if n < 10 then [last] else NatToString(n / 10) + [last]
  }

  /** PHP's int-to-string conversion, used by the `.` operator. */
  function IntToString(n: int): (s: string)
    ensures |s| >= 1
    ensures n < 0 <==> s[0] == '-'
  {
    if n < 0 then "-" + NatToString(-n) else NatToString(n)
  }

  /** `$userId . CacheKey::X->value`: the key of a per-user metric. */
  function UserKey(userId: int, kind: CacheKey): string
  {
    IntToString(userId) + kind.Value()
  }

  /** `$userId . $year . CacheKey::MonthlyTotals->value`. */
  function MonthlyKey(userId: int, year: int): string
  {
    IntToString(userId) + IntToString(year) + MonthlyTotals.Value()
  }

  /** The list `TransactionService::unsetCache` passes to `deleteMultiple`,
      in the source's order. */
  function InvalidatedKeys(userId: int, year: int): (keys: seq<string>)
    ensures |keys| == 4
    ensures keys[0] == MonthlyKey(userId, year)
  {
    [ IntToString(userId) + IntToString(year) + MonthlyTotals.Value(),
      IntToString(userId) + TopCategories.Value(),
      IntToString(userId) + TransactionsYears.Value(),
      IntToString(userId) + RecentTransactions.Value() ]
  }

  /** The key `CategoryService::unsetCache` deletes. */
  function CategoryInvalidatedKey(userId: int): (key: string)
    ensures key == UserKey(userId, TopCategories)
  {
    IntToString(userId) + TopCategories.Value()
  }

  // ---------------------------------------------------------------------
  // Properties of the scheme

  /** Different kinds have different backing strings, and none of them ends
      with another one. */
  lemma SuffixFree(a: CacheKey, b: CacheKey)
    requires a != b
    ensures a.Value() != b.Value()
    ensures !IsSuffix(a.Value(), b.Value())
  {
  }

  /** If two concatenations are equal, the shorter tail ends the longer one. */
  lemma TailOfEqualConcat(p: string, s: string, q: string, t: string)
    requires p + s == q + t
    requires |s| <= |t|
    ensures IsSuffix(s, t)
  {
    var w := p + s;
    assert w[|w| - |s|..] == s;
    assert w[|w| - |t|..] == t;
    assert t[|t| - |s|..] == w[|w| - |s|..];
  }

  /** Whatever comes before them, strings ending in two different suffixes
      never coincide: keys of different kinds never collide, for the same
      user or for different users. */
  lemma {:induction false} DifferentKindsNeverCollide(p: string, q: string, a: CacheKey, b: CacheKey)
    requires a != b
    ensures p + a.Value() != q + b.Value()
  {
    SuffixFree(a, b);
    SuffixFree(b, a);
    if p + a.Value() == q + b.Value() {
      if |a.Value()| <= |b.Value()| {
        TailOfEqualConcat(p, a.Value(), q, b.Value());
      } else {
        TailOfEqualConcat(q, b.Value(), p, a.Value());
      }
      assert false;
    }
  }

  lemma {:induction false} NatToStringInjective(m: nat, n: nat)
    requires NatToString(m) == NatToString(n)
    ensures m == n
    decreases m
  {
    var sm, sn := NatToString(m), NatToString(n);
    assert sm[|sm| - 1] == sn[|sn| - 1];
    assert m % 10 == n % 10;
    if m >= 10 {
      assert n >= 10;
      assert NatToString(m / 10) == sm[..|sm| - 1] == sn[..|sn| - 1] == NatToString(n / 10);
      NatToStringInjective(m / 10, n / 10);
    }
  }

  /** Distinct integers print differently. */
  lemma {:induction false} IntToStringInjective(m: int, n: int)
    requires IntToString(m) == IntToString(n)
    ensures m == n
  {
    if m < 0 {
      assert n < 0;
      assert NatToString(-m) == IntToString(m)[1..] == IntToString(n)[1..] == NatToString(-n);
      NatToStringInjective(-m, -n);
    } else {
      assert n >= 0;
      NatToStringInjective(m, n);
    }
  }

  /** Two users never share a key of the same non-monthly kind. */
  lemma {:induction false} UserKeyInjective(u: int, v: int, kind: CacheKey)
    requires UserKey(u, kind) == UserKey(v, kind)
    ensures u == v
  {
    var s := kind.Value();
    var ku, kv := IntToString(u), IntToString(v);
    assert ku == (ku + s)[..|ku + s| - |s|];
    assert kv == (kv + s)[..|kv + s| - |s|];
    IntToStringInjective(u, v);
  }

  /** For one user, different years give different monthly keys. */
  lemma {:induction false} MonthlyKeyInjectiveInYear(u: int, y1: int, y2: int)
    requires MonthlyKey(u, y1) == MonthlyKey(u, y2)
    ensures y1 == y2
  {
    var p, s := IntToString(u), MonthlyTotals.Value();
    var a, b := IntToString(y1), IntToString(y2);
    assert p + a + s == p + b + s;
    assert a == (p + a + s)[|p|..|p + a + s| - |s|];
    assert b == (p + b + s)[|p|..|p + b + s| - |s|];
    IntToStringInjective(y1, y2);
  }

  /** A monthly key is never the key of another kind, whoever the users. */
  lemma MonthlyKeyIsNotUserKey(u: int, y: int, v: int, kind: CacheKey)
    requires kind != MonthlyTotals
    ensures MonthlyKey(u, y) != UserKey(v, kind)
  {
    DifferentKindsNeverCollide(IntToString(u) + IntToString(y), IntToString(v), MonthlyTotals, kind);
  }

  /** For a fixed user and a fixed year the invalidation list holds four
      distinct keys, and they are exactly the keys the read paths build. */
  lemma InvalidatedKeysAreTheReadKeys(u: int, y: int)
    ensures InvalidatedKeys(u, y)
         == [MonthlyKey(u, y), UserKey(u, TopCategories), UserKey(u, TransactionsYears), UserKey(u, RecentTransactions)]
    ensures forall i, j :: 0 <= i < j < 4 ==> InvalidatedKeys(u, y)[i] != InvalidatedKeys(u, y)[j]
  {
    var p := IntToString(u);
    MonthlyKeyIsNotUserKey(u, y, u, TopCategories);
    MonthlyKeyIsNotUserKey(u, y, u, TransactionsYears);
    MonthlyKeyIsNotUserKey(u, y, u, RecentTransactions);
    DifferentKindsNeverCollide(p, p, TopCategories, TransactionsYears);
    DifferentKindsNeverCollide(p, p, TopCategories, RecentTransactions);
    DifferentKindsNeverCollide(p, p, TransactionsYears, RecentTransactions);
  }

  /** Known defect of the monthly key: user 12's key for year 24 is user 1's
      key for year 224. */
  lemma MonthlyKeysCollideAcrossUsers()
    ensures MonthlyKey(12, 24) == MonthlyKey(1, 224)
    ensures MonthlyKey(12, 24) == "1224monthly_totals"
  {
    PrintedNumbers();
    assert "12" + "24" == "1" + "224" == "1224";
  }

  /** The decimal strings of the numbers in the collision above. */
  lemma PrintedNumbers()
    ensures IntToString(1) == "1" && IntToString(12) == "12"
    ensures IntToString(24) == "24" && IntToString(224) == "224"
  {
    PrintedDigits();
    assert NatToString(12) == NatToString(1) + "2";
    assert NatToString(24) == NatToString(2) + "4";
    assert NatToString(22) == NatToString(2) + "2";
    assert NatToString(224) == NatToString(22) + "4";
  }

  lemma PrintedDigits()
    ensures NatToString(1) == "1" && NatToString(2) == "2"
  {
  }

  /** A year written with four digits prints as exactly four characters. */
  lemma FourDigitYear(y: int)
    requires 1000 <= y <= 9999
    ensures |IntToString(y)| == 4
  {
    assert |NatToString(y / 1000)| == 1;
    assert |NatToString(y / 100)| == |NatToString(y / 100 / 10)| + 1;
    assert |NatToString(y / 10)| == |NatToString(y / 10 / 10)| + 1;
  }

  /** With four-digit years the monthly key is unambiguous: equal keys
      mean the same user and the same year. */
  lemma {:induction false} MonthlyKeyInjectiveForFourDigitYears(u: int, y: int, v: int, z: int)
    requires 1000 <= y <= 9999 && 1000 <= z <= 9999
    requires MonthlyKey(u, y) == MonthlyKey(v, z)
    ensures u == v && y == z
  {
    FourDigitYear(y);
    FourDigitYear(z);
    var su, sy, sv, sz := IntToString(u), IntToString(y), IntToString(v), IntToString(z);
    var suffix := MonthlyTotals.Value();
    var k := su + sy + suffix;
    assert k == sv + sz + suffix;
    assert su == k[..|k| - |suffix| - 4];
    assert sv == k[..|k| - |suffix| - 4];
    assert sy == k[|k| - |suffix| - 4..|k| - |suffix|];
    assert sz == k[|k| - |suffix| - 4..|k| - |suffix|];
    IntToStringInjective(u, v);
    IntToStringInjective(y, z);
  }
}
