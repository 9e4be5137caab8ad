/** Sequence helpers shared by the aggregates: sums, first-occurrence
    de-duplication (SQL `DISTINCT` / `GROUP BY` keys) and `LIMIT`. */
module Sequences {

  function Sum(a: seq<int>): int
  {
    if a == [] then 0 else a[0] + Sum(a[1..])
  }

  /** `SUM(CASE WHEN x > 0 THEN x ELSE 0 END)`: the sum of the positive
      amounts, 0 when there are none. */
  function Income(a: seq<int>): (r: int)
    ensures r >= 0
  {
    if a == [] then 0 else (if a[0] > 0 then a[0] else 0) + Income(a[1..])
  }

  /** `SUM(CASE WHEN x < 0 THEN x ELSE 0 END)`: the sum of the negative
      amounts, 0 when there are none. */
  function Expense(a: seq<int>): (r: int)
    ensures r <= 0
  {
    if a == [] then 0 else (if a[0] < 0 then a[0] else 0) + Expense(a[1..])
  }

  /** Income and expense split the plain sum. */
  lemma {:induction false} IncomePlusExpense(a: seq<int>)
    ensures Income(a) + Expense(a) == Sum(a)
  {
    if a != [] {
      IncomePlusExpense(a[1..]);
    }
  }

  lemma {:induction false} SumsOfConcat(a: seq<int>, b: seq<int>)
    ensures Sum(a + b) == Sum(a) + Sum(b)
    ensures Income(a + b) == Income(a) + Income(b)
    ensures Expense(a + b) == Expense(a) + Expense(b)
  {
    if a != [] {
      assert (a + b)[1..] == a[1..] + b;
      SumsOfConcat(a[1..], b);
    } else {
      assert a + b == b;
    }
  }

  /** The sum of a non-empty list of negative numbers is negative. */
  lemma {:induction false} SumOfNegatives(a: seq<int>)
    requires a != []
    requires forall i :: 0 <= i < |a| ==> a[i] < 0
    ensures Sum(a) < 0
  {
    if |a| > 1 {
      SumOfNegatives(a[1..]);
    }
  }

  predicate NoDuplicates<T(==,!new)>(s: seq<T>)
  {
    forall i, j :: 0 <= i < j < |s| ==> s[i] != s[j]
  }

  /** The elements of `s` in order of first occurrence, each once. */
  function Distinct<T(==,!new)>(s: seq<T>): (r: seq<T>)
    ensures forall x :: x in r <==> x in s
    ensures NoDuplicates(r)
    ensures |r| <= |s|
  {
    if s == [] then []
    else
      var r := Distinct(s[..|s| - 1]);
      assert forall x :: x in s <==> x in s[..|s| - 1] || x == s[|s| - 1];
      if s[|s| - 1] in r then r else r + [s[|s| - 1]]
  }

  function Min(a: int, b: int): int
  {
    if a <= b then a else b
  }

  /** `setMaxResults(limit)`: the first `limit` elements. */
  function Take<T>(s: seq<T>, limit: nat): (r: seq<T>)
    ensures |r| == Min(limit, |s|)
    ensures r == s[..|r|]
  {
    s[..Min(limit, |s|)]
  }
}
