/** The queries of `CategoryService`: top spending categories, lookup by
    exact name and the lower-cased name map. */
module CategoryQueries {
  import opened Wrappers
  import opened Entities
  import opened Sequences
  import opened Text

  // =====================================================================
  // getTopSpendingCategories

  /** `SUM(t.amount) as total, c.name` of one category group. */
  datatype TopRow = TopRow(total: int, name: Option<string>)

  /** The two columns the category grouping reads. */
  datatype Keyed = Keyed(categoryId: Option<int>, amount: int)

  function KeyedAmounts(s: seq<Transaction>): (k: seq<Keyed>)
    ensures |k| == |s|
  {
    seq(|s|, i requires 0 <= i < |s| => Keyed(s[i].categoryId, s[i].amount))
  }

  /** The category reference of every row `WHERE t.amount < 0`. */
  function ExpenseCategories(k: seq<Keyed>): (ids: seq<Option<int>>)
    ensures forall id :: id in ids <==> exists x :: x in k && x.amount < 0 && x.categoryId == id
  {
    if k == [] then []
    else
      assert forall x :: x in k <==> x == k[0] || x in k[1..];
      (if k[0].amount < 0 then [k[0].categoryId] else []) + ExpenseCategories(k[1..])
  }

  /** The negative amounts of one category group (the null reference is a
      group of its own). */
  function GroupAmounts(k: seq<Keyed>, id: Option<int>): (a: seq<int>)
    ensures forall i :: 0 <= i < |a| ==> a[i] < 0
    ensures a == [] <==> forall x :: x in k ==> !(x.amount < 0 && x.categoryId == id)
  {
    if k == [] then []
    else
      assert forall x :: x in k <==> x == k[0] || x in k[1..];
      (if k[0].amount < 0 && k[0].categoryId == id then [k[0].amount] else []) + GroupAmounts(k[1..], id)
  }

  lemma {:induction false} GroupAmountsOfConcat(k1: seq<Keyed>, k2: seq<Keyed>, id: Option<int>)
    ensures GroupAmounts(k1 + k2, id) == GroupAmounts(k1, id) + GroupAmounts(k2, id)
  {
    if k1 == [] {
      assert k1 + k2 == k2;
    } else {
      var k := k1 + k2;
      assert k[0] == k1[0] && k[1..] == k1[1..] + k2;
      GroupAmountsOfConcat(k1[1..], k2, id);
    }
  }

  /** A group's total in terms of the rows: inserting one transaction
      anywhere adds its amount to the total of its own category's group
      when it is an expense, and changes no group's total otherwise. With
      the empty table's total of 0 this fixes every group's `SUM`. */
  lemma GroupTotalOfInsert(a: seq<Transaction>, t: Transaction, b: seq<Transaction>, id: Option<int>)
    ensures Sum(GroupAmounts(KeyedAmounts(a + [t] + b), id))
         == Sum(GroupAmounts(KeyedAmounts(a + b), id)) + (if t.amount < 0 && t.categoryId == id then t.amount else 0)
    ensures Sum(GroupAmounts(KeyedAmounts([]), id)) == 0
  {
    var ka, kt, kb := KeyedAmounts(a), KeyedAmounts([t]), KeyedAmounts(b);
    assert KeyedAmounts(a + [t] + b) == ka + kt + kb;
    assert KeyedAmounts(a + b) == ka + kb;
    GroupAmountsOfConcat(ka + kt, kb, id);
    GroupAmountsOfConcat(ka, kt, id);
    GroupAmountsOfConcat(ka, kb, id);
    var ga, gt, gb := GroupAmounts(ka, id), GroupAmounts(kt, id), GroupAmounts(kb, id);
    assert kt[1..] == [];
    assert gt == if t.amount < 0 && t.categoryId == id then [t.amount] else [];
    SumsOfConcat(ga + gt, gb);
    SumsOfConcat(ga, gt);
    SumsOfConcat(ga, gb);
  }

  function GroupRows(k: seq<Keyed>, ids: seq<Option<int>>, cats: seq<Category>): (r: seq<TopRow>)
    ensures |r| == |ids|
  {
    if ids == [] then []
    else [TopRow(Sum(GroupAmounts(k, ids[0])), CategoryName(cats, ids[0]))] + GroupRows(k, ids[1..], cats)
  }

  /** The `GROUP BY t.category` keys, each once, in order of first
      occurrence. */
  function GroupKeys(s: seq<Transaction>): seq<Option<int>>
  {
    Distinct(ExpenseCategories(KeyedAmounts(s)))
  }

  /** The groups before ordering and limiting. */
  function Groups(s: seq<Transaction>, cats: seq<Category>): seq<TopRow>
  {
    GroupRows(KeyedAmounts(s), GroupKeys(s), cats)
  }

  lemma {:induction false} GroupRowAt(k: seq<Keyed>, ids: seq<Option<int>>, cats: seq<Category>, i: nat)
    requires i < |ids|
    ensures GroupRows(k, ids, cats)[i] == TopRow(Sum(GroupAmounts(k, ids[i])), CategoryName(cats, ids[i]))
  {
    if i > 0 {
      GroupRowAt(k, ids[1..], cats, i - 1);
    }
  }

  /** The groups are exactly the categories (null included) that have an
      expense, each once; a group's total is the sum of that category's
      negative amounts, and so is negative. */
  lemma GroupsSpec(s: seq<Transaction>, cats: seq<Category>)
    ensures forall id :: id in GroupKeys(s) <==> exists j :: 0 <= j < |s| && s[j].amount < 0 && s[j].categoryId == id
    ensures NoDuplicates(GroupKeys(s))
    ensures |Groups(s, cats)| == |GroupKeys(s)|
    ensures forall i :: 0 <= i < |GroupKeys(s)| ==>
      && Groups(s, cats)[i].total == Sum(GroupAmounts(KeyedAmounts(s), GroupKeys(s)[i]))
      && Groups(s, cats)[i].name == CategoryName(cats, GroupKeys(s)[i])
      && Groups(s, cats)[i].total < 0
  {
    var k := KeyedAmounts(s);
    var ids := GroupKeys(s);
    forall id
      ensures id in ids <==> exists j :: 0 <= j < |s| && s[j].amount < 0 && s[j].categoryId == id
    {
      if id in ids {
        var x :| x in k && x.amount < 0 && x.categoryId == id;
        var j :| 0 <= j < |k| && k[j] == x;
        assert s[j].amount < 0 && s[j].categoryId == id;
      }
      if exists j :: 0 <= j < |s| && s[j].amount < 0 && s[j].categoryId == id {
        var j :| 0 <= j < |s| && s[j].amount < 0 && s[j].categoryId == id;
        assert k[j] in k;
      }
    }
    forall i | 0 <= i < |ids|
      ensures Groups(s, cats)[i].total == Sum(GroupAmounts(k, ids[i]))
      ensures Groups(s, cats)[i].name == CategoryName(cats, ids[i])
      ensures Groups(s, cats)[i].total < 0
    {
      GroupRowAt(k, ids, cats, i);
      assert ids[i] in ids;
      var x :| x in k && x.amount < 0 && x.categoryId == ids[i];
      SumOfNegatives(GroupAmounts(k, ids[i]));
    }
  }

  /** `ORDER BY total ASC`: largest spending first. */
  predicate TotalAscending(r: seq<TopRow>)
  {
    forall i, j :: 0 <= i < j < |r| ==> r[i].total <= r[j].total
  }

  function InsertByTotal(x: TopRow, r: seq<TopRow>): (q: seq<TopRow>)
    ensures |q| == |r| + 1
    ensures multiset(q) == multiset(r) + multiset{x}
  {
    if r == [] then [x]
    else if x.total <= r[0].total then [x] + r
    else
      assert r == [r[0]] + r[1..];
      [r[0]] + InsertByTotal(x, r[1..])
  }

  lemma {:induction false} InsertByTotalSorted(x: TopRow, r: seq<TopRow>)
    requires TotalAscending(r)
    ensures TotalAscending(InsertByTotal(x, r))
  {
    if r != [] && x.total > r[0].total {
      InsertByTotalSorted(x, r[1..]);
      var q := InsertByTotal(x, r[1..]);
      forall k | 0 <= k < |q|
        ensures r[0].total <= q[k].total
      {
        assert q[k] in multiset(q);
        if q[k] != x {
          assert q[k] in multiset(r[1..]);
          var j :| 0 <= j < |r[1..]| && r[1..][j] == q[k];
          assert r[j + 1] == q[k];
        }
      }
    }
  }

  /** An insertion sort on the totals (the order of equal totals is not
      specified by the query). */
  function SortByTotalAsc(r: seq<TopRow>): (q: seq<TopRow>)
    ensures multiset(q) == multiset(r)
  {
    if r == [] then []
    else
      assert r == [r[0]] + r[1..];
      InsertByTotal(r[0], SortByTotalAsc(r[1..]))
  }

  lemma {:induction false} SortByTotalAscSorted(r: seq<TopRow>)
    ensures TotalAscending(SortByTotalAsc(r))
  {
    if r != [] {
      SortByTotalAscSorted(r[1..]);
      InsertByTotalSorted(r[0], SortByTotalAsc(r[1..]));
    }
  }

  /** The query of `getTopSpendingCategories`. */
  function TopSpendingCategories(s: seq<Transaction>, cats: seq<Category>, limit: nat): seq<TopRow>
  {
    Take(SortByTotalAsc(Groups(s, cats)), limit)
  }

  /** At most `limit` groups (fewer only when fewer categories have
      expenses), in ascending order of total, each a group of the query. */
  lemma TopSpendingCategoriesShape(s: seq<Transaction>, cats: seq<Category>, limit: nat)
    ensures var r := TopSpendingCategories(s, cats, limit);
      && |r| == Min(limit, |GroupKeys(s)|)
      && TotalAscending(r)
      && multiset(r) <= multiset(Groups(s, cats))
  {
    var g := Groups(s, cats);
    assert |g| == |GroupKeys(s)|;
    SortByTotalAscSorted(g);
    var sorted := SortByTotalAsc(g);
    var r := TopSpendingCategories(s, cats, limit);
    assert sorted == r + sorted[|r|..];
    assert multiset(sorted) == multiset(r) + multiset(sorted[|r|..]);
  }

  /** Every returned total is negative. */
  lemma TopSpendingCategoriesNegative(s: seq<Transaction>, cats: seq<Category>, limit: nat)
    ensures var r := TopSpendingCategories(s, cats, limit);
      forall i :: 0 <= i < |r| ==> r[i].total < 0
  {
    var g := Groups(s, cats);
    GroupsSpec(s, cats);
    TopSpendingCategoriesShape(s, cats, limit);
    var r := TopSpendingCategories(s, cats, limit);
    forall i | 0 <= i < |r|
      ensures r[i].total < 0
    {
      assert r[i] in multiset(r);
      assert r[i] in multiset(g);
      var j :| 0 <= j < |g| && g[j] == r[i];
    }
  }

  /** No group left out by the limit spent more than a returned one. */
  lemma TopSpendingCategoriesAreTheTop(s: seq<Transaction>, cats: seq<Category>, limit: nat)
    ensures var r := TopSpendingCategories(s, cats, limit);
      forall x, i :: x in multiset(Groups(s, cats)) - multiset(r) && 0 <= i < |r| ==> r[i].total <= x.total
  {
    var g := Groups(s, cats);
    SortByTotalAscSorted(g);
    var sorted := SortByTotalAsc(g);
    var r := TopSpendingCategories(s, cats, limit);
    var rest := sorted[|r|..];
    assert sorted == r + rest;
    assert multiset(sorted) == multiset(r) + multiset(rest);
    forall x, i | x in multiset(g) - multiset(r) && 0 <= i < |r|
      ensures r[i].total <= x.total
    {
      assert x in multiset(rest);
      var j :| 0 <= j < |rest| && rest[j] == x;
      assert sorted[|r| + j] == x && sorted[i] == r[i];
    }
  }

  // =====================================================================
  // findByName

  /** `findBy(['name' => $name])[0] ?? null`: the first category, in the
      repository's order, whose name is exactly `name`; null if none. */
  function FindByName(cats: seq<Category>, name: string): (r: Option<Category>)
    ensures r.None? <==> forall i :: 0 <= i < |cats| ==> cats[i].name != name
    ensures r.Some? ==> exists i :: 0 <= i < |cats| && cats[i] == r.value && cats[i].name == name
                            && forall j :: 0 <= j < i ==> cats[j].name != name
  {
    if cats == [] then None
    else if cats[0].name == name then Some(cats[0])
    else
      var r := FindByName(cats[1..], name);
      assert forall i :: 1 <= i < |cats| ==> cats[i] == cats[1..][i - 1];
      if r.Some? then
        var i :| 0 <= i < |cats[1..]| && cats[1..][i] == r.value && cats[1..][i].name == name
                 && forall j :: 0 <= j < i ==> cats[1..][j].name != name;
        assert cats[i + 1] == r.value;
        r
      else r
  }

  // =====================================================================
  // getAllKeyedByName

  /** What `getAllKeyedByName` promises of its map: every key is the
      lower-cased name of some category, every category's lower-cased name
      is a key, and the entry for a key is the last category, in iteration
      order, whose lower-cased name it is. */
  predicate KeyedByName(cats: seq<Category>, m: map<string, Category>)
  {
    && (forall i :: 0 <= i < |cats| ==> Lower(cats[i].name) in m)
    && (forall key :: key in m ==>
          exists i :: 0 <= i < |cats| && cats[i] == m[key] && Lower(cats[i].name) == key
                   && forall j :: i < j < |cats| ==> Lower(cats[j].name) != key)
  }
}
