/** The entities the services read and write, and the (already user-scoped)
    database view they live in. */
module Entities {
  import opened Wrappers

  /** A calendar date with a time of day in seconds (0 .. 86399). Only the
      lexicographic order and the year and month fields are used. */
  datatype Date = Date(year: int, month: int, day: int, second: int)

  const LAST_SECOND_OF_DAY: int := 23 * 3600 + 59 * 60 + 59

  predicate ValidTime(d: Date)
  {
    0 <= d.second <= LAST_SECOND_OF_DAY
  }

  /** `a <= b` in calendar order. */
  predicate NotAfter(a: Date, b: Date)
  {
    a.year < b.year
    || (a.year == b.year && a.month < b.month)
    || (a.year == b.year && a.month == b.month && a.day < b.day)
    || (a.year == b.year && a.month == b.month && a.day == b.day && a.second <= b.second)
  }

  /** `setTime(0, 0)`. */
  function StartOfDay(d: Date): (r: Date)
    ensures ValidTime(r) && r.second == 0
    ensures r.year == d.year && r.month == d.month && r.day == d.day
  {
    d.(second := 0)
  }

  /** `setTime(23, 59, 59)`. */
  function EndOfDay(d: Date): (r: Date)
    ensures ValidTime(r) && r.second == 86399
    ensures r.year == d.year && r.month == d.month && r.day == d.day
  {
    d.(second := LAST_SECOND_OF_DAY)
  }

  lemma NotAfterTransitive(a: Date, b: Date, c: Date)
    requires NotAfter(a, b) && NotAfter(b, c)
    ensures NotAfter(a, c)
  {
  }

  /** A transaction row. The amount is in cents: positive is income,
      negative is expense. `categoryId` is the nullable category reference. */
  datatype Transaction = Transaction(
    userId: int,
    description: string,
    amount: int,
    date: Date,
    categoryId: Option<int>,
    reviewed: bool)

  /** A category row. */
  datatype Category = Category(id: int, userId: int, name: string)

  /** `LEFT JOIN t.category c` then `c.name`: the name of the referenced
      category, null when the reference is null or dangling. */
  function CategoryName(cats: seq<Category>, id: Option<int>): (r: Option<string>)
    ensures id.None? ==> r.None?
    ensures r.Some? <==> id.Some? && exists i :: 0 <= i < |cats| && cats[i].id == id.value
    ensures r.Some? ==> exists i :: 0 <= i < |cats| && cats[i].id == id.value && cats[i].name == r.value
  {
    if id.None? || cats == [] then None
    else if cats[0].id == id.value then Some(cats[0].name)
    else
      var r := CategoryName(cats[1..], id);
      assert forall i :: 1 <= i < |cats| ==> cats[i] == cats[1..][i - 1];
      r
  }

  /** The rows after the category `id` is deleted: references to it become
      null (the foreign key is taken to be `ON DELETE SET NULL`). */
  function UnlinkCategory(s: seq<Transaction>, id: int): (r: seq<Transaction>)
    ensures |r| == |s|
    ensures forall i :: 0 <= i < |s| ==>
      r[i] == if s[i].categoryId == Some(id) then s[i].(categoryId := None) else s[i]
  {
    seq(|s|, i requires 0 <= i < |s| =>
      if s[i].categoryId == Some(id) then s[i].(categoryId := None) else s[i])
  }

  /** A category appended after the others does not change the name the
      join finds for any other reference. */
  lemma {:induction false} CategoryNameOfAppend(cats: seq<Category>, c: Category, id: Option<int>)
    requires id != Some(c.id)
    ensures CategoryName(cats + [c], id) == CategoryName(cats, id)
  {
    if id.Some? && cats != [] && cats[0].id != id.value {
      assert (cats + [c])[1..] == cats[1..] + [c];
      CategoryNameOfAppend(cats[1..], c, id);
    } else if id.Some? && cats == [] {
      assert cats + [c] == [c];
    }
  }

  /** The data a transaction form submits (`TransactionData`). */
  datatype TransactionData = TransactionData(
    description: string,
    amount: int,
    date: Date,
    categoryId: Option<int>)

  /** The database as the services see it: every row the repository
      returns, in its iteration order. */
  class Store {
    var transactions: seq<Transaction>
    var categories: seq<Category>

    constructor (transactions: seq<Transaction>, categories: seq<Category>)
      ensures this.transactions == transactions && this.categories == categories
    {
      this.transactions := transactions;
      this.categories := categories;
    }
  }
}
