/** The dashboard metrics on a small example: one user, two January rows
    and one February row, two of them in category 1. */
module DashboardExample {
  import opened Wrappers
  import opened Entities
  import opened Sequences
  import opened TransactionQueries
  import opened CategoryQueries

  const FOOD := Category(1, 1, "Food")

  const LUNCH := Transaction(1, "lunch", -50, Date(2024, 1, 15, 0), Some(1), false)
  const SALARY := Transaction(1, "salary", 100, Date(2024, 1, 20, 0), None, false)
  const DINNER := Transaction(1, "dinner", -30, Date(2024, 2, 1, 0), Some(1), false)

  const ROWS := [LUNCH, SALARY, DINNER]

  const D_LUNCH := Dated(Date(2024, 1, 15, 0), -50)
  const D_SALARY := Dated(Date(2024, 1, 20, 0), 100)
  const D_DINNER := Dated(Date(2024, 2, 1, 0), -30)

  lemma ExampleDated()
    ensures DatedAmounts(ROWS) == [D_LUNCH, D_SALARY, D_DINNER]
  {
  }

  lemma ExampleInYear()
    ensures InYear([D_LUNCH, D_SALARY, D_DINNER], 2024) == [D_LUNCH, D_SALARY, D_DINNER]
  {
    var d := [D_LUNCH, D_SALARY, D_DINNER];
    assert d[1..] == [D_SALARY, D_DINNER];
    assert d[1..][1..] == [D_DINNER];
    assert [D_DINNER][1..] == [];
    assert InYear([D_DINNER], 2024) == [D_DINNER] + InYear([], 2024);
    assert InYear([D_SALARY, D_DINNER], 2024) == [D_SALARY] + InYear([D_DINNER], 2024);
  }

  lemma ExampleMonthKeys()
    ensures Months([D_LUNCH, D_SALARY, D_DINNER]) == [1, 1, 2]
  {
    var d := [D_LUNCH, D_SALARY, D_DINNER];
    assert d[1..] == [D_SALARY, D_DINNER];
    assert d[1..][1..] == [D_DINNER];
    assert [D_DINNER][1..] == [];
    assert Months([D_DINNER]) == [2];
    assert Months([D_SALARY, D_DINNER]) == [1, 2];
  }

  lemma DistinctMonthKeys()
    ensures Distinct([1, 1, 2]) == [1, 2]
  {
    assert [1, 1, 2][..2] == [1, 1];
    assert [1, 1][..1] == [1];
    assert [1][..0] == [];
    assert Distinct([1]) == [1];
    assert Distinct([1, 1]) == [1];
  }

  lemma ExampleMonths()
    ensures Distinct(Months([D_LUNCH, D_SALARY, D_DINNER])) == [1, 2]
  {
    ExampleMonthKeys();
    DistinctMonthKeys();
  }

  lemma ExampleMonthAmounts()
    ensures MonthAmounts([D_LUNCH, D_SALARY, D_DINNER], 1) == [-50, 100]
    ensures MonthAmounts([D_LUNCH, D_SALARY, D_DINNER], 2) == [-30]
  {
    var d := [D_LUNCH, D_SALARY, D_DINNER];
    assert d[1..] == [D_SALARY, D_DINNER];
    assert d[1..][1..] == [D_DINNER];
    assert [D_DINNER][1..] == [];
    assert MonthAmounts([D_DINNER], 1) == [];
    assert MonthAmounts([D_DINNER], 2) == [-30];
    assert MonthAmounts([D_SALARY, D_DINNER], 1) == [100];
    assert MonthAmounts([D_SALARY, D_DINNER], 2) == [-30];
  }

  lemma ExampleMonthRows()
    ensures MonthRows([D_LUNCH, D_SALARY, D_DINNER], [1, 2]) == [MonthRow(1, 100, 50), MonthRow(2, 0, 30)]
  {
    ExampleMonthAmounts();
    assert Income([-50, 100]) == 100 && Expense([-50, 100]) == -50;
    assert Income([-30]) == 0 && Expense([-30]) == -30;
    assert [1, 2][1..] == [2];
  }

  /** One row per month present, with income and the magnitude of
      expense. */
  lemma ExampleMonthlySummary()
    ensures MonthlySummary(ROWS, 2024) == [MonthRow(1, 100, 50), MonthRow(2, 0, 30)]
  {
    ExampleDated();
    ExampleInYear();
    ExampleMonths();
    ExampleMonthRows();
  }

  const K_LUNCH := Keyed(Some(1), -50)
  const K_SALARY := Keyed(None, 100)
  const K_DINNER := Keyed(Some(1), -30)

  lemma ExampleKeyed()
    ensures KeyedAmounts(ROWS) == [K_LUNCH, K_SALARY, K_DINNER]
    ensures KeyedAmounts(ROWS[..2]) == [K_LUNCH, K_SALARY]
  {
  }

  lemma ExampleGroupKeys()
    ensures Distinct(ExpenseCategories([K_LUNCH, K_SALARY, K_DINNER])) == [Some(1)]
  {
    assert [K_LUNCH, K_SALARY, K_DINNER][1..] == [K_SALARY, K_DINNER];
    assert [K_SALARY, K_DINNER][1..] == [K_DINNER];
    assert [K_DINNER][1..] == [];
    assert ExpenseCategories([K_DINNER]) == [Some(1)];
    assert ExpenseCategories([K_SALARY, K_DINNER]) == [Some(1)];
    assert ExpenseCategories([K_LUNCH, K_SALARY, K_DINNER]) == [Some(1), Some(1)];
    assert [Some(1), Some(1)][..1] == [Some(1)];
    assert Distinct([Some(1)]) == [Some(1)];
  }

  lemma ExampleGroupAmounts()
    ensures GroupAmounts([K_LUNCH, K_SALARY, K_DINNER], Some(1)) == [-50, -30]
  {
    assert [K_LUNCH, K_SALARY, K_DINNER][1..] == [K_SALARY, K_DINNER];
    assert [K_SALARY, K_DINNER][1..] == [K_DINNER];
    assert [K_DINNER][1..] == [];
    assert GroupAmounts([K_DINNER], Some(1)) == [-30];
    assert GroupAmounts([K_SALARY, K_DINNER], Some(1)) == [-30];
  }

  lemma ExampleGroupKeysAfterDelete()
    ensures Distinct(ExpenseCategories([K_LUNCH, K_SALARY])) == [Some(1)]
  {
    assert [K_LUNCH, K_SALARY][1..] == [K_SALARY];
    assert [K_SALARY][1..] == [];
    assert ExpenseCategories([K_SALARY]) == [];
    assert ExpenseCategories([K_LUNCH, K_SALARY]) == [Some(1)];
    assert Distinct([Some(1)]) == [Some(1)];
  }

  lemma ExampleGroupAmountsAfterDelete()
    ensures GroupAmounts([K_LUNCH, K_SALARY], Some(1)) == [-50]
  {
    assert [K_LUNCH, K_SALARY][1..] == [K_SALARY];
    assert [K_SALARY][1..] == [];
    assert GroupAmounts([K_SALARY], Some(1)) == [];
  }

  lemma SingleGroupRow(k: seq<Keyed>, id: Option<int>, cats: seq<Category>, limit: nat)
    requires limit >= 1
    ensures SortByTotalAsc(GroupRows(k, [id], cats)) == [TopRow(Sum(GroupAmounts(k, id)), CategoryName(cats, id))]
    ensures Take([TopRow(Sum(GroupAmounts(k, id)), CategoryName(cats, id))], limit) == [TopRow(Sum(GroupAmounts(k, id)), CategoryName(cats, id))]
  {
    assert [id][1..] == [];
  }

  /** The one category with expenses, with their sum. */
  lemma ExampleTopSpending()
    ensures TopSpendingCategories(ROWS, [FOOD], 2) == [TopRow(-80, Some("Food"))]
  {
    ExampleKeyed();
    ExampleGroupKeys();
    ExampleGroupAmounts();
    assert Sum([-50, -30]) == -80;
    SingleGroupRow([K_LUNCH, K_SALARY, K_DINNER], Some(1), [FOOD], 2);
  }

  /** Once the February expense is deleted the category's total is the
      January one alone. */
  lemma ExampleTopSpendingAfterDelete()
    ensures TopSpendingCategories(ROWS[..2], [FOOD], 2) == [TopRow(-50, Some("Food"))]
  {
    ExampleKeyed();
    ExampleGroupKeysAfterDelete();
    ExampleGroupAmountsAfterDelete();
    assert Sum([-50]) == -50;
    SingleGroupRow([K_LUNCH, K_SALARY], Some(1), [FOOD], 2);
  }

  /** The only year present. */
  lemma ExampleYears()
    ensures TransactionYears(ROWS) == [2024]
  {
    ExampleDated();
    var d := [D_LUNCH, D_SALARY, D_DINNER];
    assert d[1..] == [D_SALARY, D_DINNER];
    assert d[1..][1..] == [D_DINNER];
    assert [D_DINNER][1..] == [];
    assert DistinctYears([D_DINNER]) == [2024];
    assert DistinctYears([D_SALARY, D_DINNER]) == [2024];
    assert DistinctYears(d) == [2024];
  }
}
