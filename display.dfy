/**
 * The data `renderTable` puts on the page: one row per record, its amount signed by
 * its type, each row inserted in front of the previous ones.
 */
module Display {
  import opened Ledger
  import opened Totals

  function Abs(x: int): nat
  {
    if x < 0 then -x else x
  }

  /** `Math.abs(amount) * sign`, where the sign is +1 for income and -1 for expense. */
  function SignedAmount(t: Transaction): (r: int)
    ensures Abs(r) == Abs(t.amount)
    ensures t.kind == Income ==> r >= 0
    ensures t.kind == Expense ==> r <= 0
  {
    Abs(t.amount) * (if t.kind == Income then 1 else -1)
  }

  /**
   * What one table row carries: the id its delete button passes back, the cell data
   * (description, signed amount, payment method, recipient, date) and the type that
   * becomes the amount cell's class.
   */
  datatype Row = Row(
    id: int,
    name: string,
    shownAmount: int,
    source: string,
    recipient: string,
    date: int,
    kind: Kind)

  function RowOf(t: Transaction): Row
  {
    Row(t.id, t.name, SignedAmount(t), t.source, t.recipient, t.date, t.kind)
  }

  /** The table's rows from top to bottom: the last record's row is inserted last, at the top. */
  function RenderedRows(s: seq<Transaction>): (rows: seq<Row>)
    ensures |rows| == |s|
  {
    if s == [] then [] else [RowOf(s[|s| - 1])] + RenderedRows(s[..|s| - 1])
  }

  /** The rendered rows are the records in reverse order. */
  lemma {:induction false} RenderedRowsAt(s: seq<Transaction>, k: nat)
    requires k < |s|
    ensures RenderedRows(s)[k] == RowOf(s[|s| - 1 - k])
  {
    if k > 0 {
      RenderedRowsAt(s[..|s| - 1], k - 1);
    } else if |s| > 1 {
      RenderedRowsAt(s[..|s| - 1], 0);
    }
  }

  /** The `forEach` of `renderTable`, each row put in front of the table's first child. */
  method BuildRows(s: seq<Transaction>) returns (rows: seq<Row>)
    ensures rows == RenderedRows(s)
  {
    rows := [];
    for i := 0 to |s|
      invariant rows == RenderedRows(s[..i])
    {
      assert s[..i + 1][..i] == s[..i];
      rows := [RowOf(s[i])] + rows;
    }
    assert s[..|s|] == s;
  }

  /** The sum of the displayed amounts. */
  function ShownSum(s: seq<Transaction>): int
  {
    if s == [] then 0 else SignedAmount(s[0]) + ShownSum(s[1..])
  }

  /**
   * With no negative amounts, the displayed amounts add up to the balance. The table
   * shows magnitudes while the totals add raw amounts, so a negative amount breaks this.
   */
  lemma {:induction false} ShownSumIsBalance(s: seq<Transaction>)
    requires forall i :: 0 <= i < |s| ==> s[i].amount >= 0
    ensures ShownSum(s) == Total(s, Income) - Total(s, Expense)
  {
    TotalIsKindSum(s, Income);
    TotalIsKindSum(s, Expense);
    ShownSumIsKindSums(s);
  }

  lemma {:induction false} ShownSumIsKindSums(s: seq<Transaction>)
    requires forall i :: 0 <= i < |s| ==> s[i].amount >= 0
    ensures ShownSum(s) == KindSum(s, Income) - KindSum(s, Expense)
  {
    if s != [] {
      assert forall i :: 0 <= i < |s[1..]| ==> s[1..][i] == s[i + 1];
      ShownSumIsKindSums(s[1..]);
    }
  }

  /**
   * Salary dated 2024-01-01 and rent dated 2024-01-02: the sort puts the rent first,
   * and prepending puts the salary's row at the top of the table.
   */
  lemma SalaryAndRentRows(salary: Transaction, rent: Transaction)
    requires salary.date == 1704067200 && rent.date == 1704153600
    ensures SortByDate([salary, rent]) == [rent, salary]
    ensures RenderedRows(SortByDate([salary, rent])) == [RowOf(salary), RowOf(rent)]
  {
    assert [salary, rent][1..] == [rent];
    assert SortByDate([rent]) == [rent] by {
      assert [rent][1..] == [];
    }
    assert Insert(salary, [rent]) == [rent] + Insert(salary, []);
    assert [rent, salary][..1] == [rent];
    assert [rent][..0] == [];
    assert RenderedRows([rent]) == [RowOf(rent)];
    assert RenderedRows([rent, salary]) == [RowOf(salary)] + RenderedRows([rent]);
  }
}
