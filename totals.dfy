/**
 * The figures `updateTotal` writes to the page: the income total and the expense
 * total (each a `filter` by type followed by a `reduce` of the amounts), the balance
 * and what is left of the monthly budget.
 */
module Totals {
  import opened Ledger

  /** `reduce((total, trx) => total + trx.amount, 0)`. */
  function Sum(s: seq<Transaction>): int
  {
    if s == [] then 0 else s[0].amount + Sum(s[1..])
  }

  /** `filter((trx) => trx.type === k)`: the records of one kind, in order. */
  function OfKind(s: seq<Transaction>, k: Kind): seq<Transaction>
  {
    if s == [] then []
    else if s[0].kind == k then [s[0]] + OfKind(s[1..], k)
    else OfKind(s[1..], k)
  }

  /** The filter keeps only records of kind k, and every record of kind k is kept. */
  lemma {:induction false} OfKindMembers(s: seq<Transaction>, k: Kind)
    ensures |OfKind(s, k)| <= |s|
    ensures forall i :: 0 <= i < |OfKind(s, k)| ==> OfKind(s, k)[i].kind == k && OfKind(s, k)[i] in s
    ensures forall i :: 0 <= i < |s| && s[i].kind == k ==> s[i] in OfKind(s, k)
  {
    if s != [] {
      OfKindMembers(s[1..], k);
      assert forall i :: 1 <= i < |s| ==> s[i] == s[1..][i - 1];
      var rest := OfKind(s[1..], k);
      assert forall t :: t in rest ==> t in s;
    }
  }

  /** The filter keeps every copy of each record of kind k, and no record of the other kind. */
  lemma {:induction false} OfKindCounts(s: seq<Transaction>, k: Kind)
    ensures forall t :: multiset(OfKind(s, k))[t] == if t.kind == k then multiset(s)[t] else 0
  {
    if s != [] {
      OfKindCounts(s[1..], k);
      assert s == [s[0]] + s[1..];
      assert multiset(s) == multiset{s[0]} + multiset(s[1..]);
    }
  }

  /** The filter keeps the order: filtering a concatenation concatenates the filtered parts. */
  lemma {:induction false} OfKindAppend(a: seq<Transaction>, b: seq<Transaction>, k: Kind)
    ensures OfKind(a + b, k) == OfKind(a, k) + OfKind(b, k)
  {
    if a == [] {
      assert a + b == b;
    } else {
      OfKindAppend(a[1..], b, k);
      assert (a + b)[1..] == a[1..] + b;
      assert (a + b)[0] == a[0];
    }
  }

  /** The income total (k = Income) or the expense total (k = Expense). */
  function Total(s: seq<Transaction>, k: Kind): int
  {
    Sum(OfKind(s, k))
  }

  /** What one record adds to the total of kind k. */
  function Share(t: Transaction, k: Kind): int
  {
    if t.kind == k then t.amount else 0
  }

  /** Reference definition: one pass that adds each record's share of kind k. */
  function KindSum(s: seq<Transaction>, k: Kind): int
  {
    if s == [] then 0 else Share(s[0], k) + KindSum(s[1..], k)
  }

  /** The filter-then-reduce total is the one-pass conditional sum. */
  lemma {:induction false} TotalIsKindSum(s: seq<Transaction>, k: Kind)
    ensures Total(s, k) == KindSum(s, k)
  {
    if s != [] {
      TotalIsKindSum(s[1..], k);
      if s[0].kind == k {
        assert ([s[0]] + OfKind(s[1..], k))[1..] == OfKind(s[1..], k);
      }
    }
  }

  lemma {:induction false} KindSumAppend(a: seq<Transaction>, b: seq<Transaction>, k: Kind)
    ensures KindSum(a + b, k) == KindSum(a, k) + KindSum(b, k)
  {
    if a != [] {
      KindSumAppend(a[1..], b, k);
      assert (a + b)[1..] == a[1..] + b;
    } else {
      assert a + b == b;
    }
  }

  /** Taking out position i removes one copy of its element from the multiset. */
  lemma MultisetRemove<T>(b: seq<T>, i: nat)
    requires i < |b|
    ensures multiset(b[..i] + b[i + 1..]) == multiset(b) - multiset{b[i]}
  {
    assert b == b[..i] + [b[i]] + b[i + 1..];
    assert multiset(b) == multiset(b[..i]) + multiset{b[i]} + multiset(b[i + 1..]);
  }

  /** Dropping the head removes one copy of it from the multiset. */
  lemma MultisetTail<T>(a: seq<T>)
    requires a != []
    ensures multiset(a[1..]) == multiset(a) - multiset{a[0]}
  {
    assert a == [a[0]] + a[1..];
  }

  /** In a permutation of a, some position holds a[0], and the rests are permutations. */
  lemma MatchHead<T>(a: seq<T>, b: seq<T>) returns (i: nat)
    requires a != [] && multiset(a) == multiset(b)
    ensures i < |b| && b[i] == a[0]
    ensures multiset(a[1..]) == multiset(b[..i] + b[i + 1..])
  {
    MultisetTail(a);
    assert a[0] in multiset(b);
    i :| 0 <= i < |b| && b[i] == a[0];
    MultisetRemove(b, i);
  }

  /** The totals do not depend on the order of the records. */
  lemma {:induction false} KindSumPermutation(a: seq<Transaction>, b: seq<Transaction>, k: Kind)
    requires multiset(a) == multiset(b)
    ensures KindSum(a, k) == KindSum(b, k)
    decreases |a|
  {
    if a == [] {
      assert |b| == |multiset(b)| == 0;
    } else {
      var i := MatchHead(a, b);
      KindSumPermutation(a[1..], b[..i] + b[i + 1..], k);
      KindSumSplit(b, i, k);
    }
  }

  lemma KindSumSplit(b: seq<Transaction>, i: nat, k: Kind)
    requires i < |b|
    ensures KindSum(b, k) == KindSum(b[..i] + b[i + 1..], k) + Share(b[i], k)
  {
    assert b == b[..i] + ([b[i]] + b[i + 1..]);
    KindSumAppend(b[..i], [b[i]] + b[i + 1..], k);
    KindSumAppend(b[..i], b[i + 1..], k);
    assert ([b[i]] + b[i + 1..])[1..] == b[i + 1..];
  }

  /** Pushing a record adds its amount to the total of its own kind only. */
  lemma TotalAfterPush(s: seq<Transaction>, t: Transaction, k: Kind)
    ensures Total(s + [t], k) == Total(s, k) + Share(t, k)
  {
    TotalIsKindSum(s + [t], k);
    TotalIsKindSum(s, k);
    KindSumAppend(s, [t], k);
    assert KindSum([t], k) == Share(t, k);
  }

  /** Removing the record at position k takes its amount out of the total of its kind. */
  lemma TotalAfterRemove(s: seq<Transaction>, k: nat, kind: Kind)
    requires k < |s|
    ensures Total(s[..k] + s[k + 1..], kind) == Total(s, kind) - Share(s[k], kind)
  {
    var rest := s[..k] + s[k + 1..];
    assert s == s[..k] + [s[k]] + s[k + 1..];
    assert multiset(s) == multiset(rest + [s[k]]);
    TotalPermutation(s, rest + [s[k]], kind);
    TotalAfterPush(rest, s[k], kind);
  }

  /** Reordering the records (the sort in `saveTransactions`) leaves each total as it was. */
  lemma TotalPermutation(a: seq<Transaction>, b: seq<Transaction>, k: Kind)
    requires multiset(a) == multiset(b)
    ensures Total(a, k) == Total(b, k)
  {
    TotalIsKindSum(a, k);
    TotalIsKindSum(b, k);
    KindSumPermutation(a, b, k);
  }

  /** Every record is counted in exactly one of the two totals. */
  lemma {:induction false} TotalsPartition(s: seq<Transaction>)
    ensures Total(s, Income) + Total(s, Expense) == Sum(s)
  {
    TotalIsKindSum(s, Income);
    TotalIsKindSum(s, Expense);
    KindSumsPartition(s);
  }

  lemma {:induction false} KindSumsPartition(s: seq<Transaction>)
    ensures KindSum(s, Income) + KindSum(s, Expense) == Sum(s)
  {
    if s != [] {
      KindSumsPartition(s[1..]);
    }
  }

  /** The four figures of the aggregate snapshot. */
  datatype Figures = Figures(income: int, expense: int, balance: int, budgetRemaining: int)

  /** The figures for a ledger and a stored budget. */
  function Snapshot(s: seq<Transaction>, budget: int): Figures
  {
    var incomeTotal := Total(s, Income);
    var expenseTotal := Total(s, Expense);
    Figures(incomeTotal, expenseTotal, incomeTotal - expenseTotal, budget - expenseTotal)
  }

  /** The snapshot depends on the ledger only through its multiset of records. */
  lemma SnapshotPermutation(a: seq<Transaction>, b: seq<Transaction>, budget: int)
    requires multiset(a) == multiset(b)
    ensures Snapshot(a, budget) == Snapshot(b, budget)
  {
    TotalPermutation(a, b, Income);
    TotalPermutation(a, b, Expense);
  }

  /** The figures computed before `saveTransactions` are those of the sorted ledger. */
  lemma SnapshotAfterSort(s: seq<Transaction>, budget: int)
    ensures Snapshot(SortByDate(s), budget) == Snapshot(s, budget)
  {
    SortByDatePermutes(s);
    SnapshotPermutation(SortByDate(s), s, budget);
  }

  /**
   * Adding an income raises the income total and the balance by its amount; adding an
   * expense raises the expense total and lowers the balance and the remaining budget.
   */
  lemma SnapshotAfterPush(s: seq<Transaction>, t: Transaction, budget: int)
    ensures var before, after := Snapshot(s, budget), Snapshot(s + [t], budget);
      if t.kind == Income then
        after == before.(income := before.income + t.amount, balance := before.balance + t.amount)
      else
        after == before.(expense := before.expense + t.amount,
                         balance := before.balance - t.amount,
                         budgetRemaining := before.budgetRemaining - t.amount)
  {
    TotalAfterPush(s, t, Income);
    TotalAfterPush(s, t, Expense);
  }

  /** Deleting the record at position k takes its amount back out of the figures. */
  lemma SnapshotAfterRemove(s: seq<Transaction>, k: nat, budget: int)
    requires k < |s|
    ensures var before, after := Snapshot(s, budget), Snapshot(s[..k] + s[k + 1..], budget);
      var t := s[k];
      if t.kind == Income then
        after == before.(income := before.income - t.amount, balance := before.balance - t.amount)
      else
        after == before.(expense := before.expense - t.amount,
                         balance := before.balance + t.amount,
                         budgetRemaining := before.budgetRemaining + t.amount)
  {
    TotalAfterRemove(s, k, Income);
    TotalAfterRemove(s, k, Expense);
  }

  /** A salary of 5000 and a rent of 1200 against a budget of 2000. */
  lemma SalaryAndRent(salary: Transaction, rent: Transaction)
    requires salary.kind == Income && salary.amount == 5000
    requires rent.kind == Expense && rent.amount == 1200
    ensures Snapshot([salary, rent], 2000) == Figures(5000, 1200, 3800, 800)
  {
    assert [salary, rent][1..] == [rent];
    assert [rent][1..] == [] && [salary][1..] == [];
    assert OfKind([rent], Income) == [] && OfKind([salary], Expense) == [];
    assert OfKind([salary, rent], Income) == [salary];
    assert OfKind([salary, rent], Expense) == [rent];
    assert Sum([salary]) == 5000 && Sum([rent]) == 1200;
  }
}
