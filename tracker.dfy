/**
 * The page's state and its handlers: the in-memory `transactions` array, the two
 * local-storage keys, and the figures last written to the page. `addTransaction`,
 * `deleteTransaction`, `saveTransactions`, `updateTotal`, `renderTable` and the
 * accept-or-reject decision of `updateBudget` are methods that change that state.
 */
module Tracker {
  import opened Wrappers
  import opened Ledger
  import opened Totals
  import opened Display

  class ExpenseTracker {
    /** The module-level `transactions` array. */
    var transactions: seq<Transaction>
    /** The `transactions` key of local storage, as the records it decodes to. */
    var storedTransactions: Option<seq<Transaction>>
    /** The `budget` key of local storage, absent until a budget is accepted. */
    var storedBudget: Option<int>
    /** The income, expense, balance and budget-remaining figures on the page, once written. */
    var figures: Option<Figures>

    /** Page load: the array starts as the stored records, or empty when there are none. */
    constructor (stored: Option<seq<Transaction>>, budget: Option<int>)
      ensures transactions == (if stored.Some? then stored.value else [])
      ensures storedTransactions == stored && storedBudget == budget && figures == None
    {
      transactions := if stored.Some? then stored.value else [];
      storedTransactions := stored;
      storedBudget := budget;
      figures := None;
    }

    /**
     * `updateTotal`: with no stored budget it raises the alert and writes nothing;
     * otherwise it writes the four figures of the current ledger.
     */
    method UpdateTotal() returns (alerted: bool)
      modifies this`figures
      ensures alerted <==> storedBudget.None?
      ensures alerted ==> figures == old(figures)
      ensures !alerted ==> figures == Some(Snapshot(transactions, storedBudget.value))
    {
      if storedBudget.None? {
        alerted := true;
        return;
      }
      alerted := false;
      figures := Some(Snapshot(transactions, storedBudget.value));
    }

    /**
     * `saveTransactions`: sorts the array newest first, stably, and stores it under
     * the `transactions` key.
     */
    method SaveTransactions()
      modifies this`transactions, this`storedTransactions
      ensures transactions == SortByDate(old(transactions))
      ensures DateDescending(transactions)
      ensures multiset(transactions) == multiset(old(transactions))
      ensures forall d :: WithDate(transactions, d) == WithDate(old(transactions), d)
      ensures storedTransactions == Some(transactions)
    {
      ghost var before := transactions;
      transactions := SortByDate(transactions);
      SortByDateOrdered(before);
      SortByDatePermutes(before);
      forall d ensures WithDate(transactions, d) == WithDate(before, d) {
        SortByDateStable(before, d);
      }
      storedTransactions := Some(transactions);
    }

    /** The `push` of `addTransaction`: a record with id `length + 1` goes on the end. */
    method Push(e: FormEntry)
      modifies this`transactions
      ensures |transactions| == |old(transactions)| + 1
      ensures transactions[..|old(transactions)|] == old(transactions)
      ensures var t := transactions[|old(transactions)|];
        && t.id == |old(transactions)| + 1
        && t.name == e.name && t.amount == e.amount && t.date == e.date
        && t.source == e.source && t.recipient == e.recipient
        && (t.kind == Income <==> e.typeField == Some("on"))
    {
      transactions := transactions + [NewRecord(e, |transactions| + 1)];
    }

    /**
     * The `splice(findIndex(id), 1)` of `deleteTransaction`: the first record with the
     * id goes; when there is none, the last record goes.
     */
    method RemoveById(id: int)
      modifies this`transactions
      ensures transactions == DeleteById(old(transactions), id)
      ensures var k := FindIndex(old(transactions), id);
        if k >= 0 then transactions == old(transactions)[..k] + old(transactions)[k + 1..]
        else transactions == if old(transactions) == [] then [] else old(transactions)[..|old(transactions)| - 1]
    {
      ghost var before := transactions;
      var k := FindIndex(transactions, id);
      if k < 0 {
        DeleteMissingId(before, id);
      }
      transactions := DeleteById(transactions, id);
    }

    /**
     * `renderTable`: with no records it shows "No transactions" and stops; otherwise
     * it lays out the rows in reverse array order and calls `updateTotal`.
     */
    method RenderTable() returns (rows: seq<Row>, status: string, alerted: bool)
      modifies this`figures
      ensures rows == RenderedRows(transactions)
      ensures |rows| == |transactions|
      ensures forall k :: 0 <= k < |rows| ==> rows[k] == RowOf(transactions[|transactions| - 1 - k])
      ensures status == if transactions == [] then "No transactions" else ""
      ensures alerted <==> transactions != [] && storedBudget.None?
      ensures transactions == [] || alerted ==> figures == old(figures)
      ensures transactions != [] && !alerted ==> figures == Some(Snapshot(transactions, storedBudget.value))
    {
      alerted := false;
      if transactions == [] {
        rows, status := [], "No transactions";
        return;
      }
      status := "";
      rows := BuildRows(transactions);
      forall k | 0 <= k < |rows| ensures rows[k] == RowOf(transactions[|transactions| - 1 - k]) {
        RenderedRowsAt(transactions, k);
      }
      alerted := UpdateTotal();
    }

    /**
     * `updateTotal` followed by `saveTransactions`: the figures written are those of the
     * list before the sort, which are also those of the sorted list.
     */
    method TotalAndSave() returns (alerted: bool)
      modifies this`transactions, this`storedTransactions, this`figures
      ensures transactions == SortByDate(old(transactions))
      ensures multiset(transactions) == multiset(old(transactions))
      ensures DateDescending(transactions)
      ensures storedTransactions == Some(transactions)
      ensures alerted <==> storedBudget.None?
      ensures alerted ==> figures == old(figures)
      ensures !alerted ==> figures == Some(Snapshot(old(transactions), storedBudget.value))
      ensures !alerted ==> figures == Some(Snapshot(transactions, storedBudget.value))
    {
      ghost var before := transactions;
      alerted := UpdateTotal();
      SaveTransactions();
      if !alerted {
        SnapshotAfterSort(before, storedBudget.value);
      }
    }

    /**
     * The tail both handlers share: `updateTotal`, then `saveTransactions`, then
     * `renderTable`. `alerts` counts the "set the budget" alerts raised on the way.
     */
    method TotalSaveRender() returns (rows: seq<Row>, status: string, alerts: nat)
      modifies this`transactions, this`storedTransactions, this`figures
      ensures transactions == SortByDate(old(transactions))
      ensures multiset(transactions) == multiset(old(transactions))
      ensures DateDescending(transactions)
      ensures storedTransactions == Some(transactions)
      ensures storedBudget.Some? ==> figures == Some(Snapshot(old(transactions), storedBudget.value))
      ensures storedBudget.None? ==> figures == old(figures)
      ensures rows == RenderedRows(transactions)
      ensures status == if transactions == [] then "No transactions" else ""
      ensures alerts == if storedBudget.Some? then 0 else if transactions == [] then 1 else 2
    {
      var first := TotalAndSave();
      ghost var sorted, saved, written := transactions, storedTransactions, figures;
      var second;
      rows, status, second := RenderTable();
      assert transactions == sorted && storedTransactions == saved;
      assert storedBudget.Some? ==> figures == written;
      alerts := (if first then 1 else 0) + (if second then 1 else 0);
    }

    /** `addTransaction`: push the new record, then update the totals, save and render. */
    method AddTransaction(e: FormEntry) returns (rows: seq<Row>, status: string, alerts: nat)
      modifies this`transactions, this`storedTransactions, this`figures
      ensures var added := old(transactions) + [NewRecord(e, |old(transactions)| + 1)];
        && transactions == SortByDate(added)
        && multiset(transactions) == multiset(added)
        && DateDescending(transactions)
        && (storedBudget.Some? ==> figures == Some(Snapshot(added, storedBudget.value)))
      ensures storedTransactions == Some(transactions)
      ensures rows == RenderedRows(transactions) && status == ""
      ensures alerts == if storedBudget.None? then 2 else 0
      ensures storedBudget.None? ==> figures == old(figures)
    {
      ghost var added := transactions + [NewRecord(e, |transactions| + 1)];
      Push(e);
      assert transactions == added;
      rows, status, alerts := TotalSaveRender();
      assert |transactions| == |added| by {
        assert |multiset(transactions)| == |multiset(added)|;
      }
    }

    /**
     * `deleteTransaction`: splice out the record `findIndex` finds, then update the
     * totals, save and render.
     */
    method DeleteTransaction(id: int) returns (rows: seq<Row>, status: string, alerts: nat)
      modifies this`transactions, this`storedTransactions, this`figures
      ensures var left := DeleteById(old(transactions), id);
        && transactions == SortByDate(left)
        && multiset(transactions) == multiset(left)
        && DateDescending(transactions)
        && (storedBudget.Some? ==> figures == Some(Snapshot(left, storedBudget.value)))
      ensures storedTransactions == Some(transactions)
      ensures rows == RenderedRows(transactions)
      ensures status == if transactions == [] then "No transactions" else ""
      ensures storedBudget.None? ==> figures == old(figures)
      ensures alerts == if storedBudget.Some? then 0 else if transactions == [] then 1 else 2
    {
      RemoveById(id);
      rows, status, alerts := TotalSaveRender();
    }

    /**
     * The decision of `updateBudget`: `parsed` is the input after `parseFloat`, absent
     * when it is not a finite number. A number is stored; anything else is refused and
     * the stored budget stays as it was.
     */
    method UpdateBudget(parsed: Option<int>) returns (ok: bool)
      modifies this`storedBudget
      ensures ok <==> parsed.Some?
      ensures storedBudget == if ok then parsed else old(storedBudget)
    {
      if parsed.Some? {
        storedBudget := parsed;
        ok := true;
      } else {
        ok := false;
      }
    }
  }
}
