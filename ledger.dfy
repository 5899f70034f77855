/**
 * The transaction ledger of the expense tracker: the record type, the record that
 * `addTransaction` pushes, the element `deleteTransaction` removes with `findIndex`
 * and `splice`, and the newest-first stable sort `saveTransactions` applies.
 */
module Ledger {
  import opened Wrappers

  /** The two values a record's `type` field takes. */
  datatype Kind = Income | Expense

  /** One ledger record. `amount` is in minor units and `date` is a timestamp. */
  datatype Transaction = Transaction(
    id: int,
    name: string,
    amount: int,
    date: int,
    source: string,
    recipient: string,
    kind: Kind)

  /**
   * What the submitted form holds. `typeField` is the value of the `type` checkbox,
   * which is absent when the box is not ticked.
   */
  datatype FormEntry = FormEntry(
    name: string,
    amount: int,
    date: int,
    source: string,
    recipient: string,
    typeField: Option<string>)

  /** The record is income exactly when the checkbox reports "on". */
  function KindOf(typeField: Option<string>): (k: Kind)
    ensures k == Income <==> typeField == Some("on")
  {
    if typeField == Some("on") then Income else Expense
  }

  /** The record pushed for a form entry under a given id. */
  function NewRecord(e: FormEntry, id: int): Transaction
  {
    Transaction(id, e.name, e.amount, e.date, e.source, e.recipient, KindOf(e.typeField))
  }

  /** `findIndex`: the first position holding the id, or -1 when none does. */
  function FindIndex(s: seq<Transaction>, id: int): (r: int)
    ensures -1 <= r < |s|
    ensures r == -1 <==> forall i :: 0 <= i < |s| ==> s[i].id != id
    ensures 0 <= r ==> s[r].id == id && forall j :: 0 <= j < r ==> s[j].id != id
  {
    if s == [] then -1
    else if s[0].id == id then 0
    else
      var k := FindIndex(s[1..], id);
      assert forall i :: 1 <= i < |s| ==> s[i] == s[1..][i - 1];
      if k == -1 then -1 else k + 1
  }

  /**
   * The position `splice(start, 1)` works at: a negative start counts back from the
   * end and is clamped at 0, a start past the end is clamped at the length.
   */
  function SpliceStart(start: int, len: nat): nat
  {
    if start < 0 then (if len + start < 0 then 0 else len + start)
    else if start > len then len
    else start
  }

  /** `splice(start, 1)`: removes the element at the resolved start, if there is one. */
  function SpliceOne<T>(s: seq<T>, start: int): seq<T>
  {
    var k := SpliceStart(start, |s|);
    if k < |s| then s[..k] + s[k + 1..] else s
  }

  /** What `deleteTransaction` leaves: `splice(findIndex(id), 1)`. */
  function DeleteById(s: seq<Transaction>, id: int): seq<Transaction>
  {
    SpliceOne(s, FindIndex(s, id))
  }

  /** Deleting an id that is present removes its first occurrence and only that. */
  lemma DeletePresentId(s: seq<Transaction>, id: int, i: nat)
    requires i < |s| && s[i].id == id
    ensures var k := FindIndex(s, id);
      && 0 <= k <= i
      && s[k].id == id
      && (forall j :: 0 <= j < k ==> s[j].id != id)
      && DeleteById(s, id) == s[..k] + s[k + 1..]
      && |DeleteById(s, id)| == |s| - 1
      && multiset(DeleteById(s, id)) + multiset{s[k]} == multiset(s)
  {
    var k := FindIndex(s, id);
    assert s == s[..k] + [s[k]] + s[k + 1..];
  }

  /**
   * Deleting an id no record has is not a no-op: `findIndex` gives -1 and
   * `splice(-1, 1)` removes the last record.
   */
  lemma DeleteMissingId(s: seq<Transaction>, id: int)
    requires forall i :: 0 <= i < |s| ==> s[i].id != id
    ensures s != [] ==> DeleteById(s, id) == s[..|s| - 1]
    ensures s == [] ==> DeleteById(s, id) == []
  {
  }

  /** Because of that, deleting the same id twice can remove two records. */
  lemma DeleteTwiceRemovesTwo(a: Transaction, b: Transaction)
    requires a.id == 1 && b.id == 2
    ensures DeleteById([a, b], 1) == [b]
    ensures DeleteById(DeleteById([a, b], 1), 1) == []
  {
  }

  /**
   * Ids are `length + 1`, so a delete followed by an add reuses an id. The add sorts
   * before any delete button exists, and then the buttons of both records sharing the
   * id remove whichever of the two comes first newest-first.
   */
  lemma IdReusedAfterDelete(a: Transaction, b: Transaction, e: FormEntry)
    requires a.id == 1 && b.id == 2
    ensures var after := DeleteById([a, b], 1);
      var c := NewRecord(e, |after| + 1);
      var sorted := SortByDate(after + [c]);
      && after + [c] == [b, c]
      && c.id == b.id
      && (e.date > b.date ==> sorted == [c, b] && DeleteById(sorted, c.id) == [b])
      && (e.date <= b.date ==> sorted == [b, c] && DeleteById(sorted, c.id) == [c])
  {
    var c := NewRecord(e, 2);
    assert [b, c][1..] == [c] && [c][1..] == [];
    assert SortByDate([c]) == [c];
    if e.date > b.date {
      assert Insert(b, [c]) == [c] + Insert(b, []);
      assert FindIndex([c, b], 2) == 0;
      assert [c, b][1..] == [b];
    } else {
      assert Insert(b, [c]) == [b, c];
      assert FindIndex([b, c], 2) == 0;
    }
  }

  // ----- saveTransactions: sort by date, newest first, stable -----

  /** Newest first: dates never increase along the sequence. */
  ghost predicate DateDescending(s: seq<Transaction>)
  {
    forall i, j :: 0 <= i < j < |s| ==> s[i].date >= s[j].date
  }

  /** The records carrying one date, in sequence order. */
  function WithDate(s: seq<Transaction>, d: int): seq<Transaction>
  {
    if s == [] then []
    else (if s[0].date == d then [s[0]] else []) + WithDate(s[1..], d)
  }

  /** Places `t` in front of the first record whose date is not later than its own. */
  function Insert(t: Transaction, r: seq<Transaction>): seq<Transaction>
  {
    if r != [] && r[0].date > t.date then [r[0]] + Insert(t, r[1..]) else [t] + r
  }

  /**
   * The result of `sort((a, b) => b.date - a.date)`: ECMAScript's sort is stable,
   * so this is the unique newest-first order that keeps equal dates in place.
   */
  function SortByDate(s: seq<Transaction>): seq<Transaction>
  {
    if s == [] then [] else Insert(s[0], SortByDate(s[1..]))
  }

  lemma {:induction false} InsertPermutes(t: Transaction, r: seq<Transaction>)
    ensures multiset(Insert(t, r)) == multiset(r) + multiset{t}
  {
    if r != [] && r[0].date > t.date {
      InsertPermutes(t, r[1..]);
      assert r == [r[0]] + r[1..];
    }
  }

  /** A record no older than everything after it can head a newest-first sequence. */
  lemma ConsKeepsOrder(a: Transaction, x: seq<Transaction>)
    requires DateDescending(x)
    requires forall j :: 0 <= j < |x| ==> x[j].date <= a.date
    ensures DateDescending([a] + x)
  {
  }

  lemma {:induction false} InsertKeepsOrder(t: Transaction, r: seq<Transaction>)
    requires DateDescending(r)
    ensures DateDescending(Insert(t, r))
  {
    if r != [] && r[0].date > t.date {
      var x := Insert(t, r[1..]);
      InsertKeepsOrder(t, r[1..]);
      InsertPermutes(t, r[1..]);
      forall j | 0 <= j < |x| ensures x[j].date <= r[0].date {
        var y := x[j];
        assert y in multiset(x);
        if y != t {
          assert y in multiset(r[1..]);
          var i :| 0 <= i < |r[1..]| && r[1..][i] == y;
          assert r[i + 1] == y;
        }
      }
      ConsKeepsOrder(r[0], x);
    } else if r != [] {
      ConsKeepsOrder(t, r);
    }
  }

  lemma {:induction false} InsertWithDate(t: Transaction, r: seq<Transaction>, d: int)
    ensures WithDate(Insert(t, r), d) == (if t.date == d then [t] else []) + WithDate(r, d)
  {
    if r != [] && r[0].date > t.date {
      var x := Insert(t, r[1..]);
      InsertWithDate(t, r[1..], d);
      assert ([r[0]] + x)[1..] == x;
      assert WithDate([r[0]] + x, d) == (if r[0].date == d then [r[0]] else []) + WithDate(x, d);
    } else {
      assert ([t] + r)[1..] == r;
      assert WithDate([t] + r, d) == (if t.date == d then [t] else []) + WithDate(r, d);
    }
  }

  /** After the sort the ledger is newest first. */
  lemma {:induction false} SortByDateOrdered(s: seq<Transaction>)
    ensures DateDescending(SortByDate(s))
  {
    if s != [] {
      SortByDateOrdered(s[1..]);
      InsertKeepsOrder(s[0], SortByDate(s[1..]));
    }
  }

  /** The sort neither loses nor invents records. */
  lemma {:induction false} SortByDatePermutes(s: seq<Transaction>)
    ensures multiset(SortByDate(s)) == multiset(s)
  {
    if s != [] {
      SortByDatePermutes(s[1..]);
      InsertPermutes(s[0], SortByDate(s[1..]));
      assert s == [s[0]] + s[1..];
    }
  }

  /** Stability: the records of any one date keep their previous relative order. */
  lemma {:induction false} SortByDateStable(s: seq<Transaction>, d: int)
    ensures WithDate(SortByDate(s), d) == WithDate(s, d)
  {
    if s != [] {
      SortByDateStable(s[1..], d);
      InsertWithDate(s[0], SortByDate(s[1..]), d);
    }
  }
}
