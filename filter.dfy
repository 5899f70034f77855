/**
 * The search box: `filterTable` lower-cases the query, shows each row it loops over
 * exactly when one of its cells' lower-cased text includes it, and reports whether any
 * of those rows is shown. The top data row is left out of the loop and always shown.
 */
module Filter {
  import opened Ledger
  import opened Display

  /** `toLowerCase` on one character, for the ASCII letters. */
  function LowerChar(c: char): char
  {
    if 'A' <= c <= 'Z' then (c as int + 32) as char else c
  }

  /**
   * Lower-casing: no upper-case ASCII letter is left, each one becomes its lower-case
   * letter, and every other character stays as it was.
   */
  function Lower(s: string): (r: string)
    ensures |r| == |s|
    ensures forall i :: 0 <= i < |r| ==> !('A' <= r[i] <= 'Z')
    ensures forall i :: 0 <= i < |s| && 'A' <= s[i] <= 'Z' ==> r[i] as int == s[i] as int + 32
    ensures forall i :: 0 <= i < |s| && !('A' <= s[i] <= 'Z') ==> r[i] == s[i]
  {
    seq(|s|, i requires 0 <= i < |s| => LowerChar(s[i]))
  }

  /** The query occurs in the text starting at position i. */
  predicate OccursAt(text: string, query: string, i: nat)
  {
    i + |query| <= |text| && text[i..i + |query|] == query
  }

  /** `String.prototype.includes`. */
  predicate Includes(text: string, query: string)
    decreases |text|
  {
    query <= text || (|text| > 0 && Includes(text[1..], query))
  }

  /** `includes` holds exactly when the query occurs somewhere in the text. */
  lemma {:induction false} IncludesIffOccurs(text: string, query: string)
    ensures Includes(text, query) <==> exists i: nat :: OccursAt(text, query, i)
  {
    if query <= text {
      assert OccursAt(text, query, 0);
    } else if |text| > 0 {
      IncludesIffOccurs(text[1..], query);
      if Includes(text[1..], query) {
        var i: nat :| OccursAt(text[1..], query, i);
        assert text[i + 1..i + 1 + |query|] == text[1..][i..i + |query|];
        assert OccursAt(text, query, i + 1);
      }
      if exists i: nat :: OccursAt(text, query, i) {
        var i: nat :| OccursAt(text, query, i);
        assert i > 0;
        assert text[1..][i - 1..i - 1 + |query|] == text[i..i + |query|];
        assert OccursAt(text[1..], query, i - 1);
      }
    } else {
      assert forall i: nat :: !OccursAt(text, query, i);
    }
  }

  /** A row is shown when some cell's lower-cased text includes the lower-cased query. */
  predicate RowMatches(cells: seq<string>, query: string)
  {
    exists c :: 0 <= c < |cells| && Includes(Lower(cells[c]), Lower(query))
  }

  /**
   * The loops of `filterTable` over the rows and, within a row, over its cells until one
   * matches. `visible[i]` is whether row i is displayed; `hasMatches` whether the
   * "no matching transactions" message is withheld.
   */
  method FilterTable(rows: seq<seq<string>>, query: string) returns (visible: seq<bool>, hasMatches: bool)
    ensures |visible| == |rows|
    ensures forall i :: 0 <= i < |rows| ==> (visible[i] <==> RowMatches(rows[i], query))
    ensures hasMatches <==> exists i :: 0 <= i < |rows| && RowMatches(rows[i], query)
  {
    var q := Lower(query);
    visible := [];
    hasMatches := false;
    for r := 0 to |rows|
      invariant |visible| == r
      invariant forall i :: 0 <= i < r ==> (visible[i] <==> RowMatches(rows[i], query))
      invariant hasMatches <==> exists i :: 0 <= i < r && RowMatches(rows[i], query)
    {
      var cells := rows[r];
      var matchFound := false;
      var c := 0;
      while c < |cells|
        invariant 0 <= c <= |cells|
        invariant forall j :: 0 <= j < c ==> !Includes(Lower(cells[j]), q)
      {
        if Includes(Lower(cells[c]), q) {
          matchFound := true;
          break;
        }
        c := c + 1;
      }
      assert matchFound <==> RowMatches(cells, query);
      if matchFound {
        visible := visible + [true];
        hasMatches := true;
      } else {
        visible := visible + [false];
      }
    }
  }

  /** The elements whose flag is set, in order: the rows `filterTable` leaves displayed. */
  function Select<T>(xs: seq<T>, keep: seq<bool>): seq<T>
    requires |keep| == |xs|
  {
    if xs == [] then []
    else (if keep[0] then [xs[0]] else []) + Select(xs[1..], keep[1..])
  }

  /** The positions of the set flags, in increasing order. */
  function Positions(keep: seq<bool>): seq<nat>
  {
    if keep == [] then []
    else (if keep[0] then [0] else []) + Shifted(Positions(keep[1..]))
  }

  function Shifted(p: seq<nat>): (r: seq<nat>)
    ensures |r| == |p| && forall j :: 0 <= j < |p| ==> r[j] == p[j] + 1
  {
    seq(|p|, j requires 0 <= j < |p| => p[j] + 1)
  }

  /** Positions that pick `picked` out of `xs[1..]`, shifted by one, pick it out of `xs`. */
  lemma ShiftedPicks<T>(xs: seq<T>, tail: seq<nat>, picked: seq<T>)
    requires xs != [] && |tail| == |picked|
    requires forall j :: 0 <= j < |tail| ==> tail[j] < |xs[1..]| && xs[1..][tail[j]] == picked[j]
    ensures forall j :: 0 <= j < |tail| ==> Shifted(tail)[j] < |xs| && xs[Shifted(tail)[j]] == picked[j]
  {
    forall j | 0 <= j < |tail| ensures xs[tail[j] + 1] == picked[j] {
      assert xs[tail[j] + 1] == xs[1..][tail[j]];
    }
  }

  /** Prepending a picked head keeps the positions picking out their elements. */
  lemma PrependPick<T>(xs: seq<T>, head: seq<nat>, first: seq<T>, rest: seq<nat>, picked: seq<T>)
    requires |head| == |first| && |rest| == |picked|
    requires forall j :: 0 <= j < |head| ==> head[j] < |xs| && xs[head[j]] == first[j]
    requires forall j :: 0 <= j < |rest| ==> rest[j] < |xs| && xs[rest[j]] == picked[j]
    ensures forall j :: 0 <= j < |head + rest| ==>
      (head + rest)[j] < |xs| && xs[(head + rest)[j]] == (first + picked)[j]
  {
    forall j | 0 <= j < |head + rest|
      ensures (head + rest)[j] < |xs| && xs[(head + rest)[j]] == (first + picked)[j]
    {
      if j >= |head| {
        assert (head + rest)[j] == rest[j - |head|];
        assert (first + picked)[j] == picked[j - |head|];
      }
    }
  }

  lemma {:induction false} PositionsPickSelected<T>(xs: seq<T>, keep: seq<bool>)
    requires |keep| == |xs|
    ensures var pos := Positions(keep);
      && |pos| == |Select(xs, keep)|
      && forall j :: 0 <= j < |pos| ==> pos[j] < |xs| && xs[pos[j]] == Select(xs, keep)[j]
  {
    if xs != [] {
      PositionsPickSelected(xs[1..], keep[1..]);
      var tail := Positions(keep[1..]);
      var picked := Select(xs[1..], keep[1..]);
      var head: seq<nat> := if keep[0] then [0] else [];
      var first: seq<T> := if keep[0] then [xs[0]] else [];
      ShiftedPicks(xs, tail, picked);
      PrependPick(xs, head, first, Shifted(tail), picked);
    }
  }

  lemma {:induction false} PositionsIncrease(keep: seq<bool>)
    ensures forall j, k :: 0 <= j < k < |Positions(keep)| ==> Positions(keep)[j] < Positions(keep)[k]
  {
    if keep != [] {
      PositionsIncrease(keep[1..]);
      var tail := Positions(keep[1..]);
      var head: seq<nat> := if keep[0] then [0] else [];
      var pos := head + Shifted(tail);
      forall j, k | 0 <= j < k < |pos| ensures pos[j] < pos[k] {
        assert pos[k] == tail[k - |head|] + 1;
        if j >= |head| {
          assert pos[j] == tail[j - |head|] + 1;
        }
      }
    }
  }

  lemma ShiftedMembers(p: seq<nat>, x: nat)
    ensures x in Shifted(p) <==> x > 0 && x - 1 in p
  {
  }

  lemma {:induction false} PositionsExact(keep: seq<bool>)
    ensures forall i :: 0 <= i < |keep| ==> (keep[i] <==> i in Positions(keep))
  {
    if keep != [] {
      PositionsExact(keep[1..]);
      var tail := Positions(keep[1..]);
      var head: seq<nat> := if keep[0] then [0] else [];
      forall i | 0 <= i < |keep| ensures keep[i] <==> i in head + Shifted(tail) {
        ShiftedMembers(tail, i);
        if i > 0 {
          assert keep[i] == keep[1..][i - 1];
        }
      }
    }
  }

  /**
   * The displayed rows keep their order: they are the rows at a strictly increasing
   * sequence of positions, and those positions are exactly the flagged ones.
   */
  lemma SelectIsSubsequence<T>(xs: seq<T>, keep: seq<bool>) returns (pos: seq<nat>)
    requires |keep| == |xs|
    ensures |pos| == |Select(xs, keep)|
    ensures forall j :: 0 <= j < |pos| ==> pos[j] < |xs| && xs[pos[j]] == Select(xs, keep)[j]
    ensures forall j, k :: 0 <= j < k < |pos| ==> pos[j] < pos[k]
    ensures forall i :: 0 <= i < |xs| ==> (keep[i] <==> i in pos)
  {
    pos := Positions(keep);
    PositionsPickSelected(xs, keep);
    PositionsIncrease(keep);
    PositionsExact(keep);
  }

  /** Nothing is displayed exactly when no flag is set. */
  lemma {:induction false} SelectEmpty<T>(xs: seq<T>, keep: seq<bool>)
    requires |keep| == |xs|
    ensures Select(xs, keep) == [] <==> forall i :: 0 <= i < |xs| ==> !keep[i]
  {
    if xs != [] {
      SelectEmpty(xs[1..], keep[1..]);
      assert forall i :: 1 <= i < |xs| ==> keep[i] == keep[1..][i - 1];
    }
  }

  /** With every flag set, every row is displayed. */
  lemma {:induction false} SelectAll<T>(xs: seq<T>, keep: seq<bool>)
    requires |keep| == |xs|
    requires forall i :: 0 <= i < |keep| ==> keep[i]
    ensures Select(xs, keep) == xs
  {
    if xs != [] {
      assert forall i :: 1 <= i < |xs| ==> keep[i] == keep[1..][i - 1];
      SelectAll(xs[1..], keep[1..]);
    }
  }

  /** The empty query matches every row that has a cell. */
  lemma EmptyQueryMatchesAll(rows: seq<seq<string>>)
    requires forall i :: 0 <= i < |rows| ==> |rows[i]| > 0
    ensures forall i :: 0 <= i < |rows| ==> RowMatches(rows[i], "")
  {
    forall i | 0 <= i < |rows| ensures RowMatches(rows[i], "") {
      assert Includes(Lower(rows[i][0]), Lower(""));
    }
  }

  /**
   * A client of `FilterTable`: with the empty query every row the loop visits stays
   * displayed, and the "no matching transactions" message is not shown unless the loop
   * visits no row. On the page those are the rows below the top one.
   */
  method FilterWithEmptyQuery(rows: seq<seq<string>>) returns (shown: seq<seq<string>>, hasMatches: bool)
    requires forall i :: 0 <= i < |rows| ==> |rows[i]| > 0
    ensures shown == rows
    ensures hasMatches <==> rows != []
  {
    var visible: seq<bool>;
    visible, hasMatches := FilterTable(rows, "");
    EmptyQueryMatchesAll(rows);
    SelectAll(rows, visible);
    shown := Select(rows, visible);
    if rows != [] {
      assert RowMatches(rows[0], "");
    }
  }

  /** Matching ignores the case of the query's ASCII letters. */
  lemma QueryCaseIgnored(cells: seq<string>, query: string)
    ensures RowMatches(cells, Lower(query)) <==> RowMatches(cells, query)
  {
    assert Lower(Lower(query)) == Lower(query);
  }

  /**
   * The text of the action cell: the white space around the delete button's SVG markup.
   * Its characters are not letters, so lower-casing leaves it as it is.
   */
  const ActionCellText: string := "\n        \n          \n        \n      "

  /**
   * The texts of a rendered row's cells: description, formatted amount, payment
   * method, recipient, formatted date and the action cell. The two formatters are
   * locale dependent and taken as parameters. The amount formatter also receives the
   * row's type: an expense of 0 is the floating-point -0, which the always-signed
   * currency format shows with a minus sign, while an income of 0 shows a plus sign.
   */
  function CellTexts(r: Row, amountText: (int, Kind) -> string, dateText: int -> string): seq<string>
  {
    [r.name, amountText(r.shownAmount, r.kind), r.source, r.recipient, dateText(r.date), ActionCellText]
  }

  /**
   * A zero income and a zero expense carry the same integer amount, and the amount cell
   * still tells them apart through the sign of zero.
   */
  lemma ZeroAmountSigns(a: Transaction, b: Transaction, dateText: int -> string)
    requires a.amount == 0 && a.kind == Income && b.amount == 0 && b.kind == Expense
    ensures RowOf(a).shownAmount == RowOf(b).shownAmount == 0
    ensures var signOfZero := (x: int, k: Kind) => if x > 0 || (x == 0 && k == Income) then "+" else "-";
      && CellTexts(RowOf(a), signOfZero, dateText)[1] == "+"
      && CellTexts(RowOf(b), signOfZero, dateText)[1] == "-"
  {
  }

  /** A text without upper-case ASCII letters is its own lower-cased form. */
  lemma LowerWithoutLetters(s: string)
    requires forall i :: 0 <= i < |s| ==> !('A' <= s[i] <= 'Z')
    ensures Lower(s) == s
  {
  }

  /** A query of one space matches every rendered row, through the action cell. */
  lemma SpaceQueryMatchesEveryRow(r: Row, amountText: (int, Kind) -> string, dateText: int -> string)
    ensures RowMatches(CellTexts(r, amountText, dateText), " ")
  {
    var cells := CellTexts(r, amountText, dateText);
    LowerWithoutLetters(" ");
    LowerWithoutLetters(ActionCellText);
    assert ActionCellText[1] == ' ';
    assert ActionCellText[1..2] == " ";
    assert OccursAt(ActionCellText, " ", 1);
    IncludesIffOccurs(ActionCellText, " ");
    assert Includes(Lower(cells[5]), Lower(" "));
  }

  /** The cell texts of each rendered row, top to bottom. */
  function TableTexts(rows: seq<Row>, amountText: (int, Kind) -> string, dateText: int -> string): seq<seq<string>>
  {
    seq(|rows|, k requires 0 <= k < |rows| => CellTexts(rows[k], amountText, dateText))
  }

  /**
   * `filterTable` on the table `renderTable` built from `s`, the records at page load.
   * `insertBefore(row, table.firstChild)` puts every data row ahead of the header, so
   * the top data row is the table's first element child: `tr:not(:first-child)` leaves
   * it out of the loop, `tr:first-child` selects it and it is always shown, and it never
   * sets `hasMatches`. With no records there is no table, the lookup gives null and the
   * call fails, which `failed` reports.
   */
  method FilterRenderedTable(s: seq<Transaction>, amountText: (int, Kind) -> string, dateText: int -> string, query: string)
    returns (failed: bool, visible: seq<bool>, hasMatches: bool)
    ensures failed <==> s == []
    ensures failed ==> visible == [] && !hasMatches
    ensures !failed ==> |visible| == |s| && visible[0]
    ensures forall k :: 1 <= k < |visible| ==>
      (visible[k] <==> RowMatches(CellTexts(RenderedRows(s)[k], amountText, dateText), query))
    ensures hasMatches <==>
      exists k :: 1 <= k < |s| && RowMatches(CellTexts(RenderedRows(s)[k], amountText, dateText), query)
  {
    if s == [] {
      return true, [], false;
    }
    var rows := RenderedRows(s);
    var below: seq<bool>;
    below, hasMatches := FilterTable(TableTexts(rows[1..], amountText, dateText), query);
    failed := false;
    visible := [true] + below;
    assert forall k :: 1 <= k < |s| ==> rows[1..][k - 1] == rows[k];
  }

  /**
   * A client of `FilterRenderedTable`: with a single record its row stays displayed
   * whatever the query, and yet no row counts as a match, so the "no matching
   * transactions" message is shown.
   */
  method FilterOneRecord(t: Transaction, amountText: (int, Kind) -> string, dateText: int -> string, query: string)
    returns (visible: seq<bool>, hasMatches: bool)
    ensures visible == [true] && !hasMatches
  {
    var failed;
    failed, visible, hasMatches := FilterRenderedTable([t], amountText, dateText, query);
  }

  /**
   * A client of `FilterRenderedTable`: on the table of the page, the empty query shows
   * every row, but the message is withheld only when there are at least two records,
   * since the top row never counts as a match.
   */
  method RenderedEmptyQuery(s: seq<Transaction>, amountText: (int, Kind) -> string, dateText: int -> string)
    returns (visible: seq<bool>, hasMatches: bool)
    ensures |visible| == |s|
    ensures forall k :: 0 <= k < |s| ==> visible[k]
    ensures hasMatches <==> |s| >= 2
  {
    var failed;
    failed, visible, hasMatches := FilterRenderedTable(s, amountText, dateText, "");
    forall k | 1 <= k < |s|
      ensures RowMatches(CellTexts(RenderedRows(s)[k], amountText, dateText), "")
    {
      assert Includes(Lower(CellTexts(RenderedRows(s)[k], amountText, dateText)[0]), Lower(""));
    }
    if |s| >= 2 {
      assert 1 < |s| && RowMatches(CellTexts(RenderedRows(s)[1], amountText, dateText), "");
      assert exists k :: 1 <= k < |s| && RowMatches(CellTexts(RenderedRows(s)[k], amountText, dateText), "");
    }
  }
}
