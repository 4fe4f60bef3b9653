/**
 * `sort_values(by='Commandes', ascending=False)`: the report rows reordered
 * so that the order count never increases down the table. Rows with equal
 * counts may come in any order.
 */
module Ordering {
  import opened Tables

  /** `Commandes` never increases from one row to a later one. */
  predicate NonIncreasing(rows: seq<Row>) {
    forall i, j :: 0 <= i < j < |rows| ==> rows[i].commandes >= rows[j].commandes
  }

  /** Puts `x` into a table already in descending order, before the first row with a smaller count. */
  function Insert(x: Row, rows: seq<Row>): (r: seq<Row>)
    requires NonIncreasing(rows)
    ensures NonIncreasing(r)
    ensures multiset(r) == multiset(rows) + multiset{x}
  {
    if rows == [] then [x]
    else if x.commandes >= rows[0].commandes then
      FrontNonIncreasing(x, rows);
      [x] + rows
    else
      var tail := Insert(x, rows[1..]);
      InsertBehind(x, rows, tail);
      [rows[0]] + tail
  }

  /** The rows of the table, in descending order of `Commandes`. */
  function SortDesc(rows: seq<Row>): (r: seq<Row>)
    ensures NonIncreasing(r)
    ensures multiset(r) == multiset(rows)
  {
    if rows == [] then []
    else
      assert rows == [rows[0]] + rows[1..];
      Insert(rows[0], SortDesc(rows[1..]))
  }

  /** A row counting at least as much as the first row of a descending table may go in front of it. */
  lemma FrontNonIncreasing(x: Row, rows: seq<Row>)
    requires NonIncreasing(rows) && rows != []
    requires x.commandes >= rows[0].commandes
    ensures NonIncreasing([x] + rows)
  {
    forall y | y in rows ensures x.commandes >= y.commandes {
      var k :| 0 <= k < |rows| && rows[k] == y;
    }
    ConsNonIncreasing(x, rows);
  }

  /** The first row of a descending table stays in front of the rest with a row of smaller count inserted. */
  lemma InsertBehind(x: Row, rows: seq<Row>, tail: seq<Row>)
    requires NonIncreasing(rows) && rows != []
    requires x.commandes < rows[0].commandes
    requires NonIncreasing(tail)
    requires multiset(tail) == multiset(rows[1..]) + multiset{x}
    ensures NonIncreasing([rows[0]] + tail)
    ensures multiset([rows[0]] + tail) == multiset(rows) + multiset{x}
  {
    assert rows == [rows[0]] + rows[1..];
    forall y | y in tail ensures rows[0].commandes >= y.commandes {
      assert y in multiset(tail);
      if y != x {
        var k :| 0 <= k < |rows[1..]| && rows[1..][k] == y;
        assert rows[k + 1] == y;
      }
    }
    ConsNonIncreasing(rows[0], tail);
  }

  /** A row with a count at least that of every row of a descending table may go in front of it. */
  lemma ConsNonIncreasing(x: Row, rows: seq<Row>)
    requires NonIncreasing(rows)
    requires forall y :: y in rows ==> x.commandes >= y.commandes
    ensures NonIncreasing([x] + rows)
  {
    var s := [x] + rows;
    forall i, j | 0 <= i < j < |s| ensures s[i].commandes >= s[j].commandes {
      assert s[j] == rows[j - 1];
      if i == 0 {
        assert s[j] in rows;
      } else {
        assert s[i] == rows[i - 1];
      }
    }
  }
}
