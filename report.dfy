/**
 * The whole reconciliation: new restaurants of the window, left-merged with
 * the performance of their delivered orders, zero-filled, projected and
 * sorted by order count, descending.
 */
module Report {
  import opened Wrappers
  import opened Tables
  import opened Window
  import opened Performance
  import opened Merge
  import opened Ordering
  import Sequences

  /** The report row restaurant `r` should get: its columns and the figures of its delivered orders. */
  function ExpectedRow(r: Restaurant, orders: seq<Order>): Row {
    RowOf(r, StatsIn(orders, {r.id}))
  }

  /** The expected report rows of a list of restaurants, in list order. */
  function ExpectedRows(rs: seq<Restaurant>, orders: seq<Order>): (rows: seq<Row>)
    ensures |rows| == |rs|
  {
    if rs == [] then [] else [ExpectedRow(rs[0], orders)] + ExpectedRows(rs[1..], orders)
  }

  /**
   * The report table for the window `start`..`end` (days, both inclusive):
   * descending by order count, and holding exactly one expected row for
   * each new restaurant.
   */
  function Reconcile(registry: seq<Restaurant>, orders: seq<Order>, start: Day, end: Day): (table: seq<Row>)
    ensures NonIncreasing(table)
    ensures multiset(table) == multiset(ExpectedRows(NewRestaurants(registry, start, end), orders))
    ensures |table| == |NewRestaurants(registry, start, end)|
  {
    var added := NewRestaurants(registry, start, end);
    var perf := Aggregate(orders);
    var joined := Project(LeftMerge(added, perf));
    JoinedRows(added, orders);
    var sorted := SortDesc(joined);
    assert |sorted| == |multiset(sorted)| == |multiset(joined)| == |joined|;
    sorted
  }

  /**
   * Zero-fill: after `fillna(0)` a restaurant's row carries the figures of
   * its performance row when it has one, and zeros when it has none; either
   * way these are exactly the figures of its delivered orders.
   */
  lemma FillRowExpected(r: Restaurant, orders: seq<Order>)
    ensures FillRow(Merged(r, Find(Aggregate(orders), r.id))) == ExpectedRow(r, orders)
  {
    AggregateFind(orders, r.id);
    StatsInCount(orders, {r.id});
  }

  /** Merging, filling and projecting give the expected rows, one per restaurant, in list order. */
  lemma {:induction false} JoinedRows(rs: seq<Restaurant>, orders: seq<Order>)
    ensures Project(LeftMerge(rs, Aggregate(orders))) == ExpectedRows(rs, orders)
  {
    var perf := Aggregate(orders);
    if rs != [] {
      JoinedRows(rs[1..], orders);
      MatchesSorted(perf, rs[0].id);
      var m := Merged(rs[0], Find(perf, rs[0].id));
      assert MergeOne(rs[0], perf) == [m];
      var ms := LeftMerge(rs, perf);
      assert ms == [m] + LeftMerge(rs[1..], perf);
      assert ms[0] == m && ms[1..] == LeftMerge(rs[1..], perf);
      FillRowExpected(rs[0], orders);
    }
  }

  /** A row is expected for a list of restaurants iff it is the expected row of one of them. */
  lemma {:induction false} InExpectedRows(rs: seq<Restaurant>, orders: seq<Order>, row: Row)
    ensures row in ExpectedRows(rs, orders) <==> exists r :: r in rs && row == ExpectedRow(r, orders)
  {
    if rs != [] {
      InExpectedRows(rs[1..], orders, row);
      assert rs == [rs[0]] + rs[1..];
      if exists r :: r in rs && row == ExpectedRow(r, orders) {
        var r :| r in rs && row == ExpectedRow(r, orders);
        if r != rs[0] {
          assert r in rs[1..];
        }
      }
    }
  }

  /**
   * The rows of the report are exactly the expected rows of the restaurants
   * created inside the window, so each of them lies in the window.
   */
  lemma ReportRows(registry: seq<Restaurant>, orders: seq<Order>, start: Day, end: Day, row: Row)
    ensures row in Reconcile(registry, orders, start, end) <==>
      exists r :: r in registry && InWindow(r.createdAt, start, end) && row == ExpectedRow(r, orders)
    ensures row in Reconcile(registry, orders, start, end) ==> InWindow(row.createdAt, start, end)
  {
    var table := Reconcile(registry, orders, start, end);
    var added := NewRestaurants(registry, start, end);
    assert row in table <==> row in multiset(ExpectedRows(added, orders));
    InExpectedRows(added, orders, row);
  }

  /** A new restaurant without delivered orders is reported with zero orders, zero sales and zero commission. */
  lemma ZeroFilled(registry: seq<Restaurant>, orders: seq<Order>, start: Day, end: Day, r: Restaurant)
    requires r in registry && InWindow(r.createdAt, start, end)
    requires Find(Aggregate(orders), r.id) == None
    ensures RowOf(r, Zero()) in Reconcile(registry, orders, start, end)
  {
    AggregateFind(orders, r.id);
    StatsInCount(orders, {r.id});
    ReportRows(registry, orders, start, end, RowOf(r, Zero()));
  }

  /** A new restaurant with delivered orders is reported with exactly its performance row's figures. */
  lemma ExactAggregate(registry: seq<Restaurant>, orders: seq<Order>, start: Day, end: Day, r: Restaurant, s: Stats)
    requires r in registry && InWindow(r.createdAt, start, end)
    requires Find(Aggregate(orders), r.id) == Some(s)
    ensures RowOf(r, s) in Reconcile(registry, orders, start, end)
  {
    AggregateFind(orders, r.id);
    ReportRows(registry, orders, start, end, RowOf(r, s));
  }

  /** The column totals of a table: orders, item totals and commissions. */
  function Total(rows: seq<Row>): Stats {
    if rows == [] then Zero() else Plus(StatsOf(rows[0]), Total(rows[1..]))
  }

  /** Column totals add up over the concatenation of two tables. */
  lemma {:induction false} TotalConcat(a: seq<Row>, b: seq<Row>)
    ensures Total(a + b) == Plus(Total(a), Total(b))
  {
    if a == [] {
      assert a + b == b;
      PlusZero(Total(b));
    } else {
      var ab := a + b;
      assert ab[0] == a[0] && ab[1..] == a[1..] + b;
      TotalConcat(a[1..], b);
      PlusAssoc(StatsOf(a[0]), Total(a[1..]), Total(b));
    }
  }

  /** Reordering the rows of a table does not change its column totals. */
  lemma {:induction false} TotalPermutation(a: seq<Row>, b: seq<Row>)
    requires multiset(a) == multiset(b)
    ensures Total(a) == Total(b)
    decreases |a|
  {
    if a == [] {
      assert |b| == |multiset(b)| == 0;
    } else {
      var x := a[0];
      assert x in multiset(b);
      var i :| 0 <= i < |b| && b[i] == x;
      var rest := b[..i] + b[i + 1..];
      Sequences.MultisetRemove(b, i);
      Sequences.MultisetRemove(a, 0);
      assert a[..0] + a[1..] == a[1..];
      TotalPermutation(a[1..], rest);
      TotalRemove(b, i);
    }
  }

  /** The totals of a table are the figures of any one row plus the totals of the others. */
  lemma TotalRemove(b: seq<Row>, i: int)
    requires 0 <= i < |b|
    ensures Total(b) == Plus(StatsOf(b[i]), Total(b[..i] + b[i + 1..]))
  {
    var before, x, after := b[..i], b[i], b[i + 1..];
    Sequences.SplitAt(b, i);
    TotalConcat(before + [x], after);
    TotalConcat(before, [x]);
    TotalConcat(before, after);
    TotalSingle(x);
    PlusRotate(Total(before), StatsOf(x), Total(after));
  }

  /** The expected rows of restaurants with distinct Ids total the reference figures over all their Ids. */
  lemma {:induction false} ExpectedTotal(rs: seq<Restaurant>, orders: seq<Order>)
    requires UniqueIds(rs)
    ensures Total(ExpectedRows(rs, orders)) == StatsIn(orders, IdsOf(rs))
  {
    if rs == [] {
      assert IdsOf(rs) == {};
      StatsInNoIds(orders);
    } else {
      var tail := rs[1..];
      assert UniqueIds(tail) by {
        forall i, j | 0 <= i < j < |tail| ensures tail[i].id != tail[j].id {
          assert tail[i] == rs[i + 1] && tail[j] == rs[j + 1];
        }
      }
      ExpectedTotal(tail, orders);
      IdsOfCons(rs);
      forall r | r in tail ensures r.id != rs[0].id {
        var k :| 0 <= k < |tail| && tail[k] == r;
        assert rs[k + 1] == r;
      }
      StatsInUnion(orders, {rs[0].id}, IdsOf(tail));
      var rows := ExpectedRows(rs, orders);
      assert rows[0] == ExpectedRow(rs[0], orders) && rows[1..] == ExpectedRows(tail, orders);
    }
  }

  /**
   * Conservation: when the new restaurants have distinct Ids, the report's
   * column totals equal the count, item-total sum and commission sum of all
   * delivered orders of those restaurants.
   */
  lemma Conservation(registry: seq<Restaurant>, orders: seq<Order>, start: Day, end: Day)
    requires UniqueIds(NewRestaurants(registry, start, end))
    ensures Total(Reconcile(registry, orders, start, end)) == StatsIn(orders, IdsOf(NewRestaurants(registry, start, end)))
  {
    var added := NewRestaurants(registry, start, end);
    TotalPermutation(Reconcile(registry, orders, start, end), ExpectedRows(added, orders));
    ExpectedTotal(added, orders);
  }

  /** No Id selects no order. */
  lemma {:induction false} StatsInNoIds(orders: seq<Order>)
    ensures StatsIn(orders, {}) == Zero()
  {
    if orders == [] {
      StatsInNil(orders, {});
    } else {
      StatsInNoIds(orders[1..]);
      StatsInCons(orders, {});
      assert Contribution(orders[0], {}) == Zero();
      PlusZero(Zero());
    }
  }

  lemma IdsOfCons(rs: seq<Restaurant>)
    requires rs != []
    ensures IdsOf(rs) == {rs[0].id} + IdsOf(rs[1..])
  {
    assert rs == [rs[0]] + rs[1..];
  }

  lemma TotalSingle(x: Row)
    ensures Total([x]) == Plus(StatsOf(x), Zero())
  {
    assert [x][1..] == [];
  }
}
