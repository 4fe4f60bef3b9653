/**
 * Order performance per restaurant: the orders whose status is exactly
 * "Delivered", grouped by `Restaurant ID`, with the number of orders, the
 * sum of item totals and the sum of restaurant commissions per group.
 */
module Performance {
  import opened Wrappers
  import opened Tables
  import Filtering

  const DeliveredStatus := "Delivered"

  /** Case-sensitive, exact comparison with the one revenue-bearing status. */
  function IsDelivered(o: Order): (delivered: bool)
    ensures o.status == "delivered" || o.status == "DELIVERED" ==> !delivered
  {
    o.status == DeliveredStatus
  }

  /** The delivered orders, in ledger order; every other status is dropped. */
  function Delivered(orders: seq<Order>): (ds: seq<Order>)
    ensures |ds| <= |orders|
    ensures forall o :: o in ds <==> o in orders && o.status == "Delivered"
    ensures forall o :: multiset(ds)[o] == if o.status == "Delivered" then multiset(orders)[o] else 0
  {
    Filtering.Filter(orders, IsDelivered)
  }

  /** What one order adds to the figures of a group whose keys are `ids`. */
  function Contribution(o: Order, ids: set<int>): Stats {
    if IsDelivered(o) && o.restaurantId in ids then Stats(1, o.itemTotal, o.commission) else Zero()
  }

  /**
   * Reference definition of the figures: over all delivered orders whose
   * `Restaurant ID` is in `ids`, their number, the sum of their item totals
   * and the sum of their commissions.
   */
  function StatsIn(orders: seq<Order>, ids: set<int>): Stats {
    if orders == [] then Zero() else Plus(Contribution(orders[0], ids), StatsIn(orders[1..], ids))
  }

  /**
   * The order count of the reference figures is between zero and the ledger
   * length, and a count of zero means all three figures are zero.
   */
  lemma {:induction false} StatsInCount(orders: seq<Order>, ids: set<int>)
    ensures 0 <= StatsIn(orders, ids).commandes <= |orders|
    ensures StatsIn(orders, ids).commandes == 0 ==> StatsIn(orders, ids) == Zero()
  {
    if orders == [] {
      StatsInNil(orders, ids);
    } else {
      StatsInCount(orders[1..], ids);
      StatsInCons(orders, ids);
      ContributionCount(orders[0], ids);
      PlusCount(Contribution(orders[0], ids), StatsIn(orders[1..], ids));
    }
  }

  /** One row of the grouped table: the group key and its figures. */
  datatype PerfRow = PerfRow(restaurantId: int, stats: Stats)

  function Keys(perf: seq<PerfRow>): set<int> {
    set row | row in perf :: row.restaurantId
  }

  /** Keys strictly ascending: at most one row per key, in key order. */
  predicate StrictlySorted(perf: seq<PerfRow>) {
    forall i, j :: 0 <= i < j < |perf| ==> perf[i].restaurantId < perf[j].restaurantId
  }

  /** Every group holds at least one order. */
  predicate NonEmptyGroups(perf: seq<PerfRow>) {
    forall k :: 0 <= k < |perf| ==> perf[k].stats.commandes >= 1
  }

  /** The figures of the first row whose key is `id`, if any. */
  function Find(perf: seq<PerfRow>, id: int): (r: Option<Stats>)
    ensures r.Some? <==> id in Keys(perf)
  {
    if perf == [] then None
    else if perf[0].restaurantId == id then Some(perf[0].stats)
    else
      KeysCons(perf[0], perf[1..]);
      assert perf == [perf[0]] + perf[1..];
      Find(perf[1..], id)
  }

  /** The figures a single delivered order brings to its own group. */
  function One(o: Order): Stats {
    Stats(1, o.itemTotal, o.commission)
  }

  /** Adds one order to the grouped table: into its group if there is one, else as a new group in key order. */
  function AddOrder(perf: seq<PerfRow>, o: Order): (r: seq<PerfRow>)
    ensures Keys(r) == Keys(perf) + {o.restaurantId}
  {
    var row := PerfRow(o.restaurantId, One(o));
    if perf == [] then
      KeysCons(row, []);
      assert [row] + [] == [row];
      [row]
    else
      assert perf == [perf[0]] + perf[1..];
      KeysCons(perf[0], perf[1..]);
      if o.restaurantId < perf[0].restaurantId then
        KeysCons(row, perf);
        [row] + perf
      else if o.restaurantId == perf[0].restaurantId then
        var merged := PerfRow(o.restaurantId, Plus(One(o), perf[0].stats));
        KeysCons(merged, perf[1..]);
        [merged] + perf[1..]
      else
        var tail := AddOrder(perf[1..], o);
        KeysCons(perf[0], tail);
        [perf[0]] + tail
  }

  /** Adding an order keeps the table strictly sorted by key: still at most one row per key. */
  lemma {:induction false} AddOrderSorted(perf: seq<PerfRow>, o: Order)
    requires StrictlySorted(perf)
    ensures StrictlySorted(AddOrder(perf, o))
  {
    if perf != [] {
      var r := AddOrder(perf, o);
      KeysAbove(perf);
      if o.restaurantId < perf[0].restaurantId {
        assert perf == [perf[0]] + perf[1..];
        KeysCons(perf[0], perf[1..]);
        ConsSorted(r[0], perf);
      } else if o.restaurantId == perf[0].restaurantId {
        ConsSorted(r[0], perf[1..]);
      } else {
        AddOrderSorted(perf[1..], o);
        ConsSorted(perf[0], AddOrder(perf[1..], o));
      }
    }
  }

  /** Adding an order to a table of non-empty groups leaves every group non-empty. */
  lemma {:induction false} AddOrderNonEmpty(perf: seq<PerfRow>, o: Order)
    requires NonEmptyGroups(perf)
    ensures NonEmptyGroups(AddOrder(perf, o))
  {
    if perf != [] && o.restaurantId > perf[0].restaurantId {
      AddOrderNonEmpty(perf[1..], o);
    }
  }

  /** In a strictly sorted table, every key after the first row is above the first key. */
  lemma KeysAbove(perf: seq<PerfRow>)
    requires StrictlySorted(perf) && perf != []
    ensures forall k :: k in Keys(perf[1..]) ==> perf[0].restaurantId < k
  {
    forall k | k in Keys(perf[1..]) ensures perf[0].restaurantId < k {
      var x :| x in perf[1..] && x.restaurantId == k;
      var i :| 0 <= i < |perf[1..]| && perf[1..][i] == x;
      assert perf[i + 1] == x;
    }
  }

  /** A row whose key is below every key of a strictly sorted table may go in front of it. */
  lemma ConsSorted(row: PerfRow, perf: seq<PerfRow>)
    requires StrictlySorted(perf)
    requires forall k :: k in Keys(perf) ==> row.restaurantId < k
    ensures StrictlySorted([row] + perf)
  {
    var s := [row] + perf;
    forall i, j | 0 <= i < j < |s| ensures s[i].restaurantId < s[j].restaurantId {
      if i == 0 {
        assert s[j] == perf[j - 1];
        assert s[j] in perf;
        assert s[j].restaurantId in Keys(perf);
      } else {
        assert s[i] == perf[i - 1] && s[j] == perf[j - 1];
      }
    }
  }

  lemma KeysCons(row: PerfRow, perf: seq<PerfRow>)
    ensures Keys([row] + perf) == {row.restaurantId} + Keys(perf)
  {
    var s := [row] + perf;
    forall k | k in Keys(s) ensures k in {row.restaurantId} + Keys(perf) {
      var x :| x in s && x.restaurantId == k;
      if x != row { assert x in perf; }
    }
    forall k | k in {row.restaurantId} + Keys(perf) ensures k in Keys(s) {
      if k != row.restaurantId {
        var x :| x in perf && x.restaurantId == k;
        assert x in s;
      } else {
        assert row in s;
      }
    }
  }

  /** `groupby('Restaurant ID')` with the three aggregates, over already selected orders. */
  function Group(ds: seq<Order>): (perf: seq<PerfRow>)
    ensures StrictlySorted(perf)
    ensures NonEmptyGroups(perf)
    ensures Keys(perf) == set o | o in ds :: o.restaurantId
  {
    if ds == [] then []
    else
      var rest := Group(ds[1..]);
      AddOrderSorted(rest, ds[0]);
      AddOrderNonEmpty(rest, ds[0]);
      assert ds == [ds[0]] + ds[1..];
      AddOrder(rest, ds[0])
  }

  /** The performance table: delivered orders grouped by restaurant. */
  function Aggregate(orders: seq<Order>): (perf: seq<PerfRow>)
    ensures StrictlySorted(perf)
    ensures NonEmptyGroups(perf)
    ensures Keys(perf) == set o | o in orders && o.status == "Delivered" :: o.restaurantId
  {
    Group(Delivered(orders))
  }

  /** Looking a key up after adding an order: that order's group gains its figures, no other group changes. */
  lemma {:induction false} AddOrderFind(perf: seq<PerfRow>, o: Order, id: int)
    requires StrictlySorted(perf)
    ensures Find(AddOrder(perf, o), id) ==
      if id == o.restaurantId then Some(Plus(One(o), Find(perf, id).GetOr(Zero()))) else Find(perf, id)
  {
    if perf != [] {
      if o.restaurantId < perf[0].restaurantId {
        if id == o.restaurantId {
          KeysAbove(perf);
          assert perf == [perf[0]] + perf[1..];
          KeysCons(perf[0], perf[1..]);
          assert id !in Keys(perf);
        }
        assert AddOrder(perf, o)[1..] == perf;
      } else if o.restaurantId == perf[0].restaurantId {
        if id != o.restaurantId {
          assert AddOrder(perf, o)[1..] == perf[1..];
        }
      } else {
        AddOrderFind(perf[1..], o, id);
        assert AddOrder(perf, o)[1..] == AddOrder(perf[1..], o);
      }
    }
  }

  /**
   * Grouping delivered orders: a key has a group iff some order carries it,
   * and its group holds exactly the reference figures of those orders.
   */
  lemma {:induction false} GroupFind(ds: seq<Order>, id: int)
    requires forall o :: o in ds ==> IsDelivered(o)
    ensures Find(Group(ds), id) ==
      if StatsIn(ds, {id}).commandes == 0 then None else Some(StatsIn(ds, {id}))
  {
    if ds == [] {
      StatsInNil(ds, {id});
    } else {
      var o, rest := ds[0], ds[1..];
      assert o in ds;
      assert forall x :: x in rest ==> x in ds;
      GroupFind(rest, id);
      GroupCons(ds);
      AddOrderFind(Group(rest), o, id);
      StatsInCons(ds, {id});
      StatsInCount(rest, {id});
      GroupStep(o, id, StatsIn(rest, {id}));
    }
  }

  /** One delivered order folded into a group whose figures matched the reference keeps them matching. */
  lemma GroupStep(o: Order, id: int, before: Stats)
    requires IsDelivered(o)
    requires before.commandes >= 0 && (before.commandes == 0 ==> before == Zero())
    ensures var found := if before.commandes == 0 then None else Some(before);
      var after := Plus(Contribution(o, {id}), before);
      (if id == o.restaurantId then Some(Plus(One(o), found.GetOr(Zero()))) else found) ==
      (if after.commandes == 0 then None else Some(after))
  {
    if id != o.restaurantId {
      assert Contribution(o, {id}) == Zero();
      PlusZero(before);
    }
  }

  lemma GroupCons(ds: seq<Order>)
    requires ds != []
    ensures Group(ds) == AddOrder(Group(ds[1..]), ds[0])
  {
  }

  /** Only delivered orders count towards the reference figures, so pre-selecting them changes nothing. */
  lemma {:induction false} StatsInDelivered(orders: seq<Order>, ids: set<int>)
    ensures StatsIn(Delivered(orders), ids) == StatsIn(orders, ids)
  {
    var d := Filtering.Filter(orders, IsDelivered);
    if orders == [] {
      assert d == [];
    } else {
      var o, rest := orders[0], orders[1..];
      var dr := Filtering.Filter(rest, IsDelivered);
      StatsInDelivered(rest, ids);
      StatsInCons(orders, ids);
      Filtering.FilterCons(orders, IsDelivered);
      if IsDelivered(o) {
        assert d == [o] + dr;
        assert d[0] == o && d[1..] == dr;
        StatsInCons(d, ids);
      } else {
        assert d == dr;
        assert Contribution(o, ids) == Zero();
        PlusZero(StatsIn(rest, ids));
      }
    }
  }

  /**
   * The performance table has a row for a restaurant iff it has at least one
   * delivered order, and that row holds the count, item-total sum and
   * commission sum of exactly its delivered orders.
   */
  lemma AggregateFind(orders: seq<Order>, id: int)
    ensures Find(Aggregate(orders), id) ==
      if StatsIn(orders, {id}).commandes == 0 then None else Some(StatsIn(orders, {id}))
  {
    GroupFind(Delivered(orders), id);
    StatsInDelivered(orders, {id});
  }

  /** Inserting an order of any other status anywhere in the ledger leaves the performance table unchanged. */
  lemma AggregateIgnoresOtherStatuses(orders: seq<Order>, o: Order, i: nat)
    requires i <= |orders|
    requires o.status != "Delivered"
    ensures Aggregate(orders[..i] + [o] + orders[i..]) == Aggregate(orders)
  {
    Filtering.FilterInsertAt(orders, o, i, IsDelivered);
  }

  /** The reference figures over two disjoint key sets add up. */
  lemma {:induction false} StatsInUnion(orders: seq<Order>, a: set<int>, b: set<int>)
    requires a !! b
    ensures StatsIn(orders, a + b) == Plus(StatsIn(orders, a), StatsIn(orders, b))
  {
    if orders == [] {
      StatsInNil(orders, a);
      StatsInNil(orders, b);
      StatsInNil(orders, a + b);
      PlusZero(Zero());
    } else {
      StatsInUnion(orders[1..], a, b);
      StatsInCons(orders, a);
      StatsInCons(orders, b);
      StatsInCons(orders, a + b);
      ContributionUnion(orders[0], a, b);
      PlusShuffle(Contribution(orders[0], a), Contribution(orders[0], b), StatsIn(orders[1..], a), StatsIn(orders[1..], b));
    }
  }

  lemma StatsInNil(orders: seq<Order>, ids: set<int>)
    requires orders == []
    ensures StatsIn(orders, ids) == Zero()
  {
  }

  lemma StatsInCons(orders: seq<Order>, ids: set<int>)
    requires orders != []
    ensures StatsIn(orders, ids) == Plus(Contribution(orders[0], ids), StatsIn(orders[1..], ids))
  {
  }

  lemma ContributionCount(o: Order, ids: set<int>)
    ensures 0 <= Contribution(o, ids).commandes <= 1
    ensures Contribution(o, ids).commandes == 0 ==> Contribution(o, ids) == Zero()
  {
  }

  lemma ContributionUnion(o: Order, a: set<int>, b: set<int>)
    requires a !! b
    ensures Contribution(o, a + b) == Plus(Contribution(o, a), Contribution(o, b))
  {
  }
}
