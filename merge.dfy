/**
 * The left merge of the new restaurants with the performance table on
 * `Id` = `Restaurant ID`, followed by the projection onto the eight report
 * columns with missing figures filled with 0.
 */
module Merge {
  import opened Wrappers
  import opened Tables
  import opened Performance

  /**
   * A row of the merged table: the restaurant's columns and the figures of
   * the performance row it met, or None for the empty (NaN) cells of a
   * restaurant that met none.
   */
  datatype Merged = Merged(restaurant: Restaurant, perf: Option<Stats>)

  /** The figures of every performance row whose key is `id`, in table order. */
  function Matches(perf: seq<PerfRow>, id: int): seq<Stats> {
    if perf == [] then []
    else (if perf[0].restaurantId == id then [perf[0].stats] else []) + Matches(perf[1..], id)
  }

  /** The merge for one restaurant: one row per matching performance row, or a single row without figures. */
  function MergeOne(r: Restaurant, perf: seq<PerfRow>): (ms: seq<Merged>)
    ensures |ms| == if Matches(perf, r.id) == [] then 1 else |Matches(perf, r.id)|
    ensures forall k :: 0 <= k < |ms| ==> ms[k].restaurant == r
    ensures Matches(perf, r.id) == [] ==> ms == [Merged(r, None)]
    ensures Matches(perf, r.id) != [] ==>
      forall k :: 0 <= k < |ms| ==> ms[k].perf == Some(Matches(perf, r.id)[k])
  {
    var m := Matches(perf, r.id);
    if m == [] then [Merged(r, None)]
    else seq(|m|, k requires 0 <= k < |m| => Merged(r, Some(m[k])))
  }

  /** `merge(how='left')`: the rows for each restaurant, in the order of the restaurant list. */
  function LeftMerge(rs: seq<Restaurant>, perf: seq<PerfRow>): (ms: seq<Merged>)
    ensures |ms| >= |rs|
    ensures forall k :: 0 <= k < |rs| ==> exists m :: m in ms && m.restaurant == rs[k]
  {
    if rs == [] then []
    else
      var head, tail := MergeOne(rs[0], perf), LeftMerge(rs[1..], perf);
      forall k | 0 <= k < |rs| ensures exists m :: m in head + tail && m.restaurant == rs[k] {
        if k == 0 {
          assert head[0] in head + tail;
        } else {
          assert rs[k] == rs[1..][k - 1];
          var m :| m in tail && m.restaurant == rs[k];
          assert m in head + tail;
        }
      }
      head + tail
  }

  /** With at most one performance row per key, the matches of a key are exactly its lookup. */
  lemma {:induction false} MatchesSorted(perf: seq<PerfRow>, id: int)
    requires StrictlySorted(perf)
    ensures Matches(perf, id) == match Find(perf, id) case None => [] case Some(s) => [s]
  {
    if perf != [] {
      var tail := perf[1..];
      assert StrictlySorted(tail) by {
        forall i, j | 0 <= i < j < |tail| ensures tail[i].restaurantId < tail[j].restaurantId {
          assert tail[i] == perf[i + 1] && tail[j] == perf[j + 1];
        }
      }
      MatchesSorted(tail, id);
      if perf[0].restaurantId == id {
        KeysAbove(perf);
        assert Find(tail, id) == None;
      }
    }
  }

  /**
   * Left-merge totality: merged with a table that has at most one row per
   * key, every restaurant yields exactly one row, in list order, carrying
   * the figures of its key or none.
   */
  lemma {:induction false} LeftMergeTotal(rs: seq<Restaurant>, perf: seq<PerfRow>)
    requires StrictlySorted(perf)
    ensures |LeftMerge(rs, perf)| == |rs|
    ensures forall k :: 0 <= k < |rs| ==> LeftMerge(rs, perf)[k] == Merged(rs[k], Find(perf, rs[k].id))
  {
    if rs != [] {
      LeftMergeTotal(rs[1..], perf);
      MatchesSorted(perf, rs[0].id);
      var head := MergeOne(rs[0], perf);
      assert head == [Merged(rs[0], Find(perf, rs[0].id))];
      var ms := LeftMerge(rs, perf);
      assert ms == head + LeftMerge(rs[1..], perf);
      forall k | 0 <= k < |rs| ensures ms[k] == Merged(rs[k], Find(perf, rs[k].id)) {
        if k > 0 {
          assert ms[k] == LeftMerge(rs[1..], perf)[k - 1];
        }
      }
    }
  }

  /** `fillna(0)` on the figures and projection onto the eight report columns, for one row. */
  function FillRow(m: Merged): (row: Row)
    ensures m.perf == None ==> StatsOf(row) == Zero()
    ensures m.perf.Some? ==> StatsOf(row) == m.perf.value
    ensures row.name == m.restaurant.name && row.city == m.restaurant.city
    ensures row.createdAt == m.restaurant.createdAt && row.status == m.restaurant.status
    ensures row.storeType == m.restaurant.storeType
  {
    RowOf(m.restaurant, m.perf.GetOr(Zero()))
  }

  /** `fillna(0)` and the projection, for the whole merged table. */
  function Project(ms: seq<Merged>): (rows: seq<Row>)
    ensures |rows| == |ms|
  {
    if ms == [] then [] else [FillRow(ms[0])] + Project(ms[1..])
  }
}
