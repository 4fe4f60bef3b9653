/**
 * The records of the two input tables (the restaurant list and the
 * earnings export of orders) and of the report, restricted to the columns
 * the reconciliation reads or writes.
 */
module Tables {
  import opened Wrappers

  /** A point in time in seconds since the epoch: a `Created At` value once parsed. */
  type Timestamp = int

  /** A calendar date counted in days since the epoch: a bound of the date window. */
  type Day = int

  /**
   * One row of the restaurant list. `createdAt` is the outcome of the
   * day-first date parse, None where the text could not be parsed.
   */
  datatype Restaurant = Restaurant(
    id: int,
    name: string,
    city: string,
    createdAt: Option<Timestamp>,
    status: string,
    storeType: string)

  /** One row of the order export. Amounts are in cents. */
  datatype Order = Order(
    orderId: int,
    restaurantId: int,
    status: string,
    itemTotal: int,
    commission: int)

  /** The three performance columns: `Commandes`, `CA_Total`, `Commissions`. */
  datatype Stats = Stats(commandes: int, caTotal: int, commissions: int)

  function Zero(): Stats { Stats(0, 0, 0) }

  /** Column-wise sum of two groups of figures. */
  function Plus(a: Stats, b: Stats): Stats {
    Stats(a.commandes + b.commandes, a.caTotal + b.caTotal, a.commissions + b.commissions)
  }

  lemma PlusZero(s: Stats)
    ensures Plus(Zero(), s) == s
  {
  }

  /** Counts add up, and figures with no orders are all zero, also after a sum. */
  lemma PlusCount(a: Stats, b: Stats)
    requires a.commandes >= 0 && (a.commandes == 0 ==> a == Zero())
    requires b.commandes >= 0 && (b.commandes == 0 ==> b == Zero())
    ensures Plus(a, b).commandes == a.commandes + b.commandes
    ensures Plus(a, b).commandes == 0 ==> Plus(a, b) == Zero()
  {
  }

  /** Sums of figures regroup freely. */
  lemma PlusAssoc(x: Stats, y: Stats, z: Stats)
    ensures Plus(Plus(x, y), z) == Plus(x, Plus(y, z))
  {
  }

  lemma PlusRotate(p: Stats, x: Stats, q: Stats)
    ensures Plus(Plus(p, Plus(x, Zero())), q) == Plus(x, Plus(p, q))
  {
  }

  lemma PlusShuffle(w: Stats, x: Stats, y: Stats, z: Stats)
    ensures Plus(Plus(w, x), Plus(y, z)) == Plus(Plus(w, y), Plus(x, z))
  {
  }

  /** One row of the report: the eight projected columns, in their order. */
  datatype Row = Row(
    name: string,
    city: string,
    createdAt: Option<Timestamp>,
    status: string,
    storeType: string,
    commandes: int,
    caTotal: int,
    commissions: int)

  /** The report row for restaurant `r` carrying the figures `s`. */
  function RowOf(r: Restaurant, s: Stats): Row {
    Row(r.name, r.city, r.createdAt, r.status, r.storeType, s.commandes, s.caTotal, s.commissions)
  }

  /** The figures a report row carries. */
  function StatsOf(row: Row): Stats {
    Stats(row.commandes, row.caTotal, row.commissions)
  }

  /** The `Id` values of a list of restaurants. */
  function IdsOf(rs: seq<Restaurant>): set<int> {
    set r | r in rs :: r.id
  }

  /** No two rows of the list share an `Id`. */
  predicate UniqueIds(rs: seq<Restaurant>) {
    forall i, j :: 0 <= i < j < |rs| ==> rs[i].id != rs[j].id
  }
}
