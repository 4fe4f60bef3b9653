/**
 * The creation-date window: a restaurant is new when its parsed
 * `Created At` lies between midnight of the start date and midnight of the
 * end date, both inclusive. The bounds are calendar dates turned into
 * timestamps at midnight, so a creation time later in the day of the end
 * date falls outside the window.
 */
module Window {
  import opened Wrappers
  import opened Tables
  import Filtering

  const SecondsPerDay: int := 86400

  /** The timestamp at which calendar day `d` begins. */
  function Midnight(d: Day): (m: Timestamp)
    ensures m % SecondsPerDay == 0 && m / SecondsPerDay == d
  {
    d * SecondsPerDay
  }

  /** The calendar day a timestamp falls on. */
  function DayOf(t: Timestamp): (d: Day)
    ensures Midnight(d) <= t < Midnight(d + 1)
  {
    t / SecondsPerDay
  }

  /**
   * The mask `Created At >= start and Created At <= end`; a null date
   * compares false with both bounds.
   */
  function InWindow(createdAt: Option<Timestamp>, start: Day, end: Day): (kept: bool)
    ensures kept ==> createdAt.Some? && start <= DayOf(createdAt.value) <= end
  {
    createdAt.Some? && Midnight(start) <= createdAt.value <= Midnight(end)
  }

  /** The restaurants of the list whose creation date is in the window, in list order. */
  function NewRestaurants(registry: seq<Restaurant>, start: Day, end: Day): (kept: seq<Restaurant>)
    ensures |kept| <= |registry|
    ensures forall r :: r in kept <==> r in registry && InWindow(r.createdAt, start, end)
    ensures forall r :: multiset(kept)[r] == if InWindow(r.createdAt, start, end) then multiset(registry)[r] else 0
  {
    Filtering.Filter(registry, (r: Restaurant) => InWindow(r.createdAt, start, end))
  }

  /** A restaurant whose creation date did not parse is never new. */
  lemma MissingDateNeverKept(registry: seq<Restaurant>, r: Restaurant, start: Day, end: Day)
    requires r.createdAt == None
    ensures r !in NewRestaurants(registry, start, end)
  {
  }

  /**
   * Day-level reading of the window: a creation time on day `d` is kept iff
   * `start <= d <= end`, except that on the end date only the very first
   * instant (midnight) is kept.
   */
  lemma {:induction false} InWindowByDay(t: Timestamp, start: Day, end: Day)
    ensures InWindow(Some(t), start, end) <==>
      start <= DayOf(t) && (DayOf(t) < end || t == Midnight(end))
  {
    var d := DayOf(t);
    if start <= d {
      assert Midnight(start) <= Midnight(d) by { MidnightMonotone(start, d); }
    } else {
      assert Midnight(d + 1) <= Midnight(start) by { MidnightMonotone(d + 1, start); }
    }
    if d < end {
      assert Midnight(d + 1) <= Midnight(end) by { MidnightMonotone(d + 1, end); }
    } else if d > end {
      assert Midnight(end + 1) <= Midnight(d) by { MidnightMonotone(end + 1, d); }
    }
  }

  /** Both bounds are inclusive: a restaurant created at midnight of either bound date is new. */
  lemma BoundsInclusive(start: Day, end: Day)
    requires start <= end
    ensures InWindow(Some(Midnight(start)), start, end)
    ensures InWindow(Some(Midnight(end)), start, end)
  {
    MidnightMonotone(start, end);
  }

  lemma MidnightMonotone(a: Day, b: Day)
    requires a <= b
    ensures Midnight(a) <= Midnight(b)
  {
  }
}
