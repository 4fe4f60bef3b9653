/** Row selection by a boolean mask, as `df[mask]` and `df.loc[mask]` do. */
module Filtering {

  /** The elements of `s` that satisfy `p`, in their original order. */
  function Filter<T(!new)>(s: seq<T>, p: T -> bool): (r: seq<T>)
    ensures |r| <= |s|
    ensures forall x :: x in r <==> x in s && p(x)
    ensures forall x :: multiset(r)[x] == if p(x) then multiset(s)[x] else 0
  {
    if s == [] then []
    else
      assert s == [s[0]] + s[1..];
      if p(s[0]) then [s[0]] + Filter(s[1..], p) else Filter(s[1..], p)
  }

  /** Selecting from a concatenation selects from each part. */
  lemma {:induction false} FilterConcat<T(!new)>(a: seq<T>, b: seq<T>, p: T -> bool)
    ensures Filter(a + b, p) == Filter(a, p) + Filter(b, p)
  {
    if a == [] {
      assert a + b == b;
    } else {
      var ab := a + b;
      assert ab[0] == a[0];
      assert ab[1..] == a[1..] + b;
      FilterConcat(a[1..], b, p);
      if p(a[0]) {
        calc {
          Filter(ab, p);
          [a[0]] + Filter(a[1..] + b, p);
          [a[0]] + (Filter(a[1..], p) + Filter(b, p));
          ([a[0]] + Filter(a[1..], p)) + Filter(b, p);
        }
      }
    }
  }

  lemma FilterCons<T(!new)>(s: seq<T>, p: T -> bool)
    requires s != []
    ensures Filter(s, p) == (if p(s[0]) then [s[0]] else []) + Filter(s[1..], p)
  {
  }

  /** An element the mask rejects can be dropped before selecting. */
  lemma FilterSkip<T(!new)>(a: seq<T>, x: T, b: seq<T>, p: T -> bool)
    requires !p(x)
    ensures Filter(a + [x] + b, p) == Filter(a + b, p)
  {
    FilterConcat(a + [x], b, p);
    FilterConcat(a, [x], p);
    FilterConcat(a, b, p);
    FilterCons([x], p);
    assert [x][1..] == [];
    assert Filter(a, p) + [] == Filter(a, p);
  }

  /** Inserting an unselected element at any position of a sequence leaves the selection unchanged. */
  lemma FilterInsertAt<T(!new)>(s: seq<T>, x: T, i: nat, p: T -> bool)
    requires i <= |s| && !p(x)
    ensures Filter(s[..i] + [x] + s[i..], p) == Filter(s, p)
  {
    var before, after := s[..i], s[i..];
    calc {
      Filter(before + [x] + after, p);
    == { FilterSkip(before, x, after, p); }
      Filter(before + after, p);
    == { assert before + after == s; }
      Filter(s, p);
    }
  }
}
