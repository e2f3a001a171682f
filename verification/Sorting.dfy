/** The stable sort that `Array.prototype.sort` is, as an insertion sort. */
module Sorting {

  /** `after(a, b)` says that the comparator puts `a` after `b`; then ties are neither way round. */
  ghost predicate Ordering<T(!new)>(after: (T, T) -> bool) {
    && (forall a, b :: after(a, b) ==> !after(b, a))
    && (forall a, b, c :: !after(a, b) && !after(b, c) ==> !after(a, c))
  }

  ghost predicate Ordered<T>(after: (T, T) -> bool, s: seq<T>) {
    forall i, j :: 0 <= i < j < |s| ==> !after(s[i], s[j])
  }

  function Insert<T>(after: (T, T) -> bool, s: seq<T>, x: T): seq<T> {
    var n := |s| - 1;
    if s == [] || !after(s[n], x) then s + [x] else Insert(after, s[..n], x) + [s[n]]
  }

  function Sort<T>(after: (T, T) -> bool, s: seq<T>): seq<T> {
    if s == [] then [] else Insert(after, Sort(after, s[..|s| - 1]), s[|s| - 1])
  }

  lemma {:induction false} InsertAdds<T>(after: (T, T) -> bool, s: seq<T>, x: T)
    ensures multiset(Insert(after, s, x)) == multiset(s) + multiset{x}
    ensures |Insert(after, s, x)| == |s| + 1
  {
    var n := |s| - 1;
    if s != [] && after(s[n], x) {
      InsertAdds(after, s[..n], x);
      assert s == s[..n] + [s[n]];
    }
  }

  lemma {:induction false} InsertOrders<T(!new)>(after: (T, T) -> bool, s: seq<T>, x: T)
    requires Ordering(after) && Ordered(after, s)
    ensures Ordered(after, Insert(after, s, x))
  {
    var n := |s| - 1;
    if s == [] || !after(s[n], x) {
      forall i | 0 <= i < |s| ensures !after(s[i], x) {
        assert i < n ==> !after(s[i], s[n]);
      }
    } else {
      InsertOrders(after, s[..n], x);
      InsertAdds(after, s[..n], x);
      var r := Insert(after, s[..n], x);
      forall i | 0 <= i < |r| ensures !after(r[i], s[n]) {
        assert r[i] in multiset(s[..n]) + multiset{x} by { assert r[i] in multiset(r); }
        if r[i] != x {
          var k :| 0 <= k < n && s[k] == r[i];
        }
      }
    }
  }

  /** The result is a permutation of the input in the comparator's order. */
  lemma {:induction false} SortOrders<T(!new)>(after: (T, T) -> bool, s: seq<T>)
    requires Ordering(after)
    ensures Ordered(after, Sort(after, s)) && multiset(Sort(after, s)) == multiset(s)
  {
    if s != [] {
      var init, last := s[..|s| - 1], s[|s| - 1];
      assert s == init + [last];
      SortOrders(after, init);
      InsertOrders(after, Sort(after, init), last);
      InsertAdds(after, Sort(after, init), last);
    }
  }

  /** The elements with a property, in their order. */
  function Picked<T>(s: seq<T>, p: T -> bool): seq<T> {
    if s == [] then []
    else if p(s[|s| - 1]) then Picked(s[..|s| - 1], p) + [s[|s| - 1]]
    else Picked(s[..|s| - 1], p)
  }

  lemma PickedOneMore<T>(s: seq<T>, x: T, p: T -> bool)
    ensures Picked(s + [x], p) == if p(x) then Picked(s, p) + [x] else Picked(s, p)
  {
    assert (s + [x])[..|s|] == s;
  }

  lemma {:induction false} InsertIsStable<T(!new)>(after: (T, T) -> bool, s: seq<T>, x: T, p: T -> bool)
    requires forall a, b :: p(a) && p(b) ==> !after(a, b)
    ensures Picked(Insert(after, s, x), p) == if p(x) then Picked(s, p) + [x] else Picked(s, p)
  {
    if s == [] || !after(s[|s| - 1], x) {
      PickedOneMore(s, x, p);
    } else {
      var init, last := s[..|s| - 1], s[|s| - 1];
      InsertIsStable(after, init, x, p);
      PickedOneMore(Insert(after, init, x), last, p);
      PickedOneMore(init, last, p);
      assert s == init + [last];
    }
  }

  /** Elements that the comparator ties keep the order they came in. */
  lemma {:induction false} SortIsStable<T(!new)>(after: (T, T) -> bool, s: seq<T>, p: T -> bool)
    requires forall a, b :: p(a) && p(b) ==> !after(a, b)
    ensures Picked(Sort(after, s), p) == Picked(s, p)
  {
    if s != [] {
      var init, last := s[..|s| - 1], s[|s| - 1];
      SortIsStable(after, init, p);
      InsertIsStable(after, Sort(after, init), last, p);
      PickedOneMore(init, last, p);
      assert s == init + [last];
    }
  }
}
