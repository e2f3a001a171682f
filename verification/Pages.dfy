/** What one `list` call of the store hands over when it asks for no limit: a first page, in the order of ids. */
module Pages {
  import opened Sorting

  const PAGE_SIZE := 50

  /** The page of entities that are already in the order of their ids. */
  function FirstPage<T>(s: seq<T>): (r: seq<T>)
    ensures |r| <= PAGE_SIZE && (|s| <= PAGE_SIZE ==> r == s)
  {
    if |s| <= PAGE_SIZE then s else s[..PAGE_SIZE]
  }

  /** A page is what comes first, and as much of it as a page holds. */
  lemma PageComesFirst<T>(s: seq<T>)
    ensures FirstPage(s) <= s && |FirstPage(s)| == if |s| < PAGE_SIZE then |s| else PAGE_SIZE
  {
  }

  lemma {:induction false} TakeAfterInsert<T(!new)>(after: (T, T) -> bool, s: seq<T>, x: T, n: nat)
    requires Ordering(after) && Ordered(after, s) && 1 <= n <= |s|
    ensures n <= |Insert(after, s, x)|
    ensures Insert(after, s, x)[..n] == if after(s[n - 1], x) then Insert(after, s[..n - 1], x) else s[..n]
  {
    InsertAdds(after, s, x);
    var init, last := s[..|s| - 1], s[|s| - 1];
    if !after(last, x) {
      assert n < |s| ==> !after(s[n - 1], last);
    } else if n < |s| {
      TakeAfterInsert(after, init, x, n);
      InsertAdds(after, init, x);
      assert Insert(after, s, x)[..n] == Insert(after, init, x)[..n];
      assert init[..n] == s[..n] && init[..n - 1] == s[..n - 1];
    } else {
      InsertAdds(after, init, x);
    }
  }

  /**
   * What one more entity makes of a page. While the page is not full it joins; then it is either
   * past the page, which stays as it was, or before the last on it, which it pushes off.
   */
  lemma PageAfterInsert<T(!new)>(after: (T, T) -> bool, s: seq<T>, x: T)
    requires Ordering(after) && Ordered(after, s)
    ensures FirstPage(Insert(after, s, x)) ==
      if |s| < PAGE_SIZE then Insert(after, s, x)
      else if after(s[PAGE_SIZE - 1], x) then Insert(after, s[..PAGE_SIZE - 1], x)
      else FirstPage(s)
  {
    InsertAdds(after, s, x);
    if |s| >= PAGE_SIZE {
      TakeAfterInsert(after, s, x, PAGE_SIZE);
    }
  }

  // ---- The order of ids --------------------------------------------------------------

  /** Ids are compared character by character. */
  predicate Below(a: string, b: string)
    decreases |a|
  {
    b != "" && (a == "" || a[0] < b[0] || (a[0] == b[0] && Below(a[1..], b[1..])))
  }

  lemma {:induction false} BelowIsStrict(a: string, b: string)
    ensures !(Below(a, b) && Below(b, a))
    decreases |a|
  {
    if a != "" && b != "" {
      BelowIsStrict(a[1..], b[1..]);
    }
  }

  lemma {:induction false} BelowSkips(a: string, b: string, c: string)
    requires Below(a, c)
    ensures Below(a, b) || Below(b, c)
    decreases |a|
  {
    if a != "" && b != "" && a[0] == b[0] == c[0] {
      BelowSkips(a[1..], b[1..], c[1..]);
    }
  }

  lemma {:induction false} BelowIsTotal(a: string, b: string)
    requires a != b
    ensures Below(a, b) || Below(b, a)
    decreases |a|
  {
    if a != "" && b != "" && a[0] == b[0] {
      assert a == [a[0]] + a[1..] && b == [b[0]] + b[1..];
      BelowIsTotal(a[1..], b[1..]);
    }
  }

  /** How many of the ids come before this one. */
  function Place(ids: set<string>, id: string): nat {
    |set other | other in ids && Below(other, id)|
  }

  /** The ids of a first page. */
  function FirstIds(ids: set<string>): (r: set<string>)
    ensures r <= ids
  {
    set id | id in ids && Place(ids, id) < PAGE_SIZE
  }

  lemma SmallerSet(a: set<string>, b: set<string>)
    requires a < b
    ensures |a| < |b|
  {
    var rest := b - a;
    assert b == a + rest && a !! rest && rest != {};
  }

  /** A page holds everything when there is no more than a page of it. */
  lemma OnePageOfIds(ids: set<string>)
    requires |ids| <= PAGE_SIZE
    ensures FirstIds(ids) == ids
  {
    forall id | id in ids ensures Place(ids, id) < PAGE_SIZE {
      var before := set other | other in ids && Below(other, id);
      BelowIsStrict(id, id);
      assert id !in before;
      SmallerSet(before, ids);
    }
  }
}
