/** Stable sorting by a numeric key, as Python's `sorted(..., key=...)` does it. */
module StableOrder {

  function Filter<T>(s: seq<T>, p: T -> bool): seq<T> {
    if s == [] then []
    else Filter(s[..|s| - 1], p) + if p(s[|s| - 1]) then [s[|s| - 1]] else []
  }

  lemma {:induction false} FilterConcat<T>(a: seq<T>, b: seq<T>, p: T -> bool)
    ensures Filter(a + b, p) == Filter(a, p) + Filter(b, p)
    decreases |b|
  {
    if b == [] {
      assert a + b == a;
    } else {
      var last := |b| - 1;
      assert (a + b)[..|a + b| - 1] == a + b[..last];
      FilterConcat(a, b[..last], p);
    }
  }

  lemma {:induction false} FilterMembers<T>(s: seq<T>, p: T -> bool)
    ensures forall x :: x in Filter(s, p) <==> x in s && p(x)
  {
    if s != [] {
      FilterMembers(s[..|s| - 1], p);
      assert s == s[..|s| - 1] + [s[|s| - 1]];
    }
  }

  function WithKey<T>(key: T -> nat, k: nat): T -> bool {
    (c: T) => key(c) == k
  }

  predicate SortedBy<T(!new)>(s: seq<T>, key: T -> nat) {
    forall i, j | 0 <= i < j < |s| :: key(s[i]) <= key(s[j])
  }

  /** Where `x` goes so that it comes after everything not larger. */
  function Insert<T(!new)>(s: seq<T>, x: T, key: T -> nat): seq<T> {
    if s == [] || key(s[|s| - 1]) <= key(x) then s + [x]
    else Insert(s[..|s| - 1], x, key) + [s[|s| - 1]]
  }

  function StableSort<T(!new)>(s: seq<T>, key: T -> nat): seq<T> {
    if s == [] then [] else Insert(StableSort(s[..|s| - 1], key), s[|s| - 1], key)
  }

  lemma {:induction false} InsertAdds<T(!new)>(s: seq<T>, x: T, key: T -> nat)
    ensures multiset(Insert(s, x, key)) == multiset(s) + multiset{x}
    decreases |s|
  {
    if s != [] && key(s[|s| - 1]) > key(x) {
      assert s == s[..|s| - 1] + [s[|s| - 1]];
      InsertAdds(s[..|s| - 1], x, key);
    }
  }

  lemma {:induction false} InsertSorts<T(!new)>(s: seq<T>, x: T, key: T -> nat)
    requires SortedBy(s, key)
    ensures SortedBy(Insert(s, x, key), key)
    decreases |s|
  {
    if s != [] && key(s[|s| - 1]) > key(x) {
      var front, last := s[..|s| - 1], s[|s| - 1];
      InsertSorts(front, x, key);
      InsertAdds(front, x, key);
      var t := Insert(front, x, key);
      forall i | 0 <= i < |t| ensures key(t[i]) <= key(last) {
        assert t[i] in multiset(t);
        assert t[i] == x || t[i] in multiset(front);
      }
    }
  }

  lemma {:induction false} InsertKeepsOrder<T(!new)>(s: seq<T>, x: T, key: T -> nat, k: nat)
    ensures SortedBy(s, key) ==>
              Filter(Insert(s, x, key), WithKey(key, k)) == Filter(s, WithKey(key, k)) + if key(x) == k then [x] else []
    decreases |s|
  {
    if SortedBy(s, key) {
      var p := WithKey(key, k);
      if s == [] || key(s[|s| - 1]) <= key(x) {
        FilterSnoc(s, x, p);
      } else {
        var front, last := s[..|s| - 1], s[|s| - 1];
        assert s == front + [last];
        InsertKeepsOrder(front, x, key, k);
        FilterSnoc(Insert(front, x, key), last, p);
        FilterSnoc(front, last, p);
        if key(x) == k && key(last) == k {
          assert false;
        }
      }
    }
  }

  lemma FilterSnoc<T>(s: seq<T>, x: T, p: T -> bool)
    ensures Filter(s + [x], p) == Filter(s, p) + if p(x) then [x] else []
  {
  }

  lemma SnocCancel<T>(a: seq<T>, b: seq<T>, x: T)
    requires a + [x] == b + [x]
    ensures a == b
  {
    assert a == (a + [x])[..|a|] && b == (b + [x])[..|b|];
  }

  /** Sorted, the same elements, and elements of equal key in their old order. */
  lemma {:induction false} StableSortCorrect<T(!new)>(s: seq<T>, key: T -> nat, k: nat)
    ensures SortedBy(StableSort(s, key), key)
    ensures multiset(StableSort(s, key)) == multiset(s)
    ensures Filter(StableSort(s, key), WithKey(key, k)) == Filter(s, WithKey(key, k))
    decreases |s|
  {
    if s != [] {
      var front, last := s[..|s| - 1], s[|s| - 1];
      assert s == front + [last];
      StableSortCorrect(front, key, k);
      InsertAdds(StableSort(front, key), last, key);
      InsertSorts(StableSort(front, key), last, key);
      InsertKeepsOrder(StableSort(front, key), last, key, k);
      FilterSnoc(front, last, WithKey(key, k));
    }
  }

  /** No other arrangement is sorted and keeps the order of equal keys. */
  lemma {:induction false} StableSortUnique<T(!new)>(s: seq<T>, t: seq<T>, key: T -> nat)
    requires SortedBy(s, key) && SortedBy(t, key)
    requires forall k: nat :: Filter(s, WithKey(key, k)) == Filter(t, WithKey(key, k))
    ensures s == t
    decreases |s|
  {
    if s == [] {
      if t != [] {
        LastOfFilter(t, key);
        assert false;
      }
    } else {
      LastsAgree(s, t, key);
      var last := s[|s| - 1];
      forall k: nat
        ensures Filter(s[..|s| - 1], WithKey(key, k)) == Filter(t[..|t| - 1], WithKey(key, k))
      {
        var p := WithKey(key, k);
        assert Filter(s, p) == Filter(t, p);
        if key(last) == k {
          SnocCancel(Filter(s[..|s| - 1], p), Filter(t[..|t| - 1], p), last);
        } else {
          assert Filter(s[..|s| - 1], p) + [] == Filter(s[..|s| - 1], p);
          assert Filter(t[..|t| - 1], p) + [] == Filter(t[..|t| - 1], p);
        }
      }
      StableSortUnique(s[..|s| - 1], t[..|t| - 1], key);
      assert s == s[..|s| - 1] + [last] && t == t[..|t| - 1] + [last];
    }
  }

  lemma LastOfFilter<T(!new)>(s: seq<T>, key: T -> nat)
    requires s != []
    ensures var f := Filter(s, WithKey(key, key(s[|s| - 1]))); f != [] && f[|f| - 1] == s[|s| - 1]
  {
  }

  lemma LastsAgree<T(!new)>(s: seq<T>, t: seq<T>, key: T -> nat)
    requires SortedBy(s, key) && SortedBy(t, key) && s != []
    requires forall k: nat :: Filter(s, WithKey(key, k)) == Filter(t, WithKey(key, k))
    ensures t != [] && t[|t| - 1] == s[|s| - 1]
  {
    var x := s[|s| - 1];
    var xs := WithKey(key, key(x));
    LastOfFilter(s, key);
    assert Filter(s, xs) == Filter(t, xs);
    FilterMembers(t, xs);
    assert x in Filter(t, xs);
    assert x in t;
    var y := t[|t| - 1];
    var ys := WithKey(key, key(y));
    LastOfFilter(t, key);
    assert Filter(s, ys) == Filter(t, ys);
    FilterMembers(s, ys);
    assert y in Filter(s, ys);
    assert y in s;
    assert key(y) <= key(x) && key(x) <= key(y);
  }
}
