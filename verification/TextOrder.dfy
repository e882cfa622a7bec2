/** The order of strings by code points, sorting without duplicates, and sorting by a text key. */
module TextOrder {

  predicate AtMost(a: string, b: string) {
    if a == "" then true
    else if b == "" then false
    else if a[0] != b[0] then a[0] < b[0]
    else AtMost(a[1..], b[1..])
  }

  predicate Below(a: string, b: string) {
    !AtMost(b, a)
  }

  lemma {:induction false} Total(a: string, b: string)
    ensures AtMost(a, b) || AtMost(b, a)
  {
    if a != "" && b != "" && a[0] == b[0] {
      Total(a[1..], b[1..]);
    }
  }

  lemma {:induction false} Antisymmetric(a: string, b: string)
    requires AtMost(a, b) && AtMost(b, a)
    ensures a == b
  {
    if a != "" && b != "" {
      Antisymmetric(a[1..], b[1..]);
      assert a == [a[0]] + a[1..] && b == [b[0]] + b[1..];
    }
  }

  lemma {:induction false} Transitive(a: string, b: string, c: string)
    requires AtMost(a, b) && AtMost(b, c)
    ensures AtMost(a, c)
  {
    if a != "" && a[0] == b[0] == c[0] {
      Transitive(a[1..], b[1..], c[1..]);
    }
  }

  // ---- sorted(set(...)) ----

  ghost predicate StrictlySorted(s: seq<string>) {
    forall i, j | 0 <= i < j < |s| :: Below(s[i], s[j])
  }

  function InsertNew(s: seq<string>, x: string): seq<string> {
    if s == [] then [x]
    else if x == s[0] then s
    else if AtMost(x, s[0]) then [x] + s
    else [s[0]] + InsertNew(s[1..], x)
  }

  /** `sorted(set(xs))`. */
  function SortedSet(xs: seq<string>): seq<string> {
    if xs == [] then [] else InsertNew(SortedSet(xs[..|xs| - 1]), xs[|xs| - 1])
  }

  function Elements(xs: seq<string>): set<string> {
    set x | x in xs
  }

  ghost predicate AllAbove(s: seq<string>, x: string) {
    forall i | 0 <= i < |s| :: Below(x, s[i])
  }

  lemma StrictlySortedCons(x: string, s: seq<string>)
    ensures StrictlySorted([x] + s) <==> AllAbove(s, x) && StrictlySorted(s)
  {
    var all := [x] + s;
    assert all[0] == x;
    assert forall i | 0 <= i < |s| :: all[i + 1] == s[i];
  }

  lemma BelowAll(x: string, y: string, s: seq<string>)
    requires Below(x, y) && AllAbove(s, y)
    ensures AllAbove(s, x)
  {
    forall i | 0 <= i < |s| ensures Below(x, s[i]) {
      Total(x, y);
      if AtMost(s[i], x) {
        Transitive(s[i], x, y);
      }
    }
  }

  /** Neighbours in order are enough. */
  lemma {:induction false} SortedByNeighbours(s: seq<string>)
    requires forall i | 0 <= i < |s| - 1 :: Below(s[i], s[i + 1])
    ensures StrictlySorted(s)
    decreases |s|
  {
    if |s| > 1 {
      var rest := s[1..];
      SortedByNeighbours(rest);
      assert rest == [rest[0]] + rest[1..] && s == [s[0]] + rest;
      StrictlySortedCons(rest[0], rest[1..]);
      BelowAll(s[0], rest[0], rest[1..]);
      StrictlySortedCons(s[0], rest);
    }
  }

  lemma {:induction false} InsertNewElements(s: seq<string>, x: string)
    ensures Elements(InsertNew(s, x)) == Elements(s) + {x}
  {
    if s != [] && x != s[0] && !AtMost(x, s[0]) {
      InsertNewElements(s[1..], x);
      assert s == [s[0]] + s[1..];
      assert Elements([s[0]] + InsertNew(s[1..], x)) == {s[0]} + Elements(InsertNew(s[1..], x));
      assert Elements(s) == {s[0]} + Elements(s[1..]);
    }
  }

  lemma AboveByElements(s: seq<string>, t: seq<string>, head: string, x: string)
    requires AllAbove(s, head) && Below(head, x) && Elements(t) == Elements(s) + {x}
    ensures AllAbove(t, head)
  {
    forall i | 0 <= i < |t| ensures Below(head, t[i]) {
      assert t[i] in Elements(t);
    }
  }

  lemma AboveHead(s: seq<string>, x: string)
    requires s != [] && StrictlySorted(s) && x != s[0] && AtMost(x, s[0])
    ensures AllAbove(s, x)
  {
    if AtMost(s[0], x) {
      Antisymmetric(x, s[0]);
    }
    assert s == [s[0]] + s[1..];
    StrictlySortedCons(s[0], s[1..]);
    BelowAll(x, s[0], s[1..]);
  }

  lemma {:induction false} InsertNewSorts(s: seq<string>, x: string)
    requires StrictlySorted(s)
    ensures StrictlySorted(InsertNew(s, x))
  {
    if s != [] && x != s[0] {
      if AtMost(x, s[0]) {
        AboveHead(s, x);
        StrictlySortedCons(x, s);
      } else {
        var tail := s[1..];
        assert s == [s[0]] + tail;
        StrictlySortedCons(s[0], tail);
        InsertNewSorts(tail, x);
        InsertNewElements(tail, x);
        AboveByElements(tail, InsertNew(tail, x), s[0], x);
        StrictlySortedCons(s[0], InsertNew(tail, x));
      }
    }
  }

  lemma {:induction false} SortedSetSorts(xs: seq<string>)
    ensures StrictlySorted(SortedSet(xs)) && Elements(SortedSet(xs)) == Elements(xs)
    decreases |xs|
  {
    if xs != [] {
      var front, last := xs[..|xs| - 1], xs[|xs| - 1];
      SortedSetSorts(front);
      InsertNewSorts(SortedSet(front), last);
      InsertNewElements(SortedSet(front), last);
      assert xs == front + [last];
    }
  }

  lemma SomeElement(b: seq<string>)
    ensures b != [] ==> Elements(b) != {}
  {
    if b != [] {
      assert b[0] in Elements(b);
    }
  }

  /** A strictly sorted list is determined by its elements. */
  lemma {:induction false} StrictlySortedUnique(a: seq<string>, b: seq<string>)
    requires StrictlySorted(a) && StrictlySorted(b) && Elements(a) == Elements(b)
    ensures a == b
  {
    if a == [] {
      SomeElement(b);
    } else {
      assert a[0] in Elements(b) && b != [];
      assert b[0] in Elements(a);
      SameHead(a, b);
      assert a == [a[0]] + a[1..] && b == [b[0]] + b[1..];
      StrictlySortedCons(a[0], a[1..]);
      StrictlySortedCons(b[0], b[1..]);
      TailElements(a);
      TailElements(b);
      StrictlySortedUnique(a[1..], b[1..]);
    }
  }

  lemma TailElements(a: seq<string>)
    requires a != [] && StrictlySorted(a)
    ensures Elements(a[1..]) == Elements(a) - {a[0]}
  {
    assert a == [a[0]] + a[1..];
    StrictlySortedCons(a[0], a[1..]);
    Total(a[0], a[0]);
    forall x | x in a[1..] ensures x != a[0] {
      var i :| 0 <= i < |a[1..]| && a[1..][i] == x;
      assert Below(a[0], a[1..][i]);
    }
  }

  lemma SameHead(a: seq<string>, b: seq<string>)
    requires StrictlySorted(a) && StrictlySorted(b) && a != [] && b != []
    requires a[0] in b && b[0] in a
    ensures a[0] == b[0]
  {
    var i :| 0 <= i < |b| && b[i] == a[0];
    var j :| 0 <= j < |a| && a[j] == b[0];
    if i > 0 && j > 0 {
      assert Below(b[0], b[i]) && Below(a[0], a[j]);
      Total(a[0], b[0]);
    }
  }

  /** `sorted(set(xs))` depends on the set alone, and tells sets apart. */
  lemma SortedSetIff(xs: seq<string>, ys: seq<string>)
    ensures SortedSet(xs) == SortedSet(ys) <==> Elements(xs) == Elements(ys)
  {
    SortedSetSorts(xs);
    SortedSetSorts(ys);
    if Elements(xs) == Elements(ys) {
      StrictlySortedUnique(SortedSet(xs), SortedSet(ys));
    }
  }

  // ---- Sorting by a text key ----

  ghost predicate SortedByText<T(!new)>(s: seq<T>, key: T -> string) {
    forall i, j | 0 <= i < j < |s| :: AtMost(key(s[i]), key(s[j]))
  }

  function InsertByText<T(!new)>(s: seq<T>, x: T, key: T -> string): seq<T> {
    if s == [] then [x]
    else if AtMost(key(s[|s| - 1]), key(x)) then s + [x]
    else InsertByText(s[..|s| - 1], x, key) + [s[|s| - 1]]
  }

  /** `sorted(s, key=...)`. */
  function SortByText<T(!new)>(s: seq<T>, key: T -> string): seq<T> {
    if s == [] then [] else InsertByText(SortByText(s[..|s| - 1], key), s[|s| - 1], key)
  }

  lemma SortedSnoc<T(!new)>(s: seq<T>, x: T, key: T -> string)
    ensures SortedByText(s + [x], key) <==> SortedByText(s, key) && forall i | 0 <= i < |s| :: AtMost(key(s[i]), key(x))
  {
    var all := s + [x];
    assert all[|s|] == x;
    assert forall i | 0 <= i < |s| :: all[i] == s[i];
  }

  lemma {:induction false} InsertByTextSorts<T(!new)>(s: seq<T>, x: T, key: T -> string)
    requires SortedByText(s, key)
    ensures SortedByText(InsertByText(s, x, key), key)
    ensures multiset(InsertByText(s, x, key)) == multiset(s) + multiset{x}
    decreases |s|
  {
    if s != [] {
      var front, last := s[..|s| - 1], s[|s| - 1];
      assert s == front + [last];
      SortedSnoc(front, last, key);
      if AtMost(key(last), key(x)) {
        forall i | 0 <= i < |s| ensures AtMost(key(s[i]), key(x)) {
          if i < |front| { Transitive(key(s[i]), key(last), key(x)); }
        }
        SortedSnoc(s, x, key);
      } else {
        InsertByTextSorts(front, x, key);
        var r := InsertByText(front, x, key);
        Total(key(x), key(last));
        forall i | 0 <= i < |r| ensures AtMost(key(r[i]), key(last)) {
          assert r[i] in multiset(r);
        }
        SortedSnoc(r, last, key);
      }
    }
  }

  lemma {:induction false} SortByTextSorts<T(!new)>(s: seq<T>, key: T -> string)
    ensures SortedByText(SortByText(s, key), key) && multiset(SortByText(s, key)) == multiset(s)
    decreases |s|
  {
    if s != [] {
      var front, last := s[..|s| - 1], s[|s| - 1];
      SortByTextSorts(front, key);
      InsertByTextSorts(SortByText(front, key), last, key);
      FrontBag(s);
    }
  }

  ghost predicate TellsApart<T(!new)>(s: seq<T>, key: T -> string) {
    forall x, y | x in s && y in s && key(x) == key(y) :: x == y
  }

  lemma FrontBag<T>(s: seq<T>)
    requires s != []
    ensures multiset(s[..|s| - 1]) == multiset(s) - multiset{s[|s| - 1]}
  {
    assert s == s[..|s| - 1] + [s[|s| - 1]];
  }

  lemma InOther<T>(a: seq<T>, b: seq<T>, x: T)
    requires multiset(a) == multiset(b) && x in a
    ensures x in b
  {
    assert x in multiset(a);
  }

  lemma SameLast<T(!new)>(a: seq<T>, b: seq<T>, key: T -> string)
    requires SortedByText(a, key) && SortedByText(b, key) && multiset(a) == multiset(b) && TellsApart(a, key)
    requires a != [] && b != []
    ensures a[|a| - 1] == b[|b| - 1]
    ensures multiset(a[..|a| - 1]) == multiset(b[..|b| - 1])
  {
    var x, y := a[|a| - 1], b[|b| - 1];
    InOther(a, b, x);
    InOther(b, a, y);
    LastIsLargest(a, y, key);
    LastIsLargest(b, x, key);
    Antisymmetric(key(x), key(y));
    FrontBag(a);
    FrontBag(b);
  }

  /** With a key that tells elements apart, the sorted permutation is unique. */
  lemma {:induction false} SortedUnique<T(!new)>(a: seq<T>, b: seq<T>, key: T -> string)
    requires SortedByText(a, key) && SortedByText(b, key) && multiset(a) == multiset(b) && TellsApart(a, key)
    ensures a == b
    decreases |a|
  {
    assert |multiset(a)| == |a| && |multiset(b)| == |b|;
    if a != [] {
      SameLast(a, b, key);
      var front, back := a[..|a| - 1], b[..|b| - 1];
      SortedUnique(front, back, key);
      assert a == front + [a[|a| - 1]] && b == back + [b[|b| - 1]];
    }
  }

  lemma LastIsLargest<T(!new)>(s: seq<T>, x: T, key: T -> string)
    requires SortedByText(s, key) && x in s
    ensures AtMost(key(x), key(s[|s| - 1]))
  {
    var i :| 0 <= i < |s| && s[i] == x;
    Total(key(x), key(x));
  }
}
