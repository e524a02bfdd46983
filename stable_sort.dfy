/** Python's `sorted(xs, key=k, reverse=True)` / `xs.sort(key=k, reverse=True)`:
    a stable sort into non-increasing key order. Elements with equal keys keep
    the order they had in the input. */
module StableSort {

  predicate SortedDesc<T>(s: seq<T>, key: T -> int) {
    forall i, j :: 0 <= i < j < |s| ==> key(s[i]) >= key(s[j])
  }

  /** Places `x` after every element whose key is at least its own. */
  function Insert<T>(s: seq<T>, x: T, key: T -> int): seq<T> {
    if s == [] then [x]
    else if key(s[0]) >= key(x) then [s[0]] + Insert(s[1..], x, key)
    else [x] + s
  }

  /** Insertion sort, taking the input from left to right. */
  function SortDesc<T>(s: seq<T>, key: T -> int): seq<T>
    decreases |s|
  {
    if s == [] then [] else Insert(SortDesc(s[..|s| - 1], key), s[|s| - 1], key)
  }

  lemma SortSingle<T>(x: T, key: T -> int)
    ensures SortDesc([x], key) == [x]
  {
    assert [x][..0] == [];
  }

  /** The subsequence of elements whose key is `v`. */
  function WithKey<T>(s: seq<T>, key: T -> int, v: int): seq<T>
    decreases |s|
  {
    if s == [] then [] else WithKey(s[..|s| - 1], key, v) + (if key(s[|s| - 1]) == v then [s[|s| - 1]] else [])
  }

  lemma {:induction false} WithKeyAppend<T>(a: seq<T>, b: seq<T>, key: T -> int, v: int)
    ensures WithKey(a + b, key, v) == WithKey(a, key, v) + WithKey(b, key, v)
    decreases |b|
  {
    if b != [] {
      assert (a + b)[..|a + b| - 1] == a + b[..|b| - 1];
      WithKeyAppend(a, b[..|b| - 1], key, v);
    } else {
      assert a + b == a;
    }
  }

  lemma {:induction false} WithKeyBelow<T>(s: seq<T>, key: T -> int, v: int)
    requires forall i :: 0 <= i < |s| ==> key(s[i]) < v
    ensures WithKey(s, key, v) == []
    decreases |s|
  {
    if s != [] {
      WithKeyBelow(s[..|s| - 1], key, v);
    }
  }

  lemma {:induction false} InsertBounded<T>(s: seq<T>, x: T, key: T -> int, b: int)
    requires forall i :: 0 <= i < |s| ==> key(s[i]) <= b
    requires key(x) <= b
    ensures forall j :: 0 <= j < |Insert(s, x, key)| ==> key(Insert(s, x, key)[j]) <= b
    decreases |s|
  {
    if s != [] && key(s[0]) >= key(x) {
      InsertBounded(s[1..], x, key, b);
    }
  }

  lemma {:induction false} InsertSorted<T>(s: seq<T>, x: T, key: T -> int)
    requires SortedDesc(s, key)
    ensures SortedDesc(Insert(s, x, key), key)
    decreases |s|
  {
    if s == [] {
    } else if key(s[0]) >= key(x) {
      var rest := Insert(s[1..], x, key);
      InsertSorted(s[1..], x, key);
      InsertBounded(s[1..], x, key, key(s[0]));
      assert Insert(s, x, key) == [s[0]] + rest;
    } else {
      assert Insert(s, x, key) == [x] + s;
    }
  }

  lemma {:induction false} InsertMultiset<T>(s: seq<T>, x: T, key: T -> int)
    ensures multiset(Insert(s, x, key)) == multiset(s) + multiset{x}
    decreases |s|
  {
    if s != [] && key(s[0]) >= key(x) {
      InsertMultiset(s[1..], x, key);
      assert s == [s[0]] + s[1..];
    }
  }

  lemma {:induction false} InsertWithKey<T>(s: seq<T>, x: T, key: T -> int, v: int)
    requires SortedDesc(s, key)
    ensures WithKey(Insert(s, x, key), key, v) == WithKey(s, key, v) + WithKey([x], key, v)
    decreases |s|
  {
    if s == [] {
      assert Insert(s, x, key) == [x];
      assert WithKey(s, key, v) == [];
    } else if key(s[0]) >= key(x) {
      InsertWithKey(s[1..], x, key, v);
      InsertAfterHead(s, x, key, v);
    } else {
      InsertAtHead(s, x, key, v);
    }
  }

  lemma InsertAfterHead<T>(s: seq<T>, x: T, key: T -> int, v: int)
    requires s != [] && key(s[0]) >= key(x)
    requires WithKey(Insert(s[1..], x, key), key, v) == WithKey(s[1..], key, v) + WithKey([x], key, v)
    ensures WithKey(Insert(s, x, key), key, v) == WithKey(s, key, v) + WithKey([x], key, v)
  {
    var rest := Insert(s[1..], x, key);
    assert Insert(s, x, key) == [s[0]] + rest;
    WithKeyAppend([s[0]], rest, key, v);
    WithKeyAppend([s[0]], s[1..], key, v);
    assert s == [s[0]] + s[1..];
  }

  lemma InsertAtHead<T>(s: seq<T>, x: T, key: T -> int, v: int)
    requires SortedDesc(s, key)
    requires s != [] && key(s[0]) < key(x)
    ensures WithKey(Insert(s, x, key), key, v) == WithKey(s, key, v) + WithKey([x], key, v)
  {
    assert Insert(s, x, key) == [x] + s;
    WithKeyAppend([x], s, key, v);
    if key(x) == v {
      WithKeyBelow(s, key, v);
    } else {
      WithKeyEmpty(x, key, v);
    }
  }

  lemma WithKeyEmpty<T>(x: T, key: T -> int, v: int)
    requires key(x) != v
    ensures WithKey([x], key, v) == []
  {
    assert [x][..0] == [];
  }

  /** The sort yields the input's elements in non-increasing key order, and
      within each key the elements appear in their input order (stability). */
  lemma {:induction false} SortDescCorrect<T>(s: seq<T>, key: T -> int)
    ensures SortedDesc(SortDesc(s, key), key)
    ensures multiset(SortDesc(s, key)) == multiset(s)
    ensures |SortDesc(s, key)| == |s|
    ensures forall v :: WithKey(SortDesc(s, key), key, v) == WithKey(s, key, v)
    decreases |s|
  {
    if s != [] {
      var init, x := s[..|s| - 1], s[|s| - 1];
      SortDescCorrect(init, key);
      InsertSorted(SortDesc(init, key), x, key);
      InsertMultiset(SortDesc(init, key), x, key);
      forall v ensures WithKey(SortDesc(s, key), key, v) == WithKey(s, key, v) {
        InsertWithKey(SortDesc(init, key), x, key, v);
        WithKeyAppend(init, [x], key, v);
      }
      assert s == init + [x];
      assert multiset(s) == multiset(init) + multiset{x};
      assert |SortDesc(s, key)| == |multiset(SortDesc(s, key))|;
    }
  }
}
