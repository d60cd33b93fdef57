/** `Array.prototype.sort` with a comparator that subtracts numeric keys,
    where a missing key is `Number.POSITIVE_INFINITY`.  The built-in sort is
    stable, and `Infinity - Infinity` is NaN, which the sort treats as
    "equal", so the comparator is the total order on keys below.  The sort
    is specified here by insertion, each element placed after every element
    whose key is not greater. */
module StableSort {

  /** A sort key: a time in milliseconds, or +infinity. */
  datatype Key = Fin(n: int) | PosInf

  predicate KeyLe(a: Key, b: Key) {
    b.PosInf? || (a.Fin? && a.n <= b.n)
  }

  predicate SortedBy<T>(s: seq<T>, key: T -> Key) {
    forall i, j | 0 <= i < j < |s| :: KeyLe(key(s[i]), key(s[j]))
  }

  /** The elements of `s` whose key is `k`, in order. */
  function WithKey<T>(s: seq<T>, key: T -> Key, k: Key): (r: seq<T>)
    ensures |r| <= |s|
  {
    if s == [] then [] else WithKey(s[..|s| - 1], key, k) + (if key(s[|s| - 1]) == k then [s[|s| - 1]] else [])
  }

  lemma {:induction false} WithKeyAppend<T>(s: seq<T>, t: seq<T>, key: T -> Key, k: Key)
    ensures WithKey(s + t, key, k) == WithKey(s, key, k) + WithKey(t, key, k)
    decreases |t|
  {
    if t == [] {
      assert s + t == s;
    } else {
      assert (s + t)[..|s + t| - 1] == s + t[..|t| - 1];
      WithKeyAppend(s, t[..|t| - 1], key, k);
    }
  }

  /** Places `x` after the elements of `s` whose key is not greater than its own. */
  function Insert<T>(s: seq<T>, x: T, key: T -> Key): (r: seq<T>)
    ensures |r| == |s| + 1
  {
    if s == [] || KeyLe(key(s[|s| - 1]), key(x)) then s + [x]
    else Insert(s[..|s| - 1], x, key) + [s[|s| - 1]]
  }

  /** The stable sort of `s` by `key`. */
  function Sort<T>(s: seq<T>, key: T -> Key): (r: seq<T>)
    ensures |r| == |s|
  {
    if s == [] then [] else Insert(Sort(s[..|s| - 1], key), s[|s| - 1], key)
  }

  /** Every element of an insertion is the new one or an old one. */
  lemma {:induction false} InsertMembers<T>(s: seq<T>, x: T, key: T -> Key)
    ensures multiset(Insert(s, x, key)) == multiset(s) + multiset{x}
    decreases |s|
  {
    if !(s == [] || KeyLe(key(s[|s| - 1]), key(x))) {
      var p, last := s[..|s| - 1], s[|s| - 1];
      assert s == p + [last];
      InsertMembers(p, x, key);
    }
  }

  lemma {:induction false} InsertSorted<T>(s: seq<T>, x: T, key: T -> Key)
    requires SortedBy(s, key)
    ensures SortedBy(Insert(s, x, key), key)
    decreases |s|
  {
    if !(s == [] || KeyLe(key(s[|s| - 1]), key(x))) {
      var p, last := s[..|s| - 1], s[|s| - 1];
      assert SortedBy(p, key);
      InsertSorted(p, x, key);
      InsertMembers(p, x, key);
      var q := Insert(p, x, key);
      forall i | 0 <= i < |q| ensures KeyLe(key(q[i]), key(last)) {
        assert q[i] in multiset(q);
        if q[i] != x {
          assert q[i] in multiset(p);
          var j :| 0 <= j < |p| && p[j] == q[i];
          assert s[j] == p[j];
        }
      }
    }
  }

  lemma {:induction false} InsertWithKey<T>(s: seq<T>, x: T, key: T -> Key, k: Key)
    requires SortedBy(s, key)
    ensures WithKey(Insert(s, x, key), key, k) == WithKey(s, key, k) + (if key(x) == k then [x] else [])
    decreases |s|
  {
    if s == [] || KeyLe(key(s[|s| - 1]), key(x)) {
      var r := s + [x];
      assert r[..|r| - 1] == s;
    } else {
      var p, last := s[..|s| - 1], s[|s| - 1];
      assert SortedBy(p, key);
      InsertWithKey(p, x, key, k);
      assert s == p + [last];
      InsertPast(p, last, x, key, k);
    }
  }

  /** The step of `InsertWithKey` when `x` goes before the last element. */
  lemma InsertPast<T>(p: seq<T>, last: T, x: T, key: T -> Key, k: Key)
    requires !KeyLe(key(last), key(x))
    requires WithKey(Insert(p, x, key), key, k) == WithKey(p, key, k) + (if key(x) == k then [x] else [])
    ensures WithKey(Insert(p + [last], x, key), key, k) == WithKey(p + [last], key, k) + (if key(x) == k then [x] else [])
  {
    InsertSnoc(p, last, x, key);
    WithKeySnoc(Insert(p, x, key), last, key, k);
    WithKeySnoc(p, last, key, k);
    if key(x) == k {
      assert key(last) != k;
    }
  }

  lemma WithKeySnoc<T>(s: seq<T>, y: T, key: T -> Key, k: Key)
    ensures WithKey(s + [y], key, k) == WithKey(s, key, k) + (if key(y) == k then [y] else [])
  {
    assert (s + [y])[..|s|] == s;
  }

  lemma InsertSnoc<T>(p: seq<T>, last: T, x: T, key: T -> Key)
    requires !KeyLe(key(last), key(x))
    ensures Insert(p + [last], x, key) == Insert(p, x, key) + [last]
  {
    assert (p + [last])[..|p|] == p;
  }

  /** The result is ordered by key. */
  lemma {:induction false} SortSorted<T>(s: seq<T>, key: T -> Key)
    ensures SortedBy(Sort(s, key), key)
    ensures multiset(Sort(s, key)) == multiset(s)
    decreases |s|
  {
    if s != [] {
      var p := s[..|s| - 1];
      SortSorted(p, key);
      InsertSorted(Sort(p, key), s[|s| - 1], key);
      InsertMembers(Sort(p, key), s[|s| - 1], key);
      assert s == p + [s[|s| - 1]];
    }
  }

  /** The sort is a permutation. */
  lemma SortPermutation<T>(s: seq<T>, key: T -> Key)
    ensures multiset(Sort(s, key)) == multiset(s)
  {
    SortSorted(s, key);
  }

  /** Elements with equal keys keep their relative order. */
  lemma {:induction false} SortStable<T>(s: seq<T>, key: T -> Key, k: Key)
    ensures WithKey(Sort(s, key), key, k) == WithKey(s, key, k)
    decreases |s|
  {
    if s != [] {
      var p := s[..|s| - 1];
      SortStable(p, key, k);
      SortSorted(p, key);
      InsertWithKey(Sort(p, key), s[|s| - 1], key, k);
    }
  }

  /** A list already in key order is left as it is. */
  lemma {:induction false} SortOfSorted<T>(s: seq<T>, key: T -> Key)
    requires SortedBy(s, key)
    ensures Sort(s, key) == s
    decreases |s|
  {
    if s != [] {
      var p := s[..|s| - 1];
      assert SortedBy(p, key);
      SortOfSorted(p, key);
      if |p| > 0 {
        assert KeyLe(key(p[|p| - 1]), key(s[|s| - 1]));
      }
      assert p + [s[|s| - 1]] == s;
    }
  }
}
