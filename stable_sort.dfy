/** Python's `list.sort(key=..., reverse=True)` and `sorted(..., reverse=True)`
    on a non-negative integer key: the result is ordered by key, largest first,
    and the sort is stable, so entries with equal keys keep their order. The
    library's algorithm is not modelled, only the list it produces, which
    sortedness and stability determine. */
module StableSort {

  /** Largest key first. */
  predicate SortedDesc<T>(s: seq<T>, key: T -> nat) {
    forall i, j :: 0 <= i < j < |s| ==> key(s[i]) >= key(s[j])
  }

  /** The entries of `s` whose key is `v`, in the order of `s`. */
  function WithKey<T>(s: seq<T>, key: T -> nat, v: nat): seq<T> {
    if s == [] then []
    else (if key(s[0]) == v then [s[0]] else []) + WithKey(s[1..], key, v)
  }

  /** Inserts `x` into the descending `s` after every entry whose key is at
      least as large as its own. */
  function Insert<T>(x: T, s: seq<T>, key: T -> nat): seq<T> {
    if s == [] then [x]
    else if key(s[0]) < key(x) then [x] + s
    else [s[0]] + Insert(x, s[1..], key)
  }

  /** The list that a stable descending sort by `key` returns. */
  function SortDesc<T>(s: seq<T>, key: T -> nat): seq<T> {
    if s == [] then [] else Insert(s[|s| - 1], SortDesc(s[..|s| - 1], key), key)
  }

  /** The sorted list is ordered largest key first, is a permutation of the
      input, and keeps the relative order of the entries of every key: for
      each key value, the sorted list and the input list the same entries in
      the same order. */
  lemma {:induction false} SortDescCorrect<T>(s: seq<T>, key: T -> nat)
    ensures SortedDesc(SortDesc(s, key), key)
    ensures multiset(SortDesc(s, key)) == multiset(s)
    ensures forall v :: WithKey(SortDesc(s, key), key, v) == WithKey(s, key, v)
    decreases |s|
  {
    if s != [] {
      var init, x := s[..|s| - 1], s[|s| - 1];
      var t := SortDesc(init, key);
      SortDescCorrect(init, key);
      InsertCorrect(x, t, key);
      assert s == init + [x];
      forall v ensures WithKey(SortDesc(s, key), key, v) == WithKey(s, key, v) {
        InsertKeepsOrder(x, t, key, v);
        WithKeyAppend(init, [x], key, v);
        assert [x][1..] == [];
      }
    }
  }

  lemma InsertCorrect<T>(x: T, s: seq<T>, key: T -> nat)
    requires SortedDesc(s, key)
    ensures SortedDesc(Insert(x, s, key), key)
    ensures multiset(Insert(x, s, key)) == multiset(s) + multiset{x}
  {
    InsertPermutes(x, s, key);
    InsertSorted(x, s, key);
  }

  lemma {:induction false} InsertPermutes<T>(x: T, s: seq<T>, key: T -> nat)
    ensures multiset(Insert(x, s, key)) == multiset(s) + multiset{x}
    decreases |s|
  {
    if s != [] && key(s[0]) >= key(x) {
      InsertPermutes(x, s[1..], key);
      assert s == [s[0]] + s[1..];
    }
  }

  lemma {:induction false} InsertSorted<T>(x: T, s: seq<T>, key: T -> nat)
    requires SortedDesc(s, key)
    ensures SortedDesc(Insert(x, s, key), key)
    decreases |s|
  {
    if s != [] && key(s[0]) >= key(x) {
      var r := Insert(x, s[1..], key);
      InsertSorted(x, s[1..], key);
      InsertPermutes(x, s[1..], key);
      forall k | 0 <= k < |r| ensures key(s[0]) >= key(r[k]) {
        assert r[k] in multiset(r);
        if r[k] != x {
          assert r[k] in multiset(s[1..]);
          var j :| 0 <= j < |s[1..]| && s[1..][j] == r[k];
          assert s[j + 1] == r[k];
        }
      }
    }
  }

  lemma {:induction false} InsertKeepsOrder<T>(x: T, s: seq<T>, key: T -> nat, v: nat)
    requires SortedDesc(s, key)
    ensures WithKey(Insert(x, s, key), key, v) == WithKey(s, key, v) + (if key(x) == v then [x] else [])
    decreases |s|
  {
    if s == [] {
      assert [x][1..] == [];
    } else if key(s[0]) < key(x) {
      assert ([x] + s)[1..] == s;
      if key(x) == v {
        NoneWithKey(s, key, v);
      }
    } else {
      assert ([s[0]] + Insert(x, s[1..], key))[1..] == Insert(x, s[1..], key);
      InsertKeepsOrder(x, s[1..], key, v);
    }
  }

  lemma {:induction false} NoneWithKey<T>(s: seq<T>, key: T -> nat, v: nat)
    requires forall k :: 0 <= k < |s| ==> key(s[k]) < v
    ensures WithKey(s, key, v) == []
    decreases |s|
  {
    if s != [] {
      NoneWithKey(s[1..], key, v);
    }
  }

  lemma {:induction false} WithKeyAppend<T>(a: seq<T>, b: seq<T>, key: T -> nat, v: nat)
    ensures WithKey(a + b, key, v) == WithKey(a, key, v) + WithKey(b, key, v)
    decreases |a|
  {
    if a == [] {
      assert a + b == b;
    } else {
      var here := if key(a[0]) == v then [a[0]] else [];
      assert (a + b)[0] == a[0];
      assert (a + b)[1..] == a[1..] + b;
      assert WithKey(a + b, key, v) == here + WithKey(a[1..] + b, key, v);
      WithKeyAppend(a[1..], b, key, v);
      assert WithKey(a, key, v) == here + WithKey(a[1..], key, v);
    }
  }

  /** The sum of the keys of the entries of `s`. */
  function SumKeys<T>(s: seq<T>, key: T -> nat): nat {
    if s == [] then 0 else key(s[0]) + SumKeys(s[1..], key)
  }

  lemma {:induction false} SumKeysAppend<T>(a: seq<T>, b: seq<T>, key: T -> nat)
    ensures SumKeys(a + b, key) == SumKeys(a, key) + SumKeys(b, key)
    decreases |a|
  {
    if a == [] {
      assert a + b == b;
    } else {
      assert (a + b)[1..] == a[1..] + b;
      SumKeysAppend(a[1..], b, key);
    }
  }

  lemma {:induction false} InsertKeepsSum<T>(x: T, s: seq<T>, key: T -> nat)
    ensures SumKeys(Insert(x, s, key), key) == SumKeys(s, key) + key(x)
    decreases |s|
  {
    if s != [] && key(s[0]) >= key(x) {
      InsertKeepsSum(x, s[1..], key);
      assert ([s[0]] + Insert(x, s[1..], key))[1..] == Insert(x, s[1..], key);
    } else if s != [] {
      assert ([x] + s)[1..] == s;
    }
  }

  /** Sorting does not change the sum of the keys. */
  lemma {:induction false} SortKeepsSum<T>(s: seq<T>, key: T -> nat)
    ensures SumKeys(SortDesc(s, key), key) == SumKeys(s, key)
    decreases |s|
  {
    if s != [] {
      var init, x := s[..|s| - 1], s[|s| - 1];
      SortKeepsSum(init, key);
      InsertKeepsSum(x, SortDesc(init, key), key);
      SumKeysAppend(init, [x], key);
      assert init + [x] == s;
    }
  }
}
