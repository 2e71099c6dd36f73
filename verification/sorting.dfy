/** A stable sort by an integer key, the behaviour of JavaScript's
    `Array.prototype.sort` with a comparator `(a, b) => key(a) - key(b)`
    (the language has required a stable sort since ES2019). */
module Sorting {

  predicate SortedBy<T>(s: seq<T>, key: T -> int)
  {
    forall i, j :: 0 <= i < j < |s| ==> key(s[i]) <= key(s[j])
  }

  /** The elements of `s` whose key is `k`, in their order in `s`. */
  function WithKey<T>(s: seq<T>, key: T -> int, k: int): (r: seq<T>)
  {
    if s == [] then []
    else (if key(s[0]) == k then [s[0]] else []) + WithKey(s[1..], key, k)
  }

  lemma {:induction false} WithKeyAppend<T>(a: seq<T>, b: seq<T>, key: T -> int, k: int)
    ensures WithKey(a + b, key, k) == WithKey(a, key, k) + WithKey(b, key, k)
  {
    if a == [] {
      assert a + b == b;
    } else {
      var ab := a + b;
      var head := if key(a[0]) == k then [a[0]] else [];
      assert ab[0] == a[0] && ab[1..] == a[1..] + b;
      assert WithKey(ab, key, k) == head + WithKey(a[1..] + b, key, k);
      WithKeyAppend(a[1..], b, key, k);
      assert head + (WithKey(a[1..], key, k) + WithKey(b, key, k)) == (head + WithKey(a[1..], key, k)) + WithKey(b, key, k);
    }
  }

  lemma {:induction false} WithKeyAbsent<T>(s: seq<T>, key: T -> int, k: int)
    requires forall i :: 0 <= i < |s| ==> key(s[i]) != k
    ensures WithKey(s, key, k) == []
  {
    if s != [] {
      WithKeyAbsent(s[1..], key, k);
    }
  }

  /** Inserts `x` into `s` after every leading element whose key is at most
      `key(x)`; on a sorted `s` this keeps equal keys in insertion order. */
  function Insert<T>(x: T, s: seq<T>, key: T -> int): (r: seq<T>)
  {
    if s == [] || key(x) < key(s[0]) then [x] + s
    else [s[0]] + Insert(x, s[1..], key)
  }

  lemma {:induction false} InsertPermutes<T>(x: T, s: seq<T>, key: T -> int)
    ensures multiset(Insert(x, s, key)) == multiset(s) + multiset{x}
  {
    if !(s == [] || key(x) < key(s[0])) {
      InsertPermutes(x, s[1..], key);
      assert s == [s[0]] + s[1..];
    }
  }

  lemma {:induction false} InsertSorted<T>(x: T, s: seq<T>, key: T -> int)
    requires SortedBy(s, key)
    ensures SortedBy(Insert(x, s, key), key)
    ensures |Insert(x, s, key)| == |s| + 1
    ensures Insert(x, s, key)[0] == x || Insert(x, s, key)[0] == s[0]
  {
    if !(s == [] || key(x) < key(s[0])) {
      InsertSorted(x, s[1..], key);
    }
  }

  lemma {:induction false} InsertStable<T>(x: T, s: seq<T>, key: T -> int, k: int)
    requires SortedBy(s, key)
    ensures WithKey(Insert(x, s, key), key, k) == WithKey(s, key, k) + (if key(x) == k then [x] else [])
  {
    var r := Insert(x, s, key);
    if s == [] {
    } else if key(x) < key(s[0]) {
      assert r[1..] == s;
      if key(x) == k {
        WithKeyAbsent(s, key, k);
      }
    } else {
      var t := Insert(x, s[1..], key);
      assert SortedBy(s[1..], key) by {
        forall i, j | 0 <= i < j < |s[1..]| ensures key(s[1..][i]) <= key(s[1..][j]) {
          assert s[1..][i] == s[i + 1] && s[1..][j] == s[j + 1];
        }
      }
      InsertStable(x, s[1..], key, k);
      assert r == [s[0]] + t;
      assert r[0] == s[0] && r[1..] == t;
      calc {
        WithKey(r, key, k);
        (if key(s[0]) == k then [s[0]] else []) + WithKey(t, key, k);
        (if key(s[0]) == k then [s[0]] else []) + WithKey(s[1..], key, k) + (if key(x) == k then [x] else []);
      }
    }
  }

  /** Insertion sort, inserting the elements of `s` from left to right. */
  function SortBy<T>(s: seq<T>, key: T -> int): seq<T>
  {
    if s == [] then [] else Insert(s[|s| - 1], SortBy(s[..|s| - 1], key), key)
  }

  /** The sort returns a permutation of its input, ordered by key, and keeps
      the elements of each key in their input order (stability). */
  lemma {:induction false} SortByCorrect<T>(s: seq<T>, key: T -> int)
    ensures |SortBy(s, key)| == |s|
    ensures SortedBy(SortBy(s, key), key)
    ensures multiset(SortBy(s, key)) == multiset(s)
    ensures forall k :: WithKey(SortBy(s, key), key, k) == WithKey(s, key, k)
  {
    if s != [] {
      var init, last := s[..|s| - 1], s[|s| - 1];
      var sorted := SortBy(init, key);
      SortByCorrect(init, key);
      InsertSorted(last, sorted, key);
      InsertPermutes(last, sorted, key);
      assert s == init + [last];
      forall k ensures WithKey(SortBy(s, key), key, k) == WithKey(s, key, k) {
        SortByStableStep(s, key, k);
      }
    }
  }

  /** The last element joins the elements of its key after those sorted
      before it. */
  lemma SortByStableStep<T>(s: seq<T>, key: T -> int, k: int)
    requires s != []
    requires SortedBy(SortBy(s[..|s| - 1], key), key)
    requires WithKey(SortBy(s[..|s| - 1], key), key, k) == WithKey(s[..|s| - 1], key, k)
    ensures WithKey(SortBy(s, key), key, k) == WithKey(s, key, k)
  {
    var init, last := s[..|s| - 1], s[|s| - 1];
    InsertStable(last, SortBy(init, key), key, k);
    WithKeyAppend(init, [last], key, k);
    assert s == init + [last];
    assert WithKey([last], key, k) == (if key(last) == k then [last] else []) by {
      assert [last][1..] == [];
    }
  }
}
