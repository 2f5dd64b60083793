/**
 * A stable sort by an integer key. It stands for Python's `list.sort(key=...)`, which is
 * stable; `StableSortUnique` shows that every stable sort of a list gives this same list, so
 * the insertion sort used here is exact for any stable sorting algorithm.
 */
module Sorting {

  /** Keys never decrease along `s`. */
  ghost predicate SortedBy<T>(s: seq<T>, key: T -> int) {
    forall i, j :: 0 <= i < j < |s| ==> key(s[i]) <= key(s[j])
  }

  /** The elements of `s` whose key is `k`, in their order in `s`. */
  function WithKey<T>(s: seq<T>, key: T -> int, k: int): seq<T> {
    if s == [] then []
    else (if key(s[0]) == k then [s[0]] else []) + WithKey(s[1..], key, k)
  }

  /** `s` with `x` put before the first element whose key is at least `x`'s. */
  function Insert<T>(x: T, s: seq<T>, key: T -> int): seq<T> {
    if s == [] || key(x) <= key(s[0]) then [x] + s
    else [s[0]] + Insert(x, s[1..], key)
  }

  /** Insertion sort, ascending by `key`; equal keys keep their relative order. */
  function Sort<T>(s: seq<T>, key: T -> int): seq<T> {
    if s == [] then [] else Insert(s[0], Sort(s[1..], key), key)
  }

  lemma {:induction false} InsertPermutes<T>(x: T, s: seq<T>, key: T -> int)
    ensures multiset(Insert(x, s, key)) == multiset(s) + multiset{x}
  {
    if s != [] && key(x) > key(s[0]) {
      InsertPermutes(x, s[1..], key);
      assert s == [s[0]] + s[1..];
    }
  }

  lemma {:induction false} InsertSorted<T>(x: T, s: seq<T>, key: T -> int)
    requires SortedBy(s, key)
    ensures SortedBy(Insert(x, s, key), key)
  {
    var r := Insert(x, s, key);
    if s != [] && key(x) > key(s[0]) {
      var t := Insert(x, s[1..], key);
      InsertSorted(x, s[1..], key);
      InsertPermutes(x, s[1..], key);
      assert r == [s[0]] + t;
      forall j | 0 < j < |r| ensures key(r[0]) <= key(r[j]) {
        assert r[j] == t[j - 1];
        assert r[j] in multiset(s[1..]) + multiset{x};
        if r[j] != x {
          var m :| 0 <= m < |s[1..]| && s[1..][m] == r[j];
          assert s[m + 1] == r[j];
        }
      }
    }
  }

  lemma {:induction false} InsertWithKey<T>(x: T, s: seq<T>, key: T -> int, k: int)
    ensures WithKey(Insert(x, s, key), key, k) == (if key(x) == k then [x] else []) + WithKey(s, key, k)
  {
    var r := Insert(x, s, key);
    if s == [] || key(x) <= key(s[0]) {
      assert r[1..] == s;
    } else {
      var t := Insert(x, s[1..], key);
      InsertWithKey(x, s[1..], key, k);
      assert r[1..] == t;
    }
  }

  lemma {:induction false} SortSorted<T>(s: seq<T>, key: T -> int)
    ensures SortedBy(Sort(s, key), key)
  {
    if s != [] {
      SortSorted(s[1..], key);
      InsertSorted(s[0], Sort(s[1..], key), key);
    }
  }

  lemma {:induction false} SortPermutes<T>(s: seq<T>, key: T -> int)
    ensures multiset(Sort(s, key)) == multiset(s)
  {
    if s != [] {
      SortPermutes(s[1..], key);
      InsertPermutes(s[0], Sort(s[1..], key), key);
      assert s == [s[0]] + s[1..];
    }
  }

  lemma {:induction false} SortKeepsKeyOrder<T>(s: seq<T>, key: T -> int, k: int)
    ensures WithKey(Sort(s, key), key, k) == WithKey(s, key, k)
  {
    if s != [] {
      SortKeepsKeyOrder(s[1..], key, k);
      InsertWithKey(s[0], Sort(s[1..], key), key, k);
    }
  }

  /** The sort orders by key, permutes its input, and keeps the order of equal keys. */
  lemma SortFacts<T>(s: seq<T>, key: T -> int)
    ensures SortedBy(Sort(s, key), key)
    ensures multiset(Sort(s, key)) == multiset(s)
    ensures forall k :: WithKey(Sort(s, key), key, k) == WithKey(s, key, k)
    ensures |Sort(s, key)| == |s|
  {
    SortSorted(s, key);
    SortPermutes(s, key);
    forall k ensures WithKey(Sort(s, key), key, k) == WithKey(s, key, k) {
      SortKeepsKeyOrder(s, key, k);
    }
    assert |multiset(Sort(s, key))| == |multiset(s)|;
  }

  lemma {:induction false} WithKeyMembers<T>(s: seq<T>, key: T -> int, k: int)
    ensures forall x :: x in WithKey(s, key, k) ==> x in s && key(x) == k
  {
    if s != [] {
      WithKeyMembers(s[1..], key, k);
      assert s == [s[0]] + s[1..];
    }
  }

  lemma WithKeyOfHead<T>(s: seq<T>, key: T -> int)
    ensures s != [] ==> WithKey(s, key, key(s[0])) != []
  {
  }

  /**
   * A list is determined by being sorted by key together with the order of the elements of
   * each key: any two stable sorts of one list are the same list.
   */
  lemma {:induction false} StableSortUnique<T>(a: seq<T>, b: seq<T>, key: T -> int)
    requires SortedBy(a, key) && SortedBy(b, key)
    requires forall k :: WithKey(a, key, k) == WithKey(b, key, k)
    ensures a == b
    decreases |a| + |b|
  {
    if a == [] && b == [] {
    } else if a == [] {
      WithKeyOfHead(b, key);
      assert false;
    } else if b == [] {
      WithKeyOfHead(a, key);
      assert false;
    } else {
      HeadsAgree(a, b, key);
      TailsAgree(a, b, key);
      StableSortUnique(a[1..], b[1..], key);
      assert a == [a[0]] + a[1..] && b == [b[0]] + b[1..];
    }
  }

  /** Two key-sorted lists with the same elements per key start with the same element. */
  lemma HeadsAgree<T>(a: seq<T>, b: seq<T>, key: T -> int)
    requires a != [] && b != [] && SortedBy(a, key) && SortedBy(b, key)
    requires forall k :: WithKey(a, key, k) == WithKey(b, key, k)
    ensures a[0] == b[0]
  {
    var ka, kb := key(a[0]), key(b[0]);
    WithKeyMembers(a, key, kb);
    WithKeyMembers(b, key, ka);
    var wa := WithKey(a, key, kb);
    assert wa == WithKey(b, key, kb) && wa[0] == b[0];
    assert wa[0] in a;
    var ia :| 0 <= ia < |a| && a[ia] == wa[0];
    var wb := WithKey(b, key, ka);
    assert wb == WithKey(a, key, ka) && wb[0] == a[0];
    assert wb[0] in b;
    var ib :| 0 <= ib < |b| && b[ib] == wb[0];
    assert ka <= key(a[ia]) == kb;
    assert kb <= key(b[ib]) == ka;
  }

  /** Dropping the same head from both keeps the elements per key equal. */
  lemma TailsAgree<T>(a: seq<T>, b: seq<T>, key: T -> int)
    requires a != [] && b != [] && a[0] == b[0]
    requires forall k :: WithKey(a, key, k) == WithKey(b, key, k)
    ensures forall k :: WithKey(a[1..], key, k) == WithKey(b[1..], key, k)
  {
    forall k ensures WithKey(a[1..], key, k) == WithKey(b[1..], key, k) {
      var p := if key(a[0]) == k then [a[0]] else [];
      assert WithKey(a, key, k) == p + WithKey(a[1..], key, k);
      assert WithKey(b, key, k) == p + WithKey(b[1..], key, k);
      assert (p + WithKey(a[1..], key, k))[|p|..] == WithKey(a[1..], key, k);
      assert (p + WithKey(b[1..], key, k))[|p|..] == WithKey(b[1..], key, k);
    }
  }
}
