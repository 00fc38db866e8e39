/** Stable sorting by an integer key, the way Python's `sorted(..., key=...)` orders.

    Sorting is a permutation, the result is sorted, and elements with equal keys keep their
    order. A list without equal keys has one sorted arrangement, so any arrangement of it
    is sorted to the same list. */
module StableSort {

  ghost predicate SortedBy<T>(s: seq<T>, key: T -> int) {
    forall i | 0 < i < |s| :: key(s[i - 1]) <= key(s[i])
  }

  ghost predicate StrictlySortedBy<T>(s: seq<T>, key: T -> int) {
    forall i | 0 < i < |s| :: key(s[i - 1]) < key(s[i])
  }

  /** Puts `x` before the first element whose key is not smaller. */
  function Insert<T>(x: T, s: seq<T>, key: T -> int): (r: seq<T>)
    requires SortedBy(s, key)
    ensures SortedBy(r, key)
    ensures |r| == |s| + 1
    ensures r[0] == x || (s != [] && r[0] == s[0])
  {
    if s == [] || key(x) <= key(s[0]) then [x] + s
    else
      var rest := Insert(x, s[1..], key);
      [s[0]] + rest
  }

  function SortBy<T>(s: seq<T>, key: T -> int): (r: seq<T>)
    ensures SortedBy(r, key)
    ensures |r| == |s|
  {
    if s == [] then [] else Insert(s[0], SortBy(s[1..], key), key)
  }

  lemma {:induction false} InsertKeepsElements<T>(x: T, s: seq<T>, key: T -> int)
    requires SortedBy(s, key)
    ensures multiset(Insert(x, s, key)) == multiset{x} + multiset(s)
  {
    if s != [] {
      assert s == [s[0]] + s[1..];
      if key(x) > key(s[0]) {
        InsertKeepsElements(x, s[1..], key);
      }
    }
  }

  lemma {:induction false} SortIsPermutation<T>(s: seq<T>, key: T -> int)
    ensures multiset(SortBy(s, key)) == multiset(s)
    ensures forall x :: x in SortBy(s, key) <==> x in s
  {
    if s != [] {
      assert s == [s[0]] + s[1..];
      SortIsPermutation(s[1..], key);
      InsertKeepsElements(s[0], SortBy(s[1..], key), key);
    }
    assert forall x :: x in SortBy(s, key) <==> x in multiset(SortBy(s, key));
  }

  /** The elements with one key, in order. */
  function OfKey<T>(s: seq<T>, key: T -> int, k: int): seq<T> {
    if s == [] then [] else (if key(s[0]) == k then [s[0]] else []) + OfKey(s[1..], key, k)
  }

  lemma {:induction false} InsertIsStable<T>(x: T, s: seq<T>, key: T -> int, k: int)
    requires SortedBy(s, key)
    ensures OfKey(Insert(x, s, key), key, k) == (if key(x) == k then [x] else []) + OfKey(s, key, k)
  {
    if s == [] || key(x) <= key(s[0]) {
      OfKeyFirst(x, s, key, k);
    } else {
      InsertIsStable(x, s[1..], key, k);
      OfKeyFirst(s[0], Insert(x, s[1..], key), key, k);
      OfKeyFirst(s[0], s[1..], key, k);
      assert [s[0]] + s[1..] == s;
    }
  }

  lemma OfKeyFirst<T>(x: T, s: seq<T>, key: T -> int, k: int)
    ensures OfKey([x] + s, key, k) == (if key(x) == k then [x] else []) + OfKey(s, key, k)
  {
    assert ([x] + s)[1..] == s;
  }

  /** Sorting is stable: elements with equal keys keep their order. */
  lemma {:induction false} SortIsStable<T>(s: seq<T>, key: T -> int, k: int)
    ensures OfKey(SortBy(s, key), key, k) == OfKey(s, key, k)
  {
    if s != [] {
      SortIsStable(s[1..], key, k);
      InsertIsStable(s[0], SortBy(s[1..], key), key, k);
    }
  }

  lemma {:induction false} SortedOrder<T>(s: seq<T>, key: T -> int, i: nat, j: nat)
    requires SortedBy(s, key) && i <= j < |s|
    ensures key(s[i]) <= key(s[j])
    decreases j - i
  {
    if i < j {
      SortedOrder(s, key, i, j - 1);
    }
  }

  lemma {:induction false} StrictOrder<T>(s: seq<T>, key: T -> int, i: nat, j: nat)
    requires StrictlySortedBy(s, key) && i < j < |s|
    ensures key(s[i]) < key(s[j])
    decreases j - i
  {
    if i < j - 1 {
      StrictOrder(s, key, i, j - 1);
    }
  }

  /** A list without equal keys has only one sorted arrangement. */
  lemma {:induction false} SortedIsUnique<T>(a: seq<T>, b: seq<T>, key: T -> int)
    requires StrictlySortedBy(a, key) && SortedBy(b, key) && multiset(a) == multiset(b)
    ensures a == b
  {
    SameLength(a, b);
    if a != [] {
      SameFirst(a, b, key);
      assert a == [a[0]] + a[1..] && b == [b[0]] + b[1..];
      SameRest(a, b);
      SortedIsUnique(a[1..], b[1..], key);
    }
  }

  lemma SameLength<T>(a: seq<T>, b: seq<T>)
    requires multiset(a) == multiset(b)
    ensures |a| == |b|
  {
    assert |a| == |multiset(a)| == |multiset(b)| == |b|;
  }

  lemma SameRest<T>(a: seq<T>, b: seq<T>)
    requires a != [] && b != [] && a[0] == b[0] && multiset(a) == multiset(b)
    ensures multiset(a[1..]) == multiset(b[1..])
  {
    assert a == [a[0]] + a[1..] && b == [b[0]] + b[1..];
    assert multiset(a[1..]) == multiset(a) - multiset{a[0]};
    assert multiset(b[1..]) == multiset(b) - multiset{b[0]};
  }

  lemma SameFirst<T>(a: seq<T>, b: seq<T>, key: T -> int)
    requires StrictlySortedBy(a, key) && SortedBy(b, key) && multiset(a) == multiset(b) && a != [] && b != []
    ensures a[0] == b[0]
  {
    assert a[0] in multiset(b) && b[0] in multiset(a);
    var i :| 0 <= i < |b| && b[i] == a[0];
    var j :| 0 <= j < |a| && a[j] == b[0];
    SortedOrder(b, key, 0, i);
    if j > 0 {
      StrictOrder(a, key, 0, j);
      assert false;
    }
  }

  /** Sorting any arrangement of a list without equal keys gives the one sorted list. */
  lemma SortPermutation<T>(a: seq<T>, sorted: seq<T>, key: T -> int)
    requires StrictlySortedBy(sorted, key) && multiset(a) == multiset(sorted)
    ensures SortBy(a, key) == sorted
  {
    SortIsPermutation(a, key);
    SortedIsUnique(sorted, SortBy(a, key), key);
  }
}
