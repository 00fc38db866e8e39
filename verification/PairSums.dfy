/** Collecting something over all elements and over all unordered pairs of a list.

    `Sum` adds what every element contributes, `Row` what one element contributes with
    each of the later ones, `Pairs` all rows together, as two nested loops over i < j
    do. Contributions are multisets, so nothing is lost when two pairs yield the same.
    The lemmas count what each pair of positions contributes, and say exactly when the
    whole does not depend on the order of the list. */
module PairSums {

  /** What `one` gives for every element. */
  function Sum<T, F>(s: seq<T>, one: T -> multiset<F>): multiset<F> {
    if s == [] then multiset{} else one(s[0]) + Sum(s[1..], one)
  }

  /** What `pair` gives for `a` with each of the others. */
  function Row<T, F>(a: T, others: seq<T>, pair: (T, T) -> multiset<F>): multiset<F> {
    if others == [] then multiset{} else pair(a, others[0]) + Row(a, others[1..], pair)
  }

  /** What `pair` gives for every element with each later one. */
  function Pairs<T, F>(s: seq<T>, pair: (T, T) -> multiset<F>): multiset<F> {
    if s == [] then multiset{} else Row(s[0], s[1..], pair) + Pairs(s[1..], pair)
  }

  // ------------------------------------------------ one for each pair

  ghost function RowPositions<T, F>(a: T, others: seq<T>, pair: (T, T) -> multiset<F>, f: F): set<int> {
    set j | 0 <= j < |others| && f in pair(a, others[j])
  }

  /** The unordered pairs of positions that yield `f`. */
  ghost function PairPositions<T, F>(s: seq<T>, pair: (T, T) -> multiset<F>, f: F): set<(int, int)> {
    set i, j | 0 <= i < j < |s| && f in pair(s[i], s[j]) :: (i, j)
  }

  lemma {:induction false} ImageSize<A(!new), B>(s: set<A>, t: set<B>, f: A -> B)
    requires forall a | a in s :: f(a) in t
    requires forall b | b in t :: exists a :: a in s && f(a) == b
    requires forall a, a' | a in s && a' in s && f(a) == f(a') :: a == a'
    ensures |s| == |t|
    decreases s
  {
    if s == {} {
      assert t == {};
    } else {
      var x :| x in s;
      forall b | b in t - {f(x)} ensures exists a :: a in s - {x} && f(a) == b {
        var a :| a in s && f(a) == b;
        assert a in s - {x};
      }
      ImageSize(s - {x}, t - {f(x)}, f);
    }
  }

  lemma {:induction false} RowCount<T, F>(a: T, others: seq<T>, pair: (T, T) -> multiset<F>, f: F)
    requires forall x, y :: pair(x, y)[f] <= 1
    ensures Row(a, others, pair)[f] == |RowPositions(a, others, pair, f)|
  {
    if others != [] {
      RowCount(a, others[1..], pair, f);
      var rest, all := RowPositions(a, others[1..], pair, f), RowPositions(a, others, pair, f);
      var up := (k: int) => k + 1;
      forall j | j in all - {0} ensures exists k :: k in rest && up(k) == j {
        assert j - 1 in rest && up(j - 1) == j;
      }
      ImageSize(rest, all - {0}, up);
      assert 0 in all <==> f in pair(a, others[0]);
    }
  }

  lemma {:induction false} PairCount<T, F>(s: seq<T>, pair: (T, T) -> multiset<F>, f: F)
    requires forall x, y :: pair(x, y)[f] <= 1
    ensures Pairs(s, pair)[f] == |PairPositions(s, pair, f)|
  {
    if s != [] {
      PairCount(s[1..], pair, f);
      RowCount(s[0], s[1..], pair, f);
      SplitPositions(s, pair, f);
    }
  }

  lemma SplitPositions<T, F>(s: seq<T>, pair: (T, T) -> multiset<F>, f: F)
    requires s != []
    ensures |PairPositions(s, pair, f)| == |RowPositions(s[0], s[1..], pair, f)| + |PairPositions(s[1..], pair, f)|
  {
    var all := PairPositions(s, pair, f);
    var first, later := set p | p in all && p.0 == 0, set p | p in all && p.0 != 0;
    assert all == first + later && first !! later;
    FirstRow(s, pair, f, first);
    LaterRows(s, pair, f, later);
  }

  lemma FirstRow<T, F>(s: seq<T>, pair: (T, T) -> multiset<F>, f: F, first: set<(int, int)>)
    requires s != [] && first == set p | p in PairPositions(s, pair, f) && p.0 == 0
    ensures |first| == |RowPositions(s[0], s[1..], pair, f)|
  {
    var row := RowPositions(s[0], s[1..], pair, f);
    var toRow := (j: int) => (0, j + 1);
    forall p | p in first ensures exists j :: j in row && toRow(j) == p {
      assert p.1 - 1 in row && toRow(p.1 - 1) == p;
    }
    ImageSize(row, first, toRow);
  }

  lemma LaterRows<T, F>(s: seq<T>, pair: (T, T) -> multiset<F>, f: F, later: set<(int, int)>)
    requires s != [] && later == set p | p in PairPositions(s, pair, f) && p.0 != 0
    ensures |later| == |PairPositions(s[1..], pair, f)|
  {
    var block := PairPositions(s[1..], pair, f);
    var shift := (p: (int, int)) => (p.0 + 1, p.1 + 1);
    forall p | p in later ensures exists q :: q in block && shift(q) == p {
      assert (p.0 - 1, p.1 - 1) in block && shift((p.0 - 1, p.1 - 1)) == p;
    }
    ImageSize(block, later, shift);
  }

  // ------------------------------------------------------ rearranging

  function Remove<T>(s: seq<T>, i: nat): seq<T>
    requires i < |s|
  {
    s[..i] + s[i + 1..]
  }

  lemma RemoveFromTail<T>(s: seq<T>, i: nat)
    requires 0 < i < |s|
    ensures Remove(s, i)[0] == s[0]
    ensures Remove(s, i)[1..] == Remove(s[1..], i - 1)
  {
  }

  lemma RemoveTakesOne<T>(s: seq<T>, i: nat)
    requires i < |s|
    ensures multiset(s) == multiset(Remove(s, i)) + multiset{s[i]}
    ensures forall x | x in Remove(s, i) :: x in s
  {
    assert s == s[..i] + [s[i]] + s[i + 1..];
  }

  lemma {:induction false} SumRemove<T, F>(s: seq<T>, i: nat, one: T -> multiset<F>)
    requires i < |s|
    ensures Sum(s, one) == one(s[i]) + Sum(Remove(s, i), one)
  {
    if i == 0 {
      assert Remove(s, 0) == s[1..];
    } else {
      RemoveFromTail(s, i);
      SumRemove(s[1..], i - 1, one);
    }
  }

  lemma {:induction false} RowRemove<T, F>(a: T, others: seq<T>, i: nat, pair: (T, T) -> multiset<F>)
    requires i < |others|
    ensures Row(a, others, pair) == pair(a, others[i]) + Row(a, Remove(others, i), pair)
  {
    if i == 0 {
      assert Remove(others, 0) == others[1..];
    } else {
      RemoveFromTail(others, i);
      RowRemove(a, others[1..], i - 1, pair);
    }
  }

  /** Taking one element out takes out its pairs with all the others. */
  lemma {:induction false} PairsRemove<T, F>(s: seq<T>, i: nat, pair: (T, T) -> multiset<F>)
    requires i < |s|
    requires forall a | a in s :: pair(a, s[i]) == pair(s[i], a)
    ensures Pairs(s, pair) == Row(s[i], Remove(s, i), pair) + Pairs(Remove(s, i), pair)
  {
    if i == 0 {
      assert Remove(s, 0) == s[1..];
    } else {
      assert forall a | a in s[1..] :: a in s;
      assert s[0] in s;
      PairsRemove(s[1..], i - 1, pair);
      RowRemove(s[0], s[1..], i - 1, pair);
      RemoveFromTail(s, i);
    }
  }

  /** The position in `t` of the first element of the rearranged list `s`. */
  lemma Find<T>(s: seq<T>, t: seq<T>) returns (i: nat)
    requires multiset(s) == multiset(t) && s != []
    ensures i < |t| && t[i] == s[0] && multiset(s[1..]) == multiset(Remove(t, i))
    ensures forall x | x in Remove(t, i) :: x in t
  {
    assert s[0] in multiset(t);
    i :| 0 <= i < |t| && t[i] == s[0];
    RemoveTakesOne(t, i);
    assert s == [s[0]] + s[1..];
    assert multiset(s[1..]) == multiset(s) - multiset{s[0]};
  }

  lemma {:induction false} RowPermutes<T, F>(a: T, s: seq<T>, t: seq<T>, pair: (T, T) -> multiset<F>)
    requires multiset(s) == multiset(t)
    ensures Row(a, s, pair) == Row(a, t, pair)
    decreases |s|
  {
    if s == [] {
      assert |multiset(t)| == 0;
    } else {
      var i := Find(s, t);
      RowPermutes(a, s[1..], Remove(t, i), pair);
      RowRemove(a, t, i, pair);
    }
  }

  lemma {:induction false} SumPermutes<T, F>(s: seq<T>, t: seq<T>, one: T -> multiset<F>)
    requires multiset(s) == multiset(t)
    ensures Sum(s, one) == Sum(t, one)
    decreases |s|
  {
    if s == [] {
      assert |multiset(t)| == 0;
    } else {
      var i := Find(s, t);
      SumPermutes(s[1..], Remove(t, i), one);
      SumRemove(t, i, one);
    }
  }

  lemma {:induction false} PairsPermute<T, F>(s: seq<T>, t: seq<T>, pair: (T, T) -> multiset<F>)
    requires multiset(s) == multiset(t)
    requires forall a, b | a in t && b in t :: pair(a, b) == pair(b, a)
    ensures Pairs(s, pair) == Pairs(t, pair)
    decreases |s|
  {
    if s == [] {
      assert |multiset(t)| == 0;
    } else {
      var i := Find(s, t);
      PairsPermute(s[1..], Remove(t, i), pair);
      RowPermutes(s[0], s[1..], Remove(t, i), pair);
      PairsRemove(t, i, pair);
    }
  }

  /** Two different elements can be moved to the front, in either order. */
  lemma BringToFront<T>(s: seq<T>, a: T, b: T) returns (rest: seq<T>)
    requires a in s && b in s && a != b
    ensures multiset([a] + ([b] + rest)) == multiset(s) == multiset([b] + ([a] + rest))
  {
    var i :| 0 <= i < |s| && s[i] == a;
    RemoveTakesOne(s, i);
    var others := Remove(s, i);
    assert b in multiset(others);
    var j :| 0 <= j < |others| && others[j] == b;
    RemoveTakesOne(others, j);
    rest := Remove(others, j);
  }

  lemma PairsOfTwo<T, F>(a: T, b: T, rest: seq<T>, pair: (T, T) -> multiset<F>)
    ensures Pairs([a] + ([b] + rest), pair) ==
            pair(a, b) + (Row(a, rest, pair) + Row(b, rest, pair) + Pairs(rest, pair))
  {
    var s, t := [a] + ([b] + rest), [b] + rest;
    assert s[1..] == t && t[1..] == rest;
    assert Row(a, t, pair) == pair(a, b) + Row(a, rest, pair);
  }

  ghost predicate SymmetricOn<T, F>(s: seq<T>, pair: (T, T) -> multiset<F>) {
    forall a, b | a in s && b in s :: pair(a, b) == pair(b, a)
  }

  ghost predicate OrderIndependent<T(!new), F>(s: seq<T>, pair: (T, T) -> multiset<F>) {
    forall t | multiset(t) == multiset(s) :: Pairs(t, pair) == Pairs(s, pair)
  }

  lemma AsymmetryShows<T(!new), F>(s: seq<T>, pair: (T, T) -> multiset<F>, a: T, b: T)
    requires a in s && b in s && pair(a, b) != pair(b, a)
    ensures !OrderIndependent(s, pair)
  {
    var rest := BringToFront(s, a, b);
    var ab, ba := [a] + ([b] + rest), [b] + ([a] + rest);
    assert Pairs(ab, pair) != Pairs(ba, pair) by { TwoDiffer(a, b, rest, pair); }
  }

  lemma TwoDiffer<T, F>(a: T, b: T, rest: seq<T>, pair: (T, T) -> multiset<F>)
    requires pair(a, b) != pair(b, a)
    ensures Pairs([a] + ([b] + rest), pair) != Pairs([b] + ([a] + rest), pair)
  {
    var x, y, z := Row(a, rest, pair), Row(b, rest, pair), Pairs(rest, pair);
    assert x + y + z == y + x + z;
    CancelCommon(pair(a, b), pair(b, a), x + y + z);
    PairsOfTwo(a, b, rest, pair);
    PairsOfTwo(b, a, rest, pair);
  }

  lemma CancelCommon<F>(x: multiset<F>, y: multiset<F>, common: multiset<F>)
    requires x != y
    ensures x + common != y + common
  {
    assert (x + common) - common == x && (y + common) - common == y;
  }

  /** The pairs are independent of the order exactly when `pair` is symmetric on the list. */
  lemma PairsOrderIndependentIff<T(!new), F>(s: seq<T>, pair: (T, T) -> multiset<F>)
    ensures OrderIndependent(s, pair) <==> SymmetricOn(s, pair)
  {
    if SymmetricOn(s, pair) {
      forall t | multiset(t) == multiset(s) ensures Pairs(t, pair) == Pairs(s, pair) {
        PairsPermute(t, s, pair);
      }
    } else {
      var a, b :| a in s && b in s && pair(a, b) != pair(b, a);
      AsymmetryShows(s, pair, a, b);
    }
  }
}
