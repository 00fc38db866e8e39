/** A bounded deque that also forgets expired items from its front.

    `Retains` relates such a deque to everything that was ever added: whatever is missing
    from the last `max` items is older than a cutoff. Appending and expiring keep that, for
    items with times in any order. That is why forgetting cannot be noticed: counting live
    items in the deque is counting them among the last `max` items of the full history. */
module BoundedWindow {

  function Count<T>(s: seq<T>, p: T -> bool): nat {
    if s == [] then 0 else (if p(s[0]) then 1 else 0) + Count(s[1..], p)
  }

  lemma {:induction false} CountSplit<T>(s: seq<T>, t: seq<T>, p: T -> bool)
    ensures Count(s + t, p) == Count(s, p) + Count(t, p)
  {
    if s == [] {
      assert s + t == t;
    } else {
      assert (s + t)[1..] == s[1..] + t;
      CountSplit(s[1..], t, p);
    }
  }

  /** The positions from `from` on whose items satisfy `p`. */
  ghost function Positions<T>(s: seq<T>, from: nat, p: T -> bool): set<int> {
    set i | from <= i < |s| && p(s[i])
  }

  /** Counting in a list from some position on is counting positions. */
  lemma {:induction false} CountPositions<T>(s: seq<T>, from: nat, p: T -> bool)
    requires from <= |s|
    ensures Count(s[from..], p) == |Positions(s, from, p)|
    decreases |s|
  {
    if from < |s| {
      var n := |s| - 1;
      CountPositions(s[..n], from, p);
      assert s[from..] == s[..n][from..] + [s[n]];
      CountSplit(s[..n][from..], [s[n]], p);
      OneMorePosition(s, from, p);
    }
  }

  lemma OneMorePosition<T>(s: seq<T>, from: nat, p: T -> bool)
    requires from < |s|
    ensures |Positions(s, from, p)| == |Positions(s[..|s| - 1], from, p)| + if p(s[|s| - 1]) then 1 else 0
  {
    var n := |s| - 1;
    var before := Positions(s[..n], from, p);
    assert Positions(s, from, p) == if p(s[n]) then before + {n} else before;
  }

  lemma {:induction false} CountNone<T>(s: seq<T>, p: T -> bool)
    requires forall x | x in s :: !p(x)
    ensures Count(s, p) == 0
  {
    if s != [] {
      CountNone(s[1..], p);
    }
  }

  /** Where one list is never counted beyond the other, the counts are equal only if no position differs. */
  lemma {:induction false} CountCompare<T, U>(s: seq<T>, t: seq<U>, p: T -> bool, q: U -> bool)
    requires |s| == |t| && forall i | 0 <= i < |s| :: p(s[i]) ==> q(t[i])
    ensures Count(s, p) <= Count(t, q)
    ensures Count(s, p) == Count(t, q) <==> forall i | 0 <= i < |s| :: p(s[i]) == q(t[i])
  {
    if s != [] {
      forall i | 0 <= i < |s[1..]| ensures s[1..][i] == s[i + 1] && t[1..][i] == t[i + 1] {
      }
      CountCompare(s[1..], t[1..], p, q);
      if Count(s, p) == Count(t, q) {
        forall i | 0 <= i < |s| ensures p(s[i]) == q(t[i]) {
          if i > 0 { assert p(s[1..][i - 1]) == q(t[1..][i - 1]); }
        }
      }
    }
  }

  function LastOf<T>(s: seq<T>, n: nat): seq<T> {
    if |s| > n then s[|s| - n..] else s
  }

  /** `deque(maxlen=max).append(x)`. */
  function PushBounded<T>(items: seq<T>, x: T, max: nat): seq<T> {
    LastOf(items + [x], max)
  }

  function DropExpired<T>(items: seq<T>, time: T -> int, cutoff: int): seq<T> {
    if items != [] && time(items[0]) < cutoff then DropExpired(items[1..], time, cutoff) else items
  }

  /** `items` is what a deque of size `max` may still hold of `added`: whatever is
      missing from the last `max` items is older than `cutoff`. */
  ghost predicate Retains<T>(added: seq<T>, items: seq<T>, max: nat, time: T -> int, cutoff: int) {
    && |items| <= |added| && |items| <= max
    && items == added[|added| - |items|..]
    && forall i | 0 <= i < |added| - |items| && |added| - max <= i :: time(added[i]) < cutoff
  }

  lemma PushKeepsLast<T>(added: seq<T>, x: T, max: nat)
    ensures PushBounded(LastOf(added, max), x, max) == LastOf(added + [x], max)
  {
  }

  lemma PushRetains<T>(added: seq<T>, items: seq<T>, x: T, max: nat, time: T -> int, cutoff: int)
    requires Retains(added, items, max, time, cutoff)
    ensures Retains(added + [x], PushBounded(items, x, max), max, time, cutoff)
  {
    assert PushBounded(items, x, max) == (added + [x])[|added| + 1 - |PushBounded(items, x, max)|..];
    forall i | 0 <= i < |added| + 1 - |PushBounded(items, x, max)| && |added| + 1 - max <= i
      ensures time((added + [x])[i]) < cutoff
    {
      assert i < |added| && (added + [x])[i] == added[i];
    }
  }

  lemma {:induction false} DropRetains<T>(added: seq<T>, items: seq<T>, max: nat, time: T -> int, old_: int,
                                          cutoff: int)
    requires Retains(added, items, max, time, old_) && old_ <= cutoff
    ensures Retains(added, DropExpired(items, time, cutoff), max, time, cutoff)
    decreases |items|
  {
    if items != [] && time(items[0]) < cutoff {
      assert Retains(added, items[1..], max, time, cutoff) by {
        assert items[0] == added[|added| - |items|];
      }
      DropRetains(added, items[1..], max, time, cutoff, cutoff);
    }
  }

  /** Counting live items in the deque is counting them among the last `max` items added. */
  lemma RetainedCount<T>(added: seq<T>, items: seq<T>, max: nat, time: T -> int, cutoff: int, p: T -> bool)
    requires Retains(added, items, max, time, cutoff)
    requires forall x | time(x) < cutoff :: !p(x)
    ensures Count(items, p) == Count(LastOf(added, max), p)
  {
    var wide := LastOf(added, max);
    var lost := wide[..|wide| - |items|];
    assert wide == lost + items;
    assert forall i | 0 <= i < |lost| :: lost[i] == added[|added| - |wide| + i];
    forall x | x in lost ensures !p(x) {
      var i :| 0 <= i < |lost| && lost[i] == x;
      assert time(added[|added| - |wide| + i]) < cutoff;
    }
    CountNone(lost, p);
    CountSplit(lost, items, p);
  }
}
