/** `RollingCounter`: counts per key over a sliding time window. */
module RollingCounter {
  import opened Options
  import opened BoundedWindow

  datatype Item = Item(time: int, key: string)

  function TimeOf(): Item -> int {
    (i: Item) => i.time
  }

  /** The items of one key that are not older than the cutoff. */
  function Live(key: string, cutoff: int): Item -> bool {
    (i: Item) => i.key == key && i.time >= cutoff
  }

  /** `out` lists exactly the keys with live items, with their numbers. */
  ghost predicate Tallies(out: map<string, nat>, items: seq<Item>, cutoff: int) {
    forall k :: (k in out <==> Count(items, Live(k, cutoff)) > 0)
      && (k in out ==> out[k] == Count(items, Live(k, cutoff)))
  }

  /** The positions of `key` among the last `max` items added, at most one window old. */
  ghost function Recent(added: seq<Item>, max: nat, key: string, now: int, windowMs: int): set<int> {
    set i | 0 <= i < |added| && |added| - max <= i && added[i].key == key && now - added[i].time <= windowMs
  }

  /** The answer lists exactly the keys with such items, with their numbers. */
  ghost predicate CountsRecent(out: map<string, nat>, added: seq<Item>, max: nat, now: int, windowMs: int) {
    forall k :: (k in out <==> Recent(added, max, k, now, windowMs) != {})
      && (k in out ==> out[k] == |Recent(added, max, k, now, windowMs)|)
  }

  lemma TalliesCountRecent(out: map<string, nat>, added: seq<Item>, max: nat, now: int, windowMs: int)
    requires Tallies(out, LastOf(added, max), now - windowMs)
    ensures CountsRecent(out, added, max, now, windowMs)
  {
    var from := if |added| > max then |added| - max else 0;
    assert LastOf(added, max) == added[from..];
    forall k ensures Count(LastOf(added, max), Live(k, now - windowMs)) == |Recent(added, max, k, now, windowMs)| {
      CountPositions(added, from, Live(k, now - windowMs));
      assert Recent(added, max, k, now, windowMs) == Positions(added, from, Live(k, now - windowMs));
    }
  }

  class RollingCounter {
    const windowMs: int
    const maxItems: nat
    var items: seq<Item>
    ghost var added: seq<Item>         // every item ever added
    ghost var latest: Option<int>      // `now` of the last call of Counts

    /** The deque holds what the window may still need of the full history. */
    ghost predicate Valid()
      reads this
    {
      if latest.None? then items == LastOf(added, maxItems)
      else Retains(added, items, maxItems, TimeOf(), latest.value - windowMs)
    }

    constructor (windowMs: int, maxItems: nat)
      ensures Valid() && added == [] && latest == None
      ensures this.windowMs == windowMs && this.maxItems == maxItems
    {
      this.windowMs, this.maxItems := windowMs, maxItems;
      items, added, latest := [], [], None;
    }

    method Add(time: int, key: string)
      requires Valid()
      modifies this
      ensures Valid() && added == old(added) + [Item(time, key)] && latest == old(latest)
    {
      if latest.Some? {
        PushRetains(added, items, Item(time, key), maxItems, TimeOf(), latest.value - windowMs);
      } else {
        PushKeepsLast(added, Item(time, key), maxItems);
      }
      items := PushBounded(items, Item(time, key), maxItems);
      added := added + [Item(time, key)];
    }

    lemma ExpiryRetains(now: int)
      requires Valid() && (latest.Some? ==> latest.value <= now)
      ensures Retains(added, DropExpired(items, TimeOf(), now - windowMs), maxItems, TimeOf(), now - windowMs)
    {
      var before := if latest.Some? then latest.value - windowMs else now - windowMs;
      DropRetains(added, items, maxItems, TimeOf(), before, now - windowMs);
    }

    method Expire(cutoff: int)
      modifies this`items
      ensures items == DropExpired(old(items), TimeOf(), cutoff)
    {
      while items != [] && items[0].time < cutoff
        invariant DropExpired(items, TimeOf(), cutoff) == DropExpired(old(items), TimeOf(), cutoff)
        decreases |items|
      {
        items := items[1..];
      }
    }

    /** The answer is the naive count over the full history, cut to its last `maxItems`. */
    method Counts(now: int) returns (out: map<string, nat>)
      requires Valid() && (latest.Some? ==> latest.value <= now)
      modifies this
      ensures Valid() && added == old(added) && latest == Some(now)
      ensures Tallies(out, LastOf(added, maxItems), now - windowMs)
      ensures CountsRecent(out, added, maxItems, now, windowMs)
    {
      var cutoff := now - windowMs;
      ExpiryRetains(now);
      Expire(cutoff);
      assert Retains(added, items, maxItems, TimeOf(), cutoff);
      latest := Some(now);
      out := TallyLive(items, cutoff);
      SameTallies(out, added, items, maxItems, cutoff);
      TalliesCountRecent(out, added, maxItems, now, windowMs);
    }
  }

  lemma SameTallies(out: map<string, nat>, added: seq<Item>, items: seq<Item>, max: nat, cutoff: int)
    requires Retains(added, items, max, TimeOf(), cutoff) && Tallies(out, items, cutoff)
    ensures Tallies(out, LastOf(added, max), cutoff)
  {
    forall k ensures Count(items, Live(k, cutoff)) == Count(LastOf(added, max), Live(k, cutoff)) {
      RetainedCount(added, items, max, TimeOf(), cutoff, Live(k, cutoff));
    }
  }

  method TallyLive(items: seq<Item>, cutoff: int) returns (out: map<string, nat>)
    ensures Tallies(out, items, cutoff)
  {
    out := map[];
    for i := 0 to |items|
      invariant Tallies(out, items[..i], cutoff)
    {
      var item := items[i];
      forall k ensures Count(items[..i + 1], Live(k, cutoff)) ==
                       Count(items[..i], Live(k, cutoff)) + if Live(k, cutoff)(item) then 1 else 0
      {
        assert items[..i + 1] == items[..i] + [item];
        CountSplit(items[..i], [item], Live(k, cutoff));
      }
      if item.time >= cutoff {
        out := out[item.key := (if item.key in out then out[item.key] else 0) + 1];
      }
    }
    assert items[..|items|] == items;
  }
}
