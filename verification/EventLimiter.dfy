/** Rate limiting of log events: a budget per fetch, one event per key and window,
    important kinds first. */
module EventLimiter {
  import opened Options
  import opened StableSort

  datatype Kind =
    | WifiConnected | WifiDisconnected | WifiPskMismatch | WifiInactivity | WifiHandshakeFailed
    | DhcpAck | DhcpNak | DhcpDecline | DhcpNoAddress
    | RadarDetected | CacStart | CacCompleted | CacFailed | NopFinished | NewChannel | PreCacExpired | ChannelChange

  datatype LogEvent = LogEvent(kind: Kind, mac: Option<string>, iface: Option<string>, frequency: Option<int>,
    logId: int)

  /** What one event per window is allowed for: the MAC, or interface and frequency. */
  datatype Subject = Client(mac: string) | Radio(iface: Option<string>, frequency: Option<int>)
  datatype Key = Key(kind: Kind, subject: Subject)

  function KeyOf(e: LogEvent): Key {
    Key(e.kind, if e.mac.Some? && e.mac.value != "" then Client(e.mac.value) else Radio(e.iface, e.frequency))
  }

  predicate CountOnly(e: LogEvent) {
    e.kind.WifiConnected? || e.kind.WifiDisconnected? || e.kind.DhcpAck?
  }

  /** Lower goes first. */
  function Priority(): LogEvent -> int {
    (e: LogEvent) =>
      match e.kind
      case RadarDetected => 0
      case WifiPskMismatch => 0
      case WifiHandshakeFailed => 0
      case DhcpNoAddress => 1
      case DhcpNak => 1
      case DhcpDecline => 1
      case WifiInactivity => 5
      case _ => 3
  }

  function LogIdOf(): LogEvent -> int {
    (e: LogEvent) => e.logId
  }

  datatype Limits = Limits(perFetch: nat, windowMs: int)
  datatype Walk = Walk(last: map<Key, int>, fire: seq<LogEvent>, suppressed: nat)
  datatype Selection = Selection(fire: seq<LogEvent>, suppressed: nat)

  function Pruned(last: map<Key, int>, now: int, windowMs: int): map<Key, int> {
    map k | k in last && now - last[k] < windowMs :: last[k]
  }

  function WalkStep(w: Walk, e: LogEvent, perFetch: nat, now: int): Walk {
    if CountOnly(e) then w
    else if KeyOf(e) in w.last || |w.fire| >= perFetch then w.(suppressed := w.suppressed + 1)
    else Walk(w.last[KeyOf(e) := now], w.fire + [e], w.suppressed)
  }

  function WalkAll(last: map<Key, int>, ranked: seq<LogEvent>, perFetch: nat, now: int): Walk {
    if ranked == [] then Walk(last, [], 0)
    else WalkStep(WalkAll(last, ranked[..|ranked| - 1], perFetch, now), ranked[|ranked| - 1], perFetch, now)
  }

  function Selected(limits: Limits, last: map<Key, int>, events: seq<LogEvent>, now: int): (map<Key, int>, Selection) {
    var w := WalkAll(Pruned(last, now, limits.windowMs), SortBy(events, Priority()), limits.perFetch, now);
    (w.last, Selection(SortBy(w.fire, LogIdOf()), w.suppressed))
  }

  // ----------------------------------------------------------- one fetch

  function CountOnlys(events: seq<LogEvent>): nat {
    if events == [] then 0 else CountOnlys(events[..|events| - 1]) + if CountOnly(events[|events| - 1]) then 1 else 0
  }

  ghost predicate Fires(s: Selection, k: Key) {
    HasKey(s.fire, k)
  }

  ghost predicate HasKey(fire: seq<LogEvent>, k: Key) {
    exists f | f in fire :: KeyOf(f) == k
  }

  ghost predicate DistinctKeys(fire: seq<LogEvent>) {
    forall i, j | 0 <= i < j < |fire| :: KeyOf(fire[i]) != KeyOf(fire[j])
  }

  /** `e` asked for an event, no event of its key fires or fired within the window: it was dropped for budget. */
  ghost predicate DroppedForBudget(cooling: map<Key, int>, fire: seq<LogEvent>, e: LogEvent) {
    !CountOnly(e) && KeyOf(e) !in cooling && forall f | f in fire :: KeyOf(f) != KeyOf(e)
  }

  /** What holds while the ranked events are walked. */
  ghost predicate WalkInv(last: map<Key, int>, seen: seq<LogEvent>, w: Walk, perFetch: nat, now: int) {
    && |w.fire| <= perFetch
    && |w.fire| + w.suppressed + CountOnlys(seen) == |seen|
    && DistinctKeys(w.fire)
    && (forall f | f in w.fire :: f in seen && !CountOnly(f) && KeyOf(f) !in last)
    && (forall k :: k in w.last <==> k in last || HasKey(w.fire, k))
    && (forall k | k in w.last :: w.last[k] == if k in last then last[k] else now)
  }

  ghost predicate BudgetFair(last: map<Key, int>, seen: seq<LogEvent>, fire: seq<LogEvent>, perFetch: nat) {
    forall e | e in seen && DroppedForBudget(last, fire, e) ::
      |fire| == perFetch && forall f | f in fire :: Priority()(f) <= Priority()(e)
  }

  lemma {:induction false} WalkKeeps(last: map<Key, int>, ranked: seq<LogEvent>, perFetch: nat, now: int)
    ensures WalkInv(last, ranked, WalkAll(last, ranked, perFetch, now), perFetch, now)
    ensures multiset(WalkAll(last, ranked, perFetch, now).fire) <= multiset(ranked)
  {
    if ranked != [] {
      var n := |ranked| - 1;
      var seen, e := ranked[..n], ranked[n];
      WalkKeeps(last, seen, perFetch, now);
      assert ranked == seen + [e];
      var w := WalkAll(last, seen, perFetch, now);
      WalkStepKeeps(last, seen, w, e, perFetch, now);
    }
  }

  lemma WalkStepKeeps(last: map<Key, int>, seen: seq<LogEvent>, w: Walk, e: LogEvent, perFetch: nat, now: int)
    requires WalkInv(last, seen, w, perFetch, now) && multiset(w.fire) <= multiset(seen)
    ensures WalkInv(last, seen + [e], WalkStep(w, e, perFetch, now), perFetch, now)
    ensures multiset(WalkStep(w, e, perFetch, now).fire) <= multiset(seen + [e])
  {
    var v := WalkStep(w, e, perFetch, now);
    OneMoreCounted(seen, e);
    if v.fire != w.fire {
      FireKeeps(last, seen, w, e, perFetch, now);
    }
  }

  lemma OneMoreCounted(seen: seq<LogEvent>, e: LogEvent)
    ensures CountOnlys(seen + [e]) == CountOnlys(seen) + if CountOnly(e) then 1 else 0
  {
    assert (seen + [e])[..|seen|] == seen;
  }

  lemma FireKeeps(last: map<Key, int>, seen: seq<LogEvent>, w: Walk, e: LogEvent, perFetch: nat, now: int)
    requires WalkInv(last, seen, w, perFetch, now) && multiset(w.fire) <= multiset(seen)
    requires !CountOnly(e) && KeyOf(e) !in w.last && |w.fire| < perFetch
    ensures WalkInv(last, seen + [e], Walk(w.last[KeyOf(e) := now], w.fire + [e], w.suppressed), perFetch, now)
    ensures multiset(w.fire + [e]) <= multiset(seen + [e])
  {
    OneMoreCounted(seen, e);
    OneMoreKey(w.fire, e);
    OneMoreEach(w.fire, seen, e);
    assert !HasKey(w.fire, KeyOf(e));
  }

  lemma OneMoreKey(fire: seq<LogEvent>, e: LogEvent)
    ensures forall k :: HasKey(fire + [e], k) <==> k == KeyOf(e) || HasKey(fire, k)
    ensures forall f :: f in fire + [e] <==> f in fire || f == e
  {
    assert e in fire + [e];
    forall f | f in fire ensures f in fire + [e] {
    }
  }

  lemma OneMoreEach(fire: seq<LogEvent>, seen: seq<LogEvent>, e: LogEvent)
    requires multiset(fire) <= multiset(seen)
    ensures multiset(fire + [e]) <= multiset(seen + [e])
  {
    assert multiset(fire + [e]) == multiset(fire) + multiset{e} && multiset(seen + [e]) == multiset(seen) + multiset{e};
  }

  lemma {:induction false} WalkFair(last: map<Key, int>, ranked: seq<LogEvent>, perFetch: nat, now: int)
    requires SortedBy(ranked, Priority())
    ensures BudgetFair(last, ranked, WalkAll(last, ranked, perFetch, now).fire, perFetch)
  {
    if ranked != [] {
      var n := |ranked| - 1;
      var seen, e := ranked[..n], ranked[n];
      WalkFair(last, seen, perFetch, now);
      WalkKeeps(last, seen, perFetch, now);
      FairNext(last, ranked, WalkAll(last, seen, perFetch, now), perFetch, now);
    }
  }

  lemma FairNext(last: map<Key, int>, ranked: seq<LogEvent>, w: Walk, perFetch: nat, now: int)
    requires ranked != [] && SortedBy(ranked, Priority())
    requires WalkInv(last, ranked[..|ranked| - 1], w, perFetch, now)
             && BudgetFair(last, ranked[..|ranked| - 1], w.fire, perFetch)
    ensures BudgetFair(last, ranked, WalkStep(w, ranked[|ranked| - 1], perFetch, now).fire, perFetch)
  {
    var seen, e := ranked[..|ranked| - 1], ranked[|ranked| - 1];
    LastIsLargest(ranked, w.fire);
    assert ranked == seen + [e];
    FairStep(last, seen, w, e, perFetch, now);
  }

  lemma LastIsLargest(ranked: seq<LogEvent>, fire: seq<LogEvent>)
    requires ranked != [] && SortedBy(ranked, Priority())
    requires forall f | f in fire :: f in ranked[..|ranked| - 1]
    ensures forall f | f in fire :: Priority()(f) <= Priority()(ranked[|ranked| - 1])
  {
    forall f | f in fire ensures Priority()(f) <= Priority()(ranked[|ranked| - 1]) {
      var i :| 0 <= i < |ranked| - 1 && ranked[i] == f;
      SortedOrder(ranked, Priority(), i, |ranked| - 1);
    }
  }

  lemma FairStep(last: map<Key, int>, seen: seq<LogEvent>, w: Walk, e: LogEvent, perFetch: nat, now: int)
    requires WalkInv(last, seen, w, perFetch, now) && BudgetFair(last, seen, w.fire, perFetch)
    requires forall f | f in w.fire :: Priority()(f) <= Priority()(e)
    ensures BudgetFair(last, seen + [e], WalkStep(w, e, perFetch, now).fire, perFetch)
  {
    var v := WalkStep(w, e, perFetch, now);
    assert v.fire == w.fire || v.fire == w.fire + [e];
    assert v.fire != w.fire ==> e in v.fire && |w.fire| < perFetch;
    forall d | d in seen + [e] && DroppedForBudget(last, v.fire, d)
      ensures |v.fire| == perFetch && forall f | f in v.fire :: Priority()(f) <= Priority()(d)
    {
      if d in seen {
        assert forall f | f in w.fire :: f in v.fire;
        assert DroppedForBudget(last, w.fire, d);
      }
    }
  }

  /** Every event is fired, suppressed or only counted; the budget is kept; what fires
      is ordered by log id, was not cooling down, and goes to the important kinds first. */
  lemma SelectionFair(limits: Limits, last: map<Key, int>, events: seq<LogEvent>, now: int)
    ensures var s := Selected(limits, last, events, now).1;
            var cooling := Pruned(last, now, limits.windowMs);
            && |s.fire| <= limits.perFetch
            && |s.fire| + s.suppressed + CountOnlys(events) == |events|
            && SortedBy(s.fire, LogIdOf())
            && multiset(s.fire) <= multiset(events)
            && (forall f | f in s.fire :: !CountOnly(f) && KeyOf(f) !in cooling)
            && BudgetFair(cooling, events, s.fire, limits.perFetch)
  {
    var cooling := Pruned(last, now, limits.windowMs);
    var ranked := SortBy(events, Priority());
    var w := WalkAll(cooling, ranked, limits.perFetch, now);
    SortIsPermutation(events, Priority());
    SortIsPermutation(w.fire, LogIdOf());
    WalkKeeps(cooling, ranked, limits.perFetch, now);
    WalkFair(cooling, ranked, limits.perFetch, now);
    CountOnlysOfPermutation(events, ranked);
  }

  lemma {:induction false} CountOnlysByMultiset(events: seq<LogEvent>, e: LogEvent)
    requires e in events
    ensures exists rest: seq<LogEvent> ::
              && multiset(events) == multiset(rest) + multiset{e} && |rest| == |events| - 1
              && CountOnlys(events) == CountOnlys(rest) + if CountOnly(e) then 1 else 0
  {
    var n := |events| - 1;
    assert events == events[..n] + [events[n]];
    if events[n] == e {
      assert multiset(events) == multiset(events[..n]) + multiset{e};
    } else {
      CountOnlysByMultiset(events[..n], e);
      var rest: seq<LogEvent> :| multiset(events[..n]) == multiset(rest) + multiset{e} && |rest| == n - 1
        && CountOnlys(events[..n]) == CountOnlys(rest) + if CountOnly(e) then 1 else 0;
      var more := rest + [events[n]];
      assert more[..|rest|] == rest;
      assert multiset(events) == multiset(more) + multiset{e};
    }
  }

  lemma {:induction false} CountOnlysOfPermutation(a: seq<LogEvent>, b: seq<LogEvent>)
    requires multiset(a) == multiset(b)
    ensures CountOnlys(a) == CountOnlys(b)
    decreases |a|
  {
    assert |a| == |multiset(a)| == |multiset(b)| == |b|;
    if a != [] {
      var n := |a| - 1;
      var e := a[n];
      assert a == a[..n] + [e];
      assert e in multiset(b);
      CountOnlysByMultiset(b, e);
      var rest: seq<LogEvent> :| multiset(b) == multiset(rest) + multiset{e} && |rest| == |b| - 1
        && CountOnlys(b) == CountOnlys(rest) + if CountOnly(e) then 1 else 0;
      assert multiset(a) == multiset(a[..n]) + multiset{e};
      WithoutOne(multiset(a[..n]), multiset(rest), e);
      CountOnlysOfPermutation(a[..n], rest);
    }
  }

  lemma WithoutOne(m: multiset<LogEvent>, n: multiset<LogEvent>, e: LogEvent)
    requires m + multiset{e} == n + multiset{e}
    ensures m == n
  {
    assert m == (m + multiset{e}) - multiset{e} && n == (n + multiset{e}) - multiset{e};
  }

  // ----------------------------------------------------------- whole runs

  datatype Call = Call(events: seq<LogEvent>, now: int)

  function Run(limits: Limits, calls: seq<Call>): map<Key, int> {
    if calls == [] then map[]
    else Selected(limits, Run(limits, calls[..|calls| - 1]), calls[|calls| - 1].events, calls[|calls| - 1].now).0
  }

  /** What the `i`-th call of a run fires. */
  function FiredAt(limits: Limits, calls: seq<Call>, i: nat): Selection
    requires i < |calls|
  {
    Selected(limits, Run(limits, calls[..i]), calls[i].events, calls[i].now).1
  }

  ghost predicate Chronological(calls: seq<Call>) {
    forall i, j | 0 <= i <= j < |calls| :: calls[i].now <= calls[j].now
  }

  lemma SelectedFires(limits: Limits, last: map<Key, int>, events: seq<LogEvent>, now: int, k: Key)
    ensures var (next, s) := Selected(limits, last, events, now);
            && (Fires(s, k) ==> k in next && next[k] == now && k !in Pruned(last, now, limits.windowMs))
            && (k in next <==> Fires(s, k) || k in Pruned(last, now, limits.windowMs))
            && (k in Pruned(last, now, limits.windowMs) ==> next[k] == last[k])
  {
    var cooling := Pruned(last, now, limits.windowMs);
    var ranked := SortBy(events, Priority());
    var w := WalkAll(cooling, ranked, limits.perFetch, now);
    WalkKeeps(cooling, ranked, limits.perFetch, now);
    SortIsPermutation(w.fire, LogIdOf());
  }

  /** A key that fired is remembered with that time, or its window is over. */
  lemma {:induction false} FiringRemembered(limits: Limits, calls: seq<Call>, i: nat, k: Key)
    requires i < |calls| && Chronological(calls) && Fires(FiredAt(limits, calls, i), k)
    ensures || calls[|calls| - 1].now - calls[i].now >= limits.windowMs
            || (k in Run(limits, calls) && Run(limits, calls)[k] >= calls[i].now)
  {
    var n := |calls| - 1;
    var earlier := calls[..n];
    if i < n {
      FiredEarlier(limits, calls, i);
      FiringRemembered(limits, earlier, i, k);
      StillRemembered(limits, Run(limits, earlier), calls[n], k, calls[i].now);
    } else {
      SelectedFires(limits, Run(limits, earlier), calls[n].events, calls[n].now, k);
    }
  }

  lemma FiredEarlier(limits: Limits, calls: seq<Call>, i: nat)
    requires i < |calls| - 1
    ensures FiredAt(limits, calls[..|calls| - 1], i) == FiredAt(limits, calls, i)
  {
    assert calls[..|calls| - 1][..i] == calls[..i];
  }

  lemma StillRemembered(limits: Limits, last: map<Key, int>, call: Call, k: Key, since: int)
    requires since <= call.now
    ensures var next := Selected(limits, last, call.events, call.now).0;
            k in last && last[k] >= since ==> call.now - since >= limits.windowMs || (k in next && next[k] >= since)
  {
    SelectedFires(limits, last, call.events, call.now, k);
  }

  /** Over a whole run two events of the same key are at least one window apart, and
      within one call a key fires once. */
  lemma FiringsAreSpaced(limits: Limits, calls: seq<Call>, i: nat, j: nat, k: Key)
    requires i < j < |calls| && Chronological(calls)
    requires Fires(FiredAt(limits, calls, i), k) && Fires(FiredAt(limits, calls, j), k)
    ensures calls[j].now - calls[i].now >= limits.windowMs
  {
    var before := calls[..j];
    assert before[..i] == calls[..i];
    FiringRemembered(limits, before, i, k);
    SelectedFires(limits, Run(limits, before), calls[j].events, calls[j].now, k);
  }

  lemma KeyFiresOncePerCall(limits: Limits, last: map<Key, int>, events: seq<LogEvent>, now: int)
    ensures DistinctKeys(Selected(limits, last, events, now).1.fire)
  {
    var cooling := Pruned(last, now, limits.windowMs);
    var w := WalkAll(cooling, SortBy(events, Priority()), limits.perFetch, now);
    WalkKeeps(cooling, SortBy(events, Priority()), limits.perFetch, now);
    SortIsPermutation(w.fire, LogIdOf());
    DistinctKeysOfPermutation(w.fire, SortBy(w.fire, LogIdOf()));
  }

  lemma DistinctKeysOfPermutation(a: seq<LogEvent>, b: seq<LogEvent>)
    requires DistinctKeys(a) && multiset(a) == multiset(b)
    ensures DistinctKeys(b)
  {
    forall i, j | 0 <= i < j < |b| ensures KeyOf(b[i]) != KeyOf(b[j]) {
      assert b[i] in multiset(a) && b[j] in multiset(a);
      var p :| 0 <= p < |a| && a[p] == b[i];
      var q :| 0 <= q < |a| && a[q] == b[j];
      if p == q {
        MultiplicityTwo(b, i, j);
        MultiplicityOne(a, p);
        assert false;
      }
    }
  }

  lemma MultiplicityTwo(s: seq<LogEvent>, i: nat, j: nat)
    requires i < j < |s| && s[i] == s[j]
    ensures multiset(s)[s[i]] >= 2
  {
    assert s == s[..j] + s[j..];
    assert s[..j][i] == s[i] && s[j..][0] == s[i];
    assert multiset(s[..j])[s[i]] >= 1 && multiset(s[j..])[s[i]] >= 1;
  }

  lemma MultiplicityOne(s: seq<LogEvent>, p: nat)
    requires p < |s| && DistinctKeys(s)
    ensures multiset(s)[s[p]] <= 1
  {
    assert s == s[..p] + [s[p]] + s[p + 1..];
    assert s[p] !in s[..p] && s[p] !in s[p + 1..];
  }

  /** What is remembered was fired, at the time remembered. */
  lemma {:induction false} RememberedIsFired(limits: Limits, calls: seq<Call>, k: Key) returns (i: nat)
    requires k in Run(limits, calls)
    ensures i < |calls| && Fires(FiredAt(limits, calls, i), k) && Run(limits, calls)[k] == calls[i].now
  {
    var n := |calls| - 1;
    var earlier := calls[..n];
    SelectedFires(limits, Run(limits, earlier), calls[n].events, calls[n].now, k);
    if Fires(FiredAt(limits, calls, n), k) {
      i := n;
    } else {
      i := RememberedIsFired(limits, earlier, k);
      FiredEarlier(limits, calls, i);
    }
  }

  /** Before each call of a run exactly the keys are cooling down that fired less than one window
      ago: a key may fire again as soon as the window is over. */
  lemma CoolingIff(limits: Limits, calls: seq<Call>, now: int, k: Key)
    requires Chronological(calls) && (calls != [] ==> calls[|calls| - 1].now <= now)
    ensures k in Pruned(Run(limits, calls), now, limits.windowMs) <==>
            exists i: nat | i < |calls| :: Fires(FiredAt(limits, calls, i), k) && now - calls[i].now < limits.windowMs
  {
    if k in Pruned(Run(limits, calls), now, limits.windowMs) {
      var i := RememberedIsFired(limits, calls, k);
    }
    if i: nat :| i < |calls| && Fires(FiredAt(limits, calls, i), k) && now - calls[i].now < limits.windowMs {
      FiringRemembered(limits, calls, i, k);
    }
  }

  // ----------------------------------------------------- kinds and subjects

  /** Attacks, radar and failed handshakes come first, then trouble with addresses; clients that
      left for inactivity come last. */
  function Tier(kind: Kind): nat {
    if kind in {RadarDetected, WifiPskMismatch, WifiHandshakeFailed} then 0
    else if kind in {DhcpNoAddress, DhcpNak, DhcpDecline} then 1
    else if kind != WifiInactivity then 2 else 3
  }

  lemma RanksByTier(a: LogEvent, b: LogEvent)
    ensures Priority()(a) <= Priority()(b) <==> Tier(a.kind) <= Tier(b.kind)
  {
  }

  /** Two events share a window exactly if they are of one kind and about the same client, or, where
      neither names a client, about the same interface and frequency. */
  lemma SameKeyIff(a: LogEvent, b: LogEvent)
    ensures KeyOf(a) == KeyOf(b) <==>
            && a.kind == b.kind
            && if a.mac.Some? && a.mac.value != "" then b.mac == a.mac
               else (b.mac.None? || b.mac.value == "") && a.iface == b.iface && a.frequency == b.frequency
  {
  }

  /** Ordinary coming and going is only counted and never fires: for every other kind an empty
      limiter with a budget fires a lone event. */
  lemma LoneEventFiresIff(limits: Limits, e: LogEvent, now: int)
    requires limits.perFetch > 0
    ensures Selected(limits, map[], [e], now).1.fire ==
            if e.kind in {WifiConnected, WifiDisconnected, DhcpAck} then [] else [e]
  {
    SortOfOne(e, Priority());
    SortOfOne(e, LogIdOf());
    assert [e][..0] == [] && Pruned(map[], now, limits.windowMs) == map[];
    var none: map<Key, int> := map[];
    assert WalkAll(none, [], limits.perFetch, now) == Walk(none, [], 0);
    assert WalkAll(none, [e], limits.perFetch, now) == WalkStep(Walk(none, [], 0), e, limits.perFetch, now);
  }

  lemma SortOfOne(e: LogEvent, key: LogEvent -> int)
    ensures SortBy([e], key) == [e] && SortBy([], key) == []
  {
    SortIsPermutation([e], key);
    SortIsPermutation([], key);
    var sorted := SortBy([e], key);
    assert |multiset(sorted)| == |sorted| && sorted[0] in multiset([e]);
    assert |multiset(SortBy([], key))| == |SortBy([], key)|;
  }

  // ------------------------------------------------------------- the object

  class EventLimiter {
    const limits: Limits
    var last: map<Key, int>

    constructor (perFetch: nat, windowMs: int)
      ensures limits == Limits(perFetch, windowMs) && last == map[]
    {
      limits, last := Limits(perFetch, windowMs), map[];
    }

    method Select(events: seq<LogEvent>, now: int) returns (fire: seq<LogEvent>, suppressed: nat)
      modifies this
      ensures (last, Selection(fire, suppressed)) == Selected(limits, old(last), events, now)
    {
      last := map k | k in last && now - last[k] < limits.windowMs :: last[k];
      ghost var cooling := last;
      fire, suppressed := [], 0;
      var ranked := SortBy(events, Priority());
      var i := 0;
      while i < |ranked|
        invariant 0 <= i <= |ranked|
        invariant Walk(last, fire, suppressed) == WalkAll(cooling, ranked[..i], limits.perFetch, now)
      {
        var event := ranked[i];
        assert ranked[..i + 1][..i] == ranked[..i];
        i := i + 1;
        if CountOnly(event) {
          continue;
        }
        var key := KeyOf(event);
        if key in last || |fire| >= limits.perFetch {
          suppressed := suppressed + 1;
          continue;
        }
        last := last[key := now];
        fire := fire + [event];
      }
      assert ranked[..i] == ranked;
      fire := SortBy(fire, LogIdOf());
    }
  }
}
