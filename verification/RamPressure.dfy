/** The RAM-pressure issue of one router: a hold time before it appears, hysteresis before it goes. */
module RamPressure {
  import opened Options

  // Times are in seconds, the pressure in percent.

  const RAM_PRESSURE_HIGH_PCT := 85.0
  const RAM_PRESSURE_CLEAR_PCT := 80.0
  const RAM_PRESSURE_HOLD_SECONDS := 15 * 60
  const RAM_AVAILABLE_MIN_BYTES := 16 * 1024 * 1024

  /** A poll with usable memory statistics; `interval` is the poll interval at that time. */
  datatype Reading = Reading(now: int, pct: real, available: int, interval: int)

  datatype State = State(highSince: Option<int>, lastCheck: Option<int>, active: bool)

  const INIT := State(None, None, false)

  predicate LowAvailable(r: Reading) {
    r.available < RAM_AVAILABLE_MIN_BYTES
  }

  predicate High(r: Reading) {
    r.pct > RAM_PRESSURE_HIGH_PCT || LowAvailable(r)
  }

  predicate Normal(r: Reading) {
    r.pct < RAM_PRESSURE_CLEAR_PCT && !LowAvailable(r)
  }

  function Step(s: State, r: Reading): State {
    var gap := s.lastCheck.Some? && r.now - s.lastCheck.value > 2 * r.interval;
    var since := if gap then None else s.highSince;
    if s.active then State(if Normal(r) then None else since, Some(r.now), !Normal(r))
    else if !High(r) then State(None, Some(r.now), false)
    else
      var start := if since.None? then r.now else since.value;
      State(Some(start), Some(r.now), r.now - start >= RAM_PRESSURE_HOLD_SECONDS)
  }

  function Run(readings: seq<Reading>): State {
    if readings == [] then INIT else Step(Run(readings[..|readings| - 1]), readings[|readings| - 1])
  }

  predicate Active(readings: seq<Reading>) {
    Run(readings).active
  }

  ghost predicate Chronological(readings: seq<Reading>) {
    forall i, j | 0 <= i <= j < |readings| :: readings[i].now <= readings[j].now
  }

  /** Reading `i` follows its predecessor without a gap of more than two poll intervals. */
  predicate Follows(readings: seq<Reading>, i: nat)
    requires 0 < i < |readings|
  {
    readings[i].now - readings[i - 1].now <= 2 * readings[i].interval
  }

  /** From reading `k` to the last one every reading was high, without a gap. */
  ghost predicate HighFrom(readings: seq<Reading>, k: nat) {
    && k < |readings|
    && (forall i | k <= i < |readings| :: High(readings[i]))
    && (forall i | k < i < |readings| :: Follows(readings, i))
  }

  /** Some unbroken high span up to the last reading covers the hold time. */
  ghost predicate HeldHigh(readings: seq<Reading>) {
    exists k: nat :: HighFrom(readings, k)
      && readings[|readings| - 1].now - readings[k].now >= RAM_PRESSURE_HOLD_SECONDS
  }

  /** `k` starts the longest unbroken high span up to the last reading. */
  ghost predicate SpanStart(readings: seq<Reading>, k: nat) {
    HighFrom(readings, k) && forall j: nat | HighFrom(readings, j) :: k <= j
  }

  ghost predicate SinceIsSpanStart(readings: seq<Reading>) {
    match Run(readings).highSince
    case None => forall k: nat :: !HighFrom(readings, k)
    case Some(t) => exists k: nat :: SpanStart(readings, k) && t == readings[k].now
  }

  lemma {:induction false} LastCheckIsLastReading(readings: seq<Reading>)
    ensures Run(readings).lastCheck ==
            if readings == [] then None else Some(readings[|readings| - 1].now)
  {
  }

  lemma HighFromStep(earlier: seq<Reading>, r: Reading, k: nat)
    ensures HighFrom(earlier + [r], k) <==>
            && High(r)
            && (k == |earlier| || (HighFrom(earlier, k) && Follows(earlier + [r], |earlier|)))
  {
    var all := earlier + [r];
    if HighFrom(all, k) && k < |earlier| {
      assert High(all[|earlier|]) && Follows(all, |earlier|);
      forall i | k <= i < |earlier| ensures High(earlier[i]) && (k < i ==> Follows(earlier, i)) {
        assert High(all[i]) && (k < i ==> Follows(all, i));
      }
    }
    if HighFrom(earlier, k) && High(r) && Follows(all, |earlier|) {
      forall i | k < i < |all| ensures Follows(all, i) { if i < |earlier| { assert Follows(earlier, i); } }
    }
    if HighFrom(all, k) && k == |earlier| { assert High(all[k]); }
  }

  lemma {:induction false} QuietTracksSpan(readings: seq<Reading>)
    requires !Active(readings)
    ensures SinceIsSpanStart(readings)
  {
    if readings != [] {
      var n := |readings| - 1;
      var earlier, r := readings[..n], readings[n];
      assert readings == earlier + [r];
      LastCheckIsLastReading(earlier);
      forall k: nat ensures HighFrom(readings, k) <==>
        High(r) && (k == n || (HighFrom(earlier, k) && Follows(readings, n))) { HighFromStep(earlier, r, k); }
      if High(r) {
        assert Active(earlier) ==> Normal(r);
        QuietTracksSpan(earlier);
        SpanGrows(earlier, r);
      }
    }
  }

  /** One more high reading: the hold time runs on, or starts anew after a gap. */
  lemma SpanGrows(earlier: seq<Reading>, r: Reading)
    requires !Active(earlier) && SinceIsSpanStart(earlier) && High(r)
    ensures SinceIsSpanStart(earlier + [r])
    ensures Run(earlier + [r]).highSince.Some?
  {
    var all := earlier + [r];
    assert all[..|earlier|] == earlier;
    LastCheckIsLastReading(earlier);
    if |earlier| > 0 && Follows(all, |earlier|) && Run(earlier).highSince.Some? {
      var k: nat :| SpanStart(earlier, k) && Run(earlier).highSince.value == earlier[k].now;
      SpanContinues(earlier, r, k);
    } else {
      SpanRestarts(earlier, r);
    }
  }

  lemma SpanContinues(earlier: seq<Reading>, r: Reading, k: nat)
    requires High(r) && |earlier| > 0 && Follows(earlier + [r], |earlier|) && SpanStart(earlier, k)
    ensures SpanStart(earlier + [r], k) && (earlier + [r])[k] == earlier[k]
  {
    HighFromStep(earlier, r, k);
    forall j: nat | HighFrom(earlier + [r], j) ensures k <= j { HighFromStep(earlier, r, j); }
  }

  lemma SpanRestarts(earlier: seq<Reading>, r: Reading)
    requires High(r)
    requires (|earlier| > 0 && !Follows(earlier + [r], |earlier|)) || forall k: nat :: !HighFrom(earlier, k)
    ensures SpanStart(earlier + [r], |earlier|)
  {
    HighFromStep(earlier, r, |earlier|);
    forall j: nat | HighFrom(earlier + [r], j) ensures |earlier| <= j { HighFromStep(earlier, r, j); }
  }

  /** The issue appears exactly when the router stayed high for the whole hold time:
      every usable reading high, no gap of more than two poll intervals. */
  lemma RaisedIff(readings: seq<Reading>, r: Reading)
    requires !Active(readings) && Chronological(readings + [r])
    ensures Active(readings + [r]) <==> HeldHigh(readings + [r])
  {
    var all := readings + [r];
    assert all[..|readings|] == readings;
    QuietTracksSpan(readings);
    if High(r) {
      SpanGrows(readings, r);
      var k: nat :| SpanStart(all, k) && Run(all).highSince.value == all[k].now;
      assert HighFrom(all, k);
      assert Active(all) <==> r.now - all[k].now >= RAM_PRESSURE_HOLD_SECONDS;
      if HeldHigh(all) {
        var j: nat :| HighFrom(all, j) && all[|all| - 1].now - all[j].now >= RAM_PRESSURE_HOLD_SECONDS;
        assert all[k].now <= all[j].now;
      }
    } else {
      assert forall k: nat :: !HighFrom(all, k) by {
        forall k: nat ensures !HighFrom(all, k) { HighFromStep(readings, r, k); }
      }
    }
  }

  /** It goes exactly on a reading below the clear threshold with enough RAM available. */
  lemma ClearedIff(readings: seq<Reading>, r: Reading)
    requires Active(readings)
    ensures !Active(readings + [r]) <==> Normal(r)
  {
    assert (readings + [r])[..|readings|] == readings;
  }

  /** Over whole runs: the issue is open exactly if the router once stayed high for the hold
      time and no reading since was back to normal. */
  lemma {:induction false} ActiveIff(readings: seq<Reading>)
    requires Chronological(readings)
    ensures Active(readings) <==> OnceAndNotNormalSince(rs => HeldHigh(rs), readings)
  {
    if readings != [] {
      var n := |readings| - 1;
      assert readings == readings[..n] + [readings[n]];
      ActiveIff(readings[..n]);
      ActiveStep(readings[..n], readings[n]);
      OnceStep(rs => HeldHigh(rs), readings[..n], readings[n]);
    }
  }

  /** At some reading `held` was true of the readings so far, and no reading after it was normal. */
  ghost predicate OnceAndNotNormalSince(held: seq<Reading> -> bool, readings: seq<Reading>) {
    exists k :: NotNormalSince(held, readings, k)
  }

  ghost predicate NotNormalSince(held: seq<Reading> -> bool, readings: seq<Reading>, k: nat) {
    k < |readings| && held(readings[..k + 1]) && forall j | k < j < |readings| :: !Normal(readings[j])
  }

  lemma OnceStep(held: seq<Reading> -> bool, earlier: seq<Reading>, r: Reading)
    ensures OnceAndNotNormalSince(held, earlier + [r]) <==>
            (OnceAndNotNormalSince(held, earlier) && !Normal(r)) || held(earlier + [r])
  {
    var all, n := earlier + [r], |earlier|;
    assert all[..n + 1] == all;
    forall k: nat | k < n
      ensures NotNormalSince(held, all, k) <==> NotNormalSince(held, earlier, k) && !Normal(r)
    {
      NotNormalStep(held, earlier, r, k);
    }
    assert NotNormalSince(held, all, n) <==> held(all);
  }

  lemma NotNormalStep(held: seq<Reading> -> bool, earlier: seq<Reading>, r: Reading, k: nat)
    requires k < |earlier|
    ensures NotNormalSince(held, earlier + [r], k) <==> NotNormalSince(held, earlier, k) && !Normal(r)
  {
    var all := earlier + [r];
    assert all[..k + 1] == earlier[..k + 1];
    if NotNormalSince(held, all, k) {
      assert !Normal(all[|earlier|]);
      forall j | k < j < |earlier| ensures !Normal(earlier[j]) { assert !Normal(all[j]); }
    }
    if NotNormalSince(held, earlier, k) && !Normal(r) {
      forall j | k < j < |all| ensures !Normal(all[j]) { if j < |earlier| { assert !Normal(earlier[j]); } }
    }
  }

  lemma ActiveStep(earlier: seq<Reading>, r: Reading)
    requires Chronological(earlier + [r])
    ensures Active(earlier + [r]) <==> (Active(earlier) && !Normal(r)) || HeldHigh(earlier + [r])
  {
    if Active(earlier) {
      ClearedIff(earlier, r);
      if HeldHigh(earlier + [r]) { HeldIsNotNormal(earlier + [r]); }
    } else {
      RaisedIff(earlier, r);
    }
  }

  lemma HeldIsNotNormal(readings: seq<Reading>)
    requires HeldHigh(readings)
    ensures readings != [] && !Normal(readings[|readings| - 1])
  {
    var k: nat :| HighFrom(readings, k);
    assert High(readings[|readings| - 1]);
  }

  // ------------------------------------------------------------ in numbers

  /** Above 85 percent, or less than 16 MiB left. */
  predicate Pressed(r: Reading) {
    r.pct > 85.0 || r.available < 16_777_216
  }

  /** Below 80 percent, and at least 16 MiB left. */
  predicate Relaxed(r: Reading) {
    r.pct < 80.0 && r.available >= 16_777_216
  }

  /** At reading `n` the router has been under pressure since reading `k`, for 900 s or more and
      with no two readings more than two poll intervals apart. */
  ghost predicate PressedSince(readings: seq<Reading>, k: nat, n: nat) {
    && k <= n < |readings| && readings[n].now - readings[k].now >= 900
    && (forall i | k <= i <= n :: Pressed(readings[i]))
    && (forall i | k < i <= n :: readings[i].now - readings[i - 1].now <= 2 * readings[i].interval)
  }

  lemma HeldAtIff(readings: seq<Reading>, n: nat)
    requires n < |readings|
    ensures HeldHigh(readings[..n + 1]) <==> exists k: nat :: PressedSince(readings, k, n)
  {
    var upto := readings[..n + 1];
    if k: nat :| HighFrom(upto, k) && upto[n].now - upto[k].now >= RAM_PRESSURE_HOLD_SECONDS {
      forall i | k <= i <= n ensures Pressed(readings[i]) && (k < i ==> Follows(upto, i)) {
        assert High(upto[i]);
      }
      assert PressedSince(readings, k, n);
    }
    if k: nat :| PressedSince(readings, k, n) {
      forall i | k <= i <= n ensures High(upto[i]) && (k < i ==> Follows(upto, i)) {
        assert Pressed(readings[i]);
      }
      assert HighFrom(upto, k);
    }
  }

  /** Over whole runs: the issue is open exactly if at some reading the router had been under
      pressure for 15 minutes without a gap, and was not relaxed at any reading since. */
  lemma ActiveInNumbers(readings: seq<Reading>)
    requires Chronological(readings)
    ensures Active(readings) <==>
            exists k: nat, n: nat :: PressedSince(readings, k, n)
              && forall j | n < j < |readings| :: !Relaxed(readings[j])
  {
    ActiveIff(readings);
    if Active(readings) {
      var n: nat :| NotNormalSince(rs => HeldHigh(rs), readings, n);
      HeldAtIff(readings, n);
      var k: nat :| PressedSince(readings, k, n);
      forall j | n < j < |readings| ensures !Relaxed(readings[j]) { assert !Normal(readings[j]); }
    }
    if k: nat, n: nat :| PressedSince(readings, k, n) && forall j | n < j < |readings| :: !Relaxed(readings[j]) {
      HeldAtIff(readings, n);
      forall j | n < j < |readings| ensures !Normal(readings[j]) { assert !Relaxed(readings[j]); }
      assert NotNormalSince(rs => HeldHigh(rs), readings, n);
    }
  }

  class Coordinator {
    var memHighSince: Option<int>
    var memLastCheck: Option<int>
    var ramIssueActive: bool
    ghost var issueOpen: bool

    ghost function View(): State
      reads this
    {
      State(memHighSince, memLastCheck, ramIssueActive)
    }

    constructor ()
      ensures View() == INIT && issueOpen == ramIssueActive
    {
      memHighSince, memLastCheck, ramIssueActive, issueOpen := None, None, false, false;
    }

    /** `_check_memory_pressure` of the coordinator; None is a poll without usable statistics. */
    method CheckMemoryPressure(reading: Option<Reading>)
      requires issueOpen == ramIssueActive
      modifies this
      ensures View() == if reading.Some? then Step(old(View()), reading.value) else old(View())
      ensures issueOpen == ramIssueActive
    {
      if reading.None? {
        return;
      }
      var r := reading.value;
      var lastCheck := memLastCheck;
      memLastCheck := Some(r.now);
      if lastCheck.Some? && r.now - lastCheck.value > 2 * r.interval {
        memHighSince := None;
      }
      var lowAvailable := r.available < RAM_AVAILABLE_MIN_BYTES;
      var high := r.pct > RAM_PRESSURE_HIGH_PCT || lowAvailable;
      if ramIssueActive {
        if r.pct < RAM_PRESSURE_CLEAR_PCT && !lowAvailable {
          ramIssueActive := false;
          memHighSince := None;
          issueOpen := false;
        }
        return;
      }
      if !high {
        memHighSince := None;
        return;
      }
      if memHighSince.None? {
        memHighSince := Some(r.now);
      }
      if r.now - memHighSince.value < RAM_PRESSURE_HOLD_SECONDS {
        return;
      }
      ramIssueActive := true;
      issueOpen := true;
    }
  }
}
