/** Per-client associations and reconnects over a sliding window, and the hold timer. */
module AssociationTracker {
  import opened Options
  import opened BoundedWindow

  // The tracker keeps one bounded deque and one entry per client that disconnected lately.
  // `Associations` and `LastDisconnect` read the full history of calls instead; the lemmas say
  // when the two cannot be told apart.

  datatype Disconnect = Disconnect(time: int, iface: Option<string>)
  datatype Association = Association(time: int, mac: string, reconnect: bool)
  datatype Counts = Counts(associations: nat, reconnects: nat)

  datatype Call =
    | Connected(mac: string, time: int, iface: Option<string>)
    | Disconnected(mac: string, time: int, iface: Option<string>)
    | CountsAt(now: int)

  datatype Config = Config(windowMs: int, reconnectMs: int, maxItems: nat)
  datatype State = State(items: seq<Association>, lastDisconnect: map<string, Disconnect>)

  const INIT := State([], map[])

  function TimeOf(): Association -> int {
    (a: Association) => a.time
  }

  /** A connect to the same interface shortly after a disconnect from it. */
  predicate IsReconnect(last: Option<Disconnect>, time: int, iface: Option<string>, reconnectMs: int) {
    && last.Some?
    && 0 <= time - last.value.time <= reconnectMs
    && (iface.None? || last.value.iface.None? || iface == last.value.iface)
  }

  function Lookup(m: map<string, Disconnect>, mac: string): Option<Disconnect> {
    if mac in m then Some(m[mac]) else None
  }

  function Step(c: Config, s: State, call: Call): State {
    match call
    case Connected(mac, time, iface) =>
      var flag := IsReconnect(Lookup(s.lastDisconnect, mac), time, iface, c.reconnectMs);
      State(PushBounded(s.items, Association(time, mac, flag), c.maxItems), s.lastDisconnect - {mac})
    case Disconnected(mac, time, iface) => s.(lastDisconnect := s.lastDisconnect[mac := Disconnect(time, iface)])
    case CountsAt(now) =>
      State(DropExpired(s.items, TimeOf(), now - c.windowMs),
            map m | m in s.lastDisconnect && s.lastDisconnect[m].time >= now - c.windowMs :: s.lastDisconnect[m])
  }

  function Run(c: Config, calls: seq<Call>): State {
    if calls == [] then INIT else Step(c, Run(c, calls[..|calls| - 1]), calls[|calls| - 1])
  }

  // ---------------------------------------------------------- full history

  /** The disconnect the next connect of `mac` follows, by the history alone. */
  function LastDisconnect(calls: seq<Call>, mac: string): Option<Disconnect> {
    if calls == [] then None
    else
      match calls[|calls| - 1]
      case Connected(m, _, _) => if m == mac then None else LastDisconnect(calls[..|calls| - 1], mac)
      case Disconnected(m, time, iface) =>
        if m == mac then Some(Disconnect(time, iface)) else LastDisconnect(calls[..|calls| - 1], mac)
      case CountsAt(_) => LastDisconnect(calls[..|calls| - 1], mac)
  }

  /** Every association of the history, each with its reconnect flag by definition. */
  function Associations(c: Config, calls: seq<Call>): seq<Association> {
    if calls == [] then []
    else
      var earlier, call := calls[..|calls| - 1], calls[|calls| - 1];
      if call.Connected? then
        var flag := IsReconnect(LastDisconnect(earlier, call.mac), call.time, call.iface, c.reconnectMs);
        Associations(c, earlier) + [Association(call.time, call.mac, flag)]
      else Associations(c, earlier)
  }

  /** `now` of the calls of `counts` never goes back. */
  ghost predicate Chronological(calls: seq<Call>) {
    forall i, j | 0 <= i <= j < |calls| && calls[i].CountsAt? && calls[j].CountsAt? :: calls[i].now <= calls[j].now
  }

  // ----------------------------------------------------- pruned disconnects

  predicate About(call: Call, mac: string) {
    !call.CountsAt? && call.mac == mac
  }

  /** No call from position `i` on is about `mac`. */
  ghost predicate SilentFrom(calls: seq<Call>, i: int, mac: string) {
    forall j | i <= j < |calls| && 0 <= j :: !About(calls[j], mac)
  }

  /** After the last call about `mac`, a disconnect, some call of `counts` found it too old. */
  ghost predicate Pruned(c: Config, calls: seq<Call>, mac: string) {
    var last := LastDisconnect(calls, mac);
    && last.Some?
    && exists i | 0 <= i < |calls| ::
         calls[i].CountsAt? && SilentFrom(calls, i, mac) && last.value.time < calls[i].now - c.windowMs
  }

  lemma SilentStep(calls: seq<Call>, i: nat, mac: string)
    requires calls != [] && i < |calls|
    ensures SilentFrom(calls, i, mac) <==>
            !About(calls[|calls| - 1], mac) && SilentFrom(calls[..|calls| - 1], i, mac)
  {
    var n := |calls| - 1;
    if SilentFrom(calls, i, mac) {
      assert !About(calls[n], mac);
      forall j | i <= j < n ensures !About(calls[..n][j], mac) {
        assert !About(calls[j], mac);
      }
    }
    if !About(calls[n], mac) && SilentFrom(calls[..n], i, mac) {
      forall j | i <= j < |calls| ensures !About(calls[j], mac) {
        if j < n { assert !About(calls[..n][j], mac); }
      }
    }
  }

  /** One more call prunes, keeps what was pruned, or starts anew. */
  lemma PrunedStep(c: Config, calls: seq<Call>, mac: string)
    requires calls != []
    ensures var earlier, call := calls[..|calls| - 1], calls[|calls| - 1];
            Pruned(c, calls, mac) <==>
            && !About(call, mac)
            && (Pruned(c, earlier, mac)
                || (call.CountsAt? && LastDisconnect(earlier, mac).Some?
                    && LastDisconnect(earlier, mac).value.time < call.now - c.windowMs))
  {
    var n := |calls| - 1;
    var earlier, last := calls[..n], LastDisconnect(calls, mac);
    if Pruned(c, calls, mac) {
      var i :| 0 <= i <= n && calls[i].CountsAt? && SilentFrom(calls, i, mac)
        && last.value.time < calls[i].now - c.windowMs;
      SilentStep(calls, i, mac);
      if i < n { assert earlier[i] == calls[i]; }
    }
    if Pruned(c, earlier, mac) && !About(calls[n], mac) {
      var i :| 0 <= i < n && earlier[i].CountsAt? && SilentFrom(earlier, i, mac)
        && last.value.time < earlier[i].now - c.windowMs;
      SilentStep(calls, i, mac);
      assert calls[i] == earlier[i];
    }
    if calls[n].CountsAt? {
      assert SilentFrom(calls, n, mac);
    }
  }

  /** The tracker remembers exactly the disconnect of the full history, unless it was pruned. */
  lemma {:induction false} RemembersHistory(c: Config, calls: seq<Call>, mac: string)
    ensures Lookup(Run(c, calls).lastDisconnect, mac) == if Pruned(c, calls, mac) then None
            else LastDisconnect(calls, mac)
  {
    if calls != [] {
      RemembersHistory(c, calls[..|calls| - 1], mac);
      PrunedStep(c, calls, mac);
    }
  }

  /** Call `i` is the disconnect of `mac` at this time from this interface, and no call after it is
      about `mac`. */
  ghost predicate LastAbout(calls: seq<Call>, i: int, mac: string, time: int, iface: Option<string>) {
    0 <= i < |calls| && calls[i] == Disconnected(mac, time, iface) && SilentFrom(calls, i + 1, mac)
  }

  lemma {:induction false} LastDisconnectIff(calls: seq<Call>, mac: string, d: Disconnect)
    ensures LastDisconnect(calls, mac) == Some(d) <==> exists i :: LastAbout(calls, i, mac, d.time, d.iface)
  {
    if calls != [] {
      var n := |calls| - 1;
      var earlier := calls[..n];
      LastDisconnectIff(earlier, mac, d);
      if i :| LastAbout(calls, i, mac, d.time, d.iface) {
        if i < n {
          SilentStep(calls, i + 1, mac);
          assert LastAbout(earlier, i, mac, d.time, d.iface);
        }
      }
      if i :| LastAbout(earlier, i, mac, d.time, d.iface) && !About(calls[n], mac) {
        assert calls[i] == earlier[i];
        SilentStep(calls, i + 1, mac);
        assert LastAbout(calls, i, mac, d.time, d.iface);
      }
      if calls[n] == Disconnected(mac, d.time, d.iface) {
        assert LastAbout(calls, n, mac, d.time, d.iface);
      }
    }
  }

  /** By the history a connect is a reconnect exactly if the last call about its client was a
      disconnect at most the reconnect time before it, from the same interface or with one of the
      two interfaces unknown. */
  lemma ReconnectIff(c: Config, calls: seq<Call>, connect: Call)
    requires connect.Connected?
    ensures FlagByHistory(c, calls, connect) <==>
            exists i, time, iface :: LastAbout(calls, i, connect.mac, time, iface)
                                     && time <= connect.time <= time + c.reconnectMs
                                     && (iface == connect.iface || iface == None || connect.iface == None)
  {
    var last := LastDisconnect(calls, connect.mac);
    if last.Some? {
      LastDisconnectIff(calls, connect.mac, last.value);
    }
    if i, time, iface :| LastAbout(calls, i, connect.mac, time, iface)
                         && time <= connect.time <= time + c.reconnectMs
                         && (iface == connect.iface || iface == None || connect.iface == None) {
      LastDisconnectIff(calls, connect.mac, Disconnect(time, iface));
    }
  }

  /** The flag of a connect that follows `calls`, as the history defines it. */
  predicate FlagByHistory(c: Config, calls: seq<Call>, connect: Call)
    requires connect.Connected?
  {
    IsReconnect(LastDisconnect(calls, connect.mac), connect.time, connect.iface, c.reconnectMs)
  }

  /** The flag that the tracker gives it. */
  predicate FlagGiven(c: Config, calls: seq<Call>, connect: Call)
    requires connect.Connected?
  {
    IsReconnect(Lookup(Run(c, calls).lastDisconnect, connect.mac), connect.time, connect.iface, c.reconnectMs)
  }

  /** The flag is that of the history exactly unless the disconnect that makes the connect a
      reconnect was pruned; the tracker never calls a connect a reconnect that is none. */
  lemma FlagMatchesIff(c: Config, calls: seq<Call>, connect: Call)
    requires connect.Connected?
    ensures FlagGiven(c, calls, connect) == FlagByHistory(c, calls, connect) <==>
            !(Pruned(c, calls, connect.mac) && FlagByHistory(c, calls, connect))
    ensures FlagGiven(c, calls, connect) ==> FlagByHistory(c, calls, connect)
  {
    RemembersHistory(c, calls, connect.mac);
  }

  /** Above the bound the pruning cannot be observed, whatever else happened. */
  lemma FlagMatchesHistory(c: Config, calls: seq<Call>, connect: Call)
    requires connect.Connected?
    requires forall i | 0 <= i < |calls| && calls[i].CountsAt? ::
               connect.time >= calls[i].now - c.windowMs + c.reconnectMs
    ensures FlagGiven(c, calls, connect) == FlagByHistory(c, calls, connect)
  {
    FlagMatchesIff(c, calls, connect);
    if Pruned(c, calls, connect.mac) {
      var last := LastDisconnect(calls, connect.mac).value;
      var i :| 0 <= i < |calls| && calls[i].CountsAt? && last.time < calls[i].now - c.windowMs;
      assert connect.time >= calls[i].now - c.windowMs + c.reconnectMs;
    }
  }

  /** The bound is sharp: a connect can lose its flag to a call of `counts` at `now` exactly
      if it lies below `now - windowMs + reconnectMs`. */
  lemma PruningShowsBelowTheBound(c: Config, now: int, connect: Call)
    requires connect.Connected? && c.reconnectMs >= 0
    ensures connect.time < now - c.windowMs + c.reconnectMs <==>
            exists calls :: OneCount(calls, now) && FlagGiven(c, calls, connect) != FlagByHistory(c, calls, connect)
  {
    if connect.time < now - c.windowMs + c.reconnectMs {
      var oldest := now - c.windowMs - 1;
      var calls := LosingRun(c, now, connect, if connect.time < oldest then connect.time else oldest);
      assert OneCount(calls, now);
    }
    forall calls | connect.time >= now - c.windowMs + c.reconnectMs && OneCount(calls, now)
      ensures FlagGiven(c, calls, connect) == FlagByHistory(c, calls, connect)
    {
      FlagMatchesHistory(c, calls, connect);
    }
  }

  /** Every call of `counts` happens at `now`. */
  ghost predicate OneCount(calls: seq<Call>, now: int) {
    forall i | 0 <= i < |calls| && calls[i].CountsAt? :: calls[i].now == now
  }

  lemma LosingRun(c: Config, now: int, connect: Call, time: int) returns (calls: seq<Call>)
    requires connect.Connected? && time < now - c.windowMs && 0 <= connect.time - time <= c.reconnectMs
    ensures OneCount(calls, now) && !FlagGiven(c, calls, connect) && FlagByHistory(c, calls, connect)
  {
    var first := Disconnected(connect.mac, time, connect.iface);
    calls := [first, CountsAt(now)];
    assert calls[..1] == [first] && [first][..0] == [];
    assert LastDisconnect([first], connect.mac) == Some(Disconnect(time, connect.iface));
    assert LastDisconnect(calls, connect.mac) == Some(Disconnect(time, connect.iface));
    assert calls[1].CountsAt? && SilentFrom(calls, 1, connect.mac);
    assert Pruned(c, calls, connect.mac);
    FlagMatchesIff(c, calls, connect);
  }

  // ------------------------------------------------------------ the window

  /** Every association of the history, each with the flag that the tracker gave it. */
  function Given(c: Config, calls: seq<Call>): seq<Association> {
    if calls == [] then []
    else
      var earlier, call := calls[..|calls| - 1], calls[|calls| - 1];
      if call.Connected? then Given(c, earlier) + [Association(call.time, call.mac, FlagGiven(c, earlier, call))]
      else Given(c, earlier)
  }

  /** A cutoff that no call of `counts` so far exceeds. */
  ghost predicate CutoffBelow(c: Config, calls: seq<Call>, cutoff: int) {
    forall i | 0 <= i < |calls| && calls[i].CountsAt? :: calls[i].now - c.windowMs <= cutoff
  }

  /** The deque keeps what the window may still need of all that was ever pushed. */
  lemma {:induction false} RunRetains(c: Config, calls: seq<Call>, cutoff: int)
    requires Chronological(calls) && CutoffBelow(c, calls, cutoff)
    ensures Retains(Given(c, calls), Run(c, calls).items, c.maxItems, TimeOf(), cutoff)
  {
    if calls != [] {
      var n := |calls| - 1;
      var earlier, call := calls[..n], calls[n];
      assert calls == earlier + [call];
      PrefixKeeps(c, earlier, call, cutoff);
      RunRetains(c, earlier, cutoff);
      var given, items := Given(c, earlier), Run(c, earlier).items;
      if call.Connected? {
        var a := Association(call.time, call.mac, FlagGiven(c, earlier, call));
        PushRetains(given, items, a, c.maxItems, TimeOf(), cutoff);
      } else if call.CountsAt? {
        var due := call.now - c.windowMs;
        RunRetains(c, earlier, due);
        DropRetains(given, items, c.maxItems, TimeOf(), due, due);
        RetainsLater(given, Run(c, calls).items, c.maxItems, due, cutoff);
      }
    }
  }

  lemma PrefixKeeps(c: Config, earlier: seq<Call>, call: Call, cutoff: int)
    requires Chronological(earlier + [call]) && CutoffBelow(c, earlier + [call], cutoff)
    ensures Chronological(earlier) && CutoffBelow(c, earlier, cutoff)
    ensures call.CountsAt? ==> CutoffBelow(c, earlier, call.now - c.windowMs) && call.now - c.windowMs <= cutoff
  {
    var all := earlier + [call];
    assert forall i | 0 <= i < |earlier| :: all[i] == earlier[i];
    assert all[|earlier|] == call;
  }

  lemma RetainsLater(added: seq<Association>, items: seq<Association>, max: nat, cutoff: int, later: int)
    requires Retains(added, items, max, TimeOf(), cutoff) && cutoff <= later
    ensures Retains(added, items, max, TimeOf(), later)
  {
  }

  function Live(mac: string, cutoff: int): Association -> bool {
    (a: Association) => a.mac == mac && a.time >= cutoff
  }

  function LiveReconnect(mac: string, cutoff: int): Association -> bool {
    (a: Association) => a.mac == mac && a.time >= cutoff && a.reconnect
  }

  /** The counts of `mac` among `items` that are not older than the cutoff. */
  function CountsOf(items: seq<Association>, mac: string, cutoff: int): Counts {
    Counts(Count(items, Live(mac, cutoff)), Count(items, LiveReconnect(mac, cutoff)))
  }

  /** After any run, with timestamps in any order, `counts` reports what it would report from
      everything that was ever pushed, cut to the last `maxItems`. */
  lemma CountsMatchGiven(c: Config, calls: seq<Call>, now: int, mac: string)
    requires Chronological(calls + [CountsAt(now)])
    ensures CountsOf(Run(c, calls + [CountsAt(now)]).items, mac, now - c.windowMs)
         == CountsOf(LastOf(Given(c, calls), c.maxItems), mac, now - c.windowMs)
  {
    var all, cutoff := calls + [CountsAt(now)], now - c.windowMs;
    CountingNow(c, calls, now);
    RunRetains(c, all, cutoff);
    SameCounts(c, Given(c, calls), Run(c, all).items, mac, cutoff);
  }

  lemma SameCounts(c: Config, added: seq<Association>, items: seq<Association>, mac: string, cutoff: int)
    requires Retains(added, items, c.maxItems, TimeOf(), cutoff)
    ensures CountsOf(items, mac, cutoff) == CountsOf(LastOf(added, c.maxItems), mac, cutoff)
  {
    RetainedCount(added, items, c.maxItems, TimeOf(), cutoff, Live(mac, cutoff));
    RetainedCount(added, items, c.maxItems, TimeOf(), cutoff, LiveReconnect(mac, cutoff));
  }

  lemma CountingNow(c: Config, calls: seq<Call>, now: int)
    requires Chronological(calls + [CountsAt(now)])
    ensures CutoffBelow(c, calls + [CountsAt(now)], now - c.windowMs)
    ensures Given(c, calls + [CountsAt(now)]) == Given(c, calls)
  {
    var all := calls + [CountsAt(now)];
    assert all[..|calls|] == calls;
    assert all[|calls|] == CountsAt(now);
  }

  // ------------------------------------------- given flags and those defined

  /** Where the association of the connect at position `j` stands in the history. */
  function Place(c: Config, calls: seq<Call>, j: nat): nat
    requires j < |calls|
  {
    |Associations(c, calls[..j])|
  }

  /** The connect at position `j` lost its flag because its disconnect was pruned. */
  ghost predicate LostFlag(c: Config, calls: seq<Call>, j: nat)
    requires j < |calls|
  {
    calls[j].Connected? && Pruned(c, calls[..j], calls[j].mac) && FlagByHistory(c, calls[..j], calls[j])
  }

  /** The two histories hold the same associations, and an entry differs exactly where a connect lost its flag. */
  ghost predicate FlagsDifferWhereLost(c: Config, calls: seq<Call>) {
    var given, full := Given(c, calls), Associations(c, calls);
    && |given| == |full|
    && (forall k | 0 <= k < |full| :: HasConnect(c, calls, k))
    && (forall j: nat | j < |calls| && calls[j].Connected? :: EntryAt(c, calls, j))
  }

  ghost predicate HasConnect(c: Config, calls: seq<Call>, k: int) {
    exists j | 0 <= j < |calls| :: calls[j].Connected? && Place(c, calls, j) == k
  }

  ghost predicate EntryAt(c: Config, calls: seq<Call>, j: nat)
    requires j < |calls| && calls[j].Connected?
  {
    var given, full, k := Given(c, calls), Associations(c, calls), Place(c, calls, j);
    && k < |full| && k < |given|
    && full[k] == Association(calls[j].time, calls[j].mac, FlagByHistory(c, calls[..j], calls[j]))
    && given[k] == Association(calls[j].time, calls[j].mac, full[k].reconnect && !LostFlag(c, calls, j))
  }

  lemma {:induction false} HistoriesCompare(c: Config, calls: seq<Call>)
    ensures FlagsDifferWhereLost(c, calls)
  {
    if calls != [] {
      var n := |calls| - 1;
      var earlier := calls[..n];
      HistoriesCompare(c, earlier);
      forall j: nat | j < |calls| && calls[j].Connected? ensures EntryAt(c, calls, j) {
        if j < n {
          assert earlier[..j] == calls[..j] && EntryAt(c, earlier, j);
        } else {
          FlagMatchesIff(c, earlier, calls[n]);
        }
      }
      forall k | 0 <= k < |Associations(c, calls)| ensures HasConnect(c, calls, k) {
        if k < |Associations(c, earlier)| {
          assert HasConnect(c, earlier, k);
          var j :| 0 <= j < n && earlier[j].Connected? && Place(c, earlier, j) == k;
          assert earlier[..j] == calls[..j];
          assert calls[j].Connected? && Place(c, calls, j) == k;
        } else {
          assert calls[n].Connected? && Place(c, calls, n) == k;
        }
      }
    }
  }

  /** The connect at `j` is one of the last `maxItems`, is about `mac` and not older than the cutoff. */
  ghost predicate Counted(c: Config, calls: seq<Call>, j: nat, mac: string, cutoff: int)
    requires j < |calls|
  {
    && calls[j].Connected? && calls[j].mac == mac && calls[j].time >= cutoff
    && |Associations(c, calls)| - Place(c, calls, j) <= c.maxItems
  }

  /** The associations are exact; the reconnects are never overstated, and exact unless a
      counted connect lost its flag. */
  ghost predicate TrueCounts(c: Config, calls: seq<Call>, answer: Counts, mac: string, cutoff: int) {
    var truth := CountsOf(LastOf(Associations(c, calls), c.maxItems), mac, cutoff);
    && answer.associations == truth.associations
    && answer.reconnects <= truth.reconnects
    && (answer.reconnects == truth.reconnects <==>
        forall j: nat | j < |calls| && Counted(c, calls, j, mac, cutoff) :: !LostFlag(c, calls, j))
  }

  /** After any run, with timestamps in any order, the answer is true to the full history. */
  lemma CountsMatchHistory(c: Config, calls: seq<Call>, now: int, mac: string)
    requires Chronological(calls + [CountsAt(now)])
    ensures var cutoff := now - c.windowMs;
            TrueCounts(c, calls, CountsOf(Run(c, calls + [CountsAt(now)]).items, mac, cutoff), mac, cutoff)
  {
    CountsMatchGiven(c, calls, now, mac);
    GivenCountsAreTrue(c, calls, mac, now - c.windowMs);
  }

  lemma GivenCountsAreTrue(c: Config, calls: seq<Call>, mac: string, cutoff: int)
    ensures TrueCounts(c, calls, CountsOf(LastOf(Given(c, calls), c.maxItems), mac, cutoff), mac, cutoff)
  {
    HistoriesCompare(c, calls);
    CompareCounts(c, calls, mac, cutoff);
    AlikeIffNothingLost(c, calls, mac, cutoff);
  }

  /** No connect is so late that its disconnect may have been pruned while it still mattered. */
  ghost predicate Punctual(c: Config, calls: seq<Call>) {
    forall i, j | 0 <= i < j < |calls| && calls[i].CountsAt? && calls[j].Connected? ::
      calls[j].time >= calls[i].now - c.windowMs + c.reconnectMs
  }

  /** In a run without late connects the reconnects are exact, too. */
  lemma PunctualRunsAreExact(c: Config, calls: seq<Call>, now: int, mac: string)
    requires Chronological(calls + [CountsAt(now)]) && Punctual(c, calls)
    ensures CountsOf(Run(c, calls + [CountsAt(now)]).items, mac, now - c.windowMs)
         == CountsOf(LastOf(Associations(c, calls), c.maxItems), mac, now - c.windowMs)
  {
    CountsMatchHistory(c, calls, now, mac);
    forall j: nat | j < |calls| && calls[j].Connected? ensures !LostFlag(c, calls, j) {
      FlagMatchesHistory(c, calls[..j], calls[j]);
      FlagMatchesIff(c, calls[..j], calls[j]);
    }
  }

  /** The connect behind entry `i` of the last `maxItems`. */
  lemma RecentEntry(c: Config, calls: seq<Call>, i: nat) returns (j: nat)
    requires FlagsDifferWhereLost(c, calls) && i < |LastOf(Associations(c, calls), c.maxItems)|
    ensures j < |calls| && SameEntry(c, calls, i, j)
  {
    var full := Associations(c, calls);
    var k := |full| - |LastOf(full, c.maxItems)| + i;
    assert HasConnect(c, calls, k);
    j :| j < |calls| && calls[j].Connected? && Place(c, calls, j) == k;
    EntryIsRecent(c, calls, i, j);
  }

  lemma EntryIsRecent(c: Config, calls: seq<Call>, i: nat, j: nat)
    requires |Given(c, calls)| == |Associations(c, calls)| && j < |calls| && calls[j].Connected? && EntryAt(c, calls, j)
    requires i < |LastOf(Associations(c, calls), c.maxItems)|
    requires Place(c, calls, j) == |Associations(c, calls)| - |LastOf(Associations(c, calls), c.maxItems)| + i
    ensures SameEntry(c, calls, i, j)
  {
    var given, full := Given(c, calls), Associations(c, calls);
    LastAt(full, c.maxItems, i);
    LastAt(given, c.maxItems, i);
  }

  lemma LastAt<T>(all: seq<T>, max: nat, i: nat)
    requires i < |LastOf(all, max)|
    ensures LastOf(all, max)[i] == all[|all| - |LastOf(all, max)| + i] && |LastOf(all, max)| <= max
  {
  }

  ghost predicate SameEntry(c: Config, calls: seq<Call>, i: nat, j: nat)
    requires j < |calls|
  {
    var given, full := LastOf(Given(c, calls), c.maxItems), LastOf(Associations(c, calls), c.maxItems);
    && |given| == |full| && i < |full|
    && calls[j].Connected? && |Associations(c, calls)| - Place(c, calls, j) <= c.maxItems
    && (full[i].time, full[i].mac) == (given[i].time, given[i].mac) == (calls[j].time, calls[j].mac)
    && (LostFlag(c, calls, j) ==> full[i].reconnect)
    && given[i].reconnect == (full[i].reconnect && !LostFlag(c, calls, j))
  }

  lemma CountedIsRecent(c: Config, calls: seq<Call>, j: nat, mac: string, cutoff: int) returns (i: nat)
    requires FlagsDifferWhereLost(c, calls) && j < |calls| && Counted(c, calls, j, mac, cutoff)
    ensures SameEntry(c, calls, i, j)
  {
    var full := Associations(c, calls);
    assert EntryAt(c, calls, j);
    i := Place(c, calls, j) - (|full| - |LastOf(full, c.maxItems)|);
    EntryIsRecent(c, calls, i, j);
  }

  /** No entry of the last `maxItems` counts differently. */
  ghost predicate CountAlike(c: Config, calls: seq<Call>, mac: string, cutoff: int) {
    var given, full := LastOf(Given(c, calls), c.maxItems), LastOf(Associations(c, calls), c.maxItems);
    && |given| == |full|
    && forall i | 0 <= i < |given| :: LiveReconnect(mac, cutoff)(given[i]) == LiveReconnect(mac, cutoff)(full[i])
  }

  lemma AlikeIffNothingLost(c: Config, calls: seq<Call>, mac: string, cutoff: int)
    requires FlagsDifferWhereLost(c, calls)
    ensures CountAlike(c, calls, mac, cutoff) <==>
            forall j: nat | j < |calls| && Counted(c, calls, j, mac, cutoff) :: !LostFlag(c, calls, j)
  {
    var given, full := LastOf(Given(c, calls), c.maxItems), LastOf(Associations(c, calls), c.maxItems);
    if CountAlike(c, calls, mac, cutoff) {
      forall j: nat | j < |calls| && Counted(c, calls, j, mac, cutoff) ensures !LostFlag(c, calls, j) {
        var i := CountedIsRecent(c, calls, j, mac, cutoff);
        assert LiveReconnect(mac, cutoff)(given[i]) == LiveReconnect(mac, cutoff)(full[i]);
      }
    }
    if forall j: nat | j < |calls| && Counted(c, calls, j, mac, cutoff) :: !LostFlag(c, calls, j) {
      forall i | 0 <= i < |given| ensures LiveReconnect(mac, cutoff)(given[i]) == LiveReconnect(mac, cutoff)(full[i]) {
        var j := RecentEntry(c, calls, i);
        assert full[i].mac == mac && full[i].time >= cutoff ==> Counted(c, calls, j, mac, cutoff);
      }
    }
  }

  lemma CompareCounts(c: Config, calls: seq<Call>, mac: string, cutoff: int)
    requires FlagsDifferWhereLost(c, calls)
    ensures var given, full := LastOf(Given(c, calls), c.maxItems), LastOf(Associations(c, calls), c.maxItems);
            && Count(given, Live(mac, cutoff)) == Count(full, Live(mac, cutoff))
            && Count(given, LiveReconnect(mac, cutoff)) <= Count(full, LiveReconnect(mac, cutoff))
            && (Count(given, LiveReconnect(mac, cutoff)) == Count(full, LiveReconnect(mac, cutoff)) <==>
                CountAlike(c, calls, mac, cutoff))
  {
    var given, full := LastOf(Given(c, calls), c.maxItems), LastOf(Associations(c, calls), c.maxItems);
    forall i | 0 <= i < |full|
      ensures Live(mac, cutoff)(given[i]) == Live(mac, cutoff)(full[i])
      ensures LiveReconnect(mac, cutoff)(given[i]) ==> LiveReconnect(mac, cutoff)(full[i])
    {
      var j := RecentEntry(c, calls, i);
    }
    CountCompare(given, full, Live(mac, cutoff), Live(mac, cutoff));
    CountCompare(given, full, LiveReconnect(mac, cutoff), LiveReconnect(mac, cutoff));
  }

  /** `out` lists exactly the clients with live associations, with their counts. */
  ghost predicate Tallies(out: map<string, Counts>, items: seq<Association>, cutoff: int) {
    forall m :: (m in out <==> CountsOf(items, m, cutoff).associations > 0)
      && (m in out ==> out[m] == CountsOf(items, m, cutoff))
  }

  class AssociationTracker {
    const config: Config
    var items: seq<Association>
    var lastDisconnect: map<string, Disconnect>

    ghost function View(): State
      reads this
    {
      State(items, lastDisconnect)
    }

    constructor (config: Config)
      ensures View() == INIT && this.config == config
    {
      this.config := config;
      items, lastDisconnect := [], map[];
    }

    method Connected(mac: string, time: int, iface: Option<string>)
      modifies this
      ensures View() == Step(config, old(View()), Call.Connected(mac, time, iface))
    {
      var last := Lookup(lastDisconnect, mac);
      lastDisconnect := lastDisconnect - {mac};
      var reconnect := last.Some? && 0 <= time - last.value.time <= config.reconnectMs
        && (iface.None? || last.value.iface.None? || iface == last.value.iface);
      items := PushBounded(items, Association(time, mac, reconnect), config.maxItems);
    }

    method Disconnected(mac: string, time: int, iface: Option<string>)
      modifies this
      ensures View() == Step(config, old(View()), Call.Disconnected(mac, time, iface))
    {
      lastDisconnect := lastDisconnect[mac := Disconnect(time, iface)];
    }

    method CountsAt(now: int) returns (out: map<string, Counts>)
      modifies this
      ensures View() == Step(config, old(View()), Call.CountsAt(now))
      ensures Tallies(out, items, now - config.windowMs)
    {
      var cutoff := now - config.windowMs;
      while items != [] && items[0].time < cutoff
        invariant DropExpired(items, TimeOf(), cutoff) == old(DropExpired(items, TimeOf(), cutoff))
        modifies `items
        decreases |items|
      {
        items := items[1..];
      }
      lastDisconnect := map m | m in lastDisconnect && lastDisconnect[m].time >= cutoff :: lastDisconnect[m];
      out := TallyLive(items, cutoff);
    }
  }

  method TallyLive(items: seq<Association>, cutoff: int) returns (out: map<string, Counts>)
    ensures Tallies(out, items, cutoff)
  {
    out := map[];
    for i := 0 to |items|
      invariant Tallies(out, items[..i], cutoff)
    {
      var a := items[i];
      forall m ensures CountsOf(items[..i + 1], m, cutoff) == CountedIn(CountsOf(items[..i], m, cutoff), a, m, cutoff) {
        assert items[..i + 1] == items[..i] + [a];
        CountSplit(items[..i], [a], Live(m, cutoff));
        CountSplit(items[..i], [a], LiveReconnect(m, cutoff));
      }
      ReconnectsAreAssociations(items[..i], a.mac, cutoff);
      if a.time >= cutoff {
        var entry := if a.mac in out then out[a.mac] else Counts(0, 0);
        out := out[a.mac := Counts(entry.associations + 1, entry.reconnects + if a.reconnect then 1 else 0)];
      }
    }
    assert items[..|items|] == items;
  }

  function CountedIn(n: Counts, a: Association, mac: string, cutoff: int): Counts {
    if a.mac != mac || a.time < cutoff then n
    else Counts(n.associations + 1, n.reconnects + if a.reconnect then 1 else 0)
  }

  lemma {:induction false} ReconnectsAreAssociations(items: seq<Association>, mac: string, cutoff: int)
    ensures Count(items, LiveReconnect(mac, cutoff)) <= Count(items, Live(mac, cutoff))
  {
    if items != [] {
      ReconnectsAreAssociations(items[1..], mac, cutoff);
    }
  }

  // ------------------------------------------------------------ hold timer

  datatype HoldUpdate = HoldUpdate(keys: set<string>, now: int)

  function HoldStep(since: map<string, int>, u: HoldUpdate): map<string, int> {
    map k | k in u.keys :: if k in since then since[k] else u.now
  }

  function HoldRun(updates: seq<HoldUpdate>): map<string, int> {
    if updates == [] then map[] else HoldStep(HoldRun(updates[..|updates| - 1]), updates[|updates| - 1])
  }

  /** `k` holds in every update from the `i`-th to the last, and did not before. */
  ghost predicate HoldsFrom(updates: seq<HoldUpdate>, k: string, i: nat) {
    && i < |updates|
    && (forall j | i <= j < |updates| :: k in updates[j].keys)
    && (i > 0 ==> k !in updates[i - 1].keys)
  }

  /** The timer of a key runs since the first update of its unbroken run. */
  lemma {:induction false} TimerIsUnbroken(updates: seq<HoldUpdate>, k: string)
    ensures k in HoldRun(updates) <==> updates != [] && k in updates[|updates| - 1].keys
    ensures k in HoldRun(updates) ==>
              exists i: nat :: HoldsFrom(updates, k, i) && HoldRun(updates)[k] == updates[i].now
  {
    if updates != [] {
      var n := |updates| - 1;
      var earlier := updates[..n];
      TimerIsUnbroken(earlier, k);
      if k in updates[n].keys {
        if k in HoldRun(earlier) {
          var i: nat :| HoldsFrom(earlier, k, i) && HoldRun(earlier)[k] == earlier[i].now;
          assert HoldsFrom(updates, k, i);
        } else {
          assert HoldsFrom(updates, k, n);
        }
      }
    }
  }

  class HoldTimer {
    var since: map<string, int>

    constructor ()
      ensures since == map[]
    {
      since := map[];
    }

    method Update(keys: set<string>, now: int)
      modifies this
      ensures since == HoldStep(old(since), HoldUpdate(keys, now))
    {
      since := map k | k in keys :: if k in since then since[k] else now;
    }

    method Held(now: int, holdSeconds: int) returns (held: map<string, int>)
      ensures forall k :: k in held <==> k in since && now - since[k] >= holdSeconds * 1000
      ensures forall k | k in held :: held[k] == since[k]
    {
      held := map k | k in since && now - since[k] >= holdSeconds * 1000 :: since[k];
    }
  }
}
