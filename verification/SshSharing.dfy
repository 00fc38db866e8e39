/** One SSH connection shared by all commands of a router, under any interleaving. */
module SshSharing {
  import opened Options

  // A command is a task; every await in its coroutine is a point where other tasks may run.
  // `Next` is one uninterrupted piece of one task, a release request, a close, or the server
  // hanging up. Invariants of `Next` hold for every interleaving.

  type Task = nat
  type Conn = nat

  /** Where a running command waits; `retry` is its second and last attempt. */
  datatype Pc =
    | Waiting(retry: bool)               // for the connection lock
    | Connecting(retry: bool)            // holds the lock
    | Running(conn: Conn, retry: bool)
    | Dropping                           // for the broken connection to close

  datatype State = State(
    conn: Option<Conn>,        // the shared connection
    closed: set<Conn>,         // connections that are closed, by either side
    logins: nat,               // connections 0 .. logins - 1 were opened so far
    lock: Option<Task>,
    inflight: nat,
    releasePending: bool,
    tasks: map<Task, Pc>)      // the commands in flight

  datatype Event =
    | Start(task: Task)
    | Acquire(task: Task)
    | Connected(task: Task)
    | RunBreaks(task: Task)    // channel or connection error: drop and reconnect once
    | Dropped(task: Task)
    | Ends(task: Task)         // result, error or timeout, at whatever point
    | RequestRelease
    | Close
    | ServerCloses(conn: Conn)

  const INIT := State(None, {}, 0, None, 0, false, map[])

  predicate IsOpen(s: State, c: Conn) {
    c < s.logins && c !in s.closed
  }

  function Drop(s: State): State {
    if s.conn.None? then s else s.(conn := None, closed := s.closed + {s.conn.value})
  }

  function Acquired(s: State, t: Task, retry: bool): State {
    if s.conn.Some? && IsOpen(s, s.conn.value) then s.(tasks := s.tasks[t := Running(s.conn.value, retry)])
    else s.(conn := None, lock := Some(t), tasks := s.tasks[t := Connecting(retry)])
  }

  /** The end of a command: the last one honours a deferred release. */
  function Finished(s: State, t: Task): State
    requires s.inflight > 0
  {
    var left := s.(tasks := s.tasks - {t}, inflight := s.inflight - 1,
                   lock := if s.lock == Some(t) then None else s.lock);
    if left.inflight == 0 && left.releasePending then Drop(left.(releasePending := false)) else left
  }

  function Released(s: State): State {
    if s.inflight > 0 then s.(releasePending := true) else Drop(s.(releasePending := false))
  }

  predicate Enabled(s: State, e: Event) {
    match e
    case Start(t) => t !in s.tasks
    case Acquire(t) => t in s.tasks && s.tasks[t].Waiting? && s.lock.None?
    case Connected(t) => t in s.tasks && s.tasks[t].Connecting?
    case RunBreaks(t) => t in s.tasks && s.tasks[t].Running? && !s.tasks[t].retry
    case Dropped(t) => t in s.tasks && s.tasks[t].Dropping?
    case Ends(t) => t in s.tasks && s.inflight > 0
    case RequestRelease => true
    case Close => true
    case ServerCloses(c) => c < s.logins
  }

  function Next(s: State, e: Event): State
    requires Enabled(s, e)
  {
    match e
    case Start(t) => s.(inflight := s.inflight + 1, tasks := s.tasks[t := Waiting(false)])
    case Acquire(t) => Acquired(s, t, s.tasks[t].retry)
    case Connected(t) =>
      s.(conn := Some(s.logins), logins := s.logins + 1, lock := None,
         tasks := s.tasks[t := Running(s.logins, s.tasks[t].retry)])
    case RunBreaks(t) => Drop(s).(tasks := s.tasks[t := Dropping])
    case Dropped(t) => s.(tasks := s.tasks[t := Waiting(true)])
    case Ends(t) => Finished(s, t)
    case RequestRelease => Released(s)
    case Close => Drop(s)
    case ServerCloses(c) => s.(closed := s.closed + {c})
  }

  /** Any interleaving: a list of events, each possible when it happens. */
  predicate IsRun(s: State, events: seq<Event>)
    decreases |events|
  {
    events == [] || (Enabled(s, events[0]) && IsRun(Next(s, events[0]), events[1..]))
  }

  function Run(s: State, events: seq<Event>): State
    requires IsRun(s, events)
    decreases |events|
  {
    if events == [] then s else Run(Next(s, events[0]), events[1..])
  }

  // -------------------------------------------------------------- invariant

  /** The counter counts the commands; a deferred release waits for one of them. */
  ghost predicate InvCount(s: State) {
    s.inflight == |s.tasks| && (s.releasePending ==> s.inflight > 0)
  }

  /** Exactly the command that is connecting holds the lock. */
  ghost predicate InvLock(s: State) {
    && (s.lock.Some? ==> s.conn.None?)
    && (forall t: Task :: s.lock == Some(t) <==> t in s.tasks && s.tasks[t].Connecting?)
  }

  /** Only the shared connection may be open. */
  ghost predicate InvConn(s: State) {
    && (s.conn.Some? ==> s.conn.value < s.logins)
    && (forall c | c in s.closed :: c < s.logins)
    && (forall c: Conn | IsOpen(s, c) :: s.conn == Some(c))
  }

  ghost predicate Inv(s: State) {
    InvCount(s) && InvLock(s) && InvConn(s)
  }

  lemma CountStays(s: State, t: Task, pc: Pc)
    requires t in s.tasks
    ensures |s.tasks[t := pc]| == |s.tasks|
  {
    assert s.tasks[t := pc].Keys == s.tasks.Keys;
  }

  lemma CountGrows(s: State, t: Task, pc: Pc)
    requires t !in s.tasks
    ensures |s.tasks[t := pc]| == |s.tasks| + 1
  {
    assert s.tasks[t := pc].Keys == s.tasks.Keys + {t};
  }

  lemma CountShrinks(s: State, t: Task)
    requires t in s.tasks
    ensures |s.tasks - {t}| == |s.tasks| - 1
  {
    assert (s.tasks - {t}).Keys == s.tasks.Keys - {t};
  }

  lemma AcquiredKeepsCount(s: State, t: Task, retry: bool)
    requires InvCount(s) && t in s.tasks
    ensures InvCount(Acquired(s, t, retry))
  {
    CountStays(s, t, Connecting(retry));
    if s.conn.Some? { CountStays(s, t, Running(s.conn.value, retry)); }
  }

  lemma FinishedKeepsCount(s: State, t: Task)
    requires InvCount(s) && t in s.tasks && s.inflight > 0
    ensures InvCount(Finished(s, t))
  {
    CountShrinks(s, t);
  }

  lemma NextKeepsCount(s: State, e: Event)
    requires InvCount(s) && Enabled(s, e)
    ensures InvCount(Next(s, e))
  {
    match e
    case Start(t) => CountGrows(s, t, Waiting(false));
    case Acquire(t) => AcquiredKeepsCount(s, t, s.tasks[t].retry);
    case Connected(t) => CountStays(s, t, Running(s.logins, s.tasks[t].retry));
    case RunBreaks(t) => CountStays(s, t, Dropping);
    case Dropped(t) => CountStays(s, t, Waiting(true));
    case Ends(t) => FinishedKeepsCount(s, t);
    case RequestRelease =>
    case Close =>
    case ServerCloses(c) =>
  }

  lemma NextKeepsLock(s: State, e: Event)
    requires InvLock(s) && Enabled(s, e)
    ensures InvLock(Next(s, e))
  {
    if e.Connected? { assert s.lock == Some(e.task); }
    if e.Ends? { assert forall u | u in s.tasks - {e.task} :: u in s.tasks; }
  }

  lemma NextKeepsConn(s: State, e: Event)
    requires InvLock(s) && InvConn(s) && Enabled(s, e)
    ensures InvConn(Next(s, e))
  {
    if e.Connected? { assert s.lock == Some(e.task) && s.conn.None?; }
  }

  lemma NextKeepsInv(s: State, e: Event)
    requires Inv(s) && Enabled(s, e)
    ensures Inv(Next(s, e))
  {
    NextKeepsCount(s, e);
    NextKeepsLock(s, e);
    NextKeepsConn(s, e);
  }

  lemma {:induction false} RunKeepsInv(s: State, events: seq<Event>)
    requires Inv(s) && IsRun(s, events)
    ensures Inv(Run(s, events))
    decreases |events|
  {
    if events != [] {
      NextKeepsInv(s, events[0]);
      RunKeepsInv(Next(s, events[0]), events[1..]);
    }
  }

  /** In every reachable state at most one connection is open, and it is the shared one;
      a deferred release implies a command in flight. */
  lemma AtMostOneOpen(events: seq<Event>, c: Conn, d: Conn)
    requires IsRun(INIT, events)
    ensures var s := Run(INIT, events);
            && (IsOpen(s, c) && IsOpen(s, d) ==> c == d)
            && (IsOpen(s, c) ==> s.conn == Some(c))
            && (s.releasePending ==> s.tasks != map[])
  {
    RunKeepsInv(INIT, events);
  }

  /** The release path closes nothing while a command is in flight. The exceptions are
      the reconnect after an error, the close on unload and the server itself. */
  lemma ReleaseNeverCutsACommand(events: seq<Event>, e: Event, c: Conn)
    requires IsRun(INIT, events) && Enabled(Run(INIT, events), e)
    requires !e.RunBreaks? && !e.Close? && !e.ServerCloses?
    requires IsOpen(Run(INIT, events), c) && !IsOpen(Next(Run(INIT, events), e), c)
    ensures Next(Run(INIT, events), e).tasks == map[]
  {
    var s := Run(INIT, events);
    RunKeepsInv(INIT, events);
    NextKeepsCount(s, e);
    assert Next(s, e).inflight == 0;
  }

  /** Command `u` runs on an open connection. */
  ghost predicate RunsOnOpen(s: State, u: Task) {
    u in s.tasks && s.tasks[u].Running? && IsOpen(s, s.tasks[u].conn)
  }

  /** Command `u` still runs after the event, but its connection was closed by it. */
  ghost predicate IsCut(s: State, e: Event, u: Task)
    requires Enabled(s, e)
  {
    RunsOnOpen(s, u) && u in Next(s, e).tasks && Next(s, e).tasks[u] == s.tasks[u]
      && !IsOpen(Next(s, e), s.tasks[u].conn)
  }

  /** Exactly what can cut a command off: the reconnect of another one, the close on unload,
      and the server hanging up. Releases, starts and ends of other commands never do. */
  lemma CommandIsCutIff(events: seq<Event>, e: Event, u: Task)
    requires IsRun(INIT, events) && Enabled(Run(INIT, events), e) && RunsOnOpen(Run(INIT, events), u)
    ensures IsCut(Run(INIT, events), e, u) <==>
            || (e.RunBreaks? && e.task != u)
            || e.Close?
            || e == ServerCloses(Run(INIT, events).tasks[u].conn)
  {
    RunKeepsInv(INIT, events);
    CutIff(Run(INIT, events), e, u);
  }

  lemma CutIff(s: State, e: Event, u: Task)
    requires Inv(s) && Enabled(s, e) && RunsOnOpen(s, u)
    ensures IsCut(s, e, u) <==> (e.RunBreaks? && e.task != u) || e.Close? || e == ServerCloses(s.tasks[u].conn)
  {
    assert s.conn == Some(s.tasks[u].conn);
    assert forall t: Task | t in s.tasks :: !s.tasks[t].Connecting?;
    if e.Ends? {
      NextKeepsCount(s, e);
      assert u != e.task ==> u in Next(s, e).tasks;
    }
  }

  /** A reconnect cuts somebody else exactly if another command runs on an open connection. */
  lemma ReconnectCutsIff(events: seq<Event>, t: Task)
    requires IsRun(INIT, events) && Enabled(Run(INIT, events), RunBreaks(t))
    ensures (exists u: Task :: IsCut(Run(INIT, events), RunBreaks(t), u)) <==>
            exists u: Task :: u != t && RunsOnOpen(Run(INIT, events), u)
  {
    var s := Run(INIT, events);
    forall u: Task | RunsOnOpen(s, u) ensures IsCut(s, RunBreaks(t), u) <==> u != t {
      CommandIsCutIff(events, RunBreaks(t), u);
    }
  }

  /** The reconnect is a real exception: two commands share connection 0, one of them
      reports an error, and the other runs on a connection that is closed. */
  lemma ReconnectCutsOthers() returns (events: seq<Event>)
    ensures IsRun(INIT, events) && Enabled(Run(INIT, events), RunBreaks(1))
    ensures Run(INIT, events).tasks == map[1 := Running(0, false), 2 := Running(0, false)]
    ensures IsCut(Run(INIT, events), RunBreaks(1), 2)
  {
    var s1 := Next(INIT, Start(1));
    var s2 := Next(s1, Start(2));
    var s3 := Next(s2, Acquire(1));
    var s4 := Next(s3, Connected(1));
    var s5 := Next(s4, Acquire(2));
    FirstEvent(s4, Acquire(2), []);
    FirstEvent(s3, Connected(1), [Acquire(2)]);
    FirstEvent(s2, Acquire(1), [Connected(1)] + [Acquire(2)]);
    FirstEvent(s1, Start(2), [Acquire(1)] + ([Connected(1)] + [Acquire(2)]));
    events := [Start(1)] + ([Start(2)] + ([Acquire(1)] + ([Connected(1)] + [Acquire(2)])));
    FirstEvent(INIT, Start(1), [Start(2)] + ([Acquire(1)] + ([Connected(1)] + [Acquire(2)])));
    assert [Acquire(2)] + [] == [Acquire(2)];
    assert s5.tasks == map[1 := Running(0, false), 2 := Running(0, false)];
  }

  lemma FirstEvent(s: State, e: Event, rest: seq<Event>)
    requires Enabled(s, e) && IsRun(Next(s, e), rest)
    ensures IsRun(s, [e] + rest) && Run(s, [e] + rest) == Run(Next(s, e), rest)
  {
    assert ([e] + rest)[1..] == rest;
  }

  // --------------------------------------------------- releases are honoured

  /** Commands stay in flight after every event but the last. */
  predicate BusyUntilLast(s: State, events: seq<Event>)
    requires IsRun(s, events)
    decreases |events|
  {
    s.inflight > 0 && (|events| <= 1 || (events != [] && BusyUntilLast(Next(s, events[0]), events[1..])))
  }

  lemma {:induction false} PendingReleaseComes(s: State, events: seq<Event>)
    requires Inv(s) && s.releasePending && IsRun(s, events) && events != []
    requires BusyUntilLast(s, events) && Run(s, events).inflight == 0
    ensures Run(s, events).conn == None && !Run(s, events).releasePending
    decreases |events|
  {
    var t := Next(s, events[0]);
    NextKeepsInv(s, events[0]);
    if |events| == 1 {
      assert events[1..] == [];
      assert Run(s, events) == t;
    } else {
      assert t.releasePending;
      PendingReleaseComes(t, events[1..]);
    }
  }

  /** After a release request no connection is left as soon as nothing is in flight:
      at once when idle, otherwise with the end of the last command. */
  lemma ReleaseIsHonoured(before: seq<Event>, after: seq<Event>)
    requires IsRun(INIT, before)
    requires var s := Next(Run(INIT, before), RequestRelease);
             IsRun(s, after) && (after == [] || BusyUntilLast(s, after)) && Run(s, after).inflight == 0
    ensures var s := Run(Next(Run(INIT, before), RequestRelease), after);
            s.conn == None && forall c: Conn :: !IsOpen(s, c)
  {
    RunKeepsInv(INIT, before);
    var s := Next(Run(INIT, before), RequestRelease);
    NextKeepsInv(Run(INIT, before), RequestRelease);
    RunKeepsInv(s, after);
    if after != [] {
      PendingReleaseComes(s, after);
    }
  }

  // ----------------------------------------------- what closing leaves behind

  /** Nothing that takes connection `c` away happens. */
  predicate Harmless(events: seq<Event>, c: Conn) {
    forall e | e in events :: IsHarmless(e, c)
  }

  predicate IsHarmless(e: Event, c: Conn) {
    !e.RunBreaks? && !e.Close? && !e.RequestRelease? && e != ServerCloses(c)
  }

  /** Connection `c` is the shared one and open, and no release waits for it. */
  predicate Kept(s: State, c: Conn) {
    s.conn == Some(c) && IsOpen(s, c) && !s.releasePending
  }

  /** The shared connection is open, no release waits for it, and nothing takes it away. */
  predicate StaysOpen(s: State, events: seq<Event>) {
    s.conn.Some? && Kept(s, s.conn.value) && Harmless(events, s.conn.value)
  }

  /** Some connect finishes while no release waits, and nothing takes its connection away. */
  predicate OpensForGood(s: State, events: seq<Event>)
    requires IsRun(s, events)
    decreases |events|
  {
    events != [] &&
    (|| (events[0].Connected? && !s.releasePending && Harmless(events[1..], s.logins))
     || OpensForGood(Next(s, events[0]), events[1..]))
  }

  lemma StayStep(s: State, events: seq<Event>)
    requires Inv(s) && events != [] && Enabled(s, events[0])
    ensures StaysOpen(Next(s, events[0]), events[1..]) <==>
            || StaysOpen(s, events)
            || (events[0].Connected? && !s.releasePending && Harmless(events[1..], s.logins))
  {
    var e, t := events[0], Next(s, events[0]);
    if s.conn.Some? {
      HarmlessStep(events, s.conn.value);
      KeptStep(s, e, s.conn.value);
    }
    if t.conn.Some? {
      KeptStep(s, e, t.conn.value);
    }
    if e.Connected? {
      KeptStep(s, e, s.logins);
    }
  }

  lemma HarmlessStep(events: seq<Event>, c: Conn)
    requires events != []
    ensures Harmless(events, c) <==> IsHarmless(events[0], c) && Harmless(events[1..], c)
  {
    assert events == [events[0]] + events[1..];
  }

  lemma KeptStep(s: State, e: Event, c: Conn)
    requires Inv(s) && Enabled(s, e)
    ensures Kept(Next(s, e), c) <==>
            (Kept(s, c) && IsHarmless(e, c)) || (e.Connected? && !s.releasePending && c == s.logins)
    ensures e.Connected? ==> s.conn.None? && Next(s, e).conn == Some(s.logins)
  {
    NextKeepsInv(s, e);
    if e.Connected? {
      assert s.lock == Some(e.task);
      assert s.logins !in s.closed;
    }
  }

  /** Once nothing is in flight, a connection is open exactly if it stayed open or one was
      opened for good. */
  lemma {:induction false} OpenAtTheEndIff(s: State, events: seq<Event>)
    requires Inv(s) && IsRun(s, events) && Run(s, events).inflight == 0
    ensures (exists c: Conn :: IsOpen(Run(s, events), c)) <==> StaysOpen(s, events) || OpensForGood(s, events)
    decreases |events|
  {
    if events == [] {
      assert s.conn.Some? && IsOpen(s, s.conn.value) ==> exists c: Conn :: IsOpen(s, c);
    } else {
      NextKeepsInv(s, events[0]);
      OpenAtTheEndIff(Next(s, events[0]), events[1..]);
      StayStep(s, events);
    }
  }

  /** After a close, once nothing is in flight, a connection is left open exactly if a command
      finished connecting after the close and opened it for good. */
  lemma CloseLeavesIff(before: seq<Event>, after: seq<Event>)
    requires IsRun(INIT, before) && IsRun(Next(Run(INIT, before), Close), after)
    requires Run(Next(Run(INIT, before), Close), after).inflight == 0
    ensures var s := Next(Run(INIT, before), Close);
            (exists c: Conn :: IsOpen(Run(s, after), c)) <==> OpensForGood(s, after)
  {
    RunKeepsInv(INIT, before);
    NextKeepsInv(Run(INIT, before), Close);
    OpenAtTheEndIff(Next(Run(INIT, before), Close), after);
  }

  /** It does happen: the close comes while a command is connecting. */
  lemma CloseMayLeaveAConnection() returns (before: seq<Event>, after: seq<Event>)
    ensures IsRun(INIT, before) && IsRun(Next(Run(INIT, before), Close), after)
    ensures var t := Run(Next(Run(INIT, before), Close), after);
            t.tasks == map[] && !t.releasePending && IsOpen(t, 0)
  {
    var s1 := Next(INIT, Start(1));
    var s2 := Next(s1, Acquire(1));
    before := [Start(1)] + ([Acquire(1)] + []);
    FirstEvent(s1, Acquire(1), []);
    FirstEvent(INIT, Start(1), [Acquire(1)] + []);
    var s3 := Next(s2, Close);
    var s4 := Next(s3, Connected(1));
    after := [Connected(1)] + ([Ends(1)] + []);
    FirstEvent(s4, Ends(1), []);
    FirstEvent(s3, Connected(1), [Ends(1)] + []);
    assert Next(s4, Ends(1)).tasks == map[];
  }

  // ------------------------------------------------------- one login per poll

  /** Nothing that ends the shared connection happens. */
  predicate Undisturbed(events: seq<Event>) {
    forall e | e in events :: !e.RunBreaks? && !e.RequestRelease? && !e.Close? && !e.ServerCloses?
  }

  /** However many commands overlap in an undisturbed poll, at most one connection is opened. */
  lemma {:induction false} OneLoginPerPoll(s: State, events: seq<Event>)
    requires Inv(s) && !s.releasePending && IsRun(s, events) && Undisturbed(events)
    ensures Run(s, events).logins <= s.logins + 1
    ensures s.conn.Some? && IsOpen(s, s.conn.value) ==> Run(s, events).logins == s.logins
    decreases |events|
  {
    if events != [] {
      var e := events[0];
      assert e in events;
      NextKeepsInv(s, e);
      assert forall f | f in events[1..] :: f in events;
      OneLoginPerPoll(Next(s, e), events[1..]);
      if e.Connected? {
        assert s.lock == Some(e.task);
        assert s.logins !in s.closed;
      }
    }
  }

  // ------------------------------------------------------ one retry per command

  /** How often command `t` broke since it started; `n` times before these events. */
  function Breaks(events: seq<Event>, t: Task, n: nat): nat {
    if events == [] then n
    else Breaks(events[1..], t, if events[0] == Start(t) then 0 else if events[0] == RunBreaks(t) then n + 1 else n)
  }

  /** The state tells whether the command broke once. */
  predicate KnowsBreaks(s: State, t: Task, n: nat) {
    t in s.tasks ==> n == (if s.tasks[t].Dropping? || s.tasks[t].retry then 1 else 0)
  }

  lemma {:induction false} BreaksAreKnown(s: State, events: seq<Event>, t: Task, n: nat)
    requires Inv(s) && IsRun(s, events) && KnowsBreaks(s, t, n)
    ensures KnowsBreaks(Run(s, events), t, Breaks(events, t, n))
    decreases |events|
  {
    if events != [] {
      var e := events[0];
      NextKeepsInv(s, e);
      BreaksAreKnown(Next(s, e), events[1..], t, if e == Start(t) then 0 else if e == RunBreaks(t) then n + 1 else n);
    }
  }

  /** In every interleaving a command reconnects at most once: an error on its second attempt is
      its end. On its first attempt an error leads to the second. */
  lemma OneRetryPerCommand(events: seq<Event>, t: Task)
    requires IsRun(INIT, events) && t in Run(INIT, events).tasks
    ensures Breaks(events, t, 0) <= 1
    ensures Enabled(Run(INIT, events), RunBreaks(t)) <==>
            Run(INIT, events).tasks[t].Running? && Breaks(events, t, 0) == 0
    ensures Enabled(Run(INIT, events), Dropped(t)) ==>
              Next(Run(INIT, events), Dropped(t)).tasks[t] == Waiting(true) && Breaks(events, t, 0) == 1
  {
    BreaksAreKnown(INIT, events, t, 0);
  }

  // -------------------------------------------------------------- the object

  /** The SSH part of the API client. Each method is one uninterrupted piece of code
      between two awaits; `tasks` stands for the suspended coroutines. */
  class SshTransport {
    var conn: Option<Conn>
    var closed: set<Conn>
    var logins: nat
    var lock: Option<Task>
    var inflight: nat
    var releasePending: bool
    var tasks: map<Task, Pc>

    ghost function View(): State
      reads this
    {
      State(conn, closed, logins, lock, inflight, releasePending, tasks)
    }

    constructor ()
      ensures View() == INIT
    {
      conn, closed, logins, lock, inflight, releasePending, tasks := None, {}, 0, None, 0, false, map[];
    }

    /** Entry of `_asyncssh_exec_once`. */
    method StartCommand(t: Task)
      requires Enabled(View(), Start(t))
      modifies this
      ensures View() == Next(old(View()), Start(t))
    {
      inflight := inflight + 1;
      tasks := tasks[t := Waiting(false)];
    }

    /** `_asyncssh_get_connection` up to the connect, inside the lock. */
    method AcquireConnection(t: Task)
      requires Enabled(View(), Acquire(t))
      modifies this
      ensures View() == Next(old(View()), Acquire(t))
    {
      var retry := tasks[t].retry;
      if conn.Some? && conn.value < logins && conn.value !in closed {
        tasks := tasks[t := Running(conn.value, retry)];
        return;
      }
      conn := None;
      lock := Some(t);
      tasks := tasks[t := Connecting(retry)];
    }

    /** The connect succeeded: publish the connection, release the lock, run the command. */
    method FinishConnect(t: Task)
      requires Enabled(View(), Connected(t))
      modifies this
      ensures View() == Next(old(View()), Connected(t))
    {
      conn := Some(logins);
      tasks := tasks[t := Running(logins, tasks[t].retry)];
      logins := logins + 1;
      lock := None;
    }

    /** `_asyncssh_drop_connection`: forget first, then close. */
    method DropConnection()
      modifies this`conn, this`closed
      ensures View() == Drop(old(View()))
    {
      var dropped := conn;
      conn := None;
      if dropped.None? {
        return;
      }
      closed := closed + {dropped.value};
    }

    method RunFailed(t: Task)
      requires Enabled(View(), RunBreaks(t))
      modifies this
      ensures View() == Next(old(View()), RunBreaks(t))
    {
      DropConnection();
      tasks := tasks[t := Dropping];
    }

    method RetryCommand(t: Task)
      requires Enabled(View(), Dropped(t))
      modifies this
      ensures View() == Next(old(View()), Dropped(t))
    {
      tasks := tasks[t := Waiting(true)];
    }

    /** The `finally` of `_asyncssh_exec_once`, reached from any await. */
    method EndCommand(t: Task)
      requires Enabled(View(), Ends(t))
      modifies this
      ensures View() == Next(old(View()), Ends(t))
    {
      if lock == Some(t) {
        lock := None;
      }
      tasks := tasks - {t};
      inflight := inflight - 1;
      if inflight == 0 && releasePending {
        releasePending := false;
        DropConnection();
      }
    }

    /** `_asyncssh_request_release`. */
    method RequestRelease()
      modifies this
      ensures View() == Next(old(View()), Event.RequestRelease)
    {
      if inflight > 0 {
        releasePending := true;
        return;
      }
      releasePending := false;
      DropConnection();
    }
  }
}
