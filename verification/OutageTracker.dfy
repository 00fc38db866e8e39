/** Fleet-wide outage tracking: many single outages or one LAN outage. */
module OutageTracker {
  import opened Options

  // `State` is the tracker together with what it has done to the outside: the Repairs issues
  // that are open, the outage events fired so far and whether the settle timer runs. `Step`
  // says what one call does to it; `FleetOutageTracker` is the object that does it in place.
  // Events are kept per scope, in order.

  type EntryId = string

  datatype ErrorType = NoErrorType | AuthError | LinkError(kind: string)
  datatype Outage = Outage(since: int, error: ErrorType, reported: bool)

  /** The open Repairs issues: the LAN issue and the routers that have their own. */
  datatype Issues = Issues(lan: bool, own: set<EntryId>)

  datatype Event = Down(members: set<EntryId>, since: int) | Up(members: set<EntryId>, since: int, until: int)

  /** The fired events, in order for each scope. */
  datatype Trace = Trace(fleet: seq<Event>, router: map<EntryId, seq<Event>>)

  datatype State = State(
    routers: set<EntryId>,
    down: map<EntryId, Outage>,
    fleetSince: Option<int>,
    pending: bool,
    issues: Issues,
    trace: Trace)

  datatype Op =
    | Register(entry: EntryId)
    | Unregister(entry: EntryId)
    | ReportDown(entry: EntryId, error: ErrorType, since: int)
    | ReportUp(entry: EntryId, now: int)
    | TimerFires

  const INIT := State({}, map[], None, false, Issues(false, {}), Trace([], map[]))

  // ---------------------------------------------------------------- events

  function EventsOf(trace: Trace, e: EntryId): seq<Event> {
    if e in trace.router then trace.router[e] else []
  }

  function FireFleet(trace: Trace, event: Event): Trace {
    trace.(fleet := trace.fleet + [event])
  }

  function FireRouter(trace: Trace, e: EntryId, event: Event): Trace {
    trace.(router := trace.router[e := EventsOf(trace, e) + [event]])
  }

  /** The start of the outage that the last event of a scope left open. */
  function OpenSince(events: seq<Event>): Option<int> {
    if events != [] && events[|events| - 1].Down? then Some(events[|events| - 1].since) else None
  }

  /** Every "up" comes right after the "down" of the outage it ends. */
  ghost predicate UpsCloseDowns(events: seq<Event>) {
    forall i | 0 <= i < |events| && events[i].Up? ::
      OpenSince(events[..i]) == Some(events[i].since)
  }

  // ------------------------------------------------------- what a call does

  predicate AllDown(routers: set<EntryId>, down: map<EntryId, Outage>) {
    && |routers| >= 2
    && routers <= down.Keys
    && forall e | e in down :: !down[e].error.AuthError?
  }

  predicate IsEarliest(down: map<EntryId, Outage>, t: int) {
    && (exists e :: e in down && down[e].since == t)
    && forall e | e in down :: t <= down[e].since
  }

  lemma EarliestExists(down: map<EntryId, Outage>, among: set<EntryId>) returns (t: int)
    requires among <= down.Keys && among != {}
    ensures exists e :: e in among && down[e].since == t
    ensures forall e | e in among :: t <= down[e].since
    decreases among
  {
    var e :| e in among;
    t := down[e].since;
    if among != {e} {
      var u := EarliestExists(down, among - {e});
      t := if u < t then u else t;
    }
  }

  ghost function Earliest(down: map<EntryId, Outage>): (t: int)
    requires down.Keys != {}
    ensures IsEarliest(down, t)
  {
    assert exists t :: IsEarliest(down, t) by {
      var t := EarliestExists(down, down.Keys);
      assert IsEarliest(down, t);
    }
    var t :| IsEarliest(down, t);
    t
  }

  function Without(down: map<EntryId, Outage>, e: EntryId): map<EntryId, Outage> {
    down - {e}
  }

  predicate Reported(s: State, e: EntryId) {
    e in s.down && s.down[e].reported
  }

  predicate Unreported(s: State, e: EntryId) {
    e in s.down && !s.down[e].reported
  }

  /** One issue and one "down" event for each of `es` not reported before. */
  ghost function ReportEach(s: State, es: set<EntryId>): State {
    var newly := set e | e in es && Unreported(s, e);
    s.(down := map e | e in s.down :: if e in es then s.down[e].(reported := true) else s.down[e],
       issues := s.issues.(own := s.issues.own + newly),
       trace := s.trace.(router := map e | e in s.trace.router.Keys + newly ::
         if e in newly then EventsOf(s.trace, e) + [Down({e}, s.down[e].since)] else s.trace.router[e]))
  }

  /** All routers are out: their own issues are folded into the one LAN issue. */
  ghost function WithFleetOutage(s: State): State
    requires s.down.Keys != {}
  {
    s.(fleetSince := Some(Earliest(s.down)),
       down := map e | e in s.down :: s.down[e].(reported := false),
       issues := Issues(true, s.issues.own - set e | e in s.down && s.down[e].reported),
       trace := FireFleet(s.trace, Down(s.down.Keys, Earliest(s.down))))
  }

  ghost function Evaluated(s: State): State {
    var quiet := s.(pending := false);
    if !AllDown(s.routers, s.down) then ReportEach(quiet, s.down.Keys)
    else if s.fleetSince.None? && s.down.Keys != {} then WithFleetOutage(quiet)
    else quiet
  }

  function Removed(s: State, e: EntryId): State {
    var routers, down := s.routers - {e}, Without(s.down, e);
    var ends := s.fleetSince.Some? && !AllDown(routers, down);
    s.(routers := routers, down := down,
       fleetSince := if ends then None else s.fleetSince,
       pending := (s.pending || ends) && down.Keys != {},
       issues := Issues(s.issues.lan && !ends, if Reported(s, e) then s.issues.own - {e} else s.issues.own))
  }

  function WentDown(s: State, e: EntryId, error: ErrorType, since: int): State {
    if e !in s.routers then s
    else if e in s.down then s.(down := s.down[e := s.down[e].(error := error)])
    else s.(down := s.down[e := Outage(since, error, false)], pending := true)
  }

  function CameUp(s: State, e: EntryId, now: int): State
    requires e in s.down
  {
    var down, outage := Without(s.down, e), s.down[e];
    var up := s.(down := down, pending := s.pending && down.Keys != {});
    if s.fleetSince.Some? then
      up.(fleetSince := None, pending := down.Keys != {},
          issues := s.issues.(lan := false),
          trace := FireFleet(s.trace, Up(s.routers, s.fleetSince.value, now)))
    else if outage.reported then
      up.(issues := s.issues.(own := s.issues.own - {e}),
          trace := FireRouter(s.trace, e, Up({e}, outage.since, now)))
    else up
  }

  ghost function Step(s: State, op: Op): State {
    match op
    case Register(e) => s.(routers := s.routers + {e})
    case Unregister(e) => Removed(s, e)
    case ReportDown(e, error, since) => WentDown(s, e, error, since)
    case ReportUp(e, now) => if e in s.down then CameUp(s, e, now) else s
    case TimerFires => if s.pending then Evaluated(s) else s
  }

  ghost function Run(s: State, ops: seq<Op>): State
    decreases |ops|
  {
    if ops == [] then s else Run(Step(s, ops[0]), ops[1..])
  }

  // ------------------------------------------------ what holds in every run

  /** An unreported outage has its evaluation coming, unless the fleet issue covers it. */
  ghost predicate NothingForgotten(s: State) {
    && s.down.Keys <= s.routers
    && (s.pending ==> s.down.Keys != {})
    && (s.fleetSince.None? && !s.pending ==> forall e | e in s.down :: s.down[e].reported)
  }

  /** What is reported is open in the trace, and every "up" closes its own "down". */
  ghost predicate TraceSound(s: State) {
    && UpsCloseDowns(s.trace.fleet)
    && (forall e :: UpsCloseDowns(EventsOf(s.trace, e)))
    && (forall e | Reported(s, e) :: OpenSince(EventsOf(s.trace, e)) == Some(s.down[e].since))
    && (s.fleetSince.Some? ==> OpenSince(s.trace.fleet) == s.fleetSince)
  }

  ghost predicate Sound(s: State) {
    NothingForgotten(s) && TraceSound(s)
  }

  /** The open issues are exactly those the tracker's own fields call for. */
  ghost predicate IssuesAgree(s: State) {
    && (s.issues.lan <==> s.fleetSince.Some?)
    && (forall e :: e in s.issues.own <==> Reported(s, e))
    && (s.fleetSince.Some? ==>
          && |s.routers| >= 2 && s.routers == s.down.Keys && !s.pending
          && forall e | e in s.down :: !s.down[e].reported)
  }

  /** A router entry is added while the fleet outage is open: the one call that breaks agreement. */
  predicate JoinsMidOutage(s: State, op: Op) {
    op.Register? && s.fleetSince.Some? && op.entry !in s.routers
  }

  ghost predicate NoJoinMidOutage(s: State, ops: seq<Op>)
    decreases |ops|
  {
    ops == [] || (!JoinsMidOutage(s, ops[0]) && NoJoinMidOutage(Step(s, ops[0]), ops[1..]))
  }

  // ------------------------------------------------------------------ proof

  lemma AppendKeepsClosing(events: seq<Event>, event: Event)
    requires UpsCloseDowns(events)
    requires event.Up? ==> OpenSince(events) == Some(event.since)
    ensures UpsCloseDowns(events + [event])
    ensures OpenSince(events + [event]) == if event.Down? then Some(event.since) else None
  {
    var all := events + [event];
    forall i | 0 <= i < |all| && all[i].Up? ensures OpenSince(all[..i]) == Some(all[i].since) {
      assert all[..i] == if i < |events| then events[..i] else events;
    }
  }

  lemma ReportEachSound(s: State, es: set<EntryId>)
    requires TraceSound(s)
    ensures TraceSound(ReportEach(s, es))
  {
    var t := ReportEach(s, es);
    forall e
      ensures EventsOf(t.trace, e) == if e in es && Unreported(s, e)
                                      then EventsOf(s.trace, e) + [Down({e}, s.down[e].since)] else EventsOf(s.trace, e)
      ensures UpsCloseDowns(EventsOf(t.trace, e))
    {
      if e in es && Unreported(s, e) {
        AppendKeepsClosing(EventsOf(s.trace, e), Down({e}, s.down[e].since));
      }
    }
  }

  lemma CameUpSound(s: State, e: EntryId, now: int)
    requires Sound(s) && e in s.down
    ensures Sound(CameUp(s, e, now))
  {
    var t := CameUp(s, e, now);
    if s.fleetSince.Some? {
      AppendKeepsClosing(s.trace.fleet, Up(s.routers, s.fleetSince.value, now));
      assert forall f :: EventsOf(t.trace, f) == EventsOf(s.trace, f);
    } else if s.down[e].reported {
      var up := Up({e}, s.down[e].since, now);
      AppendKeepsClosing(EventsOf(s.trace, e), up);
      assert forall f :: EventsOf(t.trace, f) == EventsOf(s.trace, f) + if f == e then [up] else [];
    }
  }

  lemma FleetOutageSound(s: State)
    requires TraceSound(s) && s.down.Keys != {}
    ensures TraceSound(WithFleetOutage(s))
  {
    var t := WithFleetOutage(s);
    AppendKeepsClosing(s.trace.fleet, Down(s.down.Keys, Earliest(s.down)));
    assert forall e :: EventsOf(t.trace, e) == EventsOf(s.trace, e);
  }

  lemma EvaluatedSound(s: State)
    requires Sound(s)
    ensures Sound(Evaluated(s))
  {
    var quiet, t := s.(pending := false), Evaluated(s);
    if !AllDown(s.routers, s.down) {
      ReportEachSound(quiet, s.down.Keys);
      assert t.down.Keys == s.down.Keys;
    } else {
      AllDownIsNonEmpty(s.routers, s.down);
      if s.fleetSince.None? {
        FleetOutageSound(quiet);
        assert t.down.Keys == s.down.Keys;
      }
    }
  }

  lemma RemovedSound(s: State, e: EntryId)
    requires Sound(s)
    ensures Sound(Removed(s, e))
  {
    var t := Removed(s, e);
    assert t.trace == s.trace;
    assert forall f | f in t.down :: f in s.down && t.down[f] == s.down[f];
  }

  lemma AllDownIsNonEmpty(routers: set<EntryId>, down: map<EntryId, Outage>)
    requires AllDown(routers, down)
    ensures down.Keys != {}
  {
    var e :| e in routers;
    assert e in down.Keys;
  }

  /** No step ever loses an outage or fires an "up" without its "down". */
  lemma StepSound(s: State, op: Op)
    requires Sound(s)
    ensures Sound(Step(s, op))
  {
    match op
    case Register(e) =>
    case Unregister(e) => RemovedSound(s, e);
    case ReportDown(e, error, since) =>
      assert e in s.routers ==> e in WentDown(s, e, error, since).down;
    case ReportUp(e, now) => if e in s.down { CameUpSound(s, e, now); }
    case TimerFires => EvaluatedSound(s);
  }

  lemma EvaluatedAgrees(s: State)
    requires Sound(s) && IssuesAgree(s) && s.pending
    ensures IssuesAgree(Evaluated(s))
  {
    var t := Evaluated(s);
    assert t.down.Keys == s.down.Keys;
    if !AllDown(s.routers, s.down) {
      assert forall e :: Reported(t, e) <==> e in s.down;
    }
  }

  lemma RemovedAgrees(s: State, e: EntryId)
    requires Sound(s) && IssuesAgree(s)
    ensures IssuesAgree(Removed(s, e))
  {
    var t := Removed(s, e);
    assert t.down.Keys == s.down.Keys - {e};
    assert forall f | f in t.down :: t.down[f] == s.down[f];
    RemovedKeepsOwn(s, e);
    if t.fleetSince.Some? {
      assert AllDown(t.routers, t.down) && t.routers == t.down.Keys;
    }
  }

  lemma RemovedKeepsOwn(s: State, e: EntryId)
    requires forall f :: f in s.issues.own <==> Reported(s, f)
    ensures var t := Removed(s, e); forall f :: f in t.issues.own <==> Reported(t, f)
  {
    var t := Removed(s, e);
    forall f ensures Reported(t, f) <==> Reported(s, f) && f != e {
    }
  }

  lemma WentDownAgrees(s: State, e: EntryId, error: ErrorType, since: int)
    requires Sound(s) && IssuesAgree(s)
    ensures IssuesAgree(WentDown(s, e, error, since))
  {
    var t := WentDown(s, e, error, since);
    assert forall f :: Reported(t, f) <==> Reported(s, f);
    if e in s.down { assert t.down.Keys == s.down.Keys; }
  }

  lemma CameUpAgrees(s: State, e: EntryId, now: int)
    requires Sound(s) && IssuesAgree(s) && e in s.down
    ensures IssuesAgree(CameUp(s, e, now))
  {
    assert forall f :: Reported(CameUp(s, e, now), f) <==> Reported(s, f) && f != e;
  }

  /** Agreement survives a step exactly when the step adds no router in mid-outage. */
  lemma StepAgreesIff(s: State, op: Op)
    requires Sound(s) && IssuesAgree(s)
    ensures IssuesAgree(Step(s, op)) <==> !JoinsMidOutage(s, op)
  {
    match op
    case Register(e) =>
      if e in s.routers { assert s.routers + {e} == s.routers; }
    case Unregister(e) => RemovedAgrees(s, e);
    case ReportDown(e, error, since) => WentDownAgrees(s, e, error, since);
    case ReportUp(e, now) => if e in s.down { CameUpAgrees(s, e, now); }
    case TimerFires => if s.pending { EvaluatedAgrees(s); }
  }

  lemma {:induction false} RunSound(s: State, ops: seq<Op>)
    requires Sound(s)
    ensures Sound(Run(s, ops))
    decreases |ops|
  {
    if ops != [] {
      StepSound(s, ops[0]);
      RunSound(Step(s, ops[0]), ops[1..]);
    }
  }

  /** Over all runs in which no router joins mid-outage the issues agree with the state. */
  lemma {:induction false} RunAgrees(s: State, ops: seq<Op>)
    requires Sound(s) && IssuesAgree(s) && NoJoinMidOutage(s, ops)
    ensures IssuesAgree(Run(s, ops))
    decreases |ops|
  {
    if ops != [] {
      StepSound(s, ops[0]);
      StepAgreesIff(s, ops[0]);
      RunAgrees(Step(s, ops[0]), ops[1..]);
    }
  }

  lemma NeverBothKinds(ops: seq<Op>)
    requires NoJoinMidOutage(INIT, ops)
    ensures Run(INIT, ops).issues.lan ==> Run(INIT, ops).issues.own == {}
  {
    RunAgrees(INIT, ops);
  }

  // ------------------------------------------- no outage without an issue

  /** What is reported has its issue, and the fleet outage has the LAN issue. */
  ghost predicate Backed(s: State) {
    (s.issues.lan <==> s.fleetSince.Some?) && forall e | Reported(s, e) :: e in s.issues.own
  }

  lemma StepBacked(s: State, op: Op)
    requires Sound(s) && Backed(s)
    ensures Backed(Step(s, op))
  {
    var t := Step(s, op);
    match op
    case Register(e) =>
    case Unregister(e) =>
      forall f | Reported(t, f) ensures f in t.issues.own { assert Reported(s, f) && f != e; }
    case ReportDown(e, error, since) =>
      forall f | Reported(t, f) ensures f in t.issues.own { assert Reported(s, f); }
    case ReportUp(e, now) =>
      forall f | Reported(t, f) ensures f in t.issues.own { assert Reported(s, f); }
    case TimerFires =>
      if s.pending { EvaluationIsBacked(s); }
  }

  lemma EvaluationIsBacked(s: State)
    requires Sound(s) && Backed(s) && s.pending
    ensures Backed(Evaluated(s))
  {
    var t := Evaluated(s);
    if !AllDown(s.routers, s.down) {
      forall f | Reported(t, f) ensures f in t.issues.own {
        if s.down[f].reported { assert Reported(s, f); } else { assert Unreported(s.(pending := false), f); }
      }
    } else if s.fleetSince.Some? {
      forall f | Reported(t, f) ensures f in t.issues.own { assert Reported(s, f); }
    }
  }

  lemma {:induction false} RunBacked(s: State, ops: seq<Op>)
    requires Sound(s) && Backed(s)
    ensures Backed(Run(s, ops))
    decreases |ops|
  {
    if ops != [] {
      StepSound(s, ops[0]);
      StepBacked(s, ops[0]);
      RunBacked(Step(s, ops[0]), ops[1..]);
    }
  }

  /** Every router that is down has its own issue, or the LAN issue is open. */
  ghost predicate EveryOutageShown(s: State) {
    s.issues.lan || s.down.Keys <= s.issues.own
  }

  /** Over all runs: whenever no evaluation is pending, every outage has its issue. */
  lemma EveryOutageHasItsIssue(ops: seq<Op>)
    ensures Run(INIT, ops).pending || EveryOutageShown(Run(INIT, ops))
  {
    var s := Run(INIT, ops);
    RunSound(INIT, ops);
    RunBacked(INIT, ops);
    if !s.pending && s.fleetSince.None? {
      forall e | e in s.down.Keys ensures e in s.issues.own { assert Reported(s, e); }
    }
  }

  /** Over all runs: when the timer fires, the routers that are down stay as they are, nothing is
      pending any more, and every one of them has its own or the fleet issue. */
  lemma TimerCoversEveryOutage(ops: seq<Op>)
    requires Run(INIT, ops).pending
    ensures var s, t := Run(INIT, ops), Step(Run(INIT, ops), TimerFires);
            !t.pending && t.down.Keys == s.down.Keys != {} && EveryOutageShown(t)
  {
    var s := Run(INIT, ops);
    RunSound(INIT, ops);
    RunBacked(INIT, ops);
    EvaluationShows(s);
  }

  lemma EvaluationShows(s: State)
    requires Sound(s) && Backed(s) && s.pending
    ensures var t := Evaluated(s); !t.pending && t.down.Keys == s.down.Keys != {} && EveryOutageShown(t)
  {
    var t := Evaluated(s);
    assert t.down.Keys == s.down.Keys;
    if !AllDown(s.routers, s.down) {
      forall e | e in t.down.Keys ensures e in t.issues.own {
        if s.down[e].reported { assert Reported(s, e); } else { assert Unreported(s.(pending := false), e); }
      }
    }
  }

  // ----------------------------------------------- which call goes wrong

  /** The open issues are right: those the fields call for, and never both kinds. */
  ghost predicate IssuesRight(s: State) {
    && (s.issues.lan <==> s.fleetSince.Some?)
    && (forall e :: e in s.issues.own <==> Reported(s, e))
    && (s.issues.lan ==> s.issues.own == {})
  }

  /** The settle timer fires while the fleet outage is open although not all routers are out. */
  ghost predicate MixedEvaluation(s: State, op: Op) {
    op.TimerFires? && s.pending && s.fleetSince.Some? && !AllDown(s.routers, s.down)
  }

  /** The issues stay right in a step exactly unless it is such an evaluation. */
  lemma StepRightIff(s: State, op: Op)
    requires Sound(s) && IssuesRight(s)
    ensures IssuesRight(Step(s, op)) <==> !MixedEvaluation(s, op)
  {
    match op
    case Register(e) =>
      assert forall f :: Reported(Step(s, op), f) <==> Reported(s, f);
    case Unregister(e) => RemovedKeepsOwn(s, e);
    case ReportDown(e, error, since) =>
      assert forall f :: Reported(WentDown(s, e, error, since), f) <==> Reported(s, f);
    case ReportUp(e, now) =>
      if e in s.down { CameUpIsRight(s, e, now); }
    case TimerFires =>
      if s.pending { EvaluationRightIff(s); }
  }

  lemma CameUpIsRight(s: State, e: EntryId, now: int)
    requires IssuesRight(s) && e in s.down
    ensures IssuesRight(CameUp(s, e, now))
  {
    assert forall f :: Reported(CameUp(s, e, now), f) <==> Reported(s, f) && f != e;
  }

  lemma EvaluationRightIff(s: State)
    requires Sound(s) && IssuesRight(s) && s.pending
    ensures IssuesRight(Evaluated(s)) <==> (s.fleetSince.None? || AllDown(s.routers, s.down))
  {
    var t := Evaluated(s);
    if !AllDown(s.routers, s.down) {
      assert forall f :: Reported(t, f) <==> f in s.down;
      var e :| e in s.down.Keys;
      assert Reported(t, e);
    } else if s.fleetSince.None? {
      assert t.issues.own == {};
      assert forall f :: !Reported(t, f);
    } else {
      assert forall f :: Reported(t, f) <==> Reported(s, f);
    }
  }

  ghost predicate NoMixedEvaluation(s: State, ops: seq<Op>)
    decreases |ops|
  {
    ops == [] || (!MixedEvaluation(s, ops[0]) && NoMixedEvaluation(Step(s, ops[0]), ops[1..]))
  }

  /** The issues are right now and after every call. */
  ghost predicate RightThroughout(s: State, ops: seq<Op>)
    decreases |ops|
  {
    IssuesRight(s) && (ops == [] || RightThroughout(Step(s, ops[0]), ops[1..]))
  }

  /** Over all runs: the issues are right throughout exactly if no evaluation of that kind happens. */
  lemma {:induction false} RunRightIff(s: State, ops: seq<Op>)
    requires Sound(s) && IssuesRight(s)
    ensures RightThroughout(s, ops) <==> NoMixedEvaluation(s, ops)
    ensures NoMixedEvaluation(s, ops) ==> IssuesRight(Run(s, ops))
    decreases |ops|
  {
    if ops != [] {
      var t := Step(s, ops[0]);
      StepSound(s, ops[0]);
      StepRightIff(s, ops[0]);
      if IssuesRight(t) { RunRightIff(t, ops[1..]); }
    }
  }

  /** A run without a join in mid-outage has no such evaluation. */
  lemma {:induction false} NoJoinNoMix(s: State, ops: seq<Op>)
    requires Sound(s) && IssuesAgree(s) && NoJoinMidOutage(s, ops)
    ensures NoMixedEvaluation(s, ops)
    decreases |ops|
  {
    if ops != [] {
      StepSound(s, ops[0]);
      StepAgreesIff(s, ops[0]);
      NoJoinNoMix(Step(s, ops[0]), ops[1..]);
    }
  }

  /** A router that is reloaded in mid-outage and times out again joins in mid-outage, yet makes
      no issue wrong: what does harm is the evaluation, not the join. */
  lemma ReloadKeepsIssuesRight(s: State, e: EntryId, since: int)
    requires Sound(s) && IssuesAgree(s) && s.fleetSince.Some? && AllDown(s.routers, s.down)
    requires |s.routers| >= 3 && e in s.routers
    ensures JoinsMidOutage(Step(s, Unregister(e)), Register(e))
    ensures RightThroughout(s, [Unregister(e), Register(e), ReportDown(e, NoErrorType, since), TimerFires])
  {
    var ops := [Unregister(e), Register(e), ReportDown(e, NoErrorType, since), TimerFires];
    var s1 := Step(s, ops[0]);
    var s2 := Step(s1, ops[1]);
    var s3 := Step(s2, ops[2]);
    StillOutWithout(s, e);
    OutAgain(s, s2, e, since);
    assert ops[1..][1..] == ops[2..] && ops[2..][1..] == [TimerFires] && [TimerFires][1..] == [];
    assert NoMixedEvaluation(s3, [TimerFires]) && NoMixedEvaluation(s2, ops[2..]) && NoMixedEvaluation(s1, ops[1..]);
    assert s.issues.own == {};
    RunRightIff(s, ops);
  }

  lemma StillOutWithout(s: State, e: EntryId)
    requires AllDown(s.routers, s.down) && |s.routers| >= 3 && e in s.routers && s.fleetSince.Some?
    ensures var t := Removed(s, e);
            t.fleetSince == s.fleetSince && t.routers == s.routers - {e} && t.down == Without(s.down, e)
  {
    assert |s.routers - {e}| == |s.routers| - 1;
    assert Without(s.down, e).Keys == s.down.Keys - {e};
    assert AllDown(s.routers - {e}, Without(s.down, e));
  }

  lemma OutAgain(s: State, t: State, e: EntryId, since: int)
    requires AllDown(s.routers, s.down) && e in s.routers
    requires t.down == Without(s.down, e) && t.routers == s.routers - {e} + {e}
    ensures var u := WentDown(t, e, NoErrorType, since); AllDown(u.routers, u.down)
  {
    var u := WentDown(t, e, NoErrorType, since);
    assert t.routers == s.routers;
    assert u.down.Keys == s.down.Keys + {e};
    assert forall f | f in u.down && f != e :: u.down[f] == s.down[f];
  }

  /** Every router that is down has its own issue, or all of them have the LAN issue. */
  ghost predicate Covered(s: State) {
    !s.pending && s.down.Keys != {} && s.issues == if AllDown(s.routers, s.down) then Issues(true, {})
      else Issues(false, s.down.Keys)
  }

  /** Where no router joins in mid-outage, the timer leaves issues of one kind only. */
  lemma TimerLeavesOneKind(ops: seq<Op>)
    requires NoJoinMidOutage(INIT, ops) && Run(INIT, ops).pending
    ensures Covered(Step(Run(INIT, ops), TimerFires))
  {
    RunSound(INIT, ops);
    RunAgrees(INIT, ops);
    EvaluationCovers(Run(INIT, ops));
  }

  lemma EvaluationCovers(s: State)
    requires Sound(s) && IssuesAgree(s) && s.pending
    ensures Covered(Step(s, TimerFires)) && Step(s, TimerFires).down.Keys == s.down.Keys
  {
    EvaluatedAgrees(s);
    var t := Evaluated(s);
    assert t.down.Keys == s.down.Keys;
    if AllDown(s.routers, s.down) {
      assert t.issues.own == {};
    } else {
      assert forall e :: Reported(t, e) <==> e in s.down;
      assert t.issues.own == t.down.Keys;
    }
  }

  /** The call that breaks agreement does real harm: "C" joins while "A" and "B" are
      out, then fails with rejected credentials. The timer raises single issues next
      to the LAN issue, and the issue of "A" stays open after "A" is back. */
  lemma JoiningMidOutageLeaksAnIssue(s: State)
    requires Sound(s) && IssuesAgree(s)
    requires s.fleetSince.Some? && s.routers == {"A", "B"}
    ensures var mixed := Run(s, [Register("C"), ReportDown("C", AuthError, 5), TimerFires]);
            var after := Step(mixed, ReportUp("A", 9));
            && mixed.issues.lan && "A" in mixed.issues.own
            && "A" !in after.down && "A" in after.issues.own
  {
    var s1 := Step(s, Register("C"));
    var s2 := Step(s1, ReportDown("C", AuthError, 5));
    RunOfThree(s, Register("C"), ReportDown("C", AuthError, 5), TimerFires);
    assert "A"[0] != "C"[0] && "B"[0] != "C"[0];
    assert s2.down["C"].error.AuthError? && !AllDown(s2.routers, s2.down);
    SingleBesideFleet(s2, "A");
    SingleOutlivesFleet(Step(s2, TimerFires), "A", 9);
  }

  lemma SingleBesideFleet(s: State, e: EntryId)
    requires s.pending && s.fleetSince.Some? && s.issues.lan && !AllDown(s.routers, s.down) && Unreported(s, e)
    ensures var t := Step(s, TimerFires); t.fleetSince.Some? && t.issues.lan && e in t.issues.own && e in t.down
  {
  }

  lemma SingleOutlivesFleet(s: State, e: EntryId, now: int)
    requires s.fleetSince.Some? && e in s.issues.own && e in s.down
    ensures var t := Step(s, ReportUp(e, now)); e !in t.down && e in t.issues.own
  {
  }

  lemma RunOfThree(s: State, a: Op, b: Op, c: Op)
    ensures Run(s, [a, b, c]) == Step(Step(Step(s, a), b), c)
  {
    var s1, s2 := Step(s, a), Step(Step(s, a), b);
    assert [a, b, c][1..] == [b, c] && [b, c][1..] == [c] && [c][1..] == [];
    assert Run(s2, [c]) == Run(Step(s2, c), []) && Run(s1, [b, c]) == Run(s2, [c]);
  }

  /** Such an outage is reachable: two registered routers that both stop answering. */
  lemma FleetOutageIsReachable() returns (ops: seq<Op>)
    ensures NoJoinMidOutage(INIT, ops)
    ensures Run(INIT, ops).fleetSince.Some? && Run(INIT, ops).routers == {"A", "B"}
  {
    ops := [Register("A"), Register("B"), ReportDown("A", NoErrorType, 0), ReportDown("B", NoErrorType, 0), TimerFires];
    assert "A"[0] != "B"[0];
    var s1 := Step(INIT, ops[0]);
    var s2 := Step(s1, ops[1]);
    var s3 := Step(s2, ops[2]);
    var s4 := Step(s3, ops[3]);
    var s5 := Step(s4, ops[4]);
    assert s4.routers == {"A", "B"} == s4.down.Keys;
    assert AllDown(s4.routers, s4.down);
    var t4, t3, t2, t1 := ops[4..], ops[3..], ops[2..], ops[1..];
    assert t1[1..] == t2 && t2[1..] == t3 && t3[1..] == t4 && t4[1..] == [];
    assert Run(s4, t4) == s5 && Run(s3, t3) == s5;
    assert Run(s2, t2) == s5 && Run(s1, t1) == s5;
    assert NoJoinMidOutage(s4, t4) && NoJoinMidOutage(s3, t3);
    assert NoJoinMidOutage(s2, t2) && NoJoinMidOutage(s1, t1);
  }

  // ----------------------------------------------- in terms of the reports

  /** The router was added and not removed since. */
  predicate Present(ops: seq<Op>, e: EntryId) {
    if ops == [] then false
    else
      match ops[|ops| - 1]
      case Register(f) => e == f || Present(ops[..|ops| - 1], e)
      case Unregister(f) => e != f && Present(ops[..|ops| - 1], e)
      case _ => Present(ops[..|ops| - 1], e)
  }

  /** The start that the first report of the current outage gave: since then the router neither
      answered nor was removed. */
  function OutSince(ops: seq<Op>, e: EntryId): Option<int> {
    if ops == [] then None
    else
      var before := OutSince(ops[..|ops| - 1], e);
      match ops[|ops| - 1]
      case ReportDown(f, _, since) =>
        if f == e && before.None? && Present(ops[..|ops| - 1], e) then Some(since) else before
      case ReportUp(f, _) => if f == e then None else before
      case Unregister(f) => if f == e then None else before
      case _ => before
  }

  /** The error that was reported last. */
  function LastError(ops: seq<Op>, e: EntryId): ErrorType {
    if ops == [] then NoErrorType
    else
      match ops[|ops| - 1]
      case ReportDown(f, error, _) => if f == e then error else LastError(ops[..|ops| - 1], e)
      case _ => LastError(ops[..|ops| - 1], e)
  }

  lemma {:induction false} RunOneMore(s: State, ops: seq<Op>)
    requires ops != []
    ensures Run(s, ops) == Step(Run(s, ops[..|ops| - 1]), ops[|ops| - 1])
    decreases |ops|
  {
    if |ops| == 1 {
      assert ops[..0] == [] && ops[1..] == [];
      assert Run(s, ops) == Run(Step(s, ops[0]), ops[1..]);
    } else {
      RunOneMore(Step(s, ops[0]), ops[1..]);
      assert ops[1..][..|ops| - 2] == ops[..|ops| - 1][1..];
    }
  }

  /** What a call does to the routers and to the outage of one of them. */
  lemma StepTold(s: State, op: Op, e: EntryId)
    requires s.down.Keys <= s.routers
    ensures var t := Step(s, op);
            && (e in t.routers <==> op == Register(e) || (e in s.routers && op != Unregister(e)))
            && (e in t.down <==> if op.ReportUp? && op.entry == e then false else if op == Unregister(e) then false
                                 else e in s.down || (op.ReportDown? && op.entry == e && e in s.routers))
            && (e in t.down && e in s.down ==> t.down[e].since == s.down[e].since)
            && (e in t.down && e !in s.down ==> op.ReportDown? && t.down[e].since == op.since)
            && (e in t.down ==> t.down[e].error ==
                                if op.ReportDown? && op.entry == e then op.error else s.down[e].error)
  {
    if op.TimerFires? && s.pending {
      EvaluationKeepsOutages(s, e);
    }
  }

  lemma EvaluationKeepsOutages(s: State, e: EntryId)
    ensures var t := Evaluated(s);
            t.routers == s.routers && (e in t.down <==> e in s.down)
            && (e in s.down ==> t.down[e].since == s.down[e].since && t.down[e].error == s.down[e].error)
  {
  }

  /** Over all runs the tracker knows which routers there are, which of them are out, since when
      by their first report, and for which reason by their last. */
  lemma {:induction false} OutagesAreHistory(ops: seq<Op>, e: EntryId)
    ensures var s := Run(INIT, ops);
            && (e in s.routers <==> Present(ops, e))
            && (e in s.down <==> OutSince(ops, e).Some?)
            && (e in s.down ==> s.down[e].since == OutSince(ops, e).value && s.down[e].error == LastError(ops, e))
  {
    if ops != [] {
      var n := |ops| - 1;
      RunSound(INIT, ops[..n]);
      OutagesAreHistory(ops[..n], e);
      RunOneMore(INIT, ops);
      StepTold(Run(INIT, ops[..n]), ops[n], e);
    }
  }

  /** By the reports there are at least two routers, all of them are out, and none of them
      because of rejected credentials. */
  ghost predicate WholeFleetOut(ops: seq<Op>) {
    && (exists e, f :: e != f && Present(ops, e) && Present(ops, f))
    && forall e | Present(ops, e) :: OutSince(ops, e).Some? && !LastError(ops, e).AuthError?
  }

  lemma WholeFleetOutIff(ops: seq<Op>)
    ensures WholeFleetOut(ops) <==> AllDown(Run(INIT, ops).routers, Run(INIT, ops).down)
  {
    var s := Run(INIT, ops);
    RunSound(INIT, ops);
    forall e
      ensures e in s.routers <==> Present(ops, e)
      ensures e in s.down <==> OutSince(ops, e).Some?
      ensures e in s.down ==> s.down[e].error == LastError(ops, e)
    {
      OutagesAreHistory(ops, e);
    }
    TwoOrMore(s.routers);
  }

  lemma TwoOrMore(a: set<EntryId>)
    ensures |a| >= 2 <==> exists e, f :: e != f && e in a && f in a
  {
    if |a| >= 2 {
      var e :| e in a;
      var rest := a - {e};
      assert |rest| >= 1;
      var f :| f in rest;
      assert e != f && e in a && f in a;
    }
    if e, f :| e != f && e in a && f in a {
      assert {e, f} <= a;
      assert |{e, f} + (a - {e, f})| == |{e, f}| + |a - {e, f}| && a == {e, f} + (a - {e, f});
    }
  }

  /** Over all runs: when the timer fires, the LAN issue is open afterwards exactly if the whole
      fleet is out by the reports, or it was open before. */
  lemma LanIssueOpensIff(ops: seq<Op>)
    requires Run(INIT, ops).pending
    ensures Step(Run(INIT, ops), TimerFires).issues.lan <==> WholeFleetOut(ops) || Run(INIT, ops).issues.lan
  {
    var s := Run(INIT, ops);
    WholeFleetOutIff(ops);
    RunSound(INIT, ops);
    RunBacked(INIT, ops);
  }

  /** The LAN outage it opens began with the earliest of the outages. */
  lemma LanOutageBeginsEarliest(ops: seq<Op>)
    requires Run(INIT, ops).pending && !Run(INIT, ops).issues.lan && WholeFleetOut(ops)
    ensures var t := Step(Run(INIT, ops), TimerFires);
            && t.fleetSince.Some? && (exists e :: OutSince(ops, e) == t.fleetSince)
            && (forall e | OutSince(ops, e).Some? :: t.fleetSince.value <= OutSince(ops, e).value)
            && t.trace.fleet == Run(INIT, ops).trace.fleet + [Down(t.routers, t.fleetSince.value)]
  {
    var s := Run(INIT, ops);
    WholeFleetOutIff(ops);
    RunSound(INIT, ops);
    RunBacked(INIT, ops);
    AllDownIsNonEmpty(s.routers, s.down);
    assert s.down.Keys == s.routers;
    var t := Earliest(s.down);
    var e :| e in s.down && s.down[e].since == t;
    OutagesAreHistory(ops, e);
    forall f | OutSince(ops, f).Some? ensures t <= OutSince(ops, f).value {
      OutagesAreHistory(ops, f);
    }
  }

  /** Over all runs an answer of a router that is out is told at most once: it ends the LAN outage
      if that is open, else the outage of this router if it was reported; each with the start of
      that outage and the time of the answer. */
  lemma AnswerEndsOneOutage(ops: seq<Op>, e: EntryId, now: int)
    requires OutSince(ops, e).Some?
    ensures var s, t := Run(INIT, ops), Step(Run(INIT, ops), ReportUp(e, now));
            if s.issues.lan then
              s.fleetSince.Some? && !t.issues.lan && t.issues.own == s.issues.own
              && t.trace == Trace(s.trace.fleet + [Up(s.routers, s.fleetSince.value, now)], s.trace.router)
            else if Reported(s, e) then
              && t.issues.own == s.issues.own - {e} && t.trace.fleet == s.trace.fleet
              && EventsOf(t.trace, e) == EventsOf(s.trace, e) + [Up({e}, OutSince(ops, e).value, now)]
              && forall f | f != e :: EventsOf(t.trace, f) == EventsOf(s.trace, f)
            else t.trace == s.trace && t.issues == s.issues
  {
    OutagesAreHistory(ops, e);
    RunSound(INIT, ops);
    RunBacked(INIT, ops);
  }

  /** The events of a router's scope are about this router alone, and those of the fleet about
      two routers or more. */
  ghost predicate EventsWellNamed(s: State) {
    && (forall e :: Names(EventsOf(s.trace, e), {e}))
    && (forall event | event in s.trace.fleet :: |event.members| >= 2)
    && (s.fleetSince.Some? ==> |s.routers| >= 2)
  }

  predicate Names(events: seq<Event>, members: set<EntryId>) {
    forall event | event in events :: event.members == members
  }

  lemma StepNames(s: State, op: Op)
    requires Sound(s) && EventsWellNamed(s)
    ensures EventsWellNamed(Step(s, op))
  {
    match op
    case Register(e) => MoreMembers(s.routers, e);
    case Unregister(e) =>
    case ReportDown(e, error, since) =>
    case ReportUp(e, now) => if e in s.down { CameUpNames(s, e, now); }
    case TimerFires => if s.pending { EvaluatedNames(s); }
  }

  lemma MoreMembers(a: set<EntryId>, e: EntryId)
    ensures |a + {e}| >= |a|
  {
    if e in a { assert a + {e} == a; }
  }

  lemma CameUpNames(s: State, e: EntryId, now: int)
    requires Sound(s) && EventsWellNamed(s) && e in s.down
    ensures EventsWellNamed(CameUp(s, e, now))
  {
    var t := CameUp(s, e, now);
    if s.fleetSince.Some? || !s.down[e].reported {
      assert forall f :: EventsOf(t.trace, f) == EventsOf(s.trace, f);
    } else {
      var up := Up({e}, s.down[e].since, now);
      assert forall f :: EventsOf(t.trace, f) == EventsOf(s.trace, f) + if f == e then [up] else [];
    }
  }

  lemma EvaluatedNames(s: State)
    requires Sound(s) && EventsWellNamed(s)
    ensures EventsWellNamed(Evaluated(s))
  {
    var t := Evaluated(s);
    if !AllDown(s.routers, s.down) {
      forall e ensures Names(EventsOf(t.trace, e), {e}) {
        assert EventsOf(t.trace, e) == EventsOf(s.trace, e)
                                       + if Unreported(s, e) then [Down({e}, s.down[e].since)] else [];
      }
    } else {
      assert s.routers == s.down.Keys;
      assert forall e :: EventsOf(t.trace, e) == EventsOf(s.trace, e);
    }
  }

  lemma {:induction false} RunNames(s: State, ops: seq<Op>)
    requires Sound(s) && EventsWellNamed(s)
    ensures EventsWellNamed(Run(s, ops))
    decreases |ops|
  {
    if ops != [] {
      StepSound(s, ops[0]);
      StepNames(s, ops[0]);
      RunNames(Step(s, ops[0]), ops[1..]);
    }
  }

  // ------------------------------------------------------------- the object

  class FleetOutageTracker {
    var routers: set<EntryId>
    var down: map<EntryId, Outage>
    var fleetSince: Option<int>
    var pending: bool
    ghost var issues: Issues
    ghost var trace: Trace

    ghost function View(): State
      reads this
    {
      State(routers, down, fleetSince, pending, issues, trace)
    }

    constructor ()
      ensures View() == INIT
    {
      routers, down, fleetSince, pending := {}, map[], None, false;
      issues, trace := Issues(false, {}), Trace([], map[]);
    }

    method Register(e: EntryId)
      modifies this
      ensures View() == Step(old(View()), Op.Register(e))
    {
      routers := routers + {e};
    }

    method Unregister(e: EntryId)
      modifies this
      ensures View() == Step(old(View()), Op.Unregister(e))
    {
      DropOutage(e);
      EndPartialFleetOutage();
      if down.Keys == {} {
        pending := false;
      }
    }

    /** The router goes, its outage with it, and its issue if it has one. */
    method DropOutage(e: EntryId)
      modifies this`routers, this`down, this`issues
      ensures routers == old(routers) - {e} && down == Without(old(down), e)
      ensures issues == Issues(old(issues).lan,
              if Reported(old(View()), e) then old(issues).own - {e} else old(issues).own)
    {
      routers := routers - {e};
      if e in down && down[e].reported {
        issues := issues.(own := issues.own - {e});
      }
      down := Without(down, e);
    }

    /** The LAN issue goes as soon as not all routers are out any more. */
    method EndPartialFleetOutage()
      modifies this`fleetSince, this`issues, this`pending
      ensures var ends := old(fleetSince).Some? && !AllDown(routers, down);
              && fleetSince == (if ends then None else old(fleetSince))
              && issues == old(issues).(lan := old(issues).lan && !ends)
              && pending == (old(pending) || (ends && down.Keys != {}))
    {
      if fleetSince.Some? && !AllDown(routers, down) {
        fleetSince := None;
        issues := issues.(lan := false);
        if down.Keys != {} {
          ScheduleEvaluation();
        }
      }
    }

    method ReportDown(e: EntryId, error: ErrorType, since: int)
      modifies this
      ensures View() == Step(old(View()), Op.ReportDown(e, error, since))
    {
      if e !in routers {
        return;
      }
      if e !in down {
        down := down[e := Outage(since, error, false)];
        ScheduleEvaluation();
        return;
      }
      down := down[e := down[e].(error := error)];
    }

    method ReportUp(e: EntryId, now: int)
      modifies this
      ensures View() == Step(old(View()), Op.ReportUp(e, now))
    {
      if e !in down {
        return;
      }
      var outage := down[e];
      down := Without(down, e);
      if fleetSince.Some? {
        EndFleetOutage(now);
        if down.Keys != {} {
          ScheduleEvaluation();
        }
      } else if outage.reported {
        issues := issues.(own := issues.own - {e});
        trace := FireRouter(trace, e, Up({e}, outage.since, now));
      }
      if down.Keys == {} {
        pending := false;
      }
    }

    method ScheduleEvaluation()
      modifies this`pending
      ensures pending
    {
      if pending {
        return;
      }
      pending := true;
    }

    method EndFleetOutage(now: int)
      requires fleetSince.Some?
      modifies this`fleetSince, this`issues, this`trace
      ensures fleetSince == None && issues == old(issues).(lan := false)
      ensures trace == FireFleet(old(trace), Up(routers, old(fleetSince).value, now))
    {
      var since := fleetSince.value;
      fleetSince := None;
      issues := issues.(lan := false);
      trace := FireFleet(trace, Up(routers, since, now));
    }

    /** The settle timer fires: one LAN issue, or one issue per unreported router. */
    method Evaluate()
      requires pending
      modifies this
      ensures View() == Step(old(View()), TimerFires)
    {
      pending := false;
      if AllDown(routers, down) {
        if fleetSince.None? {
          AllDownIsNonEmpty(routers, down);
          StartFleetOutage();
        }
        return;
      }
      ReportAll();
    }

    method ReportAll()
      modifies this
      ensures View() == ReportEach(old(View()), old(down).Keys)
    {
      ghost var before := View();
      ReportNone(before);
      forall es, e | e in before.down && e !in es ensures OneMoreReport(es => ReportEach(before, es), es, e) {
        ReportOneMore(before, es, e);
      }
      ReportLoop(before, es => ReportEach(before, es));
    }

    /** The loop; `each` says what the state is when the routers of a set were handled. */
    method ReportLoop(ghost before: State, ghost each: set<EntryId> -> State)
      requires View() == before == each({})
      requires forall es, e | e in before.down && e !in es :: OneMoreReport(each, es, e)
      modifies this
      ensures View() == each(before.down.Keys)
    {
      ghost var done := {};
      var todo := down.Keys;
      while todo != {}
        invariant todo <= before.down.Keys && done == before.down.Keys - todo
        invariant View() == each(done)
      {
        var e :| e in todo;
        assert OneMoreReport(each, done, e);
        ReportRouter(e);
        todo, done := todo - {e}, done + {e};
      }
      assert done == before.down.Keys;
    }

    method ReportRouter(e: EntryId)
      requires e in down
      modifies this
      ensures View() == ReportOne(old(View()), e)
    {
      if down[e].reported {
        return;
      }
      down := down[e := down[e].(reported := true)];
      issues := issues.(own := issues.own + {e});
      trace := FireRouter(trace, e, Down({e}, down[e].since));
    }

    method StartFleetOutage()
      requires down.Keys != {}
      modifies this
      ensures View() == WithFleetOutage(old(View()))
    {
      var since := MinSince(down);
      fleetSince := Some(since);
      issues := Issues(true, issues.own - set e | e in down && down[e].reported);
      trace := FireFleet(trace, Down(down.Keys, since));
      down := map e | e in down :: down[e].(reported := false);
    }
  }

  method MinSince(down: map<EntryId, Outage>) returns (t: int)
    requires down.Keys != {}
    ensures IsEarliest(down, t)
  {
    var e :| e in down;
    t := down[e].since;
    var todo := down.Keys - {e};
    while todo != {}
      invariant todo <= down.Keys
      invariant exists f :: f in down && down[f].since == t
      invariant forall f | f in down && f !in todo :: t <= down[f].since
    {
      var f :| f in todo;
      if down[f].since < t {
        t := down[f].since;
      }
      todo := todo - {f};
    }
  }

  lemma ReportNone(s: State)
    ensures ReportEach(s, {}) == s
  {
    var t := ReportEach(s, {});
    assert t.down == s.down;
    assert t.issues.own == s.issues.own;
    assert t.trace.router == s.trace.router;
  }

  function ReportOne(s: State, e: EntryId): State
    requires e in s.down
  {
    if s.down[e].reported then s
    else s.(down := s.down[e := s.down[e].(reported := true)],
            issues := s.issues.(own := s.issues.own + {e}),
            trace := FireRouter(s.trace, e, Down({e}, s.down[e].since)))
  }

  ghost predicate OneMoreReport(each: set<EntryId> -> State, es: set<EntryId>, e: EntryId) {
    e in each(es).down && each(es + {e}) == ReportOne(each(es), e)
  }

  lemma ReportOneMore(s: State, es: set<EntryId>, e: EntryId)
    requires e in s.down && e !in es
    ensures e in ReportEach(s, es).down
    ensures ReportEach(s, es + {e}) == ReportOne(ReportEach(s, es), e)
  {
    var t, u := ReportEach(s, es), ReportEach(s, es + {e});
    var w := ReportOne(t, e);
    assert u.down == w.down;
    assert u.issues.own == w.issues.own;
    assert u.trace.router == w.trace.router;
  }
}
