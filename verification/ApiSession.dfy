/** The session machine of the API client: logins, the cache of denied methods, the backoff. */
module ApiSession {
  import opened Options
  import opened Router

  // Calls are sequential; what the router and the network do around each request is the
  // argument `env`.

  const SESSION_LIFETIME_SECONDS := 300
  const SESSION_REFRESH_MARGIN_SECONDS := 60
  const MAX_AUTH_FAILURES := 3

  datatype State = State(
    token: Option<Token>,        // None is the null session
    expiresAt: int,
    failures: nat,
    backoffUntil: int,
    blocked: set<Key>,
    closing: bool,
    server: Server)

  /** The surroundings of one call: two clock readings and up to six requests. */
  datatype CallEnv = CallEnv(
    checkedAt: int, freshAt: int,
    login1: Weather, destroy1: Weather, call1: Weather,
    login2: Weather, destroy2: Weather, call2: Weather,
    answer: Answer)

  datatype Outcome = Result(payload: int) | MethodNotFound | AuthError | BackoffError | ClosingError | OtherError
  datatype LoginResult = LoggedIn | Rejected | Broken

  // ------------------------------------------------------------ cache keys

  datatype Param = Text(text: string) | Truthy | Falsy

  function Get(params: map<string, Param>, name: string): Param {
    if name in params then params[name] else Falsy
  }

  function TextOf(p: Param): Option<string> {
    if p.Text? then Some(p.text) else None
  }

  /** A `file` call names its target by path, or by command where it gives no path. */
  function FileTarget(params: map<string, Param>): Param {
    var path := Get(params, "path");
    if path == Falsy || path == Text("") then Get(params, "command") else path
  }

  /** rpcd enforces `file` per path or command and `uci` per config, all else per method. */
  function AclCacheKey(object_: string, method_: string, params: map<string, Param>): Key {
    Key(object_, method_,
        if object_ == "file" then TextOf(FileTarget(params))
        else if object_ == "uci" then TextOf(Get(params, "config"))
        else None)
  }

  /** Both name the same text, or neither names any. */
  predicate SameTarget(a: Param, b: Param) {
    a == b || (!a.Text? && !b.Text?)
  }

  /** A denial blocks another call exactly if that one has the same object and method and, for
      files and configs, names the same target. */
  lemma CacheKeyGranularity(o1: string, m1: string, p: map<string, Param>, o2: string, m2: string,
                            q: map<string, Param>)
    ensures AclCacheKey(o1, m1, p) == AclCacheKey(o2, m2, q) <==>
            && o1 == o2 && m1 == m2
            && (o1 == "file" ==> SameTarget(FileTarget(p), FileTarget(q)))
            && (o1 == "uci" ==> SameTarget(Get(p, "config"), Get(q, "config")))
  {
    assert "file"[0] != "uci"[0];
  }

  /** A denied path never blocks another one, and a denied command never another command. */
  lemma FilesAreDeniedOneByOne(method_: string, p: map<string, Param>, q: map<string, Param>, a: string, b: string)
    requires a != b && a != "" && b != ""
    requires || (Get(p, "path") == Text(a) && Get(q, "path") == Text(b))
             || ("path" !in p && "path" !in q && Get(p, "command") == Text(a) && Get(q, "command") == Text(b))
    ensures AclCacheKey("file", method_, p) != AclCacheKey("file", method_, q)
  {
    CacheKeyGranularity("file", method_, p, "file", method_, q);
  }

  // ------------------------------------------------------- single operations

  function LoggedInAs(s: State, login: Weather, destroy: Weather, server: Server, t: Token): State {
    s.(token := Some(t), expiresAt := login.now + SESSION_LIFETIME_SECONDS,
       server := if s.token.Some? && s.token.value != t then OnDestroy(server, t, s.token.value, destroy) else server)
  }

  function AfterLogin(s: State, login: Weather, destroy: Weather): (State, LoginResult) {
    var (server, reply) := OnLogin(s.server, login);
    match reply
    case Session(t) => (LoggedInAs(s, login, destroy, server, t), LoggedIn)
    case LoginRejected => (s.(server := server), Rejected)
    case LoginBroken => (s.(server := server), Broken)
  }

  function Power2(n: nat): nat {
    if n == 0 then 1 else 2 * Power2(n - 1)
  }

  /** 30 s, 60 s, 120 s ... but never more than 300 s. */
  function BackoffSeconds(failures: nat): int
    requires failures > 0
  {
    var b := 30 * Power2(failures - 1);
    if b < 300 then b else 300
  }

  function NotedFailure(s: State, now: int): State {
    s.(failures := s.failures + 1, backoffUntil := now + BackoffSeconds(s.failures + 1))
  }

  predicate NeedsRefresh(s: State, now: int) {
    now >= s.expiresAt - SESSION_REFRESH_MARGIN_SECONDS
  }

  function AfterRefresh(s: State, env: CallEnv): (State, LoginResult) {
    if NeedsRefresh(s, env.freshAt) then AfterLogin(s, env.login1, env.destroy1) else (s, LoggedIn)
  }

  function OutcomeOf(answer: Answer): Outcome {
    match answer
    case Data(p) => Result(p)
    case NoSuchMethod => MethodNotFound
    case Failure => OtherError
  }

  /** The second attempt after a denial: a denial with a new session is the ACL's. */
  function AfterRetry(s: State, key: Key, env: CallEnv): (State, Outcome) {
    var (t, login) := AfterLogin(s, env.login2, env.destroy2);
    match login
    case Rejected => (NotedFailure(t, env.login2.now), AuthError)
    case Broken => (t, OtherError)
    case LoggedIn =>
      var (server, reply) := OnCall(t.server, t.token, key, env.answer, env.call2);
      var u := t.(failures := 0, server := server);
      match reply
      case Answered(answer) => (u, OutcomeOf(answer))
      case CallBroken => (u, OtherError)
      case Denied => (u.(blocked := u.blocked + {key}), MethodNotFound)
  }

  function AfterRequest(s: State, key: Key, retry: bool, env: CallEnv): (State, Outcome) {
    var (server, reply) := OnCall(s.server, s.token, key, env.answer, env.call1);
    var t := s.(server := server);
    match reply
    case Answered(answer) => (if answer.Data? then t.(failures := 0) else t, OutcomeOf(answer))
    case CallBroken => (t, OtherError)
    case Denied => if retry then AfterRetry(t, key, env) else (t, AuthError)
  }

  predicate InBackoff(s: State, now: int) {
    s.failures >= MAX_AUTH_FAILURES && now < s.backoffUntil
  }

  function BackoffOver(s: State): State {
    if s.failures >= MAX_AUTH_FAILURES then s.(failures := 0) else s
  }

  function AfterCall(s: State, key: Key, retry: bool, env: CallEnv): (State, Outcome) {
    if s.closing then (s, ClosingError)
    else if InBackoff(s, env.checkedAt) then (s, BackoffError)
    else
      var (t, refresh) := AfterRefresh(BackoffOver(s), env);
      match refresh
      case Rejected => (NotedFailure(t, env.login1.now), AuthError)
      case Broken => (t, OtherError)
      case LoggedIn => if key in t.blocked then (t, MethodNotFound) else AfterRequest(t, key, retry, env)
  }

  function AfterReset(s: State): State {
    s.(blocked := {})
  }

  function AfterClose(s: State, destroy: Weather): State {
    s.(closing := true, token := None, expiresAt := 0,
       server := if s.token.Some? then OnDestroy(s.server, s.token.value, s.token.value, destroy) else s.server)
  }

  datatype Op =
    | Call(key: Key, retry: bool, env: CallEnv)
    | Login(login: Weather, destroy: Weather)
    | ResetAcl(acl: set<Key>)          // a new ACL is deployed and the cache is forgotten
    | CloseApi(destroy: Weather)

  function Step(s: State, op: Op): State {
    match op
    case Call(key, retry, env) => AfterCall(s, key, retry, env).0
    case Login(login, destroy) => AfterLogin(s, login, destroy).0
    case ResetAcl(acl) => AfterReset(s.(server := s.server.(acl := acl)))
    case CloseApi(destroy) => AfterClose(s, destroy)
  }

  function Run(s: State, ops: seq<Op>): State
    decreases |ops|
  {
    if ops == [] then s else Run(Step(s, ops[0]), ops[1..])
  }

  /** A new client in front of a router where it has no sessions yet. */
  predicate Initial(s: State) {
    && s.token == None && s.failures == 0 && s.blocked == {} && !s.closing
    && s.server.live == {} && s.server.issued == 0 && s.server.loginTimes == []
  }

  // -------------------------------------------------------------- sessions

  /** No session is open but the current one and those the client could not destroy. */
  ghost predicate SessionsAccounted(s: State) {
    && (forall t | t in s.server.live :: t < s.server.issued)
    && (s.token.Some? ==> s.token.value < s.server.issued)
    && (forall t | t in s.server.live :: s.token == Some(t) || t in s.server.undestroyed || t in s.server.unknown)
  }

  lemma LoginKeepsSessions(s: State, login: Weather, destroy: Weather)
    requires SessionsAccounted(s)
    ensures SessionsAccounted(AfterLogin(s, login, destroy).0)
  {
  }

  lemma RequestKeepsSessions(s: State, key: Key, retry: bool, env: CallEnv)
    requires SessionsAccounted(s)
    ensures SessionsAccounted(AfterRequest(s, key, retry, env).0)
  {
    var t := s.(server := OnCall(s.server, s.token, key, env.answer, env.call1).0);
    assert SessionsAccounted(t);
    LoginKeepsSessions(t, env.login2, env.destroy2);
  }

  lemma StepKeepsSessions(s: State, op: Op)
    requires SessionsAccounted(s)
    ensures SessionsAccounted(Step(s, op))
  {
    match op
    case Call(key, retry, env) =>
      LoginKeepsSessions(BackoffOver(s), env.login1, env.destroy1);
      RequestKeepsSessions(AfterRefresh(BackoffOver(s), env).0, key, retry, env);
    case Login(login, destroy) => LoginKeepsSessions(s, login, destroy);
    case ResetAcl(acl) =>
    case CloseApi(destroy) =>
  }

  lemma {:induction false} SessionsStayAccounted(s: State, ops: seq<Op>)
    requires SessionsAccounted(s)
    ensures SessionsAccounted(Run(s, ops))
    decreases |ops|
  {
    if ops != [] {
      StepKeepsSessions(s, ops[0]);
      SessionsStayAccounted(Step(s, ops[0]), ops[1..]);
    }
  }

  /** Over all runs of a new client, whatever router and network do: sessions never pile up. */
  lemma RunKeepsSessions(s: State, ops: seq<Op>)
    requires Initial(s)
    ensures SessionsAccounted(Run(s, ops))
  {
    NewClient(s, 0);
    SessionsStayAccounted(s, ops);
  }

  /** Closing leaves only sessions that could not be destroyed or were never known. */
  lemma CloseLeavesOnlyOrphans(s: State, ops: seq<Op>, destroy: Weather)
    requires Initial(s)
    ensures var t := Step(Run(s, ops), CloseApi(destroy));
            t.server.live <= t.server.undestroyed + t.server.unknown
  {
    RunKeepsSessions(s, ops);
    StepKeepsSessions(Run(s, ops), CloseApi(destroy));
  }

  // ------------------------------------------------------------- ACL cache

  predicate Calm(w: Weather) {
    w.fate.Delivered? && w.accepts
  }

  /** Valid credentials, a network that delivers, and a session opened during the call
      that survives until its end. Sessions from before may end at any time. */
  ghost predicate Benign(s: State, env: CallEnv) {
    && Calm(env.login1) && Calm(env.destroy1) && Calm(env.call1)
    && Calm(env.login2) && Calm(env.destroy2) && Calm(env.call2)
    && (forall t | t in env.destroy2.ended :: t < s.server.issued)
    && (forall t | t in env.call2.ended :: t < s.server.issued)
  }

  /** The cache holds only keys the ACL denies. */
  ghost predicate CacheSound(s: State) {
    s.blocked !! s.server.acl
  }

  /** What a client without any cache state would report. */
  function Ideal(acl: set<Key>, key: Key, env: CallEnv): Outcome {
    if key in acl then OutcomeOf(env.answer) else MethodNotFound
  }

  /** The client is open, and nothing was rejected so far. */
  ghost predicate Trusted(s: State) {
    && !s.closing && s.failures == 0 && CacheSound(s)
    && (s.token.Some? ==> s.token.value < s.server.issued)
  }

  lemma CalmLogin(s: State, login: Weather, destroy: Weather)
    requires Calm(login)
    ensures var (t, r) := AfterLogin(s, login, destroy);
            && r == LoggedIn
            && t.token == Some(s.server.issued) && t.server.issued == s.server.issued + 1
            && t.server.acl == s.server.acl && t.blocked == s.blocked && t.failures == s.failures
              && t.closing == s.closing
            && (s.server.issued !in destroy.ended && (s.token.Some? ==> s.token.value != s.server.issued)
                ==> s.server.issued in t.server.live)
  {
  }

  lemma BenignRetry(s: State, key: Key, env: CallEnv, issued: nat)
    requires Trusted(s) && key !in s.blocked && issued <= s.server.issued
    requires Calm(env.login2) && Calm(env.call2)
    requires forall t | t in env.destroy2.ended :: t < issued
    requires forall t | t in env.call2.ended :: t < issued
    ensures var (t, o) := AfterRetry(s, key, env);
            && o == Ideal(s.server.acl, key, env)
            && Trusted(t) && t.server.acl == s.server.acl
            && t.blocked == if key in s.server.acl then s.blocked else s.blocked + {key}
  {
    CalmLogin(s, env.login2, env.destroy2);
    var t := AfterLogin(s, env.login2, env.destroy2).0;
    assert s.server.issued !in env.destroy2.ended;
    assert s.server.issued in Ended(t.server, env.call2).live;
  }

  /** In benign surroundings a call reports exactly what the ACL and the method say,
      whatever the cache, the token and their age are; only denied keys enter the cache. */
  lemma BenignCall(s: State, key: Key, env: CallEnv)
    requires Trusted(s) && Benign(s, env)
    ensures var (t, o) := AfterCall(s, key, true, env);
            && o == Ideal(s.server.acl, key, env)
            && Trusted(t) && t.server.acl == s.server.acl
            && t.blocked == if key in s.server.acl then s.blocked else s.blocked + {key}
  {
    if NeedsRefresh(s, env.freshAt) {
      CalmLogin(s, env.login1, env.destroy1);
    }
    var t := AfterRefresh(BackoffOver(s), env).0;
    assert Trusted(t) && t.server.acl == s.server.acl && t.blocked == s.blocked && s.server.issued <= t.server.issued;
    if key !in t.blocked {
      var u := t.(server := OnCall(t.server, t.token, key, env.answer, env.call1).0);
      BenignRetry(u, key, env, s.server.issued);
    } else {
      assert s.blocked + {key} == s.blocked;
    }
  }

  /** The same client with the cache forgotten before every call. */
  function Uncached(s: State, key: Key, env: CallEnv): (State, Outcome) {
    AfterCall(AfterReset(s), key, true, env)
  }

  datatype Poll = Poll(key: Key, env: CallEnv)

  /** A call, or the deployment of a new ACL with the reset of the cache that follows it. */
  datatype Action = Ask(poll: Poll) | Deploy(acl: set<Key>)

  function Deployed(s: State, acl: set<Key>): State {
    AfterReset(s.(server := s.server.(acl := acl)))
  }

  function Outcomes(s: State, actions: seq<Action>): seq<Outcome>
    decreases |actions|
  {
    if actions == [] then []
    else
      match actions[0]
      case Deploy(acl) => Outcomes(Deployed(s, acl), actions[1..])
      case Ask(p) =>
        var (t, o) := AfterCall(s, p.key, true, p.env);
        [o] + Outcomes(t, actions[1..])
  }

  function UncachedOutcomes(s: State, actions: seq<Action>): seq<Outcome>
    decreases |actions|
  {
    if actions == [] then []
    else
      match actions[0]
      case Deploy(acl) => UncachedOutcomes(Deployed(s, acl), actions[1..])
      case Ask(p) =>
        var (t, o) := Uncached(s, p.key, p.env);
        [o] + UncachedOutcomes(t, actions[1..])
  }

  /** Every call of the run has benign surroundings, in the cached and in the uncached client. */
  ghost predicate BenignRun(s: State, u: State, actions: seq<Action>)
    decreases |actions|
  {
    actions == [] ||
    match actions[0]
    case Deploy(acl) => BenignRun(Deployed(s, acl), Deployed(u, acl), actions[1..])
    case Ask(p) =>
      && Benign(s, p.env) && Benign(u, p.env)
      && BenignRun(AfterCall(s, p.key, true, p.env).0, Uncached(u, p.key, p.env).0, actions[1..])
  }

  lemma {:induction false} TransparentFrom(s: State, u: State, actions: seq<Action>)
    requires Trusted(s) && Trusted(u) && s.server.acl == u.server.acl
    requires BenignRun(s, u, actions)
    ensures Outcomes(s, actions) == UncachedOutcomes(u, actions)
    decreases |actions|
  {
    if actions != [] {
      match actions[0]
      case Deploy(acl) => TransparentFrom(Deployed(s, acl), Deployed(u, acl), actions[1..]);
      case Ask(p) =>
        BenignCall(s, p.key, p.env);
        BenignCall(AfterReset(u), p.key, p.env);
        TransparentFrom(AfterCall(s, p.key, true, p.env).0, Uncached(u, p.key, p.env).0, actions[1..]);
    }
  }

  /** The cache of a new client cannot be noticed over any sequence of calls and ACL deployments. */
  lemma CacheIsTransparent(s: State, actions: seq<Action>)
    requires Initial(s) && BenignRun(s, s, actions)
    ensures Outcomes(s, actions) == UncachedOutcomes(s, actions)
  {
    NewClient(s, 0);
    TransparentFrom(s, s, actions);
  }

  /** After the deployment of an ACL a call that it permits is answered, however often it was denied
      before, and one that it no longer permits is not. */
  lemma DeploymentCounts(s: State, acl: set<Key>, key: Key, env: CallEnv)
    requires Trusted(s) && Benign(Deployed(s, acl), env)
    ensures Deployed(s, acl) == Step(s, ResetAcl(acl))
    ensures AfterCall(Deployed(s, acl), key, true, env).1 ==
            if key in acl then OutcomeOf(env.answer) else MethodNotFound
  {
    BenignCall(Deployed(s, acl), key, env);
  }

  function AfterPolls(s: State, polls: seq<Poll>): State
    decreases |polls|
  {
    if polls == [] then s else AfterPolls(AfterCall(s, polls[0].key, true, polls[0].env).0, polls[1..])
  }

  /** This call logs in again because the ACL denies its key. */
  predicate DenialRelogin(s: State, p: Poll) {
    var t := AfterRefresh(BackoffOver(s), p.env).0;
    && p.key !in s.server.acl
    && AfterCall(s, p.key, true, p.env).0.server.loginTimes == t.server.loginTimes + [p.env.login2.now]
  }

  function DenialRelogins(s: State, polls: seq<Poll>): nat
    decreases |polls|
  {
    if polls == [] then 0
    else (if DenialRelogin(s, polls[0]) then 1 else 0)
         + DenialRelogins(AfterCall(s, polls[0].key, true, polls[0].env).0, polls[1..])
  }

  /** The distinct keys of the run that the ACL denies. */
  function DeniedKeys(acl: set<Key>, polls: seq<Poll>): set<Key> {
    if polls == [] then {} else DeniedKeys(acl, polls[1..]) + if polls[0].key in acl then {} else {polls[0].key}
  }

  lemma ReloginIffNew(s: State, p: Poll)
    requires Trusted(s) && Benign(s, p.env)
    ensures DenialRelogin(s, p) <==> p.key !in s.server.acl && p.key !in s.blocked
  {
    if NeedsRefresh(s, p.env.freshAt) {
      CalmLogin(s, p.env.login1, p.env.destroy1);
    }
    var t := AfterRefresh(BackoffOver(s), p.env).0;
    if p.key !in s.blocked {
      var u := t.(server := OnCall(t.server, t.token, p.key, p.env.answer, p.env.call1).0);
      CalmLogin(u, p.env.login2, p.env.destroy2);
    }
  }

  ghost predicate BenignPolls(s: State, polls: seq<Poll>)
    decreases |polls|
  {
    polls == [] || (Benign(s, polls[0].env)
      && BenignPolls(AfterCall(s, polls[0].key, true, polls[0].env).0, polls[1..]))
  }

  lemma {:induction false} ReloginsFrom(s: State, polls: seq<Poll>)
    requires Trusted(s) && BenignPolls(s, polls)
    ensures AfterPolls(s, polls).blocked == s.blocked + DeniedKeys(s.server.acl, polls)
    ensures DenialRelogins(s, polls) == |DeniedKeys(s.server.acl, polls) - s.blocked|
    decreases |polls|
  {
    if polls != [] {
      var t := OnePoll(s, polls[0]);
      ReloginsFrom(t, polls[1..]);
      CountDenied(DeniedKeys(s.server.acl, polls[1..]), s.blocked, polls[0].key, polls[0].key in s.server.acl);
    }
  }

  lemma OnePoll(s: State, p: Poll) returns (t: State)
    requires Trusted(s) && Benign(s, p.env)
    ensures t == AfterCall(s, p.key, true, p.env).0 && Trusted(t) && t.server.acl == s.server.acl
    ensures t.blocked == if p.key in s.server.acl then s.blocked else s.blocked + {p.key}
    ensures DenialRelogin(s, p) <==> p.key !in s.server.acl && p.key !in s.blocked
  {
    t := AfterCall(s, p.key, true, p.env).0;
    BenignCall(s, p.key, p.env);
    ReloginIffNew(s, p);
  }

  /** Denials cost a new client one re-login for each distinct denied key, however often it is
      called; the cache then holds exactly the denied keys, never a permitted one. */
  lemma ReloginsAreBounded(s: State, polls: seq<Poll>)
    requires Initial(s) && BenignPolls(s, polls)
    ensures AfterPolls(s, polls).blocked == DeniedKeys(s.server.acl, polls)
    ensures DenialRelogins(s, polls) == |DeniedKeys(s.server.acl, polls)|
  {
    NewClient(s, 0);
    ReloginsFrom(s, polls);
    assert {} + DeniedKeys(s.server.acl, polls) == DeniedKeys(s.server.acl, polls);
    assert DeniedKeys(s.server.acl, polls) - {} == DeniedKeys(s.server.acl, polls);
  }

  lemma CountDenied(later: set<Key>, blocked: set<Key>, k: Key, permitted: bool)
    ensures var all, now := later + if permitted then {} else {k}, if permitted then blocked else blocked + {k};
            |all - blocked| == |later - now| + if !permitted && k !in blocked then 1 else 0
    ensures permitted ==> later + {} == later
  {
    if !permitted && k !in blocked {
      assert (later + {k}) - blocked == (later - (blocked + {k})) + {k};
    } else if !permitted {
      assert (later + {k}) - blocked == later - (blocked + {k});
    } else {
      assert (later + {}) - blocked == later - blocked;
    }
  }

  /** Without the retry the cache does show: a cached key reports "method not found"
      where the uncached client reports an auth error. */
  lemma WithoutRetryCacheShowsIff(s: State, key: Key, env: CallEnv)
    requires Trusted(s) && Benign(s, env) && key !in s.server.acl
    ensures AfterCall(s, key, false, env).1 == AfterCall(AfterReset(s), key, false, env).1 <==> key !in s.blocked
  {
    DeniedWithoutRetry(s, key, env);
    DeniedWithoutRetry(AfterReset(s), key, env);
  }

  /** Surroundings without any disturbance. */
  function CalmEnv(now: int, answer: Answer): CallEnv {
    var calm := Weather(now, {}, Delivered, true);
    CallEnv(now, now, calm, calm, calm, calm, calm, calm, answer)
  }

  /** A run of a new client after which the parameter shows it: a denied call with the retry,
      then the same call without. */
  lemma CacheShowsWithoutRetry(s: State, key: Key, now: int, answer: Answer)
    requires Initial(s) && key !in s.server.acl
    ensures var env := CalmEnv(now, answer);
            var t := AfterCall(s, key, true, env).0;
            && key in t.blocked
            && AfterCall(t, key, false, env).1 == MethodNotFound
            && AfterCall(AfterReset(t), key, false, env).1 == AuthError
  {
    var env := CalmEnv(now, answer);
    NewClient(s, now);
    BenignCall(s, key, env);
    var t := AfterCall(s, key, true, env).0;
    DeniedWithoutRetry(t, key, env);
    DeniedWithoutRetry(AfterReset(t), key, env);
  }

  lemma DeniedWithoutRetry(s: State, key: Key, env: CallEnv)
    requires Trusted(s) && Benign(s, env) && key !in s.server.acl
    ensures AfterCall(s, key, false, env).1 == if key in s.blocked then MethodNotFound else AuthError
  {
    if NeedsRefresh(s, env.freshAt) {
      CalmLogin(s, env.login1, env.destroy1);
    }
  }

  // --------------------------------------------------------------- backoff

  predicate AtMostThree(s: State) {
    s.failures <= MAX_AUTH_FAILURES
  }

  lemma {:induction false} FailuresStayBounded(s: State, ops: seq<Op>)
    requires AtMostThree(s)
    ensures AtMostThree(Run(s, ops))
    decreases |ops|
  {
    if ops != [] {
      FailuresStayBounded(Step(s, ops[0]), ops[1..]);
    }
  }

  /** Whatever a new client goes through, it never counts more than three failures. */
  lemma FailuresAreBounded(s: State, ops: seq<Op>)
    requires Initial(s)
    ensures AtMostThree(Run(s, ops))
  {
    NewClient(s, 0);
    FailuresStayBounded(s, ops);
  }

  /** The third rejection arms a backoff of 120 s from that login on. */
  lemma ThirdRejectionArms(s: State, key: Key, retry: bool, env: CallEnv)
    requires s.failures < 3 && AfterCall(s, key, retry, env).0.failures == 3
    ensures var t := AfterCall(s, key, retry, env).0;
            && t.server.loginTimes != []
            && t.backoffUntil == t.server.loginTimes[|t.server.loginTimes| - 1] + 120
  {
    assert BackoffSeconds(3) == 120 by { assert Power2(2) == 4; }
  }

  /** During the backoff no call sends any request, not even a token refresh. */
  lemma {:induction false} BackoffIsSilent(s: State, polls: seq<Poll>)
    requires !s.closing && s.failures >= 3
    requires forall p | p in polls :: p.env.checkedAt < s.backoffUntil
    ensures AfterPolls(s, polls) == s
    ensures forall p | p in polls :: AfterCall(s, p.key, true, p.env) == (s, BackoffError)
    decreases |polls|
  {
    if polls != [] {
      assert polls[0] in polls;
      assert forall p | p in polls[1..] :: p in polls;
      BackoffIsSilent(s, polls[1..]);
    }
  }

  /** After the third rejection in a row nothing is sent for 120 s: every call that begins in
      that time fails at once and leaves client and router as they are. */
  lemma ThirdRejectionSilences(s: State, key: Key, retry: bool, env: CallEnv, polls: seq<Poll>)
    requires s.failures < 3 && AfterCall(s, key, retry, env).0.failures == 3
    requires var times := AfterCall(s, key, retry, env).0.server.loginTimes;
             times != [] && forall p | p in polls :: p.env.checkedAt < times[|times| - 1] + 120
    ensures var t := AfterCall(s, key, retry, env).0;
            AfterPolls(t, polls) == t && forall p | p in polls :: AfterCall(t, p.key, true, p.env) == (t, BackoffError)
  {
    ThirdRejectionArms(s, key, retry, env);
    BackoffIsSilent(AfterCall(s, key, retry, env).0, polls);
  }

  // ------------------------------------ a router that rejects everything

  predicate Rejects(w: Weather) {
    w.fate.Delivered? && !w.accepts
  }

  /** The times of one call are in order and no later than `end`. */
  predicate Timed(env: CallEnv, start: int, end: int) {
    && start <= env.checkedAt <= env.login1.now <= end
    && env.checkedAt <= env.login2.now <= end
  }

  ghost predicate Sorted(times: seq<int>, clock: int) {
    && (forall i, j | 0 <= i <= j < |times| :: times[i] <= times[j])
    && (forall i | 0 <= i < |times| :: times[i] <= clock)
  }

  /** Four logins never fall into less than 120 s. */
  ghost predicate Spaced(times: seq<int>) {
    forall i, j | 0 <= i && j == i + 3 && j < |times| :: times[j] - times[i] >= 120
  }

  /** The logins since the first `base` ones. */
  function LoginsSince(s: State, base: nat): seq<int>
    requires base <= |s.server.loginTimes|
  {
    s.server.loginTimes[base..]
  }

  /** While the router rejects everything, counting logins from the first rejection on: those of
      the current count of failures are the newest, and an older one is 120 s away. */
  ghost predicate RejectedInv(s: State, base: nat, revoked: set<Token>, clock: int) {
    && base <= |s.server.loginTimes| && s.server.live <= revoked && s.failures <= 3
    && var times, f := LoginsSince(s, base), s.failures;
       && Sorted(times, clock) && Spaced(times)
       && (f < |times| ==> times[|times| - f - 1] + 120 <= clock)
       && (f == 3 && times != [] ==> s.backoffUntil >= times[|times| - 1] + 120)
  }

  lemma RejectedLogin(s: State, w: Weather, destroy: Weather, base: nat, revoked: set<Token>, clock: int)
    requires RejectedInv(s, base, revoked, clock) && s.failures < 3 && Rejects(w) && clock <= w.now
    ensures AfterLogin(s, w, destroy).1 == Rejected
    ensures RejectedInv(NotedFailure(AfterLogin(s, w, destroy).0, w.now), base, revoked, w.now)
  {
    var times := LoginsSince(s, base);
    var t := NotedFailure(AfterLogin(s, w, destroy).0, w.now);
    assert LoginsSince(t, base) == times + [w.now];
    if t.failures == 3 { assert BackoffSeconds(3) == 120 by { assert Power2(2) == 4; } }
    SpacedStays(times, s.failures, clock, w.now);
  }

  lemma SpacedStays(times: seq<int>, f: nat, clock: int, now: int)
    requires Sorted(times, clock) && Spaced(times) && f < 3 && clock <= now
    requires f < |times| ==> times[|times| - f - 1] + 120 <= clock
    ensures Sorted(times + [now], now) && Spaced(times + [now])
  {
    if |times| >= 3 { assert times[|times| - 3] <= times[|times| - f - 1]; }
  }

  lemma LaterIsFine(s: State, base: nat, revoked: set<Token>, clock: int, later: int)
    requires RejectedInv(s, base, revoked, clock) && clock <= later
    ensures RejectedInv(s, base, revoked, later)
  {
  }

  lemma BackoffOverRejected(s: State, base: nat, revoked: set<Token>, clock: int, now: int)
    requires RejectedInv(s, base, revoked, clock) && clock <= now && !InBackoff(s, now)
    ensures RejectedInv(BackoffOver(s), base, revoked, now) && BackoffOver(s).failures < 3
  {
    LaterIsFine(s, base, revoked, clock, now);
  }

  /** The router rejects every login, and sessions from before are of no use any more. */
  predicate RejectsAll(env: CallEnv, revoked: set<Token>) {
    Rejects(env.login1) && Rejects(env.login2) && env.call1.fate.Delivered? && revoked <= env.call1.ended
  }

  lemma RejectedCall(s: State, key: Key, retry: bool, env: CallEnv, base: nat, revoked: set<Token>, clock: int,
                     end: int)
    requires RejectedInv(s, base, revoked, clock) && Timed(env, clock, end) && RejectsAll(env, revoked)
    ensures RejectedInv(AfterCall(s, key, retry, env).0, base, revoked, end)
  {
    if s.closing || InBackoff(s, env.checkedAt) {
      LaterIsFine(s, base, revoked, clock, end);
    } else {
      BackoffOverRejected(s, base, revoked, clock, env.checkedAt);
      var t := BackoffOver(s);
      if NeedsRefresh(t, env.freshAt) {
        RejectedLogin(t, env.login1, env.destroy1, base, revoked, env.checkedAt);
        var u := NotedFailure(AfterLogin(t, env.login1, env.destroy1).0, env.login1.now);
        LaterIsFine(u, base, revoked, env.login1.now, end);
      } else if key !in t.blocked && retry {
        var u := t.(server := OnCall(t.server, t.token, key, env.answer, env.call1).0);
        assert u.server.live == {};
        RejectedLogin(u, env.login2, env.destroy2, base, revoked, env.checkedAt);
        var v := NotedFailure(AfterLogin(u, env.login2, env.destroy2).0, env.login2.now);
        LaterIsFine(v, base, revoked, env.login2.now, end);
      } else {
        LaterIsFine(t, base, revoked, env.checkedAt, end);
      }
    }
  }

  datatype TimedCall = TimedCall(key: Key, retry: bool, env: CallEnv, end: int)

  ghost predicate RejectedRun(calls: seq<TimedCall>, revoked: set<Token>, clock: int)
    decreases |calls|
  {
    calls == [] ||
    (var c := calls[0];
     Timed(c.env, clock, c.end) && RejectsAll(c.env, revoked) && RejectedRun(calls[1..], revoked, c.end))
  }

  function AfterCalls(s: State, calls: seq<TimedCall>): State
    decreases |calls|
  {
    if calls == [] then s else AfterCalls(AfterCall(s, calls[0].key, calls[0].retry, calls[0].env).0, calls[1..])
  }

  lemma {:induction false} RejectedRunIsSpaced(s: State, calls: seq<TimedCall>, base: nat, revoked: set<Token>,
                                               clock: int)
    requires RejectedInv(s, base, revoked, clock) && RejectedRun(calls, revoked, clock)
    ensures var t := AfterCalls(s, calls); base <= |t.server.loginTimes| && Spaced(LoginsSince(t, base))
    decreases |calls|
  {
    if calls != [] {
      var c := calls[0];
      RejectedCall(s, c.key, c.retry, c.env, base, revoked, clock, c.end);
      RejectedRunIsSpaced(AfterCall(s, c.key, c.retry, c.env).0, calls[1..], base, revoked, c.end);
    }
  }

  /** Whatever a client went through before: from the moment the router rejects everything, its
      old sessions included, any interval shorter than 120 s holds at most three login requests,
      whatever is called and how often. */
  lemma AtMostThreeLoginsIn120s(s0: State, ops: seq<Op>, calls: seq<TimedCall>, clock: int)
    requires Initial(s0)
    requires RejectedRun(calls, Run(s0, ops).server.live, clock)
    ensures var s, t := Run(s0, ops), AfterCalls(Run(s0, ops), calls);
            && |s.server.loginTimes| <= |t.server.loginTimes|
            && Spaced(LoginsSince(t, |s.server.loginTimes|))
  {
    var s := Run(s0, ops);
    FailuresAreBounded(s0, ops);
    RejectedRunIsSpaced(s, calls, |s.server.loginTimes|, s.server.live, clock);
  }

  /** All the invariants hold of a new client. */
  lemma NewClient(s: State, clock: int)
    requires Initial(s)
    ensures RejectedInv(s, 0, {}, clock) && SessionsAccounted(s) && Trusted(s) && AtMostThree(s)
  {
  }

  // -------------------------------------------- a call, told by its requests

  /** A session is renewed from 240 s after its login on: a call that needs no request of its own
      logs in from then on and not before. */
  lemma SessionsAreRenewedAfter240s(s: State, login: Weather, destroy: Weather, key: Key, retry: bool, env: CallEnv)
    requires AfterLogin(s, login, destroy).1 == LoggedIn && !s.closing && s.failures < 3 && key in s.blocked
    ensures var t := AfterLogin(s, login, destroy).0;
            AfterCall(t, key, retry, env).0.server.loginTimes ==
            t.server.loginTimes + if env.freshAt >= login.now + 240 then [env.login1.now] else []
  {
  }

  /** Every login request is in the router's record, whatever becomes of its reply, and the
      sessions that ended before it are gone. */
  lemma LoginsAreRecorded(s: State, login: Weather, destroy: Weather, x: Token)
    ensures var t := AfterLogin(s, login, destroy).0;
            && t.server.loginTimes == s.server.loginTimes + [login.now]
            && (x in login.ended && x < s.server.issued ==> x !in t.server.live)
  {
  }

  /** A call fails at once exactly if three logins in a row were rejected and it begins before the
      backoff is over, and on a closed client. */
  lemma FailsAtOnceIff(s: State, key: Key, retry: bool, env: CallEnv)
    ensures AfterCall(s, key, retry, env).1 == BackoffError <==>
            !s.closing && s.failures >= 3 && env.checkedAt < s.backoffUntil
    ensures AfterCall(s, key, retry, env).1 == ClosingError <==> s.closing
    ensures AfterCall(s, key, retry, env).1 in {BackoffError, ClosingError} ==> AfterCall(s, key, retry, env).0 == s
  {
  }

  /** 30 s after the first rejection, then twice as long each time, and never more than 300 s. */
  lemma BackoffSchedule(n: nat)
    ensures BackoffSeconds(1) == 30 && BackoffSeconds(2) == 60 && BackoffSeconds(3) == 120 && BackoffSeconds(4) == 240
    ensures n >= 5 ==> BackoffSeconds(n) == 300
  {
    assert Power2(1) == 2 && Power2(2) == 4 && Power2(3) == 8;
    if n >= 5 { PowerGrows(n - 1); }
  }

  lemma {:induction false} PowerGrows(n: nat)
    requires n >= 4
    ensures Power2(n) >= 16
  {
    if n > 4 { PowerGrows(n - 1); } else { assert Power2(2) == 4; }
  }

  /** The state after a login was rejected: one more rejection, or the first one again after a
      backoff, and the backoff counted from that login. */
  predicate CountsRejection(s: State, t: State, login: Weather) {
    var n := if s.failures >= 3 then 1 else s.failures + 1;
    t.failures == n && t.backoffUntil == login.now + if n == 1 then 30 else if n == 2 then 60 else 120
  }

  /** What the logins of one call do to the count of rejections. */
  lemma RejectionsAreCounted(s: State, key: Key, retry: bool, env: CallEnv)
    requires !s.closing && !(s.failures >= 3 && env.checkedAt < s.backoffUntil)
    ensures var (t, o) := AfterCall(s, key, retry, env);
            var before := if s.failures >= 3 then 0 else s.failures;
            && (env.freshAt >= s.expiresAt - 60 && Rejects(env.login1) ==>
                  o == AuthError && CountsRejection(s, t, env.login1))
            && (t.failures == before || t.failures == 0 || (o == AuthError
                  && (CountsRejection(s, t, env.login1) || CountsRejection(s, t, env.login2))))
            && (o.Result? ==> t.failures == 0)
  {
    BackoffSchedule(1);
  }

  /** The request of a call and what follows it, told by whether the session is alive and the ACL
      permits the call: only data and a successful re-login take the rejections back. */
  lemma RequestTold(s: State, key: Key, retry: bool, env: CallEnv)
    requires s.failures < 3
    ensures var (t, o) := AfterRequest(s, key, retry, env);
            var permitted := s.token.Some? && s.token.value in s.server.live && s.token.value !in env.call1.ended
              && key in s.server.acl;
            if !env.call1.fate.Delivered? then o == OtherError && t.failures == s.failures && t.blocked == s.blocked
            else if permitted then
              && o == OutcomeOf(env.answer) && t.blocked == s.blocked && t.token == s.token
              && t.failures == if env.answer.Data? then 0 else s.failures
            else if !retry then o == AuthError && t.failures == s.failures && t.blocked == s.blocked
            else if Rejects(env.login2) then
              o == AuthError && CountsRejection(s, t, env.login2) && t.blocked == s.blocked
            else if !Calm(env.login2) then o == OtherError && t.failures == s.failures && t.blocked == s.blocked
            else t.failures == 0 && t.token == Some(s.server.issued) && o != AuthError
  {
    BackoffSchedule(1);
  }

  /** The second attempt enters the cache exactly if the new session is denied, too. */
  lemma RetryTold(s: State, key: Key, env: CallEnv, x: Token)
    requires Calm(env.login2) && s.token != Some(s.server.issued)
    ensures var (t, o) := AfterRetry(s, key, env);
            var alive := s.server.issued !in env.destroy2.ended && s.server.issued !in env.call2.ended;
            && (!env.call2.fate.Delivered? ==> o == OtherError && t.blocked == s.blocked)
            && (env.call2.fate.Delivered? && alive && key in s.server.acl ==>
                  o == OutcomeOf(env.answer) && t.blocked == s.blocked)
            && (env.call2.fate.Delivered? && key !in s.server.acl ==>
                  o == MethodNotFound && t.blocked == s.blocked + {key})
            && (x in env.call2.ended ==> x !in t.server.live)
  {
  }

  /** Whatever the request comes to, a session that ended before it is not alive after it. */
  lemma EndedSessionsAreGone(s: State, key: Key, retry: bool, env: CallEnv, x: Token)
    requires x in env.call1.ended && x < s.server.issued
    ensures x !in AfterRequest(s, key, retry, env).0.server.live
  {
    var t := s.(server := OnCall(s.server, s.token, key, env.answer, env.call1).0);
    assert x !in AfterLogin(t, env.login2, env.destroy2).0.server.live;
  }

  /** Where the router is willing and the network delivers, a re-login ends the old session, and
      closing ends the last one, if it has not ended by itself. */
  lemma OldSessionsEnd(s: State, login: Weather, destroy: Weather)
    requires Calm(login) && Calm(destroy) && s.token.Some? && s.token.value < s.server.issued
    ensures s.server.issued !in destroy.ended ==>
              var t := AfterLogin(s, login, destroy).0;
              s.token.value !in t.server.live && t.server.undestroyed == s.server.undestroyed
    ensures s.token.value in s.server.live && s.token.value !in destroy.ended ==>
              var t := AfterClose(s, destroy);
              s.token.value !in t.server.live && t.server.undestroyed == s.server.undestroyed
    ensures AfterClose(s, destroy).server.live <= s.server.live - {s.token.value} - destroy.ended
  {
  }

  /** A closed client has no session and sends nothing ever again. */
  lemma {:induction false} ClosedIsSilent(s: State, destroy: Weather, polls: seq<Poll>)
    ensures var t := AfterClose(s, destroy);
            && t.token == None && t.expiresAt == 0 && AfterPolls(t, polls) == t
            && forall p | p in polls :: AfterCall(t, p.key, true, p.env) == (t, ClosingError)
    decreases |polls|
  {
    if polls != [] {
      ClosedIsSilent(s, destroy, polls[1..]);
    }
  }

  // ------------------------------------------------------------- the object

  class OpenWrtApi {
    var token: Option<Token>
    var tokenExpiresAt: int
    var authFailureCount: nat
    var authBackoffUntil: int
    var aclBlocked: set<Key>
    var closing: bool
    var server: Server             // stands for the router

    ghost function View(): State
      reads this
    {
      State(token, tokenExpiresAt, authFailureCount, authBackoffUntil, aclBlocked, closing, server)
    }

    constructor (server: Server)
      ensures View() == State(None, 0, 0, 0, {}, false, server)
    {
      token, tokenExpiresAt, authFailureCount, authBackoffUntil := None, 0, 0, 0;
      aclBlocked, closing, this.server := {}, false, server;
    }

    method ResetAclBlocked()
      modifies this
      ensures View() == AfterReset(old(View()))
    {
      aclBlocked := {};
    }

    method DestroySession(auth: Token, victim: Token, w: Weather)
      modifies this`server
      ensures server == OnDestroy(old(server), auth, victim, w)
      ensures victim !in server.live || victim in server.undestroyed
    {
      server := OnDestroy(server, auth, victim, w);
    }

    method Login(login: Weather, destroy: Weather) returns (r: LoginResult)
      modifies this
      ensures (View(), r) == AfterLogin(old(View()), login, destroy)
    {
      var oldToken := token;
      var (after, reply) := OnLogin(server, login);
      server := after;
      match reply {
        case LoginRejected => return Rejected;
        case LoginBroken => return Broken;
        case Session(t) =>
          token := Some(t);
          tokenExpiresAt := login.now + SESSION_LIFETIME_SECONDS;
          if oldToken.Some? && oldToken.value != t {
            DestroySession(t, oldToken.value, destroy);
          }
          return LoggedIn;
      }
    }

    method EnsureFreshToken(env: CallEnv) returns (r: LoginResult)
      modifies this
      ensures (View(), r) == AfterRefresh(old(View()), env)
    {
      if env.freshAt >= tokenExpiresAt - SESSION_REFRESH_MARGIN_SECONDS {
        r := Login(env.login1, env.destroy1);
        return;
      }
      return LoggedIn;
    }

    method NoteLoginFailure(now: int)
      modifies this
      ensures View() == NotedFailure(old(View()), now)
    {
      authFailureCount := authFailureCount + 1;
      authBackoffUntil := now + BackoffSeconds(authFailureCount);
    }

    /** `_call`. */
    method Call(key: Key, retry: bool, env: CallEnv) returns (o: Outcome)
      modifies this
      ensures (View(), o) == AfterCall(old(View()), key, retry, env)
    {
      if closing {
        return ClosingError;
      }
      if authFailureCount >= MAX_AUTH_FAILURES {
        if env.checkedAt < authBackoffUntil {
          return BackoffError;
        }
        authFailureCount := 0;
      }
      var refresh := EnsureFreshToken(env);
      if refresh == Rejected {
        NoteLoginFailure(env.login1.now);
        return AuthError;
      }
      if refresh == Broken {
        return OtherError;
      }
      if key in aclBlocked {
        return MethodNotFound;
      }
      o := Request(key, retry, env);
    }

    /** The request of `_call` with its re-login after a denial. */
    method Request(key: Key, retry: bool, env: CallEnv) returns (o: Outcome)
      modifies this
      ensures (View(), o) == AfterRequest(old(View()), key, retry, env)
    {
      var (after, reply) := OnCall(server, token, key, env.answer, env.call1);
      server := after;
      match reply {
        case Answered(answer) =>
          if answer.Data? {
            authFailureCount := 0;
          }
          return OutcomeOf(answer);
        case CallBroken => return OtherError;
        case Denied =>
          if !retry {
            return AuthError;
          }
          o := RetryAfterDenial(key, env);
      }
    }

    method RetryAfterDenial(key: Key, env: CallEnv) returns (o: Outcome)
      modifies this
      ensures (View(), o) == AfterRetry(old(View()), key, env)
    {
      var login := Login(env.login2, env.destroy2);
      if login == Rejected {
        NoteLoginFailure(env.login2.now);
        return AuthError;
      }
      if login == Broken {
        return OtherError;
      }
      authFailureCount := 0;
      var (after, reply) := OnCall(server, token, key, env.answer, env.call2);
      server := after;
      match reply {
        case Answered(answer) => return OutcomeOf(answer);
        case CallBroken => return OtherError;
        case Denied =>
          aclBlocked := aclBlocked + {key};
          return MethodNotFound;
      }
    }

    method AsyncClose(destroy: Weather)
      modifies this
      ensures View() == AfterClose(old(View()), destroy)
    {
      closing := true;
      if token.Some? {
        DestroySession(token.value, token.value, destroy);
      }
      token := None;
      tokenExpiresAt := 0;
    }
  }
}
