/** The other end of the API client: an rpcd with live sessions and an ACL, behind a
    network that may lose requests and replies. */
module Router {
  import opened Options

  type Token = nat

  /** What the ACL decides about: object, method and, for some objects, a target. */
  datatype Key = Key(object_: string, method_: string, target: Option<string>)

  datatype Server = Server(
    live: set<Token>,            // open sessions
    issued: nat,                 // tokens 0 .. issued - 1 were handed out
    acl: set<Key>,               // what every session of this user may call
    undestroyed: set<Token>,     // sessions whose destroy did not take effect
    unknown: set<Token>,         // sessions whose login reply never arrived
    loginTimes: seq<int>)        // every login request, by time

  datatype Fate = Delivered | RequestLost | ReplyLost

  /** Around one request: its time, the sessions that ended before it, how the network
      treats it, and whether the router is willing to log in or destroy at all. */
  datatype Weather = Weather(now: int, ended: set<Token>, fate: Fate, accepts: bool)

  /** What a permitted method answers. */
  datatype Answer = Data(payload: int) | NoSuchMethod | Failure

  datatype LoginReply = Session(token: Token) | LoginRejected | LoginBroken
  datatype CallReply = Answered(answer: Answer) | Denied | CallBroken

  function Ended(s: Server, w: Weather): Server {
    s.(live := s.live - w.ended)
  }

  function OnLogin(s: Server, w: Weather): (Server, LoginReply) {
    var t := Ended(s, w).(loginTimes := s.loginTimes + [w.now]);
    if w.fate.RequestLost? then (t, LoginBroken)
    else if !w.accepts then (t, if w.fate.ReplyLost? then LoginBroken else LoginRejected)
    else
      var u := t.(live := t.live + {t.issued}, issued := t.issued + 1);
      if w.fate.ReplyLost? then (u.(unknown := u.unknown + {t.issued}), LoginBroken) else (u, Session(t.issued))
  }

  /** Destroying `victim` needs a live session and a willing router. */
  function OnDestroy(s: Server, auth: Token, victim: Token, w: Weather): Server {
    var t := Ended(s, w);
    if !w.fate.RequestLost? && w.accepts && auth in t.live then t.(live := t.live - {victim})
    else t.(undestroyed := t.undestroyed + {victim})
  }

  function OnCall(s: Server, auth: Option<Token>, key: Key, answer: Answer, w: Weather): (Server, CallReply) {
    var t := Ended(s, w);
    if !w.fate.Delivered? then (t, CallBroken)
    else if auth.Some? && auth.value in t.live && key in t.acl then (t, Answered(answer))
    else (t, Denied)
  }

  /** A session survives the request to destroy it exactly if it was alive and the request did not
      arrive, was refused, or came from a session that was not alive. */
  lemma SurvivesDestroyIff(s: Server, auth: Token, victim: Token, w: Weather)
    ensures victim in OnDestroy(s, auth, victim, w).live <==>
            victim in s.live && victim !in w.ended
            && (w.fate.RequestLost? || !w.accepts || auth !in s.live || auth in w.ended)
  {
  }
}
