/** Which routers of the fleet are gateways, and what is remembered for an outage. */
module RouterRoles {
  import opened Options
  import opened HopDepths
  import opened StringOrder

  /** A router's own WAN status. `found` is absent in the answers of the SSH fallback. */
  datatype Wan = Wan(found: Option<bool>, proto: string, iface: string, ipv4: string, connected: bool)

  datatype Member = Member(rid: Rid, hostIp: string, wan: Wan)

  datatype Role = Gateway | AccessPoint
  datatype Evidence = Nothing | Weak | Ssh | Strong

  const GATEWAY_PROTOS: set<string> :=
    {"dhcp", "static", "pppoe", "dhcpv6", "dslite", "map", "6in4", "6rd", "6to4",
     "pppoa", "qmi", "mbim", "ncm", "modemmanager", "3g", "wwan"}
  const DEFAULT_PROTOS: set<string> := {"dhcp", "dhcpv6"}

  function EvidenceOf(m: Member): Evidence {
    var wan := m.wan;
    if wan.found == Some(false) then Nothing
    else if wan.proto == "" then
      if wan.found.None? && wan.iface == "" && wan.connected then Ssh else Nothing
    else if wan.proto !in GATEWAY_PROTOS then Nothing
    else if wan.ipv4 != "" && wan.ipv4 == m.hostIp then Nothing
    else if wan.connected then Strong
    else if wan.found == Some(true) || wan.iface != "" then Weak
    else Nothing
  }

  ghost predicate DistinctIds(fleet: seq<Member>) {
    forall i, j | 0 <= i < j < |fleet| :: fleet[i].rid != fleet[j].rid
  }

  // -------------------------------------------------------- the role of one

  ghost predicate Any(fleet: seq<Member>, level: Evidence) {
    exists m | m in fleet :: EvidenceOf(m) == level
  }

  /** A remembered gateway that has not lost its WAN altogether. */
  predicate Keeps(remembered: set<Rid>, m: Member) {
    m.rid in remembered && m.wan.found != Some(false)
  }

  ghost predicate AnyKept(fleet: seq<Member>, remembered: set<Rid>) {
    exists m | m in fleet :: Keeps(remembered, m)
  }

  /** The order among candidates: by id alone, or a hand-made protocol before a default one. */
  predicate Ahead(byProto: bool, a: Member, b: Member) {
    if byProto && (a.wan.proto in DEFAULT_PROTOS) != (b.wan.proto in DEFAULT_PROTOS) then b.wan.proto in DEFAULT_PROTOS
    else StrLe(a.rid, b.rid)
  }

  ghost predicate Foremost(fleet: seq<Member>, level: Evidence, byProto: bool, m: Member) {
    && m in fleet && EvidenceOf(m) == level
    && forall n | n in fleet && EvidenceOf(n) == level :: Ahead(byProto, m, n)
  }

  /** The role rule: who is connected; else who is remembered; else one guess. */
  ghost predicate IsGateway(fleet: seq<Member>, remembered: set<Rid>, m: Member) {
    if Any(fleet, Strong) then EvidenceOf(m) == Strong
    else if AnyKept(fleet, remembered) then Keeps(remembered, m)
    else if Any(fleet, Ssh) then Foremost(fleet, Ssh, false, m)
    else Foremost(fleet, Weak, true, m)
  }

  lemma AheadIsTotal(byProto: bool, a: Member, b: Member)
    ensures Ahead(byProto, a, b) || Ahead(byProto, b, a)
    ensures Ahead(byProto, a, b) && Ahead(byProto, b, a) ==> a.rid == b.rid
  {
    StrLeIsLinear(a.rid, b.rid);
  }

  lemma AheadIsTransitive(byProto: bool, a: Member, b: Member, c: Member)
    requires Ahead(byProto, a, b) && Ahead(byProto, b, c)
    ensures Ahead(byProto, a, c)
  {
    if StrLe(a.rid, b.rid) && StrLe(b.rid, c.rid) { StrLeIsTransitive(a.rid, b.rid, c.rid); }
  }

  method FindForemost(fleet: seq<Member>, level: Evidence, byProto: bool) returns (best: Option<Member>)
    ensures best.None? <==> !Any(fleet, level)
    ensures best.Some? ==> Foremost(fleet, level, byProto, best.value)
  {
    best := None;
    for i := 0 to |fleet|
      invariant best.None? <==> !Any(fleet[..i], level)
      invariant best.Some? ==> Foremost(fleet[..i], level, byProto, best.value)
    {
      var m := fleet[i];
      assert fleet[..i + 1] == fleet[..i] + [m];
      if EvidenceOf(m) == level {
        assert m in fleet[..i + 1];
        AheadIsTotal(byProto, m, m);
        if best.None? {
          best := Some(m);
        } else {
          AheadIsTotal(byProto, m, best.value);
          if !Ahead(byProto, best.value, m) {
            forall n | n in fleet[..i + 1] && EvidenceOf(n) == level ensures Ahead(byProto, m, n) {
              if n in fleet[..i] { AheadIsTransitive(byProto, m, best.value, n); }
            }
            best := Some(m);
          }
        }
      }
    }
    assert fleet[..|fleet|] == fleet;
  }

  function Ids(fleet: seq<Member>): set<Rid> {
    set m | m in fleet :: m.rid
  }

  function StrongIds(fleet: seq<Member>): set<Rid> {
    set m | m in fleet && EvidenceOf(m) == Strong :: m.rid
  }

  function KeptIds(fleet: seq<Member>, remembered: set<Rid>): set<Rid> {
    set m | m in fleet && Keeps(remembered, m) :: m.rid
  }

  method ResolveRoles(fleet: seq<Member>, remembered: set<Rid>) returns (roles: map<Rid, Role>)
    requires DistinctIds(fleet)
    ensures roles.Keys == Ids(fleet)
    ensures forall m | m in fleet :: roles[m.rid] == Gateway <==> IsGateway(fleet, remembered, m)
    ensures forall m | m in fleet :: roles[m.rid] == Gateway <==> RoleTold(fleet, remembered, m)
  {
    var gateways := StrongIds(fleet);
    SetsAnswer(fleet, remembered);
    if gateways == {} {
      gateways := KeptIds(fleet, remembered);
      if gateways == {} {
        var best := FindForemost(fleet, Ssh, false);
        if best.None? {
          best := FindForemost(fleet, Weak, true);
        }
        if best.Some? {
          gateways := {best.value.rid};
        }
        OneChoice(fleet, remembered, best);
      }
    }
    roles := map r | r in Ids(fleet) :: if r in gateways then Gateway else AccessPoint;
    RolesAreTold(fleet, remembered);
  }

  lemma SetsAnswer(fleet: seq<Member>, remembered: set<Rid>)
    requires DistinctIds(fleet)
    ensures Any(fleet, Strong) <==> StrongIds(fleet) != {}
    ensures AnyKept(fleet, remembered) <==> KeptIds(fleet, remembered) != {}
    ensures forall m | m in fleet :: m.rid in StrongIds(fleet) <==> EvidenceOf(m) == Strong
    ensures forall m | m in fleet :: m.rid in KeptIds(fleet, remembered) <==> Keeps(remembered, m)
  {
    if m :| m in fleet && EvidenceOf(m) == Strong { assert m.rid in StrongIds(fleet); }
    if m :| m in fleet && Keeps(remembered, m) { assert m.rid in KeptIds(fleet, remembered); }
    forall m, n | m in fleet && n in fleet && m.rid == n.rid ensures m == n {
      SameIdSameMember(fleet, m, n);
    }
  }

  lemma SameIdSameMember(fleet: seq<Member>, m: Member, n: Member)
    requires DistinctIds(fleet) && m in fleet && n in fleet && m.rid == n.rid
    ensures m == n
  {
    var i :| 0 <= i < |fleet| && fleet[i] == m;
    var j :| 0 <= j < |fleet| && fleet[j] == n;
    assert i == j;
  }

  lemma OneChoice(fleet: seq<Member>, remembered: set<Rid>, best: Option<Member>)
    requires DistinctIds(fleet) && !Any(fleet, Strong) && !AnyKept(fleet, remembered)
    requires best.Some? ==> IsGateway(fleet, remembered, best.value)
    requires best.None? ==> !Any(fleet, Ssh) && !Any(fleet, Weak)
    ensures forall m | m in fleet :: IsGateway(fleet, remembered, m) <==> best.Some? && m.rid == best.value.rid
  {
    forall m | m in fleet ensures IsGateway(fleet, remembered, m) <==> best.Some? && m.rid == best.value.rid {
      if best.Some? {
        if m.rid == best.value.rid {
          SameIdSameMember(fleet, m, best.value);
        } else if IsGateway(fleet, remembered, m) {
          AtMostOneGuess(fleet, remembered, m, best.value);
        }
      }
    }
  }

  /** Where nobody is connected and nobody remembered, there is no second gateway. */
  lemma AtMostOneGuess(fleet: seq<Member>, remembered: set<Rid>, m: Member, n: Member)
    requires DistinctIds(fleet) && !Any(fleet, Strong) && !AnyKept(fleet, remembered)
    requires IsGateway(fleet, remembered, m) && IsGateway(fleet, remembered, n)
    ensures m == n
  {
    var ssh := Any(fleet, Ssh);
    AheadIsTotal(!ssh, m, n);
    SameIdSameMember(fleet, m, n);
  }

  /** Some candidate is foremost as soon as there is one. */
  lemma {:induction false} ForemostExists(fleet: seq<Member>, level: Evidence, byProto: bool) returns (m: Member)
    requires Any(fleet, level)
    ensures Foremost(fleet, level, byProto, m)
  {
    var n := |fleet| - 1;
    var last := fleet[n];
    assert fleet == fleet[..n] + [last];
    AheadIsTotal(byProto, last, last);
    if Any(fleet[..n], level) {
      m := ForemostExists(fleet[..n], level, byProto);
      AheadIsTotal(byProto, last, m);
      if EvidenceOf(last) == level && !Ahead(byProto, m, last) {
        var was := m;
        forall k | k in fleet && EvidenceOf(k) == level ensures Ahead(byProto, last, k) {
          if k in fleet[..n] { AheadIsTransitive(byProto, last, was, k); }
        }
        m := last;
      }
    } else {
      m := last;
    }
  }

  /** A fleet has a gateway exactly when some router shows any sign of a WAN, or is
      remembered and does not deny having one. */
  lemma SomeGatewayIff(fleet: seq<Member>, remembered: set<Rid>)
    ensures (exists m | m in fleet :: IsGateway(fleet, remembered, m)) <==>
            (exists m | m in fleet :: EvidenceOf(m) != Nothing || Keeps(remembered, m))
  {
    if k :| k in fleet && (EvidenceOf(k) != Nothing || Keeps(remembered, k)) {
      assert Any(fleet, EvidenceOf(k));
      if !Any(fleet, Strong) && !AnyKept(fleet, remembered) {
        if Any(fleet, Ssh) {
          var m := ForemostExists(fleet, Ssh, false);
          assert IsGateway(fleet, remembered, m);
        } else {
          var m := ForemostExists(fleet, Weak, true);
          assert IsGateway(fleet, remembered, m);
        }
      }
    }
  }

  /** The verdict depends on who is in the fleet, not on the order of the entries. */
  lemma OrderDoesNotMatter(a: seq<Member>, b: seq<Member>, remembered: set<Rid>, m: Member)
    requires forall x :: x in a <==> x in b
    ensures IsGateway(a, remembered, m) <==> IsGateway(b, remembered, m)
  {
    forall level ensures Any(a, level) <==> Any(b, level) {
    }
    assert AnyKept(a, remembered) <==> AnyKept(b, remembered);
    assert Foremost(a, Ssh, false, m) <==> Foremost(b, Ssh, false, m);
    assert Foremost(a, Weak, true, m) <==> Foremost(b, Weak, true, m);
  }

  // ------------------------------------------------- the rule in terms of the WAN status

  /** An ISP uplink by protocol, not denied, with another address than the router's own. */
  predicate Uplink(m: Member) {
    && m.wan.found != Some(false) && (m.wan.ipv4 == "" || m.wan.ipv4 != m.hostIp)
    && m.wan.proto in ["dhcp", "static", "pppoe", "pppoa", "dhcpv6", "dslite", "map", "6in4", "6rd", "6to4",
                       "qmi", "mbim", "ncm", "modemmanager", "3g", "wwan"]
  }

  predicate Online(m: Member) {
    Uplink(m) && m.wan.connected
  }

  predicate ConfiguredDown(m: Member) {
    Uplink(m) && !m.wan.connected && (m.wan.found == Some(true) || m.wan.iface != "")
  }

  /** What the SSH fallback reports of a router with a connection: nothing else. */
  predicate OnlineBySsh(m: Member) {
    m.wan.connected && m.wan.found.None? && m.wan.proto == "" && m.wan.iface == ""
  }

  predicate HandMade(m: Member) {
    m.wan.proto != "dhcp" && m.wan.proto != "dhcpv6"
  }

  ghost predicate SomeOnline(fleet: seq<Member>) {
    exists m | m in fleet :: Online(m)
  }

  ghost predicate SomeRemembered(fleet: seq<Member>, remembered: set<Rid>) {
    exists m | m in fleet :: m.rid in remembered && m.wan.found != Some(false)
  }

  ghost predicate SomeOnlineBySsh(fleet: seq<Member>) {
    exists m | m in fleet :: OnlineBySsh(m)
  }

  ghost predicate RoleTold(fleet: seq<Member>, remembered: set<Rid>, m: Member) {
    if SomeOnline(fleet) then Online(m)
    else if SomeRemembered(fleet, remembered) then m.rid in remembered && m.wan.found != Some(false)
    else if SomeOnlineBySsh(fleet) then
      OnlineBySsh(m) && forall n | n in fleet && OnlineBySsh(n) :: StrLe(m.rid, n.rid)
    else ConfiguredDown(m) && forall n | n in fleet && ConfiguredDown(n) ::
        if HandMade(m) == HandMade(n) then StrLe(m.rid, n.rid) else HandMade(m)
  }

  lemma EvidenceTold(m: Member)
    ensures EvidenceOf(m) == Strong <==> Online(m)
    ensures EvidenceOf(m) == Ssh <==> OnlineBySsh(m)
    ensures EvidenceOf(m) == Weak <==> ConfiguredDown(m)
    ensures m.wan.proto in DEFAULT_PROTOS <==> !HandMade(m)
  {
  }

  lemma OnlineAreStrong(fleet: seq<Member>)
    ensures SomeOnline(fleet) <==> StrongIds(fleet) != {}
    ensures forall r :: r in StrongIds(fleet) <==> exists m | m in fleet :: Online(m) && m.rid == r
  {
    forall m ensures EvidenceOf(m) == Strong <==> Online(m) {
      EvidenceTold(m);
    }
    if m :| m in fleet && Online(m) { assert m.rid in StrongIds(fleet); }
  }

  lemma RolesAreTold(fleet: seq<Member>, remembered: set<Rid>)
    ensures forall m | m in fleet :: IsGateway(fleet, remembered, m) <==> RoleTold(fleet, remembered, m)
  {
    forall m
      ensures EvidenceOf(m) == Strong <==> Online(m)
      ensures EvidenceOf(m) == Ssh <==> OnlineBySsh(m)
      ensures EvidenceOf(m) == Weak <==> ConfiguredDown(m)
      ensures m.wan.proto in DEFAULT_PROTOS <==> !HandMade(m)
    {
      EvidenceTold(m);
    }
  }

  /** Whoever denies its WAN, has none of the uplink protocols or carries its own address on it is
      an access point, unless it is remembered. */
  lemma NoUplinkNoRole(fleet: seq<Member>, remembered: set<Rid>, m: Member)
    requires m in fleet && m.rid !in remembered && m.wan.proto != ""
    requires m.wan.found == Some(false) || (m.wan.ipv4 != "" && m.wan.ipv4 == m.hostIp) || !Uplink(m)
    ensures !RoleTold(fleet, remembered, m)
  {
  }

  /** A guess never prefers a router whose line is down to one that is online by SSH. */
  lemma OnlineBySshGoesFirst(fleet: seq<Member>, remembered: set<Rid>, m: Member)
    requires RoleTold(fleet, remembered, m) && ConfiguredDown(m) && !(m.rid in remembered)
    ensures forall n | n in fleet :: !Online(n) && !OnlineBySsh(n)
  {
  }

  // ------------------------------------------------------------- the memory

  /** The memory of the process, kept from snapshot to snapshot. */
  class RoleMemory {
    var memory: map<Rid, string>

    constructor ()
      ensures memory == map[]
    {
      memory := map[];
    }

    /** Replaced by the connected gateways, left alone when there is none. */
    method RememberGateways(fleet: seq<Member>, now: string)
      modifies this
      ensures memory.Keys == Remembered(old(memory.Keys), fleet)
      ensures forall r :: r in memory <==> if SomeOnline(fleet) then exists m | m in fleet :: Online(m) && m.rid == r
                                           else r in old(memory)
      ensures StrongIds(fleet) == {} ==> memory == old(memory)
      ensures StrongIds(fleet) != {} ==> forall r | r in memory :: memory[r] == now
    {
      OnlineAreStrong(fleet);
      var strong := StrongIds(fleet);
      if strong != {} {
        memory := map r | r in strong :: now;
      }
    }

    /** One snapshot: roles from the memory as it was, then the memory is brought up to date. */
    method Snapshot(fleet: seq<Member>, now: string) returns (roles: map<Rid, Role>)
      requires DistinctIds(fleet)
      modifies this
      ensures roles.Keys == Ids(fleet)
      ensures forall m | m in fleet :: roles[m.rid] == Gateway <==> IsGateway(fleet, old(memory.Keys), m)
      ensures forall m | m in fleet :: roles[m.rid] == Gateway <==> RoleTold(fleet, old(memory.Keys), m)
      ensures memory.Keys == Remembered(old(memory.Keys), fleet)
      ensures forall r :: r in memory <==> if SomeOnline(fleet) then exists m | m in fleet :: Online(m) && m.rid == r
                                           else r in old(memory)
    {
      roles := ResolveRoles(fleet, memory.Keys);
      RememberGateways(fleet, now);
    }
  }

  function Remembered(before: set<Rid>, fleet: seq<Member>): set<Rid> {
    if StrongIds(fleet) == {} then before else StrongIds(fleet)
  }

  /** The memory after a run of snapshots from a fresh start. */
  function MemoryAfter(run: seq<seq<Member>>): set<Rid> {
    if run == [] then {} else Remembered(MemoryAfter(run[..|run| - 1]), run[|run| - 1])
  }

  /** In a run, `k` is the last snapshot with a connected gateway. */
  ghost predicate LastConnected(run: seq<seq<Member>>, k: int) {
    0 <= k < |run| && Any(run[k], Strong) && forall j | k < j < |run| :: !Any(run[j], Strong)
  }

  lemma StrongIff(fleet: seq<Member>)
    ensures Any(fleet, Strong) <==> StrongIds(fleet) != {}
  {
    if m :| m in fleet && EvidenceOf(m) == Strong { assert m.rid in StrongIds(fleet); }
  }

  /** However long ago it was, the last snapshot with a connected gateway is remembered, and
      nothing else; without one nothing is. */
  lemma {:induction false} RunRemembers(run: seq<seq<Member>>)
    ensures forall k | LastConnected(run, k) :: MemoryAfter(run) == StrongIds(run[k])
    ensures (forall k | 0 <= k < |run| :: !Any(run[k], Strong)) ==> MemoryAfter(run) == {}
  {
    if run != [] {
      var n := |run| - 1;
      RunRemembers(run[..n]);
      StrongIff(run[n]);
      forall k | LastConnected(run, k) ensures MemoryAfter(run) == StrongIds(run[k]) {
        if k < n {
          assert !Any(run[n], Strong);
          assert forall j | 0 <= j < n :: run[..n][j] == run[j];
          assert LastConnected(run[..n], k);
        }
      }
      if forall k | 0 <= k < |run| :: !Any(run[k], Strong) {
        assert forall k | 0 <= k < n :: run[..n][k] == run[k];
      }
    }
  }

  /** Throughout an outage of any length the gateways are those of the last connected snapshot
      that are still configured, as long as there is one: nobody else is promoted, and none of
      them is demoted. */
  lemma RolesSurviveOutage(run: seq<seq<Member>>, fleet: seq<Member>, k: int, m: Member)
    requires LastConnected(run, k) && !Any(fleet, Strong) && m in fleet
    requires exists x | x in fleet :: x.rid in StrongIds(run[k]) && x.wan.found != Some(false)
    ensures IsGateway(fleet, MemoryAfter(run), m) <==> m.rid in StrongIds(run[k]) && m.wan.found != Some(false)
  {
    RunRemembers(run);
    var x :| x in fleet && x.rid in StrongIds(run[k]) && x.wan.found != Some(false);
    assert Keeps(MemoryAfter(run), x);
  }

  /** A single gateway stays the single gateway while its line is down. */
  lemma TheGatewayStays(run: seq<seq<Member>>, fleet: seq<Member>, k: int, g: Member, m: Member)
    requires LastConnected(run, k) && StrongIds(run[k]) == {g.rid}
    requires DistinctIds(fleet) && !Any(fleet, Strong) && g in fleet && g.wan.found != Some(false) && m in fleet
    ensures IsGateway(fleet, MemoryAfter(run), m) <==> m == g
  {
    RolesSurviveOutage(run, fleet, k, m);
    if m.rid == g.rid { SameIdSameMember(fleet, m, g); }
  }

  /** A guessed gateway is not remembered: after a run in which nobody was ever connected, the
      next snapshot without a connected router guesses afresh, and at most one. */
  lemma GuessesAreNotRemembered(run: seq<seq<Member>>, fleet: seq<Member>, m: Member, n: Member)
    requires forall k | 0 <= k < |run| :: !Any(run[k], Strong)
    requires DistinctIds(fleet) && !Any(fleet, Strong)
    requires IsGateway(fleet, MemoryAfter(run), m) && IsGateway(fleet, MemoryAfter(run), n)
    ensures m == n && MemoryAfter(run + [fleet]) == {}
  {
    RunRemembers(run);
    StrongIff(fleet);
    AtMostOneGuess(fleet, {}, m, n);
    assert (run + [fleet])[..|run|] == run;
  }

  /** Two gateways, one of which goes down first: it loses its role at once, and the memory
      with it, so in a later outage of both it is an access point although still configured. */
  lemma StaggeredOutageDemotes(run: seq<seq<Member>>, both: seq<Member>, one: seq<Member>, none: seq<Member>, a: Member,
                               b: Member)
    requires StrongIds(both) == {a.rid, b.rid} && StrongIds(one) == {b.rid} && StrongIds(none) == {} && a.rid != b.rid
    requires a in none && b in none && b.wan.found != Some(false)
    ensures !IsGateway(none, MemoryAfter(run + [both, one]), a) && IsGateway(none, MemoryAfter(run + [both, one]), b)
  {
    var r := run + [both, one];
    assert r[|r| - 1] == one;
    StrongIff(none);
    assert Keeps(MemoryAfter(r), b);
  }
}
