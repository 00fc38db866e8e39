/** Inferring unmanaged switches: access points behind one gateway port are rerouted through a node. */
module SwitchNodes {
  import opened Options
  import opened HopDepths
  import opened Fleet

  datatype Node = RouterNode(rid: Rid) | SwitchNode(gateway: Rid, port: string)

  /** An edge of the mesh graph: one of the fleet, or one of an inferred switch. */
  datatype Wire = Direct(edge: Edge) | ToSwitch(gateway: Rid, port: string) | Trunk(gateway: Rid, port: string, ap: Rid)

  function Source(w: Wire): Node {
    match w
    case Direct(e) => RouterNode(e.from_)
    case ToSwitch(g, _) => RouterNode(g)
    case Trunk(g, port, _) => SwitchNode(g, port)
  }

  function Target(w: Wire): Node {
    match w
    case Direct(e) => RouterNode(e.to)
    case ToSwitch(g, port) => SwitchNode(g, port)
    case Trunk(_, _, ap) => RouterNode(ap)
  }

  // ----------------------------------------------------- who is a member

  /** A physical Ethernet uplink. */
  predicate IsWiredUplink(e: Edge) {
    e.relationship == LanUplink || (e.relationship == RouterUplink && e.link != WifiLink)
  }

  predicate ByLldp(e: Edge) {
    e.method_ == Lldp && !e.overridden
  }

  /** The access point hangs behind another router by LLDP. */
  predicate Chained(edges: seq<Edge>, gateways: set<Rid>, ap: Rid) {
    exists e | e in edges :: e.relationship == RouterUplink && e.from_ !in gateways && e.to == ap
  }

  predicate IsMember(edges: seq<Edge>, gateways: set<Rid>, g: Rid, e: Edge) {
    && IsWiredUplink(e) && e.from_ == g
    && e.gatewayPort.Some? && e.gatewayPort.value != ""
    && !Chained(edges, gateways, e.to)
  }

  /** The member edges among `edges` that lie on one gateway port, in order. */
  function OnPort(edges: seq<Edge>, member: Edge -> bool, port: string): seq<Edge> {
    if edges == [] then []
    else
      var e := edges[|edges| - 1];
      OnPort(edges[..|edges| - 1], member, port) + if member(e) && e.gatewayPort == Some(port) then [e] else []
  }

  predicate Mixed(members: seq<Edge>) {
    (exists e | e in members :: ByLldp(e)) && (exists e | e in members :: !ByLldp(e))
  }

  /** At least two members, all found by LLDP or all by heuristics. */
  predicate FormsSwitch(members: seq<Edge>) {
    |members| >= 2 && !Mixed(members)
  }

  ghost predicate Switched(edges: seq<Edge>, member: Edge -> bool, port: string) {
    FormsSwitch(OnPort(edges, member, port))
  }

  /** The direct edges that give way to a switch. */
  ghost predicate Replaced(edges: seq<Edge>, member: Edge -> bool, e: Edge) {
    e in edges && member(e) && e.gatewayPort.Some? && Switched(edges, member, e.gatewayPort.value)
  }

  /** `l` is the id of an edge on this port that gives way. */
  ghost predicate ReplacedAt(edges: seq<Edge>, member: Edge -> bool, port: string, l: Link) {
    exists e :: Replaced(edges, member, e) && e.gatewayPort.value == port && (e.from_, e.to) == l
  }

  lemma {:induction false} OnPortMembers(edges: seq<Edge>, member: Edge -> bool, port: string)
    ensures forall e :: e in OnPort(edges, member, port) <==> e in edges && member(e) && e.gatewayPort == Some(port)
  {
    if edges != [] {
      var n := |edges| - 1;
      OnPortMembers(edges[..n], member, port);
      assert edges == edges[..n] + [edges[n]];
    }
  }

  // ------------------------------------------------------------ the method

  /** The wires of an inferred switch. */
  function SwitchWires(g: Rid, port: string, members: seq<Edge>): seq<Wire> {
    [ToSwitch(g, port)] + seq(|members|, i requires 0 <= i < |members| => Trunk(g, port, members[i].to))
  }

  ghost predicate IsSwitchWire(edges: seq<Edge>, member: Edge -> bool, g: Rid, w: Wire) {
    match w
    case Direct(_) => false
    case ToSwitch(h, port) => h == g && Switched(edges, member, port)
    case Trunk(h, port, ap) =>
      h == g && Switched(edges, member, port) && exists e | e in OnPort(edges, member, port) :: e.to == ap
  }

  ghost predicate DistinctWires(wires: seq<Wire>) {
    forall i, j | 0 <= i < j < |wires| :: wires[i] != wires[j]
  }

  /** Members by port, ports in the order in which they come up. */
  method GroupByPort(edges: seq<Edge>, member: Edge -> bool)
    returns (groups: map<string, seq<Edge>>, order: seq<string>)
    ensures forall p :: p in groups <==> OnPort(edges, member, p) != []
    ensures forall p | p in groups :: groups[p] == OnPort(edges, member, p)
    ensures forall p :: p in order <==> p in groups
    ensures forall i, j | 0 <= i < j < |order| :: order[i] != order[j]
  {
    groups, order := map[], [];
    for i := 0 to |edges|
      invariant Grouped(groups, edges[..i], member)
      invariant forall p :: p in order <==> p in groups
      invariant forall k, l | 0 <= k < l < |order| :: order[k] != order[l]
    {
      var e := edges[i];
      OneMoreEdge(groups, edges, i, member);
      if member(e) && e.gatewayPort.Some? {
        var port := e.gatewayPort.value;
        if port !in groups {
          order := order + [port];
        }
        groups := AddTo(groups, port, e);
      }
    }
    assert edges[..|edges|] == edges;
  }

  function AddTo(groups: map<string, seq<Edge>>, port: string, e: Edge): map<string, seq<Edge>> {
    groups[port := (if port in groups then groups[port] else []) + [e]]
  }

  ghost predicate Grouped(groups: map<string, seq<Edge>>, edges: seq<Edge>, member: Edge -> bool) {
    && (forall p :: p in groups <==> OnPort(edges, member, p) != [])
    && (forall p | p in groups :: groups[p] == OnPort(edges, member, p))
  }

  lemma OneMoreEdge(groups: map<string, seq<Edge>>, edges: seq<Edge>, i: nat, member: Edge -> bool)
    requires i < |edges| && Grouped(groups, edges[..i], member)
    ensures var e := edges[i];
            Grouped(if member(e) && e.gatewayPort.Some?
                    then AddTo(groups, e.gatewayPort.value, e)
                    else groups, edges[..i + 1], member)
  {
    var e := edges[i];
    assert edges[..i + 1][..i] == edges[..i];
    forall p ensures OnPort(edges[..i + 1], member, p) ==
                     OnPort(edges[..i], member, p) + if member(e) && e.gatewayPort == Some(p) then [e] else []
    {
    }
  }

  /** The ids of the direct edges on a port that lead to one of the given access points. */
  method ReplacedOn(edges: seq<Edge>, g: Rid, port: string, aps: set<Rid>) returns (ids: set<Link>)
    ensures forall l :: l in ids <==> exists e | e in edges ::
              (e.from_, e.to) == l && IsWiredUplink(e) && e.from_ == g && e.to in aps && e.gatewayPort == Some(port)
  {
    ids := {};
    for i := 0 to |edges|
      invariant forall l :: l in ids <==> exists k | 0 <= k < i ::
                  (edges[k].from_, edges[k].to) == l && IsWiredUplink(edges[k]) && edges[k].from_ == g
                  && edges[k].to in aps && edges[k].gatewayPort == Some(port)
    {
      var e := edges[i];
      if IsWiredUplink(e) && e.from_ == g && e.to in aps && e.gatewayPort == Some(port) {
        ids := ids + {(e.from_, e.to)};
      }
    }
  }

  /** What the detection promises: the switches, their wires and what they replace. */
  ghost predicate SwitchesOf(edges: seq<Edge>, member: Edge -> bool, g: Rid,
                             ports: seq<string>, wires: seq<Wire>, replaced: set<Link>) {
    && (forall p :: p in ports <==> Switched(edges, member, p))
    && (forall i, j | 0 <= i < j < |ports| :: ports[i] != ports[j])
    && (forall w :: w in wires <==> IsSwitchWire(edges, member, g, w))
    && (forall l :: l in replaced <==> exists e :: Replaced(edges, member, e) && (e.from_, e.to) == l)
  }

  function MemberTest(edges: seq<Edge>, gateways: set<Rid>, g: Rid): Edge -> bool {
    (e: Edge) => IsMember(edges, gateways, g, e)
  }

  method DetectSwitchNodes(edges: seq<Edge>, fleet: seq<Router>, gateways: set<Rid>)
    returns (ports: seq<string>, wires: seq<Wire>, replaced: set<Link>)
    requires UniqueEdges(edges)
    ensures var gs := OrderedGateways(fleet, gateways);
            if gs == [] || gs[0].trunk == map[] then ports == [] && wires == [] && replaced == {}
            else && SwitchesOf(edges, MemberTest(edges, gateways, gs[0].rid), gs[0].rid, ports, wires, replaced)
                 && SwitchesTold(edges, gateways, gs[0].rid, ports, wires, replaced)
    ensures DistinctWires(wires)
  {
    ports, wires, replaced := [], [], {};
    var gs := OrderedGateways(fleet, gateways);
    if gs == [] || gs[0].trunk == map[] {
      return;
    }
    var g, member := gs[0].rid, MemberTest(edges, gateways, gs[0].rid);
    var groups, order := GroupByPort(edges, member);
    ghost var done := {};
    for i := 0 to |order|
      invariant done == set k | 0 <= k < i :: order[k]
      invariant Emitted(edges, member, g, ports, wires, replaced, done)
    {
      var port := order[i];
      var members := groups[port];
      assert members == OnPort(edges, member, port) && port !in done;
      if Mixed(members) || |members| < 2 {
        assert !Switched(edges, member, port);
        SkipPort(edges, member, g, ports, wires, replaced, done, port);
      } else {
        var aps := set e | e in members :: e.to;
        var ids := ReplacedOn(edges, g, port, aps);
        IdsAreMembers(edges, gateways, g, port, aps, ids);
        EmitPort(edges, member, g, ports, wires, replaced, done, port, ids);
        ports := ports + [port];
        wires := wires + SwitchWires(g, port, members);
        replaced := replaced + ids;
      }
      done := done + {port};
    }
    AllEmitted(edges, member, g, ports, wires, replaced, done);
    AllSwitchesTold(edges, gateways, g, ports, wires, replaced);
  }

  ghost predicate Emitted(edges: seq<Edge>, member: Edge -> bool, g: Rid,
                          ports: seq<string>, wires: seq<Wire>, replaced: set<Link>, done: set<string>) {
    && (forall p :: p in ports <==> p in done && Switched(edges, member, p))
    && (forall i, j | 0 <= i < j < |ports| :: ports[i] != ports[j])
    && (forall w :: w in wires <==> IsSwitchWire(edges, member, g, w) && w.port in done)
    && DistinctWires(wires)
    && (forall l :: l in replaced <==> exists e ::
          Replaced(edges, member, e) && e.gatewayPort.value in done && (e.from_, e.to) == l)
  }

  lemma SkipPort(edges: seq<Edge>, member: Edge -> bool, g: Rid,
                 ports: seq<string>, wires: seq<Wire>, replaced: set<Link>, done: set<string>, port: string)
    requires Emitted(edges, member, g, ports, wires, replaced, done) && !Switched(edges, member, port)
    ensures Emitted(edges, member, g, ports, wires, replaced, done + {port})
  {
    forall l ensures l in replaced <==> exists e ::
      Replaced(edges, member, e) && e.gatewayPort.value in done + {port} && (e.from_, e.to) == l
    {
      if l in replaced {
        var e :| Replaced(edges, member, e) && e.gatewayPort.value in done && (e.from_, e.to) == l;
        assert e.gatewayPort.value in done + {port};
      }
    }
  }

  lemma IdsAreMembers(edges: seq<Edge>, gateways: set<Rid>, g: Rid, port: string, aps: set<Rid>, ids: set<Link>)
    requires aps == set e | e in OnPort(edges, MemberTest(edges, gateways, g), port) :: e.to
    requires Switched(edges, MemberTest(edges, gateways, g), port)
    requires forall l :: l in ids <==> exists e | e in edges ::
               (e.from_, e.to) == l && IsWiredUplink(e) && e.from_ == g && e.to in aps && e.gatewayPort == Some(port)
    ensures forall l :: l in ids <==> ReplacedAt(edges, MemberTest(edges, gateways, g), port, l)
  {
    var member := MemberTest(edges, gateways, g);
    OnPortMembers(edges, member, port);
    forall l ensures l in ids <==> ReplacedAt(edges, member, port, l) {
      if l in ids {
        var e :| e in edges && (e.from_, e.to) == l && IsWiredUplink(e) && e.from_ == g && e.to in aps
          && e.gatewayPort == Some(port);
        var f :| f in OnPort(edges, member, port) && f.to == e.to;
        assert member(f) && member(e);
      }
      if exists e :: Replaced(edges, member, e) && e.gatewayPort.value == port && (e.from_, e.to) == l {
        var e :| Replaced(edges, member, e) && e.gatewayPort.value == port && (e.from_, e.to) == l;
        assert e in OnPort(edges, member, port) && e.to in aps;
      }
    }
  }

  lemma EmitPort(edges: seq<Edge>, member: Edge -> bool, g: Rid,
                 ports: seq<string>, wires: seq<Wire>, replaced: set<Link>, done: set<string>, port: string,
                   ids: set<Link>)
    requires Emitted(edges, member, g, ports, wires, replaced, done)
    requires Switched(edges, member, port) && port !in done && UniqueEdges(edges)
    requires forall e | member(e) :: e.from_ == g
    requires forall l :: l in ids <==> ReplacedAt(edges, member, port, l)
    ensures Emitted(edges, member, g, ports + [port], wires + SwitchWires(g, port, OnPort(edges, member, port)),
            replaced + ids, done + {port})
  {
    var more := SwitchWires(g, port, OnPort(edges, member, port));
    PortWires(edges, member, g, port);
    AppendWires(wires, more);
    forall l ensures l in replaced + ids <==> exists e ::
      Replaced(edges, member, e) && e.gatewayPort.value in done + {port} && (e.from_, e.to) == l
    {
      if l in replaced {
        var e :| Replaced(edges, member, e) && e.gatewayPort.value in done && (e.from_, e.to) == l;
        assert e.gatewayPort.value in done + {port};
      }
    }
  }

  lemma PortWires(edges: seq<Edge>, member: Edge -> bool, g: Rid, port: string)
    requires Switched(edges, member, port) && UniqueEdges(edges) && forall e | member(e) :: e.from_ == g
    ensures var more := SwitchWires(g, port, OnPort(edges, member, port));
            DistinctWires(more) && forall w :: w in more <==> IsSwitchWire(edges, member, g, w) && w.port == port
  {
    var members := OnPort(edges, member, port);
    MembersHaveDistinctTargets(edges, member, port, g);
    DistinctTrunks(g, port, members);
    forall w ensures w in SwitchWires(g, port, members) <==> IsSwitchWire(edges, member, g, w) && w.port == port {
      WireOfPort(g, port, members, w);
    }
  }

  lemma DistinctTrunks(g: Rid, port: string, members: seq<Edge>)
    requires forall i, j | 0 <= i < j < |members| :: members[i].to != members[j].to
    ensures DistinctWires(SwitchWires(g, port, members))
  {
    var more := SwitchWires(g, port, members);
    forall i, j | 0 <= i < j < |more| ensures more[i] != more[j] {
      if i > 0 { assert members[i - 1].to != members[j - 1].to; }
    }
  }

  lemma WireOfPort(g: Rid, port: string, members: seq<Edge>, w: Wire)
    ensures w in SwitchWires(g, port, members) <==>
            match w
            case Direct(_) => false
            case ToSwitch(h, p) => h == g && p == port
            case Trunk(h, p, ap) => h == g && p == port && exists e | e in members :: e.to == ap
  {
    var more := SwitchWires(g, port, members);
    if w in more {
      var i :| 0 <= i < |more| && more[i] == w;
      if i > 0 { assert members[i - 1] in members; }
    }
    if w.ToSwitch? {
      assert w == ToSwitch(g, port) ==> more[0] == w;
    }
    if w.Trunk? && w.gateway == g && w.port == port && exists e | e in members :: e.to == w.ap {
      var i :| 0 <= i < |members| && members[i].to == w.ap;
      assert more[i + 1] == w;
    }
  }

  lemma AppendWires(a: seq<Wire>, b: seq<Wire>)
    requires DistinctWires(a) && DistinctWires(b) && forall w | w in a :: w !in b
    ensures DistinctWires(a + b)
  {
    forall i, j | 0 <= i < j < |a + b| ensures (a + b)[i] != (a + b)[j] {
      if i < |a| <= j { assert (a + b)[i] in a && (a + b)[j] in b; }
    }
  }

  lemma {:induction false} MembersHaveDistinctTargets(edges: seq<Edge>, member: Edge -> bool, port: string, g: Rid)
    requires UniqueEdges(edges) && forall e | member(e) :: e.from_ == g
    ensures forall i, j | 0 <= i < j < |OnPort(edges, member, port)| ::
              OnPort(edges, member, port)[i].to != OnPort(edges, member, port)[j].to
  {
    if edges != [] {
      var n := |edges| - 1;
      var e, rest := edges[n], OnPort(edges[..n], member, port);
      MembersHaveDistinctTargets(edges[..n], member, port, g);
      OnPortMembers(edges[..n], member, port);
      if member(e) && e.gatewayPort == Some(port) {
        forall i | 0 <= i < |rest| ensures rest[i].to != e.to {
          assert rest[i] in rest;
          var k :| 0 <= k < n && edges[..n][k] == rest[i];
          assert (edges[k].from_, edges[k].to) != (edges[n].from_, edges[n].to);
        }
      }
    }
  }

  lemma AllEmitted(edges: seq<Edge>, member: Edge -> bool, g: Rid,
                   ports: seq<string>, wires: seq<Wire>, replaced: set<Link>, done: set<string>)
    requires Emitted(edges, member, g, ports, wires, replaced, done)
    requires forall p | OnPort(edges, member, p) != [] :: p in done
    ensures SwitchesOf(edges, member, g, ports, wires, replaced)
  {
    forall p | Switched(edges, member, p) ensures p in done {
      assert OnPort(edges, member, p) != [];
    }
    forall l ensures l in replaced <==> exists e :: Replaced(edges, member, e) && (e.from_, e.to) == l {
      if e :| Replaced(edges, member, e) && (e.from_, e.to) == l {
        assert e.gatewayPort.value in done;
      }
    }
  }

  // -------------------------------------------------- which ports, in terms of the edges

  /** A cable from the gateway's port to a router that hangs behind no other router. */
  ghost predicate OwnCable(edges: seq<Edge>, gateways: set<Rid>, g: Rid, port: string, e: Edge) {
    && e in edges && e.from_ == g && e.gatewayPort == Some(port) && port != ""
    && (e.relationship == LanUplink || (e.relationship == RouterUplink && e.link in {LanLink, UnknownLink}))
    && forall f | f in edges && f.to == e.to && f.relationship == RouterUplink :: f.from_ in gateways
  }

  /** Two cables on one port, and LLDP has seen either all of its cables or none. */
  ghost predicate Shared(edges: seq<Edge>, gateways: set<Rid>, g: Rid, port: string) {
    && (exists e, f :: OwnCable(edges, gateways, g, port, e) && OwnCable(edges, gateways, g, port, f) && e != f)
    && forall e, f | OwnCable(edges, gateways, g, port, e) && OwnCable(edges, gateways, g, port, f) ::
         (e.method_ == Lldp && !e.overridden) == (f.method_ == Lldp && !f.overridden)
  }

  /** Every shared port has its switch, which takes over all cables of the port; nothing else is
      touched. */
  ghost predicate SwitchesTold(edges: seq<Edge>, gateways: set<Rid>, g: Rid, ports: seq<string>, wires: seq<Wire>,
                               replaced: set<Link>) {
    && (forall p :: p in ports <==> Shared(edges, gateways, g, p))
    && (forall a, b :: (a, b) in replaced <==> a == g && exists p :: CableOnShared(edges, gateways, g, p, b))
    && (forall w :: w in wires <==> OnSwitch(edges, gateways, g, w))
  }

  /** The cable from the gateway to the switch on a shared port, or one of its cables from there. */
  ghost predicate OnSwitch(edges: seq<Edge>, gateways: set<Rid>, g: Rid, w: Wire) {
    match w
    case Direct(_) => false
    case ToSwitch(h, port) => h == g && Shared(edges, gateways, g, port)
    case Trunk(h, port, ap) => h == g && CableOnShared(edges, gateways, g, port, ap)
  }

  ghost predicate CableOnShared(edges: seq<Edge>, gateways: set<Rid>, g: Rid, port: string, ap: Rid) {
    Shared(edges, gateways, g, port) && exists e :: OwnCable(edges, gateways, g, port, e) && e.to == ap
  }

  lemma CableIsMember(edges: seq<Edge>, gateways: set<Rid>, g: Rid, port: string, e: Edge)
    ensures OwnCable(edges, gateways, g, port, e) <==> e in OnPort(edges, MemberTest(edges, gateways, g), port)
  {
    OnPortMembers(edges, MemberTest(edges, gateways, g), port);
  }

  lemma SharedIsSwitched(edges: seq<Edge>, gateways: set<Rid>, g: Rid, port: string)
    requires UniqueEdges(edges)
    ensures Shared(edges, gateways, g, port) <==> Switched(edges, MemberTest(edges, gateways, g), port)
  {
    var member := MemberTest(edges, gateways, g);
    var members := OnPort(edges, member, port);
    forall e ensures OwnCable(edges, gateways, g, port, e) <==> e in members {
      CableIsMember(edges, gateways, g, port, e);
    }
    MembersHaveDistinctTargets(edges, member, port, g);
    if |members| >= 2 {
      assert members[0].to != members[1].to;
      assert OwnCable(edges, gateways, g, port, members[0]) && OwnCable(edges, gateways, g, port, members[1]);
    }
    TwoAreMany(members);
  }

  lemma TwoAreMany(members: seq<Edge>)
    ensures (exists e, f :: e in members && f in members && e != f) ==> |members| >= 2
  {
  }

  lemma AllSwitchesTold(edges: seq<Edge>, gateways: set<Rid>, g: Rid, ports: seq<string>, wires: seq<Wire>,
                        replaced: set<Link>)
    requires UniqueEdges(edges) && SwitchesOf(edges, MemberTest(edges, gateways, g), g, ports, wires, replaced)
    ensures SwitchesTold(edges, gateways, g, ports, wires, replaced)
  {
    var member := MemberTest(edges, gateways, g);
    forall p ensures Switched(edges, member, p) <==> Shared(edges, gateways, g, p) {
      SharedIsSwitched(edges, gateways, g, p);
    }
    forall a, b ensures (a, b) in replaced <==> a == g && exists p :: CableOnShared(edges, gateways, g, p, b) {
      ReplacedTold(edges, gateways, g, a, b);
    }
    forall w ensures IsSwitchWire(edges, member, g, w) <==> OnSwitch(edges, gateways, g, w) {
      WireTold(edges, gateways, g, w);
    }
  }

  lemma ReplacedTold(edges: seq<Edge>, gateways: set<Rid>, g: Rid, a: Rid, b: Rid)
    requires UniqueEdges(edges)
    ensures (exists e :: Replaced(edges, MemberTest(edges, gateways, g), e) && (e.from_, e.to) == (a, b))
            <==> a == g && exists p :: CableOnShared(edges, gateways, g, p, b)
  {
    var member := MemberTest(edges, gateways, g);
    if e :| Replaced(edges, member, e) && (e.from_, e.to) == (a, b) {
      SharedIsSwitched(edges, gateways, g, e.gatewayPort.value);
      OnPortMembers(edges, member, e.gatewayPort.value);
      CableIsMember(edges, gateways, g, e.gatewayPort.value, e);
      assert CableOnShared(edges, gateways, g, e.gatewayPort.value, b);
    }
    if p :| a == g && CableOnShared(edges, gateways, g, p, b) {
      var e :| OwnCable(edges, gateways, g, p, e) && e.to == b;
      SharedIsSwitched(edges, gateways, g, p);
      OnPortMembers(edges, member, p);
      CableIsMember(edges, gateways, g, p, e);
      assert Replaced(edges, member, e);
    }
  }

  lemma WireTold(edges: seq<Edge>, gateways: set<Rid>, g: Rid, w: Wire)
    requires UniqueEdges(edges)
    ensures IsSwitchWire(edges, MemberTest(edges, gateways, g), g, w) <==> OnSwitch(edges, gateways, g, w)
  {
    var member := MemberTest(edges, gateways, g);
    if !w.Direct? {
      SharedIsSwitched(edges, gateways, g, w.port);
      if w.Trunk? {
        if e :| e in OnPort(edges, member, w.port) && e.to == w.ap {
          CableIsMember(edges, gateways, g, w.port, e);
        }
        if e :| OwnCable(edges, gateways, g, w.port, e) && e.to == w.ap {
          CableIsMember(edges, gateways, g, w.port, e);
        }
      }
    }
  }

  /** A port on which LLDP has seen one of two cables is left alone: no switch, and both direct
      edges stay. */
  lemma MixedPortIsLeftAlone(edges: seq<Edge>, gateways: set<Rid>, g: Rid, ports: seq<string>, wires: seq<Wire>,
                             replaced: set<Link>, port: string, e: Edge, f: Edge)
    requires UniqueEdges(edges) && SwitchesTold(edges, gateways, g, ports, wires, replaced)
    requires OwnCable(edges, gateways, g, port, e) && e.method_ == Lldp && !e.overridden
    requires OwnCable(edges, gateways, g, port, f) && !(f.method_ == Lldp && !f.overridden)
    ensures port !in ports && (e.from_, e.to) !in replaced && (f.from_, f.to) !in replaced
    ensures Direct(e) in Kept(edges, replaced) && Direct(f) in Kept(edges, replaced)
  {
    StaysDirect(edges, gateways, g, ports, wires, replaced, port, e);
    StaysDirect(edges, gateways, g, ports, wires, replaced, port, f);
  }

  /** The only cable on its port stays. */
  lemma SingleCableStays(edges: seq<Edge>, gateways: set<Rid>, g: Rid, ports: seq<string>, wires: seq<Wire>,
                         replaced: set<Link>, port: string, e: Edge)
    requires UniqueEdges(edges) && SwitchesTold(edges, gateways, g, ports, wires, replaced)
    requires OwnCable(edges, gateways, g, port, e)
    requires forall f | OwnCable(edges, gateways, g, port, f) :: f == e
    ensures port !in ports && Direct(e) in Kept(edges, replaced)
  {
    StaysDirect(edges, gateways, g, ports, wires, replaced, port, e);
  }

  lemma StaysDirect(edges: seq<Edge>, gateways: set<Rid>, g: Rid, ports: seq<string>, wires: seq<Wire>,
                    replaced: set<Link>, port: string, e: Edge)
    requires UniqueEdges(edges) && SwitchesTold(edges, gateways, g, ports, wires, replaced)
    requires OwnCable(edges, gateways, g, port, e) && !Shared(edges, gateways, g, port)
    ensures port !in ports && (e.from_, e.to) !in replaced && Direct(e) in Kept(edges, replaced)
  {
    KeptMembers(edges, replaced);
    if (e.from_, e.to) in replaced {
      var p :| CableOnShared(edges, gateways, g, p, e.to);
      var f :| OwnCable(edges, gateways, g, p, f) && f.to == e.to;
      SamePairSameEdge(edges, e, f);
    }
  }

  // ------------------------------------------------------ the rewritten graph

  function Before(edges: seq<Edge>): seq<Wire> {
    seq(|edges|, i requires 0 <= i < |edges| => Direct(edges[i]))
  }

  /** The direct edges whose id is not replaced, and the wires of the switches. */
  function Kept(edges: seq<Edge>, replaced: set<Link>): seq<Wire> {
    if edges == [] then []
    else
      var e := edges[|edges| - 1];
      Kept(edges[..|edges| - 1], replaced) + if (e.from_, e.to) in replaced then [] else [Direct(e)]
  }

  /** The edges, who is a member among them, the gateway, and what the detection answered. */
  datatype Detection = Detection(edges: seq<Edge>, member: Edge -> bool, g: Rid, ports: seq<string>, wires: seq<Wire>,
    replaced: set<Link>)

  function After(d: Detection): seq<Wire> {
    Kept(d.edges, d.replaced) + d.wires
  }

  lemma {:induction false} KeptMembers(edges: seq<Edge>, replaced: set<Link>)
    ensures forall w ::
              w in Kept(edges, replaced) <==> w.Direct? && w.edge in edges && (w.edge.from_, w.edge.to) !in replaced
  {
    if edges != [] {
      var n := |edges| - 1;
      KeptMembers(edges[..n], replaced);
      assert edges == edges[..n] + [edges[n]];
    }
  }

  /** What a switch detection on a proper edge list hands on. */
  ghost predicate Rewriting(d: Detection) {
    && UniqueEdges(d.edges) && (forall e | d.member(e) :: e.from_ == d.g)
    && SwitchesOf(d.edges, d.member, d.g, d.ports, d.wires, d.replaced) && DistinctWires(d.wires)
  }

  /** Exactly the replaced edges go; every other edge survives. */
  lemma OthersSurvive(d: Detection, e: Edge)
    requires Rewriting(d)
    ensures Direct(e) in After(d) <==> e in d.edges && !Replaced(d.edges, d.member, e)
  {
    KeptMembers(d.edges, d.replaced);
    assert Direct(e) !in d.wires;
    if e in d.edges && (e.from_, e.to) in d.replaced {
      var f :| Replaced(d.edges, d.member, f) && (f.from_, f.to) == (e.from_, e.to);
      SamePairSameEdge(d.edges, e, f);
    }
  }

  lemma SamePairSameEdge(edges: seq<Edge>, e: Edge, f: Edge)
    requires UniqueEdges(edges) && e in edges && f in edges && (e.from_, e.to) == (f.from_, f.to)
    ensures e == f
  {
    var i :| 0 <= i < |edges| && edges[i] == e;
    var j :| 0 <= j < |edges| && edges[j] == f;
    assert i == j;
  }

  /** A replaced access point hangs under exactly one switch, that of its port, and that
      switch under the gateway; no other access point is put under a switch. */
  lemma UnderOneSwitch(d: Detection, e: Edge)
    requires Rewriting(d) && Replaced(d.edges, d.member, e)
    ensures ToSwitch(d.g, e.gatewayPort.value) in d.wires && Trunk(d.g, e.gatewayPort.value, e.to) in d.wires
    ensures forall w | w in d.wires && w.Trunk? && w.ap == e.to :: w == Trunk(d.g, e.gatewayPort.value, e.to)
  {
    OnPortMembers(d.edges, d.member, e.gatewayPort.value);
    assert IsSwitchWire(d.edges, d.member, d.g, Trunk(d.g, e.gatewayPort.value, e.to));
    assert IsSwitchWire(d.edges, d.member, d.g, ToSwitch(d.g, e.gatewayPort.value));
    forall w | w in d.wires && w.Trunk? && w.ap == e.to ensures w == Trunk(d.g, e.gatewayPort.value, e.to) {
      var f := TrunkOrigin(d.edges, d.member, d.g, w);
      SamePairSameEdge(d.edges, e, f);
    }
  }

  /** The direct edge behind a trunk wire. */
  lemma TrunkOrigin(edges: seq<Edge>, member: Edge -> bool, g: Rid, w: Wire) returns (e: Edge)
    requires w.Trunk? && IsSwitchWire(edges, member, g, w)
    ensures Replaced(edges, member, e) && e.to == w.ap && e.gatewayPort == Some(w.port)
  {
    OnPortMembers(edges, member, w.port);
    e :| e in OnPort(edges, member, w.port) && e.to == w.ap;
  }

  /** Whoever is put under a switch had a direct wired edge from the gateway, and no LLDP
      link places it behind another router. */
  lemma ChainsStay(d: Detection, gateways: set<Rid>, w: Wire)
    requires Rewriting(d) && d.member == MemberTest(d.edges, gateways, d.g)
    requires w in d.wires && w.Trunk?
    ensures !Chained(d.edges, gateways, w.ap)
    ensures exists e | e in d.edges ::
              IsWiredUplink(e) && e.from_ == d.g && e.to == w.ap && e.gatewayPort == Some(w.port)
  {
    var e := TrunkOrigin(d.edges, d.member, d.g, w);
  }

  // ------------------------------------------------------------ reachability

  /** One step along a wire, or in `both` directions. */
  ghost predicate Steps(wires: seq<Wire>, both: bool, m: Node, n: Node) {
    exists w | w in wires :: (Source(w) == m && Target(w) == n) || (both && Source(w) == n && Target(w) == m)
  }

  ghost predicate Walk(wires: seq<Wire>, both: bool, p: seq<Node>) {
    p != [] && forall i | 0 < i < |p| :: Steps(wires, both, p[i - 1], p[i])
  }

  ghost predicate Reaches(wires: seq<Wire>, both: bool, m: Node, n: Node) {
    exists p :: Walk(wires, both, p) && p[0] == m && p[|p| - 1] == n
  }

  lemma ReachesItself(wires: seq<Wire>, both: bool, m: Node)
    ensures Reaches(wires, both, m, m)
  {
    assert Walk(wires, both, [m]) && [m][0] == m;
  }

  lemma ReachesFurther(wires: seq<Wire>, both: bool, m: Node, n: Node, k: Node)
    requires Reaches(wires, both, m, n) && Steps(wires, both, n, k)
    ensures Reaches(wires, both, m, k)
  {
    var p :| Walk(wires, both, p) && p[0] == m && p[|p| - 1] == n;
    var q := p + [k];
    forall i | 0 < i < |q| ensures Steps(wires, both, q[i - 1], q[i]) {
      if i < |p| { assert Steps(wires, both, p[i - 1], p[i]); }
    }
    assert Walk(wires, both, q) && q[0] == m && q[|q| - 1] == k;
  }

  /** Every old step is one or two new steps. */
  lemma OldStepIsNew(d: Detection, both: bool, a: Node, m: Node, n: Node)
    requires Rewriting(d)
    requires Reaches(After(d), both, a, m) && Steps(Before(d.edges), both, m, n)
    ensures Reaches(After(d), both, a, n)
  {
    var new_ := After(d);
    var w :| w in Before(d.edges) && ((Source(w) == m && Target(w) == n) || (both && Source(w) == n && Target(w) == m));
    var i :| 0 <= i < |d.edges| && Before(d.edges)[i] == w;
    var e := d.edges[i];
    assert w == Direct(e) && e in d.edges;
    OthersSurvive(d, e);
    if Replaced(d.edges, d.member, e) {
      var port := e.gatewayPort.value;
      UnderOneSwitch(d, e);
      var up, down := ToSwitch(d.g, port), Trunk(d.g, port, e.to);
      assert up in new_ && down in new_;
      var hub := SwitchNode(d.g, port);
      assert Source(up) == RouterNode(e.from_) && Target(up) == hub && Source(down) == hub
        && Target(down) == RouterNode(e.to);
      assert Steps(new_, both, m, hub) && Steps(new_, both, hub, n);
      ReachesFurther(new_, both, a, m, hub);
      ReachesFurther(new_, both, a, hub, n);
    } else {
      assert Direct(e) in new_;
      assert Steps(new_, both, m, n);
      ReachesFurther(new_, both, a, m, n);
    }
  }

  /** A node of the new graph seen as a router: a switch stands for its gateway. */
  function Home(g: Rid, n: Node): Node {
    if n.SwitchNode? then RouterNode(g) else n
  }

  /** A new step is an old step between the homes, or no step at all. */
  lemma NewStepIsOld(d: Detection, both: bool, m: Node, n: Node)
    requires Rewriting(d) && Steps(After(d), both, m, n)
    ensures Home(d.g, m) == Home(d.g, n) || Steps(Before(d.edges), both, Home(d.g, m), Home(d.g, n))
  {
    KeptMembers(d.edges, d.replaced);
    var w :| w in After(d) && ((Source(w) == m && Target(w) == n) || (both && Source(w) == n && Target(w) == m));
    if w.ToSwitch? {
      assert w in d.wires;
    } else {
      var e: Edge;
      if w.Direct? {
        e := w.edge;
        OthersSurvive(d, e);
      } else {
        assert w in d.wires;
        e := TrunkOrigin(d.edges, d.member, d.g, w);
      }
      var i :| 0 <= i < |d.edges| && d.edges[i] == e;
      assert Before(d.edges)[i] == Direct(e);
      assert Direct(e) in Before(d.edges);
      assert Home(d.g, Source(w)) == RouterNode(e.from_) && Home(d.g, Target(w)) == RouterNode(e.to);
      SameStep(Before(d.edges), both, Direct(e), Home(d.g, m), Home(d.g, n));
    }
  }

  lemma SameStep(wires: seq<Wire>, both: bool, w: Wire, m: Node, n: Node)
    requires w in wires && ((Source(w) == m && Target(w) == n) || (both && Source(w) == n && Target(w) == m))
    ensures Steps(wires, both, m, n)
  {
  }

  /** Rerouting through switches changes nothing about which router reaches which, neither
      along the edges' directions nor when links are used both ways. */
  lemma ReachabilityPreserved(d: Detection, both: bool, a: Rid, b: Rid)
    requires Rewriting(d)
    ensures Reaches(Before(d.edges), both, RouterNode(a), RouterNode(b)) <==>
            Reaches(After(d), both, RouterNode(a), RouterNode(b))
  {
    if Reaches(Before(d.edges), both, RouterNode(a), RouterNode(b)) {
      var p :| Walk(Before(d.edges), both, p) && p[0] == RouterNode(a) && p[|p| - 1] == RouterNode(b);
      WalkForward(d, both, p);
    }
    if Reaches(After(d), both, RouterNode(a), RouterNode(b)) {
      var p :| Walk(After(d), both, p) && p[0] == RouterNode(a) && p[|p| - 1] == RouterNode(b);
      WalkBack(d, both, p);
    }
  }

  lemma {:induction false} WalkForward(d: Detection, both: bool, p: seq<Node>)
    requires Rewriting(d) && Walk(Before(d.edges), both, p)
    ensures Reaches(After(d), both, p[0], p[|p| - 1])
    decreases |p|
  {
    var n := |p| - 1;
    if n == 0 {
      ReachesItself(After(d), both, p[0]);
    } else {
      ShorterWalk(Before(d.edges), both, p);
      WalkForward(d, both, p[..n]);
      OldStepIsNew(d, both, p[0], p[n - 1], p[n]);
    }
  }

  lemma {:induction false} WalkBack(d: Detection, both: bool, p: seq<Node>)
    requires Rewriting(d) && Walk(After(d), both, p)
    ensures Reaches(Before(d.edges), both, Home(d.g, p[0]), Home(d.g, p[|p| - 1]))
    decreases |p|
  {
    var n := |p| - 1;
    if n == 0 {
      ReachesItself(Before(d.edges), both, Home(d.g, p[0]));
    } else {
      ShorterWalk(After(d), both, p);
      WalkBack(d, both, p[..n]);
      NewStepIsOld(d, both, p[n - 1], p[n]);
      if Home(d.g, p[n - 1]) != Home(d.g, p[n]) {
        ReachesFurther(Before(d.edges), both, Home(d.g, p[0]), Home(d.g, p[n - 1]), Home(d.g, p[n]));
      }
    }
  }

  lemma ShorterWalk(wires: seq<Wire>, both: bool, p: seq<Node>)
    requires Walk(wires, both, p) && |p| > 1
    ensures Walk(wires, both, p[..|p| - 1]) && Steps(wires, both, p[|p| - 2], p[|p| - 1])
  {
    var q := p[..|p| - 1];
    forall i | 0 < i < |q| ensures Steps(wires, both, q[i - 1], q[i]) {
      assert Steps(wires, both, p[i - 1], p[i]);
    }
    var n := |p| - 1;
    assert Steps(wires, both, p[n - 1], p[n]);
  }

  /** The detection delivers such a rewriting, or leaves the graph alone. */
  lemma DetectionRewrites(edges: seq<Edge>, gateways: set<Rid>, g: Rid, ports: seq<string>, wires: seq<Wire>,
                          replaced: set<Link>)
    requires UniqueEdges(edges) && DistinctWires(wires)
    requires SwitchesOf(edges, MemberTest(edges, gateways, g), g, ports, wires, replaced)
    ensures Rewriting(Detection(edges, MemberTest(edges, gateways, g), g, ports, wires, replaced))
  {
  }
}
