/** The routers of a fleet as the topology inference sees them.

    A router is what its own tables say: neighbours, leases, bridge ports, clients. An edge
    is what the inference draws between two of them. Gateways have an order in which they
    may claim access points. */
module Fleet {
  import opened Options
  import opened HopDepths
  import opened StringOrder

  /** An LLDP neighbour: the configured router it was identified as, the own interface it
      was seen on and the port it named. */
  datatype Neighbor = Neighbor(peer: Option<Rid>, localIface: string, portId: string)

  datatype Lease = Lease(mac: string, ip: Option<string>)
  datatype Client = Client(mac: string, ip: string)

  datatype Router = Router(
    rid: Rid,
    hostIp: string,
    net24: Option<int>,            // the /24 of the host IP; None if it is no IP address
    mac: string,
    neighbors: seq<Neighbor>,
    leases: seq<Lease>,
    fdb: map<string, string>,      // MAC to bridge port
    trunk: map<string, string>,    // IP to bridge port
    clients: seq<Client>,
    staActive: bool,               // an active wireless uplink interface
    wanCarrier: bool,              // a WAN port with link
    wanConnected: bool)

  datatype Relationship = RouterUplink | LanUplink | WifiUplink | MeshMember
  datatype LinkType = LanLink | WifiLink | UnknownLink
  datatype Method = Lldp | DhcpIp | DhcpMac | ArpPort | WifiClient | StaFallback | SubnetFallback

  datatype Edge = Edge(
    from_: Rid,
    to: Rid,
    relationship: Relationship,
    link: LinkType,
    method_: Method,
    overridden: bool,              // promoted to a repeater link afterwards
    gatewayPort: Option<string>,
    apPort: Option<string>)

  ghost predicate DistinctIds(fleet: seq<Router>) {
    forall i, j | 0 <= i < j < |fleet| :: fleet[i].rid != fleet[j].rid
  }

  ghost predicate InFleet(fleet: seq<Router>, r: Rid) {
    exists i | 0 <= i < |fleet| :: fleet[i].rid == r
  }

  /** Neighbours are identified only as configured routers. */
  ghost predicate PeersConfigured(fleet: seq<Router>) {
    forall i, j | 0 <= i < |fleet| && 0 <= j < |fleet[i].neighbors| && fleet[i].neighbors[j].peer.Some? ::
      InFleet(fleet, fleet[i].neighbors[j].peer.value)
  }

  /** No two edges join the same routers in the same direction: the edge ids are unique. */
  ghost predicate UniqueEdges(edges: seq<Edge>) {
    forall i, j | 0 <= i < j < |edges| :: (edges[i].from_, edges[i].to) != (edges[j].from_, edges[j].to)
  }

  function EdgePairs(edges: seq<Edge>): set<Link> {
    set e | e in edges :: (e.from_, e.to)
  }

  function NonEmpty(s: string): Option<string> {
    if s == "" then None else Some(s)
  }

  // --------------------------------------------------------- gateway order

  /** Connected gateways first, then by id. */
  predicate Precedes(a: Router, b: Router) {
    if a.wanConnected != b.wanConnected then a.wanConnected else StrLe(a.rid, b.rid)
  }

  function InsertGateway(g: Router, s: seq<Router>): (r: seq<Router>)
    ensures forall x :: x in r <==> x == g || x in s
    ensures |r| == |s| + 1
  {
    if s == [] || Precedes(g, s[0]) then [g] + s else [s[0]] + InsertGateway(g, s[1..])
  }

  /** The gateways of the fleet in the order in which they may claim access points. */
  function OrderedGateways(fleet: seq<Router>, gateways: set<Rid>): (r: seq<Router>)
    ensures forall x :: x in r <==> x in fleet && x.rid in gateways
  {
    if fleet == [] then []
    else
      var rest := OrderedGateways(fleet[1..], gateways);
      if fleet[0].rid in gateways then InsertGateway(fleet[0], rest) else rest
  }

  ghost predicate InOrder(s: seq<Router>) {
    forall i, j | 0 <= i < j < |s| :: Precedes(s[i], s[j])
  }

  lemma {:induction false} InsertKeepsOrder(g: Router, s: seq<Router>)
    requires InOrder(s)
    ensures InOrder(InsertGateway(g, s))
  {
    if s == [] {
    } else if Precedes(g, s[0]) {
      forall j | 0 <= j < |s| ensures Precedes(g, s[j]) {
        if j > 0 { PrecedesIsTransitive(g, s[0], s[j]); }
      }
    } else {
      PrecedesIsTotal(g, s[0]);
      InsertKeepsOrder(g, s[1..]);
      var rest := InsertGateway(g, s[1..]);
      forall j | 0 <= j < |rest| ensures Precedes(s[0], rest[j]) {
        assert rest[j] in rest;
        if rest[j] != g { var k :| 0 <= k < |s[1..]| && s[1..][k] == rest[j]; assert s[k + 1] == rest[j]; }
      }
    }
  }

  lemma PrecedesIsTotal(a: Router, b: Router)
    ensures Precedes(a, b) || Precedes(b, a)
  {
    StrLeIsLinear(a.rid, b.rid);
  }

  lemma PrecedesIsTransitive(a: Router, b: Router, c: Router)
    requires Precedes(a, b) && Precedes(b, c)
    ensures Precedes(a, c)
  {
    if a.wanConnected == b.wanConnected == c.wanConnected { StrLeIsTransitive(a.rid, b.rid, c.rid); }
  }

  /** Connected gateways come before those in an outage, and each kind is sorted by id. */
  lemma {:induction false} GatewaysAreOrdered(fleet: seq<Router>, gateways: set<Rid>)
    ensures InOrder(OrderedGateways(fleet, gateways))
    ensures var gs := OrderedGateways(fleet, gateways);
            forall i, j | 0 <= i < j < |gs| ::
              (gs[j].wanConnected ==> gs[i].wanConnected)
              && (gs[i].wanConnected == gs[j].wanConnected ==> StrLe(gs[i].rid, gs[j].rid))
  {
    if fleet != [] {
      GatewaysAreOrdered(fleet[1..], gateways);
      if fleet[0].rid in gateways {
        InsertKeepsOrder(fleet[0], OrderedGateways(fleet[1..], gateways));
      }
    }
  }
}
