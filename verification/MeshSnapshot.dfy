/** The merged snapshot as a whole: the inferred graph between the routers, and every
    client at its place in it. */
module MeshSnapshot {
  import opened HopDepths
  import opened Fleet
  import opened ClientMerge
  import InterRouterEdges
  import SwitchNodes
  import MeshGraph

  /** The routers whose last update failed. */
  function Offline(views: seq<View>): set<Rid> {
    set v | v in views && !v.online :: v.rid
  }

  /** A link between two routers is stale when one of them is offline. */
  predicate IsStale(w: Wire, offline: set<Rid>) {
    w.Direct? && (w.edge.from_ in offline || w.edge.to in offline)
  }

  /** Told by the updates: the one of either of its routers failed; cables of switches never count. */
  ghost predicate FailedUpdate(views: seq<View>, w: Wire) {
    match w
    case Direct(e) => exists v | v in views :: !v.online && (v.rid == e.from_ || v.rid == e.to)
    case _ => false
  }

  lemma StaleIff(views: seq<View>, w: Wire)
    ensures IsStale(w, Offline(views)) <==> FailedUpdate(views, w)
  {
  }

  method MarkStale(wires: seq<Wire>, offline: set<Rid>) returns (links: seq<ClientMerge.Edge>)
    ensures Carry(links, wires, offline)
  {
    links := [];
    for i := 0 to |wires|
      invariant |links| == i
      invariant forall k | 0 <= k < i :: links[k] == Link(wires[k], IsStale(wires[k], offline))
    {
      links := links + [Link(wires[i], IsStale(wires[i], offline))];
    }
  }

  /** The wires of a list of edges, in order. */
  function Wires(edges: seq<ClientMerge.Edge>): seq<Wire> {
    if edges == [] then []
    else
      var e := edges[|edges| - 1];
      Wires(edges[..|edges| - 1]) + if e.Link? then [e.wire] else []
  }

  lemma {:induction false} WiresMembers(edges: seq<ClientMerge.Edge>)
    ensures forall w :: w in Wires(edges) <==> exists e | e in edges :: e.Link? && e.wire == w
  {
    if edges != [] {
      var n := |edges| - 1;
      WiresMembers(edges[..n]);
      assert edges == edges[..n] + [edges[n]];
    }
  }

  /** The node of the snapshot that stands for a node of the graph. */
  function NodeOf(n: SwitchNodes.Node): ClientMerge.Node {
    match n
    case RouterNode(r) => ClientMerge.RouterNode(r)
    case SwitchNode(g, port) => ClientMerge.SwitchNode(g, port)
  }

  /** The views and the fleet are about the same routers. */
  ghost predicate SameRouters(views: seq<View>, fleet: seq<Router>) {
    forall r | InFleet(fleet, r) :: exists v | v in views :: v.rid == r
  }

  /** The graph part of the snapshot: exactly these wires, each marked as its routers are, and
      every wire ends at two nodes that are there. */
  ghost predicate GraphShown(mesh: Mesh, wires: seq<Wire>, offline: set<Rid>) {
    && (forall w :: w in Wires(mesh.edges) <==> w in wires)
    && (forall e | e in mesh.edges && e.Link? :: e.stale == IsStale(e.wire, offline))
    && (forall w | w in wires ::
          NodeOf(SwitchNodes.Source(w)) in mesh.nodes && NodeOf(SwitchNodes.Target(w)) in mesh.nodes)
  }

  method BuildSnapshot(views: seq<View>, fleet: seq<Router>, gateways: set<Rid>,
                       macOwner: map<string, Rid>, ipOwner: map<string, Rid>, known: set<string>)
    returns (mesh: Mesh, ghost edges: seq<Fleet.Edge>, ghost wires: seq<Wire>, ghost x: InterRouterEdges.Evidence)
    requires DistinctIds(fleet) && PeersConfigured(fleet) && NamedRouters(views) && SameRouters(views, fleet)
    requires forall m | m in macOwner :: InFleet(fleet, macOwner[m])
    requires forall m | m in ipOwner :: InFleet(fleet, ipOwner[m])
    ensures x == InterRouterEdges.Evidence(fleet, gateways, x.v, macOwner, ipOwner) && InterRouterEdges.Proper(x)
    ensures InterRouterEdges.Exact(x, edges)
    ensures Merged(views, known, mesh) && GraphShown(mesh, wires, Offline(views))
    ensures MeshGraph.SameReach(edges, Wires(mesh.edges))
    ensures forall e | e in mesh.edges && e.Link? :: e.stale <==> FailedUpdate(views, e.wire)
  {
    var direct, rewired, ports;
    direct, rewired, ports, x := MeshGraph.InferGraph(fleet, gateways, macOwner, ipOwner);
    edges, wires := direct, rewired;
    var gs := OrderedGateways(fleet, gateways);
    var switches := SwitchList(gs, ports);
    var links := MarkStale(rewired, Offline(views));
    var clients, nodes, kept := MergeSnapshots(views, switches, links, known);
    mesh := Mesh(clients, nodes, kept);
    InferredWiresHaveIds(direct, rewired, ports, gateways, gs);
    LinksAreShown(views, rewired, Offline(views), links, kept);
    NodesAreShown(x, views, direct, rewired, ports, switches, nodes);
    SameWiresSameReach(direct, rewired, Wires(kept));
    forall e | e in kept && e.Link? ensures e.stale <==> FailedUpdate(views, e.wire) {
      StaleIff(views, e.wire);
    }
  }

  /** The inferred switches as nodes. */
  method SwitchList(gs: seq<Router>, ports: seq<string>) returns (switches: seq<ClientMerge.Node>)
    requires gs == [] ==> ports == []
    ensures forall n :: n in switches <==> n.SwitchNode? && gs != [] && n.gateway == gs[0].rid && n.port in ports
  {
    switches := [];
    for i := 0 to |ports|
      invariant forall n ::
                  n in switches <==> n.SwitchNode? && gs != [] && n.gateway == gs[0].rid && n.port in ports[..i]
    {
      switches := switches + [ClientMerge.SwitchNode(gs[0].rid, ports[i])];
    }
    assert ports[..|ports|] == ports;
  }

  /** The links carry the wires, each with its stale mark. */
  ghost predicate Carry(links: seq<ClientMerge.Edge>, wires: seq<Wire>, offline: set<Rid>) {
    |links| == |wires| && forall i | 0 <= i < |wires| :: links[i] == Link(wires[i], IsStale(wires[i], offline))
  }

  /** No two wires share an id. */
  ghost predicate OneWirePerId(wires: seq<Wire>) {
    forall v, w | v in wires && w in wires && Id(Link(v, false)) == Id(Link(w, false)) :: v == w
  }

  /** Links have ids of their own, so all of them are kept, as they are. */
  lemma LinksAreShown(views: seq<View>, wires: seq<Wire>, offline: set<Rid>,
                      links: seq<ClientMerge.Edge>, kept: seq<ClientMerge.Edge>)
    requires OneWirePerId(wires) && Carry(links, wires, offline) && OthersKept(FleetEdges(views) + links, kept)
    ensures forall w :: w in Wires(kept) <==> w in wires
    ensures forall e | e in kept && e.Link? :: e.stale == IsStale(e.wire, offline)
  {
    WiresMembers(kept);
    FleetHasNoLinks(views);
    forall e | e in kept && e.Link? ensures e.wire in wires && e.stale == IsStale(e.wire, offline) {
      LinkIsOfWire(FleetEdges(views), wires, offline, links, e);
    }
    forall w | w in wires ensures exists f | f in kept :: f.Link? && f.wire == w {
      var f := WireIsKept(FleetEdges(views), wires, offline, links, kept, w);
    }
  }

  lemma LinkIsOfWire(others: seq<ClientMerge.Edge>, wires: seq<Wire>, offline: set<Rid>,
                     links: seq<ClientMerge.Edge>, e: ClientMerge.Edge)
    requires Carry(links, wires, offline) && forall d | d in others :: !d.Link?
    requires e in others + links && e.Link?
    ensures e.wire in wires && e.stale == IsStale(e.wire, offline)
  {
    assert e in links;
    var i :| 0 <= i < |links| && links[i] == e;
  }

  lemma WireIsKept(others: seq<ClientMerge.Edge>, wires: seq<Wire>, offline: set<Rid>,
                   links: seq<ClientMerge.Edge>, kept: seq<ClientMerge.Edge>, w: Wire) returns (f: ClientMerge.Edge)
    requires OneWirePerId(wires) && Carry(links, wires, offline) && forall d | d in others :: !d.Link?
    requires OthersKept(others + links, kept) && w in wires
    ensures f in kept && f.Link? && f.wire == w
  {
    var i :| 0 <= i < |wires| && wires[i] == w;
    assert links[i] in others + links;
    f :| f in kept && Id(f) == Id(links[i]);
    LinkIsOfWire(others, wires, offline, links, f);
    assert Id(Link(f.wire, false)) == Id(Link(w, false));
  }

  lemma InferredWiresHaveIds(edges: seq<Fleet.Edge>, wires: seq<Wire>, ports: seq<string>, gateways: set<Rid>,
                             gs: seq<Router>)
    requires UniqueEdges(edges) && MeshGraph.SwitchesInserted(edges, wires, ports, gateways, gs)
    ensures OneWirePerId(wires)
  {
    forall v, w | v in wires && w in wires && Id(Link(v, false)) == Id(Link(w, false)) ensures v == w {
      MeshGraph.WiresAreDistinct(edges, wires, ports, gateways, gs, v, w);
    }
  }

  lemma {:induction false} FleetHasNoLinks(views: seq<View>)
    ensures forall e | e in FleetEdges(views) :: !e.Link?
  {
    if views != [] {
      var v := views[|views| - 1];
      FleetHasNoLinks(views[..|views| - 1]);
      IfaceEdgesAreNoClients(v, v.ifaces);
      forall e | e in ClientEdges(Sights(v, v.stations)) ensures e.HasClient? {
      }
    }
  }

  lemma NodesAreShown(x: InterRouterEdges.Evidence, views: seq<View>, edges: seq<Fleet.Edge>, wires: seq<Wire>,
                      ports: seq<string>, switches: seq<ClientMerge.Node>, nodes: seq<ClientMerge.Node>)
    requires InterRouterEdges.Proper(x) && InterRouterEdges.Exact(x, edges) && SameRouters(views, x.fleet)
    requires MeshGraph.SwitchesInserted(edges, wires, ports, x.gateways, OrderedGateways(x.fleet, x.gateways))
    requires var gs := OrderedGateways(x.fleet, x.gateways);
             forall n :: n in switches <==> n.SwitchNode? && gs != [] && n.gateway == gs[0].rid && n.port in ports
    requires Plains(nodes) == Plains(FleetNodes(views) + switches)
    ensures forall w | w in wires :: NodeOf(SwitchNodes.Source(w)) in nodes && NodeOf(SwitchNodes.Target(w)) in nodes
  {
    var gs := OrderedGateways(x.fleet, x.gateways);
    forall n | MeshGraph.IsNode(x.fleet, gs, ports, n) ensures NodeOf(n) in nodes {
      NodeIsShown(x.fleet, gs, ports, views, switches, nodes, n);
    }
    forall w | w in wires ensures NodeOf(SwitchNodes.Source(w)) in nodes && NodeOf(SwitchNodes.Target(w)) in nodes {
      MeshGraph.WiresJoinNodes(x, edges, wires, ports, w);
    }
  }

  lemma NodeIsShown(fleet: seq<Router>, gs: seq<Router>, ports: seq<string>, views: seq<View>,
                    switches: seq<ClientMerge.Node>, nodes: seq<ClientMerge.Node>, n: SwitchNodes.Node)
    requires MeshGraph.IsNode(fleet, gs, ports, n) && SameRouters(views, fleet)
    requires forall m :: m in switches <==> m.SwitchNode? && gs != [] && m.gateway == gs[0].rid && m.port in ports
    requires Plains(nodes) == Plains(FleetNodes(views) + switches)
    ensures NodeOf(n) in nodes
  {
    PlainsMembers(nodes);
    PlainsMembers(FleetNodes(views) + switches);
    if n.RouterNode? {
      var v :| v in views && v.rid == n.rid;
      RouterIsShown(views, v);
    }
    assert NodeOf(n) in FleetNodes(views) + switches;
    assert NodeOf(n) in Plains(nodes);
  }

  lemma {:induction false} RouterIsShown(views: seq<View>, v: View)
    requires v in views
    ensures ClientMerge.RouterNode(v.rid) in FleetNodes(views)
  {
    var n := |views| - 1;
    if v == views[n] {
      assert SnapshotNodes(v)[0] == ClientMerge.RouterNode(v.rid);
    } else {
      assert views == views[..n] + [views[n]];
      RouterIsShown(views[..n], v);
    }
  }

  lemma SameWiresSameReach(edges: seq<Fleet.Edge>, wires: seq<Wire>, shown: seq<Wire>)
    requires MeshGraph.SameReach(edges, wires) && forall w :: w in shown <==> w in wires
    ensures MeshGraph.SameReach(edges, shown)
  {
    forall both, a, b
      ensures SwitchNodes.Reaches(wires, both, a, b) <==> SwitchNodes.Reaches(shown, both, a, b)
    {
      SameSteps(wires, shown, both, a, b);
      SameSteps(shown, wires, both, a, b);
    }
  }

  lemma SameSteps(wires: seq<Wire>, shown: seq<Wire>, both: bool, a: SwitchNodes.Node, b: SwitchNodes.Node)
    requires forall w | w in wires :: w in shown
    ensures SwitchNodes.Reaches(wires, both, a, b) ==> SwitchNodes.Reaches(shown, both, a, b)
  {
    if p :| SwitchNodes.Walk(wires, both, p) && p[0] == a && p[|p| - 1] == b {
      forall i | 0 < i < |p| ensures SwitchNodes.Steps(shown, both, p[i - 1], p[i]) {
        assert SwitchNodes.Steps(wires, both, p[i - 1], p[i]);
      }
      assert SwitchNodes.Walk(shown, both, p);
    }
  }

  /** In the merged snapshot every router that LLDP connects to a gateway can be reached from a
      gateway along its directed links. */
  lemma SnapshotHangsOffAGateway(x: InterRouterEdges.Evidence, edges: seq<Fleet.Edge>, mesh: Mesh, r: Rid)
    requires InterRouterEdges.Proper(x) && InterRouterEdges.Exact(x, edges)
    requires MeshGraph.SameReach(edges, Wires(mesh.edges)) && r in x.v.depths
    ensures exists g | g in x.gateways ::
              SwitchNodes.Reaches(Wires(mesh.edges), false, SwitchNodes.RouterNode(g), SwitchNodes.RouterNode(r))
  {
    MeshGraph.LldpRoutersHangOffAGateway(x, edges, Wires(mesh.edges), r);
  }
}
