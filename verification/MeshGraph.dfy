/** The whole inference: links between routers, then switches between them. */
module MeshGraph {
  import opened HopDepths
  import opened Fleet
  import opened LldpEdges
  import InterRouterEdges
  import opened SwitchNodes

  method DropReplaced(edges: seq<Edge>, replaced: set<Link>) returns (kept: seq<Wire>)
    ensures kept == Kept(edges, replaced)
  {
    kept := [];
    for i := 0 to |edges|
      invariant kept == Kept(edges[..i], replaced)
    {
      assert edges[..i + 1][..i] == edges[..i];
      if (edges[i].from_, edges[i].to) !in replaced {
        kept := kept + [Direct(edges[i])];
      }
    }
    assert edges[..|edges|] == edges;
  }

  /** Both graphs lead from the same routers to the same routers. */
  ghost predicate SameReach(edges: seq<Edge>, wires: seq<Wire>) {
    forall both, a, b ::
      Reaches(Before(edges), both, RouterNode(a), RouterNode(b)) <==> Reaches(wires, both, RouterNode(a), RouterNode(b))
  }

  /** The wires are the links, rewritten for the switches behind the first gateway. */
  ghost predicate SwitchesInserted(edges: seq<Edge>, wires: seq<Wire>, ports: seq<string>,
                                   gateways: set<Rid>, gs: seq<Router>) {
    if gs == [] || gs[0].trunk == map[] then wires == Before(edges) && ports == []
    else exists d: Detection :: Rewriting(d) && wires == After(d) && d.ports == ports
           && d.edges == edges && d.g == gs[0].rid && d.member == MemberTest(edges, gateways, d.g)
  }

  /** A node of the graph: a router of the fleet, or a switch on a port of the first gateway. */
  ghost predicate IsNode(fleet: seq<Router>, gs: seq<Router>, ports: seq<string>, n: Node) {
    match n
    case RouterNode(r) => InFleet(fleet, r)
    case SwitchNode(g, port) => gs != [] && g == gs[0].rid && port in ports
  }

  /** The links the evidence calls for, with switches in between where ports are shared: the
      graph handed to the panel reaches exactly what those links reach. */
  method InferGraph(fleet: seq<Router>, gateways: set<Rid>, macOwner: map<string, Rid>, ipOwner: map<string, Rid>)
    returns (edges: seq<Edge>, wires: seq<Wire>, ports: seq<string>, ghost x: InterRouterEdges.Evidence)
    requires DistinctIds(fleet) && PeersConfigured(fleet)
    requires forall m | m in macOwner :: InFleet(fleet, macOwner[m])
    requires forall m | m in ipOwner :: InFleet(fleet, ipOwner[m])
    ensures x == InterRouterEdges.Evidence(fleet, gateways, x.v, macOwner, ipOwner) && InterRouterEdges.Proper(x)
    ensures InterRouterEdges.Exact(x, edges) && UniqueEdges(edges)
    ensures SwitchesInserted(edges, wires, ports, gateways, OrderedGateways(fleet, gateways))
    ensures SameReach(edges, wires)
  {
    edges, x := InterRouterEdges.DetectInterRouterEdges(fleet, gateways, macOwner, ipOwner);
    var switched, replaced;
    ports, switched, replaced := DetectSwitchNodes(edges, fleet, gateways);
    var kept := DropReplaced(edges, replaced);
    wires := kept + switched;
    var gs := OrderedGateways(fleet, gateways);
    if gs == [] || gs[0].trunk == map[] {
      KeptAll(edges);
      assert wires == Before(edges);
    } else {
      DetectionRewrites(edges, gateways, gs[0].rid, ports, switched, replaced);
      ghost var d := Detection(edges, MemberTest(edges, gateways, gs[0].rid), gs[0].rid, ports, switched, replaced);
      RewritingReachesTheSame(d);
      assert wires == After(d);
    }
  }

  lemma {:induction false} KeptAll(edges: seq<Edge>)
    ensures Kept(edges, {}) == Before(edges)
  {
    if edges != [] {
      var n := |edges| - 1;
      KeptAll(edges[..n]);
      assert Before(edges) == Before(edges[..n]) + [Direct(edges[n])];
    }
  }

  lemma RewritingReachesTheSame(d: Detection)
    requires Rewriting(d)
    ensures SameReach(d.edges, After(d))
  {
    forall both, a, b ensures Reaches(Before(d.edges), both, RouterNode(a), RouterNode(b)) <==>
                              Reaches(After(d), both, RouterNode(a), RouterNode(b))
    {
      ReachabilityPreserved(d, both, a, b);
    }
  }

  /** Every wire of the final graph joins two of its nodes. */
  lemma WiresJoinNodes(x: InterRouterEdges.Evidence, edges: seq<Edge>, wires: seq<Wire>, ports: seq<string>, w: Wire)
    requires InterRouterEdges.Proper(x) && InterRouterEdges.Exact(x, edges)
    requires SwitchesInserted(edges, wires, ports, x.gateways, OrderedGateways(x.fleet, x.gateways)) && w in wires
    ensures var gs := OrderedGateways(x.fleet, x.gateways);
            IsNode(x.fleet, gs, ports, Source(w)) && IsNode(x.fleet, gs, ports, Target(w))
  {
    var gs := OrderedGateways(x.fleet, x.gateways);
    if w.Direct? {
      DirectIsEdge(edges, wires, ports, x.gateways, gs, w);
      InterRouterEdges.EdgesJoinRouters(x, edges, w.edge);
    } else {
      SwitchWireOrigin(edges, wires, ports, x.gateways, gs, w);
      assert gs[0] in gs;
      FirstIsInFleet(x.fleet, gs[0]);
      if w.Trunk? {
        var e :| e in edges && e.to == w.ap;
        InterRouterEdges.EdgesJoinRouters(x, edges, e);
      }
    }
  }

  /** A switch wire belongs to an inferred switch; a trunk stands for a replaced edge. */
  lemma SwitchWireOrigin(edges: seq<Edge>, wires: seq<Wire>, ports: seq<string>, gateways: set<Rid>, gs: seq<Router>,
                         w: Wire)
    requires SwitchesInserted(edges, wires, ports, gateways, gs) && w in wires && !w.Direct?
    ensures gs != [] && w.gateway == gs[0].rid && w.port in ports
    ensures w.Trunk? ==> exists e | e in edges :: e.to == w.ap
  {
    if gs == [] || gs[0].trunk == map[] {
      assert false;
    } else {
      var d: Detection :| Rewriting(d) && wires == After(d) && d.ports == ports && d.edges == edges && d.g == gs[0].rid;
      KeptMembers(edges, d.replaced);
      assert w in d.wires && IsSwitchWire(edges, d.member, d.g, w);
      if w.Trunk? {
        var e := TrunkOrigin(edges, d.member, d.g, w);
      }
    }
  }

  lemma FirstIsInFleet(fleet: seq<Router>, r: Router)
    requires r in fleet
    ensures InFleet(fleet, r.rid)
  {
    var i :| 0 <= i < |fleet| && fleet[i] == r;
  }

  /** No two wires join the same two nodes. */
  lemma WiresAreDistinct(edges: seq<Edge>, wires: seq<Wire>, ports: seq<string>, gateways: set<Rid>, gs: seq<Router>,
                         v: Wire, w: Wire)
    requires UniqueEdges(edges) && SwitchesInserted(edges, wires, ports, gateways, gs)
    requires v in wires && w in wires && Source(v) == Source(w) && Target(v) == Target(w)
    ensures v == w
  {
    if v.Direct? && w.Direct? {
      DirectIsEdge(edges, wires, ports, gateways, gs, v);
      DirectIsEdge(edges, wires, ports, gateways, gs, w);
      SamePairSameEdge(edges, v.edge, w.edge);
    }
  }

  lemma DirectIsEdge(edges: seq<Edge>, wires: seq<Wire>, ports: seq<string>, gateways: set<Rid>, gs: seq<Router>,
                     w: Wire)
    requires SwitchesInserted(edges, wires, ports, gateways, gs) && w in wires && w.Direct?
    ensures w.edge in edges
  {
    if gs == [] || gs[0].trunk == map[] {
      var i :| 0 <= i < |edges| && Before(edges)[i] == w;
    } else {
      var d: Detection :| Rewriting(d) && wires == After(d) && d.ports == ports && d.edges == edges;
      KeptMembers(edges, d.replaced);
      assert w !in d.wires;
    }
  }

  /** Whatever LLDP connects to a gateway can be reached from a gateway along the directed
      wires of the final graph, whatever heuristics, promotions and switches did to it. */
  lemma LldpRoutersHangOffAGateway(x: InterRouterEdges.Evidence, edges: seq<Edge>, wires: seq<Wire>, r: Rid)
    requires InterRouterEdges.Proper(x) && InterRouterEdges.Exact(x, edges) && SameReach(edges, wires)
    requires r in x.v.depths
    ensures exists g | g in x.gateways :: Reaches(wires, false, RouterNode(g), RouterNode(r))
  {
    var g := DirectChain(x, edges, r);
  }

  lemma {:induction false} DirectChain(x: InterRouterEdges.Evidence, edges: seq<Edge>, r: Rid) returns (g: Rid)
    requires InterRouterEdges.Proper(x) && InterRouterEdges.Exact(x, edges) && r in x.v.depths
    ensures g in x.gateways && Reaches(Before(edges), false, RouterNode(g), RouterNode(r))
    decreases x.v.depths[r]
  {
    if x.v.depths[r] == 0 {
      var roots := set y | y in x.gateways && InFleet(x.fleet, y);
      DepthZeroIff(x.v.depths, x.v.obs.Keys, roots, r);
      g := r;
      ReachesItself(Before(edges), false, RouterNode(r));
    } else {
      var q := UplinkExists(x.v, x.fleet, x.gateways, r);
      g := DirectChain(x, edges, q);
      var e := InterRouterEdges.Promoted(x.fleet, LldpEdge(x.v, q, r));
      LldpEdgeIsListed(x, edges, q, r);
      var i :| 0 <= i < |edges| && edges[i] == e;
      assert Before(edges)[i] == Direct(e);
      SameStep(Before(edges), false, Direct(e), RouterNode(q), RouterNode(r));
      ReachesFurther(Before(edges), false, RouterNode(g), RouterNode(q), RouterNode(r));
    }
  }

  lemma LldpEdgeIsListed(x: InterRouterEdges.Evidence, edges: seq<Edge>, q: Rid, r: Rid)
    requires InterRouterEdges.Proper(x) && InterRouterEdges.Exact(x, edges)
    requires Linked(x.v, q, r) && DirectionOf(x.v, q, r) == Direction(q, r, true)
    ensures var e := InterRouterEdges.Promoted(x.fleet, LldpEdge(x.v, q, r));
            e in edges && e.from_ == q && e.to == r
  {
    InterRouterEdges.LinkedIsBase(x, q, r);
    var b := LldpEdge(x.v, q, r);
    assert InterRouterEdges.IsBase(x, b);
    assert InterRouterEdges.IsPromoted(x, InterRouterEdges.Promoted(x.fleet, b));
  }
}
