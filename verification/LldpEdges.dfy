/** Router-to-router edges from LLDP: one for each observed pair, pointing away from the gateway. */
module LldpEdges {
  import opened Options
  import opened HopDepths
  import opened StringOrder
  import opened Names
  import opened Fleet

  // Evidence anchors the direction of an edge; only a genuine tie falls back to a sort.

  type Observations = map<Link, Neighbor>

  /** All that decides about edges: who saw whom, the gateways, the hop depths. */
  datatype LldpView = LldpView(obs: Observations, gateways: set<Rid>, depths: map<Rid, nat>, fleetSize: nat)

  // ---------------------------------------------------------- observations

  /** With parallel links the first neighbour entry of a pair counts. */
  function FirstTo(neighbors: seq<Neighbor>, b: Rid): Option<Neighbor> {
    if neighbors == [] then None
    else if neighbors[0].peer == Some(b) then Some(neighbors[0])
    else FirstTo(neighbors[1..], b)
  }

  function Lookup(obs: Observations, a: Rid, b: Rid): Option<Neighbor> {
    if (a, b) in obs then Some(obs[(a, b)]) else None
  }

  /** `a` saw `b` exactly if its neighbour table says so; nobody sees itself. */
  ghost predicate ObservationsOf(obs: Observations, fleet: seq<Router>) {
    && (forall i, b | 0 <= i < |fleet| && b != fleet[i].rid ::
          Lookup(obs, fleet[i].rid, b) == FirstTo(fleet[i].neighbors, b))
    && (forall a, b | (a, b) in obs :: a != b && InFleet(fleet, a))
  }

  lemma {:induction false} FirstToSplit(s: seq<Neighbor>, n: Neighbor, b: Rid)
    ensures FirstTo(s + [n], b) == if FirstTo(s, b).Some? then FirstTo(s, b) else if n.peer == Some(b) then Some(n)
            else None
  {
    if s == [] {
      assert s + [n] == [n];
    } else {
      assert (s + [n])[1..] == s[1..] + [n];
      FirstToSplit(s[1..], n, b);
    }
  }

  method CollectObservations(fleet: seq<Router>) returns (obs: Observations, order: seq<Link>)
    requires DistinctIds(fleet)
    ensures ObservationsOf(obs, fleet)
    ensures forall l :: l in order <==> l in obs
  {
    obs, order := map[], [];
    for i := 0 to |fleet|
      invariant ObservationsOf(obs, fleet[..i])
      invariant forall l :: l in order <==> l in obs
    {
      var own, keys := CollectFrom(fleet[i]);
      ghost var before := obs;
      assert forall b :: (fleet[i].rid, b) !in before;
      obs := obs + own;
      order := order + keys;
      MoreObservations(before, own, fleet, i);
    }
    assert fleet[..|fleet|] == fleet;
  }

  ghost predicate OwnObservations(own: Observations, a: Rid, neighbors: seq<Neighbor>) {
    && (forall b | b != a :: Lookup(own, a, b) == FirstTo(neighbors, b))
    && (forall x, b | (x, b) in own :: x == a && b != a)
  }

  /** The neighbour table of one router. */
  method CollectFrom(router: Router) returns (own: Observations, keys: seq<Link>)
    ensures OwnObservations(own, router.rid, router.neighbors)
    ensures forall l :: l in keys <==> l in own
  {
    own, keys := map[], [];
    var a := router.rid;
    for j := 0 to |router.neighbors|
      invariant OwnObservations(own, a, router.neighbors[..j])
      invariant forall l :: l in keys <==> l in own
    {
      var n := router.neighbors[j];
      assert router.neighbors[..j + 1] == router.neighbors[..j] + [n];
      forall b ensures FirstTo(router.neighbors[..j + 1], b) ==
                       if FirstTo(router.neighbors[..j], b).Some? then FirstTo(router.neighbors[..j], b)
                       else if n.peer == Some(b) then Some(n) else None
      {
        FirstToSplit(router.neighbors[..j], n, b);
      }
      if n.peer.None? || n.peer.value == a {
        continue;
      }
      if (a, n.peer.value) in own {
        continue;
      }
      own := own[(a, n.peer.value) := n];
      keys := keys + [(a, n.peer.value)];
    }
    assert router.neighbors[..|router.neighbors|] == router.neighbors;
  }

  lemma MoreObservations(before: Observations, own: Observations, fleet: seq<Router>, i: nat)
    requires i < |fleet| && DistinctIds(fleet) && ObservationsOf(before, fleet[..i])
    requires OwnObservations(own, fleet[i].rid, fleet[i].neighbors)
    ensures ObservationsOf(before + own, fleet[..i + 1])
  {
    var all, upto := before + own, fleet[..i + 1];
    forall k, b | 0 <= k < |upto| && b != upto[k].rid
      ensures Lookup(all, upto[k].rid, b) == FirstTo(upto[k].neighbors, b) {
      if k < i {
        assert fleet[..i][k].rid == fleet[k].rid != fleet[i].rid;
      }
    }
    forall a, b | (a, b) in all ensures a != b && InFleet(upto, a) {
      if (a, b) in own {
        assert upto[i].rid == a;
      } else {
        var k :| 0 <= k < i && fleet[..i][k].rid == a;
        assert upto[k].rid == a;
      }
    }
  }

  // ------------------------------------------------------------ orientation

  /** The side of a link that faces it through its WAN port, if exactly one does. */
  function WanSide(aIface: string, bIface: string): Option<bool> {
    if IsWan(aIface) && !IsWan(bIface) then Some(true)
    else if IsWan(bIface) && !IsWan(aIface) then Some(false)
    else None
  }

  datatype Direction = Direction(from_: Rid, to: Rid, anchored: bool)

  function DepthOr(v: LldpView, r: Rid): nat {
    if r in v.depths then v.depths[r] else v.fleetSize + 1
  }

  /** Gateway first, then the nearer one, then away from the WAN port, else by id. */
  function Orient(v: LldpView, a: Rid, b: Rid, aIface: string, bIface: string): Direction {
    if a in v.gateways && b !in v.gateways then Direction(a, b, true)
    else if b in v.gateways && a !in v.gateways then Direction(b, a, true)
    else if v.depths != map[] && DepthOr(v, a) != DepthOr(v, b) then
      if DepthOr(v, a) < DepthOr(v, b) then Direction(a, b, true) else Direction(b, a, true)
    else
      match WanSide(aIface, bIface)
      case Some(true) => Direction(b, a, true)
      case Some(false) => Direction(a, b, true)
      case None => if StrLe(a, b) then Direction(a, b, false) else Direction(b, a, false)
  }

  /** The direction does not depend on which end is called `a`. */
  lemma OrientIsSymmetric(v: LldpView, a: Rid, b: Rid, aIface: string, bIface: string)
    requires a != b
    ensures Orient(v, a, b, aIface, bIface) == Orient(v, b, a, bIface, aIface)
  {
    StrLeIsLinear(a, b);
  }

  // ------------------------------------------------------------------ edges

  /** The interface of `a` on its link with `b`: its own report, else what `b` saw. */
  function IfaceOf(v: LldpView, a: Rid, b: Rid): string {
    var own, seen := Lookup(v.obs, a, b), Lookup(v.obs, b, a);
    if own.Some? && own.value.localIface != "" then own.value.localIface
    else if seen.Some? then seen.value.portId else ""
  }

  function DirectionOf(v: LldpView, a: Rid, b: Rid): Direction {
    Orient(v, a, b, IfaceOf(v, a, b), IfaceOf(v, b, a))
  }

  function EdgeAlong(v: LldpView, d: Direction): Edge {
    var own, back := Lookup(v.obs, d.from_, d.to), Lookup(v.obs, d.to, d.from_);
    var fromIface := if own.Some? then own.value.localIface else "";
    var toIface := if back.Some? then back.value.localIface else if own.Some? then own.value.portId else "";
    var toPort := if back.Some? then NormalizePort(toIface) else toIface;
    var wireless := IsWireless(fromIface) || IsWireless(toIface);
    var onGateway := !wireless && d.from_ in v.depths && v.depths[d.from_] == 0;
    Edge(d.from_, d.to, RouterUplink, if wireless then WifiLink else LanLink, Lldp, false,
         if onGateway then NonEmpty(NormalizePort(fromIface)) else None,
         if onGateway then NonEmpty(toPort) else None)
  }

  /** The edge of an observed pair of routers. */
  function LldpEdge(v: LldpView, a: Rid, b: Rid): Edge {
    EdgeAlong(v, DirectionOf(v, a, b))
  }

  predicate Linked(v: LldpView, a: Rid, b: Rid) {
    Adjacent(v.obs.Keys, a, b)
  }

  /** `r` has its uplink by LLDP, and the direction is evidence. */
  ghost predicate Uplinked(v: LldpView, r: Rid) {
    exists a :: Linked(v, a, r) && DirectionOf(v, a, r).to == r && DirectionOf(v, a, r).anchored
  }

  lemma EdgeIsSymmetric(v: LldpView, a: Rid, b: Rid)
    requires a != b
    ensures DirectionOf(v, a, b) == DirectionOf(v, b, a) && LldpEdge(v, a, b) == LldpEdge(v, b, a)
    ensures LldpEdge(v, a, b).from_ in {a, b} && LldpEdge(v, a, b).to in {a, b}
    ensures LldpEdge(v, a, b).from_ != LldpEdge(v, a, b).to
  {
    OrientIsSymmetric(v, a, b, IfaceOf(v, a, b), IfaceOf(v, b, a));
  }

  /** Exactly one edge for each linked pair, the one its direction and ports call for. */
  ghost predicate EdgesOfView(edges: seq<Edge>, v: LldpView) {
    && (forall e | e in edges :: Linked(v, e.from_, e.to) && e == LldpEdge(v, e.from_, e.to))
    && (forall a, b | Linked(v, a, b) :: LldpEdge(v, a, b) in edges)
    && OnePerPair(edges)
  }

  /** What is known about the fleet before edges are drawn. */
  ghost predicate ViewOf(v: LldpView, fleet: seq<Router>, gateways: set<Rid>) {
    && ObservationsOf(v.obs, fleet)
    && v.gateways == gateways
    && v.fleetSize == |fleet|
    && ShortestDepths(v.depths, v.obs.Keys, set r | r in gateways && InFleet(fleet, r))
  }

  method DetectLldpEdges(fleet: seq<Router>, gateways: set<Rid>)
    returns (edges: seq<Edge>, blocked: set<Link>, uplinked: set<Rid>, v: LldpView)
    requires DistinctIds(fleet)
    ensures ViewOf(v, fleet, gateways)
    ensures EdgesOfView(edges, v)
    ensures forall a, b :: (a, b) in blocked <==> Linked(v, a, b)
    ensures forall r :: r in uplinked <==> Uplinked(v, r)
    ensures EdgesTold(edges, uplinked, fleet, gateways, v.depths)
    ensures forall e | e in edges :: PortsTold(e, fleet, gateways)
  {
    var obs, order := CollectObservations(fleet);
    var roots := GatewayIds(fleet, gateways);
    var depths := ComputeDepths(obs.Keys, roots);
    assert (set r | r in roots) == set r | r in gateways && InFleet(fleet, r);
    v := LldpView(obs, gateways, depths, |fleet|);
    edges, blocked, uplinked := DrawEdges(v, order);
    AllTold(edges, uplinked, v, fleet, gateways);
  }

  method DrawEdges(v: LldpView, order: seq<Link>) returns (edges: seq<Edge>, blocked: set<Link>, uplinked: set<Rid>)
    requires forall l :: l in order <==> l in v.obs
    requires forall l | l in v.obs :: l.0 != l.1
    ensures EdgesOfView(edges, v)
    ensures forall a, b :: (a, b) in blocked <==> Linked(v, a, b)
    ensures forall r :: r in uplinked <==> Uplinked(v, r)
  {
    ghost var edgeOf, anchored := (a, b) => LldpEdge(v, a, b), (a, b) => DirectionOf(v, a, b).anchored;
    edges, blocked, uplinked := DrawPairs(v, order, edgeOf, anchored);
    AllDrawn(edges, blocked, uplinked, v, edgeOf, anchored, order);
  }

  /** `edgeOf` and `anchored` stand for what the view says about each pair. */
  ghost predicate Stands(v: LldpView, edgeOf: (Rid, Rid) -> Edge, anchored: (Rid, Rid) -> bool) {
    forall a, b {:trigger LldpEdge(v, a, b)} :: edgeOf(a, b) == LldpEdge(v, a, b)
      && anchored(a, b) == DirectionOf(v, a, b).anchored
  }

  method DrawPairs(v: LldpView, order: seq<Link>, ghost edgeOf: (Rid, Rid) -> Edge, ghost anchored: (Rid, Rid) -> bool)
    returns (edges: seq<Edge>, blocked: set<Link>, uplinked: set<Rid>)
    requires Stands(v, edgeOf, anchored) && forall l | l in order :: l.0 != l.1
    ensures DrawnFrom(edges, blocked, uplinked, edgeOf, anchored, order)
  {
    edges, blocked, uplinked := [], {}, {};
    for i := 0 to |order|
      invariant DrawnFrom(edges, blocked, uplinked, edgeOf, anchored, order[..i])
    {
      var (a, b) := order[i];
      assert order[..i + 1] == order[..i] + [(a, b)];
      if (a, b) in blocked {
        DrawSame(edges, blocked, uplinked, edgeOf, anchored, order[..i], a, b);
        continue;
      }
      var e, sure := DrawLink(v, a, b, edgeOf, anchored);
      DrawNew(edges, blocked, uplinked, edgeOf, anchored, order[..i], a, b);
      edges := edges + [e];
      blocked := blocked + {(a, b), (b, a)};
      if sure {
        uplinked := uplinked + {e.to};
      }
    }
    assert order[..|order|] == order;
  }

  /** The edge of one pair, and whether its direction is evidence. */
  method DrawLink(v: LldpView, a: Rid, b: Rid, ghost edgeOf: (Rid, Rid) -> Edge, ghost anchored: (Rid, Rid) -> bool)
    returns (e: Edge, sure: bool)
    requires Stands(v, edgeOf, anchored) && a != b
    ensures e == edgeOf(a, b) == edgeOf(b, a) && sure == anchored(a, b) == anchored(b, a)
    ensures {e.from_, e.to} == {a, b}
  {
    EdgeIsSymmetric(v, a, b);
    var d := DirectionOf(v, a, b);
    e, sure := EdgeAlong(v, d), d.anchored;
    assert e == LldpEdge(v, a, b) == LldpEdge(v, b, a);
  }

  method GatewayIds(fleet: seq<Router>, gateways: set<Rid>) returns (ids: seq<Rid>)
    ensures forall r :: r in ids <==> r in gateways && InFleet(fleet, r)
  {
    ids := [];
    for i := 0 to |fleet|
      invariant forall r :: r in ids <==> r in gateways && exists k | 0 <= k < i :: fleet[k].rid == r
    {
      if fleet[i].rid in gateways {
        ids := ids + [fleet[i].rid];
      }
    }
  }

  predicate Seen(done: seq<Link>, a: Rid, b: Rid) {
    (a, b) in done || (b, a) in done
  }

  /** The state of the loop after the observations in `done`: an edge for each pair. */
  ghost predicate DrawnFrom(edges: seq<Edge>, blocked: set<Link>, uplinked: set<Rid>,
                            edgeOf: (Rid, Rid) -> Edge, anchored: (Rid, Rid) -> bool, done: seq<Link>) {
    && (forall e | e in edges :: Seen(done, e.from_, e.to) && e == edgeOf(e.from_, e.to))
    && (forall a, b | Seen(done, a, b) :: edgeOf(a, b) in edges)
    && OnePerPair(edges)
    && (forall a, b :: (a, b) in blocked <==> Seen(done, a, b))
    && (forall x :: x in uplinked <==> AnchoredAt(edgeOf, anchored, done, x))
  }

  ghost predicate OnePerPair(edges: seq<Edge>) {
    forall i, j | 0 <= i < j < |edges| :: {edges[i].from_, edges[i].to} != {edges[j].from_, edges[j].to}
  }

  ghost predicate AnchoredAt(edgeOf: (Rid, Rid) -> Edge, anchored: (Rid, Rid) -> bool, done: seq<Link>, x: Rid) {
    exists a :: Seen(done, a, x) && edgeOf(a, x).to == x && anchored(a, x)
  }

  lemma DrawSame(edges: seq<Edge>, blocked: set<Link>, uplinked: set<Rid>,
                 edgeOf: (Rid, Rid) -> Edge, anchored: (Rid, Rid) -> bool, done: seq<Link>, a: Rid, b: Rid)
    requires DrawnFrom(edges, blocked, uplinked, edgeOf, anchored, done) && (a, b) in blocked
    ensures DrawnFrom(edges, blocked, uplinked, edgeOf, anchored, done + [(a, b)])
  {
    var more := done + [(a, b)];
    assert forall x, y :: Seen(more, x, y) <==> Seen(done, x, y);
    assert forall x :: AnchoredAt(edgeOf, anchored, more, x) <==> AnchoredAt(edgeOf, anchored, done, x);
  }

  lemma DrawNew(edges: seq<Edge>, blocked: set<Link>, uplinked: set<Rid>,
                edgeOf: (Rid, Rid) -> Edge, anchored: (Rid, Rid) -> bool, done: seq<Link>, a: Rid, b: Rid)
    requires DrawnFrom(edges, blocked, uplinked, edgeOf, anchored, done) && (a, b) !in blocked
    requires edgeOf(a, b) == edgeOf(b, a) && anchored(a, b) == anchored(b, a)
    requires {edgeOf(a, b).from_, edgeOf(a, b).to} == {a, b}
    ensures DrawnFrom(edges + [edgeOf(a, b)], blocked + {(a, b), (b, a)},
                      uplinked + if anchored(a, b) then {edgeOf(a, b).to} else {}, edgeOf, anchored, done + [(a, b)])
  {
    var e, more := edgeOf(a, b), done + [(a, b)];
    assert e.from_ in {a, b} && e.to in {a, b} && a in {e.from_, e.to} && b in {e.from_, e.to};
    assert forall x, y :: Seen(more, x, y) <==> Seen(done, x, y) || (x, y) == (a, b) || (x, y) == (b, a);
    forall i | 0 <= i < |edges| ensures {edges[i].from_, edges[i].to} != {e.from_, e.to} {
      OtherPair(done, edges[i], a, b);
    }
    forall x
      ensures AnchoredAt(edgeOf, anchored, more, x) <==>
              AnchoredAt(edgeOf, anchored, done, x) || (anchored(a, b) && x == e.to)
    {
      OneMoreAnchored(edgeOf, anchored, done, a, b, x);
    }
  }

  lemma OneMoreAnchored(edgeOf: (Rid, Rid) -> Edge, anchored: (Rid, Rid) -> bool, done: seq<Link>, a: Rid, b: Rid,
                        x: Rid)
    requires edgeOf(a, b) == edgeOf(b, a) && anchored(a, b) == anchored(b, a) && edgeOf(a, b).to in {a, b}
    ensures AnchoredAt(edgeOf, anchored, done + [(a, b)], x) <==>
            AnchoredAt(edgeOf, anchored, done, x) || (anchored(a, b) && x == edgeOf(a, b).to)
  {
    var more := done + [(a, b)];
    assert forall p, q :: Seen(more, p, q) <==> Seen(done, p, q) || (p, q) == (a, b) || (p, q) == (b, a);
    if AnchoredAt(edgeOf, anchored, done, x) {
      var y :| Seen(done, y, x) && edgeOf(y, x).to == x && anchored(y, x);
      assert Seen(more, y, x);
    }
    if anchored(a, b) && x == edgeOf(a, b).to {
      var y := if x == a then b else a;
      assert Seen(more, y, x);
    }
  }

  lemma OtherPair(done: seq<Link>, f: Edge, a: Rid, b: Rid)
    requires Seen(done, f.from_, f.to) && !Seen(done, a, b)
    ensures {f.from_, f.to} != {a, b}
  {
  }

  lemma AllDrawn(edges: seq<Edge>, blocked: set<Link>, uplinked: set<Rid>, v: LldpView,
                 edgeOf: (Rid, Rid) -> Edge, anchored: (Rid, Rid) -> bool, order: seq<Link>)
    requires DrawnFrom(edges, blocked, uplinked, edgeOf, anchored, order)
    requires forall a, b :: edgeOf(a, b) == LldpEdge(v, a, b)
    requires forall a, b :: anchored(a, b) == DirectionOf(v, a, b).anchored
    requires forall l :: l in order <==> l in v.obs
    ensures EdgesOfView(edges, v)
    ensures forall a, b :: (a, b) in blocked <==> Linked(v, a, b)
    ensures forall x :: x in uplinked <==> Uplinked(v, x)
  {
    assert forall a, b :: Seen(order, a, b) <==> Linked(v, a, b);
    forall x ensures AnchoredAt(edgeOf, anchored, order, x) <==> Uplinked(v, x) {
      if AnchoredAt(edgeOf, anchored, order, x) {
        var a :| Seen(order, a, x) && edgeOf(a, x).to == x && anchored(a, x);
        assert Linked(v, a, x);
      }
      if Uplinked(v, x) {
        var a :| Linked(v, a, x) && DirectionOf(v, a, x).to == x && DirectionOf(v, a, x).anchored;
        assert Seen(order, a, x);
      }
    }
  }

  // ------------------------------------------- in terms of the neighbour tables

  /** The neighbour table of a router. */
  function TableOf(fleet: seq<Router>, r: Rid): seq<Neighbor> {
    if fleet == [] then [] else if fleet[0].rid == r then fleet[0].neighbors else TableOf(fleet[1..], r)
  }

  /** What `a` reports about `b`: its first entry that identifies `b`. */
  function Entry(fleet: seq<Router>, a: Rid, b: Rid): Option<Neighbor> {
    if a == b then None else FirstTo(TableOf(fleet, a), b)
  }

  predicate Cabled(fleet: seq<Router>, a: Rid, b: Rid) {
    Entry(fleet, a, b).Some? || Entry(fleet, b, a).Some?
  }

  /** The own interface of `r` towards `q`: the one `r` reports, else the port `q` names. */
  function OwnIface(fleet: seq<Router>, r: Rid, q: Rid): string {
    match (Entry(fleet, r, q), Entry(fleet, q, r))
    case (Some(own), Some(seen)) => if own.localIface != "" then own.localIface else seen.portId
    case (Some(own), None) => own.localIface
    case (None, Some(seen)) => seen.portId
    case (None, None) => ""
  }

  predicate FacesWan(fleet: seq<Router>, r: Rid, q: Rid) {
    IsWan(OwnIface(fleet, r, q))
  }

  /** There is evidence that `b` lies downstream of `a`: only `a` is a gateway; of two routers
      of one role `a` is nearer to a gateway; of two equally near ones, or two no gateway
      reaches, only `b` is plugged in with its WAN port. */
  predicate Downstream(fleet: seq<Router>, gateways: set<Rid>, hops: map<Rid, nat>, a: Rid, b: Rid) {
    Cabled(fleet, a, b) &&
    if (a in gateways) != (b in gateways) then a in gateways
    else if a in hops && b in hops && hops[a] != hops[b] then hops[a] < hops[b]
    else FacesWan(fleet, b, a) && !FacesWan(fleet, a, b)
  }

  /** The edge runs downstream where there is evidence, and from the lesser id where there is none. */
  predicate Runs(fleet: seq<Router>, gateways: set<Rid>, hops: map<Rid, nat>, a: Rid, b: Rid) {
    && Cabled(fleet, a, b)
    && (Downstream(fleet, gateways, hops, a, b) || (!Downstream(fleet, gateways, hops, b, a) && StrLe(a, b)))
  }

  /** Every cabled pair has its edge, in its direction; exactly the routers downstream of another
      one count as uplinked. */
  ghost predicate EdgesTold(edges: seq<Edge>, uplinked: set<Rid>, fleet: seq<Router>, gateways: set<Rid>,
                            hops: map<Rid, nat>) {
    && (forall a, b :: HasEdge(edges, a, b) <==> Runs(fleet, gateways, hops, a, b))
    && (forall r :: r in uplinked <==> exists a :: Downstream(fleet, gateways, hops, a, r))
  }

  /** Medium and ports of an edge, read from the two neighbour entries of its pair. */
  ghost predicate PortsTold(e: Edge, fleet: seq<Router>, gateways: set<Rid>) {
    var out, back := Entry(fleet, e.from_, e.to), Entry(fleet, e.to, e.from_);
    var far := if back.Some? then back.value.localIface else if out.Some? then out.value.portId else "";
    var radio := (out.Some? && IsWireless(out.value.localIface)) || IsWireless(far);
    var shown := !radio && e.from_ in gateways && InFleet(fleet, e.from_);
    && e.relationship == RouterUplink && e.method_ == Lldp && !e.overridden
    && e.link == (if radio then WifiLink else LanLink)
    && (forall p :: e.gatewayPort == Some(p) <==>
          p != "" && shown && out.Some? && p == NormalizePort(out.value.localIface))
    && (forall p :: e.apPort == Some(p) <==> p != "" && shown && p == if back.Some? then NormalizePort(far) else far)
  }

  lemma {:induction false} TableIs(fleet: seq<Router>, i: nat)
    requires DistinctIds(fleet) && i < |fleet|
    ensures TableOf(fleet, fleet[i].rid) == fleet[i].neighbors
  {
    if i > 0 {
      assert fleet[0].rid != fleet[i].rid && DistinctIds(fleet[1..]);
      TableIs(fleet[1..], i - 1);
    }
  }

  lemma {:induction false} StrangersHaveNoTable(fleet: seq<Router>, r: Rid)
    requires !InFleet(fleet, r)
    ensures TableOf(fleet, r) == []
  {
    if fleet != [] {
      assert fleet[0].rid != r;
      assert forall i | 0 <= i < |fleet[1..]| :: fleet[1..][i] == fleet[i + 1];
      StrangersHaveNoTable(fleet[1..], r);
    }
  }

  lemma EntryIsLookup(obs: Observations, fleet: seq<Router>, a: Rid, b: Rid)
    requires DistinctIds(fleet) && ObservationsOf(obs, fleet)
    ensures Entry(fleet, a, b) == Lookup(obs, a, b)
  {
    if a != b {
      if InFleet(fleet, a) {
        var i :| 0 <= i < |fleet| && fleet[i].rid == a;
        TableIs(fleet, i);
      } else {
        StrangersHaveNoTable(fleet, a);
      }
    }
  }

  lemma BothReachedOrNone(v: LldpView, fleet: seq<Router>, gateways: set<Rid>, a: Rid, b: Rid)
    requires ViewOf(v, fleet, gateways) && Linked(v, a, b)
    ensures a in v.depths <==> b in v.depths
  {
    var roots := set r | r in gateways && InFleet(fleet, r);
    if a in v.depths { NeighboursDiffer(v.depths, v.obs.Keys, roots, a, b); }
    if b in v.depths { NeighboursDiffer(v.depths, v.obs.Keys, roots, b, a); }
  }

  lemma TablesTold(v: LldpView, fleet: seq<Router>, a: Rid, b: Rid)
    requires DistinctIds(fleet) && ObservationsOf(v.obs, fleet)
    ensures Cabled(fleet, a, b) <==> Linked(v, a, b)
    ensures IfaceOf(v, a, b) == OwnIface(fleet, a, b) && IfaceOf(v, b, a) == OwnIface(fleet, b, a)
  {
    EntryIsLookup(v.obs, fleet, a, b);
    EntryIsLookup(v.obs, fleet, b, a);
  }

  /** The direction of a link as the neighbour tables, roles and depths determine it. */
  lemma DirectionTold(v: LldpView, fleet: seq<Router>, gateways: set<Rid>, a: Rid, b: Rid)
    requires DistinctIds(fleet) && ViewOf(v, fleet, gateways) && Linked(v, a, b)
    ensures var up, down := Downstream(fleet, gateways, v.depths, b, a), Downstream(fleet, gateways, v.depths, a, b);
            DirectionOf(v, a, b) == if down || (!up && StrLe(a, b)) then Direction(a, b, down) else Direction(b, a, up)
  {
    TablesTold(v, fleet, a, b);
    BothReachedOrNone(v, fleet, gateways, a, b);
    OrientTold(v, fleet, a, b);
  }

  lemma OrientTold(v: LldpView, fleet: seq<Router>, a: Rid, b: Rid)
    requires Cabled(fleet, a, b) && (a in v.depths <==> b in v.depths)
    requires IfaceOf(v, a, b) == OwnIface(fleet, a, b) && IfaceOf(v, b, a) == OwnIface(fleet, b, a)
    ensures var up := Downstream(fleet, v.gateways, v.depths, b, a);
            var down := Downstream(fleet, v.gateways, v.depths, a, b);
            DirectionOf(v, a, b) == if down || (!up && StrLe(a, b)) then Direction(a, b, down) else Direction(b, a, up)
  {
  }

  lemma AllTold(edges: seq<Edge>, uplinked: set<Rid>, v: LldpView, fleet: seq<Router>, gateways: set<Rid>)
    requires DistinctIds(fleet) && ViewOf(v, fleet, gateways) && EdgesOfView(edges, v)
    requires forall r :: r in uplinked <==> Uplinked(v, r)
    ensures EdgesTold(edges, uplinked, fleet, gateways, v.depths)
    ensures forall e | e in edges :: PortsTold(e, fleet, gateways)
  {
    forall a, b
      ensures HasEdge(edges, a, b) <==> Runs(fleet, gateways, v.depths, a, b)
    {
      EdgeTold(edges, v, fleet, gateways, a, b);
    }
    forall r ensures r in uplinked <==> exists a :: Downstream(fleet, gateways, v.depths, a, r) {
      UplinkTold(v, fleet, gateways, r);
    }
    forall e | e in edges ensures PortsTold(e, fleet, gateways) {
      PortTold(v, fleet, gateways, e);
    }
  }

  lemma EdgeTold(edges: seq<Edge>, v: LldpView, fleet: seq<Router>, gateways: set<Rid>, a: Rid, b: Rid)
    requires DistinctIds(fleet) && ViewOf(v, fleet, gateways) && EdgesOfView(edges, v)
    ensures HasEdge(edges, a, b) <==> Runs(fleet, gateways, v.depths, a, b)
  {
    TablesTold(v, fleet, a, b);
    if HasEdge(edges, a, b) {
      var e :| e in edges && e.from_ == a && e.to == b;
      assert e == LldpEdge(v, a, b);
    }
    if Linked(v, a, b) {
      DirectionTold(v, fleet, gateways, a, b);
      assert LldpEdge(v, a, b) in edges;
    }
  }

  lemma UplinkTold(v: LldpView, fleet: seq<Router>, gateways: set<Rid>, r: Rid)
    requires DistinctIds(fleet) && ViewOf(v, fleet, gateways)
    ensures Uplinked(v, r) <==> exists a :: Downstream(fleet, gateways, v.depths, a, r)
  {
    if Uplinked(v, r) {
      var a :| Linked(v, a, r) && DirectionOf(v, a, r).to == r && DirectionOf(v, a, r).anchored;
      TablesTold(v, fleet, a, r);
      DirectionTold(v, fleet, gateways, a, r);
    }
    if a :| Downstream(fleet, gateways, v.depths, a, r) {
      TablesTold(v, fleet, a, r);
      DirectionTold(v, fleet, gateways, a, r);
      assert Linked(v, a, r);
    }
  }

  lemma PortTold(v: LldpView, fleet: seq<Router>, gateways: set<Rid>, e: Edge)
    requires DistinctIds(fleet) && ViewOf(v, fleet, gateways)
    requires Linked(v, e.from_, e.to) && e == LldpEdge(v, e.from_, e.to)
    ensures PortsTold(e, fleet, gateways)
  {
    EntryIsLookup(v.obs, fleet, e.from_, e.to);
    EntryIsLookup(v.obs, fleet, e.to, e.from_);
    DepthZeroIff(v.depths, v.obs.Keys, (set r | r in gateways && InFleet(fleet, r)), e.from_);
  }

  /** Between two routers of one role and depth the WAN ports decide. If exactly one end is a WAN
      port, that end is downstream and counts as uplinked. If neither or both are, the edge runs
      from the lesser id, and neither router counts as uplinked because of it. */
  lemma WanPortDecides(edges: seq<Edge>, uplinked: set<Rid>, fleet: seq<Router>, gateways: set<Rid>,
                       hops: map<Rid, nat>, a: Rid, b: Rid)
    requires EdgesTold(edges, uplinked, fleet, gateways, hops) && Cabled(fleet, a, b)
    requires (a in gateways <==> b in gateways) && (a in hops && b in hops ==> hops[a] == hops[b])
    ensures FacesWan(fleet, b, a) && !FacesWan(fleet, a, b) ==>
              HasEdge(edges, a, b) && !HasEdge(edges, b, a) && b in uplinked
    ensures FacesWan(fleet, a, b) == FacesWan(fleet, b, a) ==>
              (HasEdge(edges, a, b) <==> StrLe(a, b)) && (HasEdge(edges, b, a) <==> StrLe(b, a))
    ensures FacesWan(fleet, a, b) == FacesWan(fleet, b, a) && b in uplinked ==>
              exists c :: c != a && Downstream(fleet, gateways, hops, c, b)
  {
    assert Cabled(fleet, b, a);
    if FacesWan(fleet, b, a) && !FacesWan(fleet, a, b) {
      assert Downstream(fleet, gateways, hops, a, b);
    } else if FacesWan(fleet, a, b) == FacesWan(fleet, b, a) {
      assert !Downstream(fleet, gateways, hops, a, b) && !Downstream(fleet, gateways, hops, b, a);
    }
  }

  /** The first entry counts: no earlier one identifies the same router. */
  lemma {:induction false} FirstToIsFirst(neighbors: seq<Neighbor>, b: Rid, n: Neighbor)
    ensures FirstTo(neighbors, b) == Some(n) <==>
            exists j | 0 <= j < |neighbors| ::
              neighbors[j] == n && n.peer == Some(b) && forall k | 0 <= k < j :: neighbors[k].peer != Some(b)
  {
    if neighbors != [] {
      FirstToIsFirst(neighbors[1..], b, n);
      if neighbors[0].peer != Some(b) {
        if j :| 0 <= j < |neighbors[1..]| && neighbors[1..][j] == n && n.peer == Some(b)
                && forall k | 0 <= k < j :: neighbors[1..][k].peer != Some(b) {
          assert neighbors[j + 1] == n;
          assert forall k | 0 < k < j + 1 :: neighbors[k] == neighbors[1..][k - 1];
        }
        if j :| 0 <= j < |neighbors| && neighbors[j] == n && n.peer == Some(b)
                && forall k | 0 <= k < j :: neighbors[k].peer != Some(b) {
          assert neighbors[1..][j - 1] == n;
          assert forall k | 0 <= k < j - 1 :: neighbors[1..][k] == neighbors[k + 1];
        }
      }
    }
  }

  // ------------------------------------------------------------ main results

  /** Links join two different configured routers. */
  lemma LinksJoinRouters(v: LldpView, fleet: seq<Router>, gateways: set<Rid>, a: Rid, b: Rid)
    requires DistinctIds(fleet) && PeersConfigured(fleet) && ViewOf(v, fleet, gateways) && Linked(v, a, b)
    ensures a != b && InFleet(fleet, a) && InFleet(fleet, b)
  {
    if (a, b) in v.obs {
      SeenPeerIsConfigured(v, fleet, a, b);
    } else {
      SeenPeerIsConfigured(v, fleet, b, a);
    }
  }

  lemma SeenPeerIsConfigured(v: LldpView, fleet: seq<Router>, a: Rid, b: Rid)
    requires PeersConfigured(fleet) && ObservationsOf(v.obs, fleet) && (a, b) in v.obs
    ensures a != b && InFleet(fleet, a) && InFleet(fleet, b)
  {
    var i :| 0 <= i < |fleet| && fleet[i].rid == a;
    assert Lookup(v.obs, fleet[i].rid, b) == FirstTo(fleet[i].neighbors, b);
    var j := FirstToIndex(fleet[i].neighbors, b);
    assert fleet[i].neighbors[j].peer.Some?;
  }

  lemma {:induction false} FirstToIndex(neighbors: seq<Neighbor>, b: Rid) returns (j: nat)
    requires FirstTo(neighbors, b).Some?
    ensures j < |neighbors| && neighbors[j].peer == Some(b)
  {
    if neighbors[0].peer == Some(b) {
      j := 0;
    } else {
      j := FirstToIndex(neighbors[1..], b);
      j := j + 1;
    }
  }

  /** No edge between reachable routers leads back towards the gateway. */
  lemma EdgesLeadAway(v: LldpView, fleet: seq<Router>, gateways: set<Rid>, e: Edge)
    requires ViewOf(v, fleet, gateways) && PeersConfigured(fleet)
    requires Linked(v, e.from_, e.to) && e == LldpEdge(v, e.from_, e.to) && e.from_ in v.depths
    ensures e.to in v.depths && v.depths[e.from_] <= v.depths[e.to] <= v.depths[e.from_] + 1
  {
    var roots := set r | r in gateways && InFleet(fleet, r);
    var a, b := e.from_, e.to;
    NeighboursDiffer(v.depths, v.obs.Keys, roots, a, b);
    DepthZeroIff(v.depths, v.obs.Keys, roots, a);
    DepthZeroIff(v.depths, v.obs.Keys, roots, b);
    if (a, b) in v.obs { SeenPeerIsConfigured(v, fleet, a, b); } else { SeenPeerIsConfigured(v, fleet, b, a); }
  }

  /** Every reachable router but a gateway gets an anchored edge from exactly one hop nearer. */
  lemma UplinkExists(v: LldpView, fleet: seq<Router>, gateways: set<Rid>, r: Rid) returns (q: Rid)
    requires ViewOf(v, fleet, gateways) && PeersConfigured(fleet) && r in v.depths && v.depths[r] > 0
    ensures Linked(v, q, r) && q in v.depths && v.depths[q] == v.depths[r] - 1
    ensures DirectionOf(v, q, r) == Direction(q, r, true)
    ensures Uplinked(v, r)
  {
    var roots := set x | x in gateways && InFleet(fleet, x);
    q := NearerNeighbour(v.depths, v.obs.Keys, roots, r);
    DepthZeroIff(v.depths, v.obs.Keys, roots, q);
    DepthZeroIff(v.depths, v.obs.Keys, roots, r);
    if (q, r) in v.obs { SeenPeerIsConfigured(v, fleet, q, r); } else { SeenPeerIsConfigured(v, fleet, r, q); }
  }

  ghost predicate HasEdge(edges: seq<Edge>, a: Rid, b: Rid) {
    exists e | e in edges :: e.from_ == a && e.to == b
  }

  /** Each step of `chain` follows an edge of the list, with its direction. */
  ghost predicate FollowsEdges(edges: seq<Edge>, chain: seq<Rid>) {
    forall i | 0 < i < |chain| :: HasEdge(edges, chain[i - 1], chain[i])
  }

  lemma DepthZeroIsGateway(v: LldpView, fleet: seq<Router>, gateways: set<Rid>, r: Rid)
    requires ViewOf(v, fleet, gateways) && r in v.depths && v.depths[r] == 0
    ensures r in gateways
  {
    var roots := set x | x in gateways && InFleet(fleet, x);
    DepthZeroIff(v.depths, v.obs.Keys, roots, r);
  }

  lemma FollowsFurther(edges: seq<Edge>, chain: seq<Rid>, r: Rid)
    requires chain != [] && FollowsEdges(edges, chain) && HasEdge(edges, chain[|chain| - 1], r)
    ensures FollowsEdges(edges, chain + [r])
  {
  }

  lemma UplinkEdge(edges: seq<Edge>, v: LldpView, fleet: seq<Router>, gateways: set<Rid>, r: Rid) returns (q: Rid)
    requires ViewOf(v, fleet, gateways) && PeersConfigured(fleet) && EdgesOfView(edges, v) && r in v.depths
             && v.depths[r] > 0
    ensures q in v.depths && v.depths[q] == v.depths[r] - 1 && HasEdge(edges, q, r)
  {
    q := UplinkExists(v, fleet, gateways, r);
    var e := LldpEdge(v, q, r);
    assert e in edges && e.from_ == q && e.to == r;
  }

  /** Walking uplink edges back from any reachable router ends at a gateway after
      exactly as many steps as its hop depth. */
  lemma {:induction false} UplinkTheorem(edges: seq<Edge>, v: LldpView, fleet: seq<Router>, gateways: set<Rid>, r: Rid)
    returns (chain: seq<Rid>)
    requires ViewOf(v, fleet, gateways) && PeersConfigured(fleet) && EdgesOfView(edges, v) && r in v.depths
    ensures |chain| == v.depths[r] + 1 && chain[|chain| - 1] == r && chain[0] in gateways
    ensures forall i | 0 <= i < |chain| :: chain[i] in v.depths && v.depths[chain[i]] == i
    ensures FollowsEdges(edges, chain)
    decreases v.depths[r]
  {
    if v.depths[r] == 0 {
      DepthZeroIsGateway(v, fleet, gateways, r);
      chain := [r];
    } else {
      var q := UplinkEdge(edges, v, fleet, gateways, r);
      var front := UplinkTheorem(edges, v, fleet, gateways, q);
      chain := front + [r];
      FollowsFurther(edges, front, r);
    }
  }
}
