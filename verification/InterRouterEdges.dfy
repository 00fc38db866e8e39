/** All router-to-router edges: LLDP first, then wired heuristics, WiFi sightings and a
    subnet fallback, none of which may contradict LLDP. */
module InterRouterEdges {
  import opened Options
  import opened HopDepths
  import opened Names
  import opened Fleet
  import opened LldpEdges

  // `Exact` says which edges the result consists of, by evidence and not by loop; the method
  // builds that list, and the theorems about the graph follow from `Exact`.

  /** What the detection works from: the fleet, the roles, LLDP and the identity tables. */
  datatype Evidence = Evidence(
    fleet: seq<Router>,
    gateways: set<Rid>,
    v: LldpView,
    macOwner: map<string, Rid>,
    ipOwner: map<string, Rid>)

  ghost predicate Proper(x: Evidence) {
    && DistinctIds(x.fleet) && PeersConfigured(x.fleet) && ViewOf(x.v, x.fleet, x.gateways)
    && (forall m | m in x.macOwner :: InFleet(x.fleet, x.macOwner[m]))
    && (forall m | m in x.ipOwner :: InFleet(x.fleet, x.ipOwner[m]))
  }

  function GatewayList(x: Evidence): seq<Router> {
    OrderedGateways(x.fleet, x.gateways)
  }

  // ------------------------------------------------- wired heuristic uplinks

  /** The first lease that names the host IP or the MAC. */
  function FindLease(leases: seq<Lease>, hostIp: string, mac: string): Option<Method> {
    if leases == [] then None
    else if leases[0].ip == Some(hostIp) then Some(DhcpIp)
    else if leases[0].mac == mac then Some(DhcpMac)
    else FindLease(leases[1..], hostIp, mac)
  }

  function Get(m: map<string, string>, key: string): Option<string> {
    if key in m then Some(m[key]) else None
  }

  function WiredEdge(g: Rid, ap: Rid, method_: Method, port: Option<string>): Edge {
    Edge(g, ap, LanUplink, LanLink, method_, false, port, Some("wan"))
  }

  type Hit = (Router, Router) -> Option<Edge>

  /** A heuristic may propose an uplink of `ap` from `g` at all: LLDP does not speak
      about the pair, `ap` has no LLDP uplink and is no gateway itself. */
  predicate Open(blocked: set<Link>, uplinked: set<Rid>, gateways: set<Rid>, g: Rid, ap: Rid) {
    g != ap && (g, ap) !in blocked && ap !in uplinked && ap !in gateways
  }

  /** Method 1: the host IP or MAC of the access point is leased by the gateway. */
  function DhcpHit(blocked: set<Link>, uplinked: set<Rid>, gateways: set<Rid>): Hit {
    (g: Router, ap: Router) =>
      var found := FindLease(g.leases, ap.hostIp, ap.mac);
      if Open(blocked, uplinked, gateways, g.rid, ap.rid) && found.Some?
      then Some(WiredEdge(g.rid, ap.rid, found.value, Get(g.fdb, Lower(ap.mac)))) else None
  }

  /** Method 2.5: the gateway knows the port behind which the host IP lies. */
  function ArpHit(blocked: set<Link>, uplinked: set<Rid>, gateways: set<Rid>): Hit {
    (g: Router, ap: Router) =>
      var port := Get(g.trunk, ap.hostIp);
      if Open(blocked, uplinked, gateways, g.rid, ap.rid) && port.Some? && port.value != ""
      then Some(WiredEdge(g.rid, ap.rid, ArpPort, port)) else None
  }

  /** The first gateway in order that sees the access point claims it. */
  function FirstHit(gs: seq<Router>, ap: Router, hit: Hit): Option<Edge> {
    if gs == [] then None else if hit(gs[0], ap).Some? then hit(gs[0], ap) else FirstHit(gs[1..], ap, hit)
  }

  lemma {:induction false} FirstHitMore(gs: seq<Router>, g: Router, ap: Router, hit: Hit)
    ensures FirstHit(gs + [g], ap, hit) == if FirstHit(gs, ap, hit).Some? then FirstHit(gs, ap, hit) else hit(g, ap)
  {
    if gs == [] {
      assert gs + [g] == [g];
    } else {
      assert (gs + [g])[1..] == gs[1..] + [g];
      FirstHitMore(gs[1..], g, ap, hit);
    }
  }

  lemma {:induction false} FirstHitFrom(gs: seq<Router>, ap: Router, hit: Hit)
    requires FirstHit(gs, ap, hit).Some?
    ensures exists g | g in gs :: hit(g, ap) == FirstHit(gs, ap, hit)
  {
    if hit(gs[0], ap).None? {
      FirstHitFrom(gs[1..], ap, hit);
    }
  }

  /** What `hit` promises about the edges it proposes. */
  ghost predicate GoodHit(hit: Hit) {
    forall g, ap | hit(g, ap).Some? ::
      hit(g, ap).value.from_ == g.rid && hit(g, ap).value.to == ap.rid && g.rid != ap.rid
  }

  ghost predicate UniqueTargets(edges: seq<Edge>) {
    forall i, j | 0 <= i < j < |edges| :: edges[i].to != edges[j].to
  }

  /** The edges of the first hits of all access points nobody claimed before. */
  ghost predicate FirstHits(edges: seq<Edge>, fleet: seq<Router>, gs: seq<Router>, hit: Hit, before: set<Rid>) {
    && (forall e :: e in edges <==> exists k | 0 <= k < |fleet| ::
          fleet[k].rid !in before && FirstHit(gs, fleet[k], hit) == Some(e))
    && UniqueTargets(edges)
  }

  /** While claiming: `best[k]` is the first hit so far of access point `k`. */
  ghost predicate Claiming(edges: seq<Edge>, claimed: set<Rid>, fleet: seq<Router>, before: set<Rid>,
                           best: seq<Option<Edge>>) {
    && |best| == |fleet|
    && (forall k | 0 <= k < |fleet| && best[k].Some? :: best[k].value.to == fleet[k].rid)
    && (forall e :: e in edges <==> exists k | 0 <= k < |fleet| :: fleet[k].rid !in before && best[k] == Some(e))
    && (forall k | 0 <= k < |fleet| :: fleet[k].rid in claimed <==> fleet[k].rid in before || best[k].Some?)
    && UniqueTargets(edges)
  }

  /** The claiming loop of methods 1 and 2.5. */
  method ClaimUplinks(fleet: seq<Router>, gs: seq<Router>, hit: Hit, seen0: set<Link>, before: set<Rid>)
    returns (edges: seq<Edge>, seen: set<Link>, claimed: set<Rid>)
    requires DistinctIds(fleet) && GoodHit(hit)
    requires forall g: Router, ap: Router | (g.rid, ap.rid) in seen0 && ap.rid !in before :: hit(g, ap).None?
    ensures FirstHits(edges, fleet, gs, hit, before)
    ensures seen == seen0 + EdgePairs(edges)
    ensures forall k | 0 <= k < |fleet| ::
              fleet[k].rid in claimed <==> fleet[k].rid in before || FirstHit(gs, fleet[k], hit).Some?
  {
    edges, seen, claimed := [], seen0, before;
    ghost var best := seq(|fleet|, k => None);
    for i := 0 to |gs|
      invariant Claiming(edges, claimed, fleet, before, best)
      invariant seen == seen0 + EdgePairs(edges)
      invariant forall k | 0 <= k < |fleet| :: best[k] == FirstHit(gs[..i], fleet[k], hit)
    {
      assert gs[..i + 1] == gs[..i] + [gs[i]];
      forall k | 0 <= k < |fleet|
        ensures FirstHit(gs[..i + 1], fleet[k], hit) == OrElse(FirstHit(gs[..i], fleet[k], hit), hit(gs[i], fleet[k]))
      {
        FirstHitMore(gs[..i], gs[i], fleet[k], hit);
      }
      edges, seen, claimed, best := ClaimFrom(gs[i], fleet, hit, seen0, before, edges, seen, claimed, best);
    }
    assert gs[..|gs|] == gs;
  }

  function OrElse(a: Option<Edge>, b: Option<Edge>): Option<Edge> {
    if a.Some? then a else b
  }

  /** One gateway claims what it sees and nobody claimed before. */
  method ClaimFrom(g: Router, fleet: seq<Router>, hit: Hit, ghost seen0: set<Link>, ghost before: set<Rid>,
                   edges0: seq<Edge>, seen1: set<Link>, claimed0: set<Rid>, ghost best0: seq<Option<Edge>>)
    returns (edges: seq<Edge>, seen: set<Link>, claimed: set<Rid>, ghost best: seq<Option<Edge>>)
    requires DistinctIds(fleet) && GoodHit(hit)
    requires forall h: Router, ap: Router | (h.rid, ap.rid) in seen0 && ap.rid !in before :: hit(h, ap).None?
    requires Claiming(edges0, claimed0, fleet, before, best0) && seen1 == seen0 + EdgePairs(edges0)
    ensures Claiming(edges, claimed, fleet, before, best) && seen == seen0 + EdgePairs(edges)
    ensures forall k | 0 <= k < |fleet| :: best[k] == OrElse(best0[k], hit(g, fleet[k]))
  {
    edges, seen, claimed, best := edges0, seen1, claimed0, best0;
    for j := 0 to |fleet|
      invariant Claiming(edges, claimed, fleet, before, best)
      invariant seen == seen0 + EdgePairs(edges)
      invariant forall k | 0 <= k < j :: best[k] == OrElse(best0[k], hit(g, fleet[k]))
      invariant forall k | j <= k < |fleet| :: best[k] == best0[k]
    {
      edges, seen, claimed, best := ClaimOne(g, j, fleet, hit, seen0, before, edges, seen, claimed, best);
    }
  }

  method ClaimOne(g: Router, j: nat, fleet: seq<Router>, hit: Hit, ghost seen0: set<Link>, ghost before: set<Rid>,
                  edges0: seq<Edge>, seen1: set<Link>, claimed0: set<Rid>, ghost best0: seq<Option<Edge>>)
    returns (edges: seq<Edge>, seen: set<Link>, claimed: set<Rid>, ghost best: seq<Option<Edge>>)
    requires j < |fleet| && DistinctIds(fleet) && GoodHit(hit)
    requires forall h: Router, ap: Router | (h.rid, ap.rid) in seen0 && ap.rid !in before :: hit(h, ap).None?
    requires Claiming(edges0, claimed0, fleet, before, best0) && seen1 == seen0 + EdgePairs(edges0)
    ensures Claiming(edges, claimed, fleet, before, best) && seen == seen0 + EdgePairs(edges)
    ensures best == best0[j := OrElse(best0[j], hit(g, fleet[j]))]
  {
    edges, seen, claimed := edges0, seen1, claimed0;
    best := best0[j := OrElse(best0[j], hit(g, fleet[j]))];
    var ap := fleet[j];
    if ap.rid == g.rid || (g.rid, ap.rid) in seen || ap.rid in claimed {
      NothingNew(edges, claimed, fleet, before, best0, seen0, hit, g, j);
      ClaimBefore(edges, claimed, fleet, before, best0, best, j);
      return;
    }
    var found := hit(g, ap);
    if found.Some? {
      ClaimNew(edges, claimed, fleet, before, best0, j, found.value);
      OneMorePair(edges, found.value);
      edges := edges + [found.value];
      seen := seen + {(g.rid, ap.rid)};
      claimed := claimed + {ap.rid};
    }
  }

  lemma OneMorePair(edges: seq<Edge>, e: Edge)
    ensures EdgePairs(edges + [e]) == EdgePairs(edges) + {(e.from_, e.to)}
  {
  }

  lemma NothingNew(edges: seq<Edge>, claimed: set<Rid>, fleet: seq<Router>, before: set<Rid>, best: seq<Option<Edge>>,
                   seen0: set<Link>, hit: Hit, g: Router, j: nat)
    requires Claiming(edges, claimed, fleet, before, best) && j < |fleet| && GoodHit(hit)
    requires forall h: Router, ap: Router | (h.rid, ap.rid) in seen0 && ap.rid !in before :: hit(h, ap).None?
    requires fleet[j].rid == g.rid || (g.rid, fleet[j].rid) in seen0 + EdgePairs(edges) || fleet[j].rid in claimed
    requires DistinctIds(fleet)
    ensures fleet[j].rid in before || best[j].Some? || hit(g, fleet[j]).None?
  {
    forall e | e in edges ensures e.to in claimed {
      var k :| 0 <= k < |fleet| && best[k] == Some(e);
    }
  }

  lemma ClaimBefore(edges: seq<Edge>, claimed: set<Rid>, fleet: seq<Router>, before: set<Rid>,
                    best: seq<Option<Edge>>, next: seq<Option<Edge>>, j: nat)
    requires Claiming(edges, claimed, fleet, before, best) && j < |fleet| && |next| == |best|
    requires next == best[j := next[j]] && (next[j] == best[j] || fleet[j].rid in before)
    requires next[j].Some? ==> next[j].value.to == fleet[j].rid
    ensures Claiming(edges, claimed, fleet, before, next)
  {
  }

  lemma ClaimNew(edges: seq<Edge>, claimed: set<Rid>, fleet: seq<Router>, before: set<Rid>,
                 best: seq<Option<Edge>>, j: nat, e: Edge)
    requires Claiming(edges, claimed, fleet, before, best) && j < |fleet| && DistinctIds(fleet)
    requires fleet[j].rid !in claimed && e.to == fleet[j].rid
    ensures Claiming(edges + [e], claimed + {fleet[j].rid}, fleet, before, best[j := Some(e)])
  {
    var next := best[j := Some(e)];
    forall f
      ensures f in edges + [e] <==> exists k | 0 <= k < |fleet| :: fleet[k].rid !in before && next[k] == Some(f)
    {
      if f in edges {
        var k :| 0 <= k < |fleet| && fleet[k].rid !in before && best[k] == Some(f);
        assert k != j && next[k] == Some(f);
      } else if f == e {
        assert next[j] == Some(f);
      }
      if exists k | 0 <= k < |fleet| :: fleet[k].rid !in before && next[k] == Some(f) {
        var k :| 0 <= k < |fleet| && fleet[k].rid !in before && next[k] == Some(f);
        if k != j { assert best[k] == Some(f); }
      }
    }
    forall i | 0 <= i < |edges| ensures edges[i].to != e.to {
      assert edges[i] in edges;
      var k :| 0 <= k < |fleet| && best[k] == Some(edges[i]);
      assert fleet[k].rid in claimed;
    }
  }

  // --------------------------------------------------------- WiFi sightings

  /** The router a client entry stands for: by MAC, else by IP. */
  function ClientRouter(x: Evidence, c: Client): Option<Rid> {
    if c.mac in x.macOwner && x.macOwner[c.mac] != "" then Some(x.macOwner[c.mac])
    else if c.ip in x.ipOwner && x.ipOwner[c.ip] != "" then Some(x.ipOwner[c.ip])
    else None
  }

  /** A sighting points from the gateway to the access point, else from the observer. */
  function Sighting(x: Evidence, src: Rid, c: Client): Option<Link> {
    var target := ClientRouter(x, c);
    if target.None? || target.value == src then None
    else if src !in x.gateways && target.value in x.gateways then Some((target.value, src))
    else Some((src, target.value))
  }

  function SightingsOf(x: Evidence, src: Rid, clients: seq<Client>): set<Link> {
    if clients == [] then {}
    else
      var s := Sighting(x, src, clients[|clients| - 1]);
      SightingsOf(x, src, clients[..|clients| - 1]) + if s.Some? then {s.value} else {}
  }

  function Sightings(x: Evidence, fleet: seq<Router>): set<Link> {
    if fleet == [] then {}
    else
      var last := fleet[|fleet| - 1];
      Sightings(x, fleet[..|fleet| - 1]) + SightingsOf(x, last.rid, last.clients)
  }

  function WifiEdge(l: Link): Edge {
    Edge(l.0, l.1, WifiUplink, WifiLink, WifiClient, false, None, None)
  }

  /** An edge for each pair of `visited` that is not seen or uplinked otherwise. */
  ghost predicate WifiFrom(edges: seq<Edge>, visited: set<Link>, seen0: set<Link>, uplinked: set<Rid>) {
    && (forall e :: e in edges <==>
          (e.from_, e.to) in visited && (e.from_, e.to) !in seen0 && e.to !in uplinked
            && e == WifiEdge((e.from_, e.to)))
    && UniqueEdges(edges)
  }

  /** Method 2. */
  method WifiUplinks(x: Evidence, seen0: set<Link>, uplinked: set<Rid>) returns (edges: seq<Edge>, seen: set<Link>)
    ensures WifiFrom(edges, Sightings(x, x.fleet), seen0, uplinked)
    ensures seen == seen0 + EdgePairs(edges)
  {
    edges, seen := [], seen0;
    for i := 0 to |x.fleet|
      invariant WifiFrom(edges, Sightings(x, x.fleet[..i]), seen0, uplinked)
      invariant seen == seen0 + EdgePairs(edges)
    {
      var src := x.fleet[i];
      assert x.fleet[..i + 1][..i] == x.fleet[..i];
      ghost var before := Sightings(x, x.fleet[..i]);
      for j := 0 to |src.clients|
        invariant WifiFrom(edges, before + SightingsOf(x, src.rid, src.clients[..j]), seen0, uplinked)
        invariant seen == seen0 + EdgePairs(edges)
      {
        assert src.clients[..j + 1][..j] == src.clients[..j];
        ghost var visited := before + SightingsOf(x, src.rid, src.clients[..j]);
        var sighting := Sighting(x, src.rid, src.clients[j]);
        ghost var after := before + SightingsOf(x, src.rid, src.clients[..j + 1]);
        if sighting.None? {
          assert after == visited;
          continue;
        }
        var l := sighting.value;
        assert after == visited + {l};
        if l in seen || l.1 in uplinked {
          SightingKnown(edges, visited, seen0, uplinked, l);
          continue;
        }
        SightingNew(edges, visited, seen0, uplinked, l);
        edges := edges + [WifiEdge(l)];
        seen := seen + {l};
      }
      assert src.clients[..|src.clients|] == src.clients;
    }
    assert x.fleet[..|x.fleet|] == x.fleet;
  }

  lemma SightingKnown(edges: seq<Edge>, visited: set<Link>, seen0: set<Link>, uplinked: set<Rid>, l: Link)
    requires WifiFrom(edges, visited, seen0, uplinked) && (l in seen0 + EdgePairs(edges) || l.1 in uplinked)
    ensures WifiFrom(edges, visited + {l}, seen0, uplinked)
  {
    if l !in seen0 && l.1 !in uplinked {
      var e :| e in edges && (e.from_, e.to) == l;
    }
  }

  lemma SightingNew(edges: seq<Edge>, visited: set<Link>, seen0: set<Link>, uplinked: set<Rid>, l: Link)
    requires WifiFrom(edges, visited, seen0, uplinked) && l !in seen0 + EdgePairs(edges) && l.1 !in uplinked
    ensures WifiFrom(edges + [WifiEdge(l)], visited + {l}, seen0, uplinked)
  {
    forall i | 0 <= i < |edges| ensures (edges[i].from_, edges[i].to) != l {
      assert edges[i] in edges && (edges[i].from_, edges[i].to) in EdgePairs(edges);
    }
  }

  // -------------------------------------------------------- repeater override

  ghost predicate Repeater(fleet: seq<Router>, r: Rid) {
    exists i | 0 <= i < |fleet| :: fleet[i].rid == r && fleet[i].staActive
  }

  ghost predicate Carrier(fleet: seq<Router>, r: Rid) {
    exists i | 0 <= i < |fleet| :: fleet[i].rid == r && fleet[i].wanCarrier
  }

  function Promotion(e: Edge): Edge {
    Edge(e.from_, e.to, WifiUplink, WifiLink, e.method_, true, None, None)
  }

  /** An edge into a wireless repeater without WAN carrier is no cable, unless LLDP saw the cable. */
  ghost function Promoted(fleet: seq<Router>, e: Edge): Edge {
    if e.relationship != WifiUplink && Repeater(fleet, e.to) && !Carrier(fleet, e.to)
      && !(e.method_ == Lldp && e.link != WifiLink)
    then Promotion(e) else e
  }

  method FleetSets(fleet: seq<Router>) returns (repeaters: set<Rid>, wired: set<Rid>)
    ensures forall r :: r in repeaters <==> Repeater(fleet, r)
    ensures forall r :: r in wired <==> Carrier(fleet, r)
  {
    repeaters := set i | 0 <= i < |fleet| && fleet[i].staActive :: fleet[i].rid;
    wired := set i | 0 <= i < |fleet| && fleet[i].wanCarrier :: fleet[i].rid;
  }

  /** The loop that rewrites the edge list in place. */
  method OverrideRepeaters(fleet: seq<Router>, edges0: seq<Edge>) returns (edges: seq<Edge>)
    ensures |edges| == |edges0|
    ensures forall i | 0 <= i < |edges| :: edges[i] == Promoted(fleet, edges0[i])
  {
    var repeaters, wired := FleetSets(fleet);
    edges := edges0;
    for i := 0 to |edges|
      invariant |edges| == |edges0|
      invariant forall k | 0 <= k < i :: edges[k] == Promoted(fleet, edges0[k])
      invariant forall k | i <= k < |edges| :: edges[k] == edges0[k]
    {
      var e := edges[i];
      if e.relationship != LanUplink && e.relationship != MeshMember && e.relationship != RouterUplink {
        continue;
      }
      if e.to !in repeaters {
        continue;
      }
      if e.to in wired {
        continue;
      }
      if e.method_ == Lldp && e.link != WifiLink {
        continue;
      }
      edges := edges[i := Promotion(e)];
    }
  }

  // --------------------------------------------------------- subnet fallback

  /** Method 3 for one access point without any edge. */
  function Fallback(g: Router, ap: Router): Option<Edge> {
    if ap.staActive then Some(Edge(g.rid, ap.rid, WifiUplink, WifiLink, StaFallback, false, None, None))
    else if g.net24.Some? && ap.net24.Some? && g.net24 != ap.net24 then None
    else Some(Edge(g.rid, ap.rid, MeshMember, UnknownLink, SubnetFallback, false, None, None))
  }

  predicate Touches(e: Edge, r: Rid) {
    e.from_ == r || e.to == r
  }

  ghost predicate Untouched(edges: seq<Edge>, r: Rid) {
    forall e | e in edges :: !Touches(e, r)
  }

  /** The fallback edges of the access points that no edge in `base` touches. */
  ghost predicate FallbacksFor(more: seq<Edge>, base: seq<Edge>, fleet: seq<Router>, gateways: set<Rid>, g: Router) {
    && (forall e :: e in more <==> exists k | 0 <= k < |fleet| :: FallbackOf(base, gateways, g, fleet[k]) == Some(e))
    && UniqueTargets(more)
  }

  method SubnetFallbacks(fleet: seq<Router>, gateways: set<Rid>, g: Router, base: seq<Edge>, seen: set<Link>,
                         uplinked: set<Rid>)
    returns (more: seq<Edge>)
    requires DistinctIds(fleet)
    requires forall r | Untouched(base, r) :: (g.rid, r) !in seen && r !in uplinked
    ensures FallbacksFor(more, base, fleet, gateways, g)
  {
    var connected := (set e | e in base :: e.to) + (set e | e in base :: e.from_);
    assert forall r :: r in connected <==> !Untouched(base, r);
    more := [];
    for i := 0 to |fleet|
      invariant FallbacksFor(more, base, fleet[..i], gateways, g)
    {
      var ap := fleet[i];
      var open := ap.rid !in connected && ap.rid !in gateways;
      assert open ==> (g.rid, ap.rid) !in seen && ap.rid !in uplinked;
      FallbackStep(more, base, fleet, gateways, g, i);
      if !open || (g.rid, ap.rid) in seen || ap.rid in uplinked {
        continue;
      }
      if ap.staActive {
        more := more + [Edge(g.rid, ap.rid, WifiUplink, WifiLink, StaFallback, false, None, None)];
        continue;
      }
      if g.net24.Some? && ap.net24.Some? && g.net24 != ap.net24 {
        continue;
      }
      more := more + [Edge(g.rid, ap.rid, MeshMember, UnknownLink, SubnetFallback, false, None, None)];
    }
    assert fleet[..|fleet|] == fleet;
  }

  /** The fallback edge of one access point, if no edge in `base` touches it. */
  ghost function FallbackOf(base: seq<Edge>, gateways: set<Rid>, g: Router, ap: Router): Option<Edge> {
    if ap.rid !in gateways && Untouched(base, ap.rid) then Fallback(g, ap) else None
  }

  lemma FallbackStep(more: seq<Edge>, base: seq<Edge>, fleet: seq<Router>, gateways: set<Rid>, g: Router, i: nat)
    requires i < |fleet| && DistinctIds(fleet) && FallbacksFor(more, base, fleet[..i], gateways, g)
    ensures var found := FallbackOf(base, gateways, g, fleet[i]);
            FallbacksFor(more + if found.Some? then [found.value] else [], base, fleet[..i + 1], gateways, g)
  {
    var found := FallbackOf(base, gateways, g, fleet[i]);
    var best := seq(i, k requires 0 <= k < i => FallbackOf(base, gateways, g, fleet[k]));
    forall e ensures e in more <==> exists k | 0 <= k < i :: best[k] == Some(e) {
      if e in more {
        var k :| 0 <= k < i && FallbackOf(base, gateways, g, fleet[..i][k]) == Some(e);
        assert best[k] == Some(e);
      }
      if k :| 0 <= k < i && best[k] == Some(e) {
        assert FallbackOf(base, gateways, g, fleet[..i][k]) == Some(e);
      }
    }
    forall k | 0 <= k < i && best[k].Some? && found.Some? ensures best[k].value.to != found.value.to {
      assert fleet[k].rid != fleet[i].rid;
    }
    AddFound(more, best, found);
    var upto := fleet[..i + 1];
    assert forall k | 0 <= k <= i :: (best + [found])[k] == FallbackOf(base, gateways, g, upto[k]);
  }

  lemma AddFound(more: seq<Edge>, best: seq<Option<Edge>>, found: Option<Edge>)
    requires forall e :: e in more <==> exists k | 0 <= k < |best| :: best[k] == Some(e)
    requires forall k | 0 <= k < |best| && best[k].Some? && found.Some? :: best[k].value.to != found.value.to
    requires UniqueTargets(more)
    ensures var next := more + if found.Some? then [found.value] else [];
            UniqueTargets(next) &&
            forall e :: e in next <==> exists k | 0 <= k <= |best| :: (best + [found])[k] == Some(e)
  {
    var next, all := more + if found.Some? then [found.value] else [], best + [found];
    forall e ensures e in next <==> exists k | 0 <= k <= |best| :: all[k] == Some(e) {
      if e in more {
        var k :| 0 <= k < |best| && best[k] == Some(e);
        assert all[k] == Some(e);
      }
      assert all[|best|] == found;
    }
    forall j | 0 <= j < |more| && found.Some? ensures more[j].to != found.value.to {
      assert more[j] in more;
    }
  }

  // ------------------------------------------------------ the exact edge set

  /** Both directions of every pair that LLDP speaks about. */
  ghost function BlockedLinks(v: LldpView): set<Link> {
    v.obs.Keys + set l | l in v.obs.Keys :: (l.1, l.0)
  }

  ghost function UplinkedRids(v: LldpView): set<Rid> {
    set r | r in Endpoints(v.obs.Keys) && Uplinked(v, r)
  }

  lemma BlockedIffLinked(v: LldpView)
    ensures forall a, b :: (a, b) in BlockedLinks(v) <==> Linked(v, a, b)
    ensures forall r :: r in UplinkedRids(v) <==> Uplinked(v, r)
  {
    forall a, b ensures (a, b) in BlockedLinks(v) <==> Linked(v, a, b) {
      if (b, a) in v.obs { assert ((b, a).1, (b, a).0) == (a, b); }
    }
    forall r | Uplinked(v, r) ensures r in Endpoints(v.obs.Keys) {
      var a :| Linked(v, a, r) && DirectionOf(v, a, r).to == r && DirectionOf(v, a, r).anchored;
      AdjacentIsPeer(v.obs.Keys, a, r);
    }
  }

  lemma LldpSets(v: LldpView, blocked: set<Link>, uplinked: set<Rid>)
    requires forall a, b :: (a, b) in blocked <==> Linked(v, a, b)
    requires forall r :: r in uplinked <==> Uplinked(v, r)
    ensures blocked == BlockedLinks(v) && uplinked == UplinkedRids(v)
  {
    BlockedIffLinked(v);
    forall l ensures l in blocked <==> l in BlockedLinks(v) {
      assert l == (l.0, l.1);
    }
  }

  ghost function DhcpOf(x: Evidence, ap: Router): Option<Edge> {
    FirstHit(GatewayList(x), ap, DhcpHit(BlockedLinks(x.v), UplinkedRids(x.v), x.gateways))
  }

  ghost function ArpOf(x: Evidence, ap: Router): Option<Edge> {
    FirstHit(GatewayList(x), ap, ArpHit(BlockedLinks(x.v), UplinkedRids(x.v), x.gateways))
  }

  /** The one wired heuristic uplink of an access point: leases before ports. */
  ghost function WiredUplink(x: Evidence, ap: Router): Option<Edge> {
    if DhcpOf(x, ap).Some? then DhcpOf(x, ap) else ArpOf(x, ap)
  }

  ghost predicate IsLldp(x: Evidence, e: Edge) {
    Linked(x.v, e.from_, e.to) && e == LldpEdge(x.v, e.from_, e.to)
  }

  ghost predicate IsWired(x: Evidence, e: Edge) {
    exists k | 0 <= k < |x.fleet| :: WiredUplink(x, x.fleet[k]) == Some(e)
  }

  /** Seen as a WiFi client, and neither LLDP nor a cable explains the pair. */
  ghost predicate IsWifi(x: Evidence, e: Edge) {
    && (e.from_, e.to) in Sightings(x, x.fleet)
    && (e.from_, e.to) !in BlockedLinks(x.v) && e.to !in UplinkedRids(x.v)
    && (forall w | IsWired(x, w) :: (w.from_, w.to) != (e.from_, e.to))
    && e == WifiEdge((e.from_, e.to))
  }

  ghost predicate IsBase(x: Evidence, e: Edge) {
    IsLldp(x, e) || IsWired(x, e) || IsWifi(x, e)
  }

  ghost predicate NoBase(x: Evidence, r: Rid) {
    forall b | IsBase(x, b) :: !Touches(b, r)
  }

  ghost predicate IsFallback(x: Evidence, e: Edge) {
    GatewayList(x) != [] && exists k | 0 <= k < |x.fleet| ::
      x.fleet[k].rid !in x.gateways && NoBase(x, x.fleet[k].rid) && Fallback(GatewayList(x)[0], x.fleet[k]) == Some(e)
  }

  ghost predicate IsPromoted(x: Evidence, e: Edge) {
    exists b :: IsBase(x, b) && e == Promoted(x.fleet, b)
  }

  /** The edges are exactly those the evidence calls for. */
  ghost predicate Exact(x: Evidence, edges: seq<Edge>) {
    forall e :: e in edges <==> IsPromoted(x, e) || IsFallback(x, e)
  }

  // -------------------------------------------------- why the list is exact

  lemma DhcpAreClaimed(x: Evidence, dhcp: seq<Edge>, blocked: set<Link>, uplinked: set<Rid>, claimed: set<Rid>)
    requires FirstHits(dhcp, x.fleet, GatewayList(x), DhcpHit(blocked, uplinked, x.gateways), {})
    requires forall k | 0 <= k < |x.fleet| ::
               x.fleet[k].rid in claimed <==>
               FirstHit(GatewayList(x), x.fleet[k], DhcpHit(blocked, uplinked, x.gateways)).Some?
    ensures GoodHit(DhcpHit(blocked, uplinked, x.gateways)) && GoodHit(ArpHit(blocked, uplinked, x.gateways))
    ensures forall e | e in dhcp :: e.to in claimed
    ensures forall g: Router, ap: Router | (g.rid, ap.rid) in blocked + EdgePairs(dhcp) && ap.rid !in claimed ::
              ArpHit(blocked, uplinked, x.gateways)(g, ap).None?
  {
    var hit := DhcpHit(blocked, uplinked, x.gateways);
    forall e | e in dhcp ensures e.to in claimed {
      var k :| 0 <= k < |x.fleet| && FirstHit(GatewayList(x), x.fleet[k], hit) == Some(e);
      FirstHitFrom(GatewayList(x), x.fleet[k], hit);
    }
  }

  /** The two claiming loops together give every access point its one wired uplink. */
  ghost predicate WiredLists(x: Evidence, dhcp: seq<Edge>, arp: seq<Edge>, claimed: set<Rid>) {
    var blocked, uplinked := BlockedLinks(x.v), UplinkedRids(x.v);
    && FirstHits(dhcp, x.fleet, GatewayList(x), DhcpHit(blocked, uplinked, x.gateways), {})
    && FirstHits(arp, x.fleet, GatewayList(x), ArpHit(blocked, uplinked, x.gateways), claimed)
    && (forall k | 0 <= k < |x.fleet| :: x.fleet[k].rid in claimed <==> DhcpOf(x, x.fleet[k]).Some?)
    && (forall e | e in dhcp :: e.to in claimed)
  }

  lemma WiredIsExact(x: Evidence, dhcp: seq<Edge>, arp: seq<Edge>, claimed: set<Rid>)
    requires WiredLists(x, dhcp, arp, claimed)
    ensures forall e :: e in dhcp || e in arp <==> IsWired(x, e)
  {
    forall e ensures e in dhcp || e in arp <==> IsWired(x, e) {
      if e in dhcp {
        var k :| 0 <= k < |x.fleet| && DhcpOf(x, x.fleet[k]) == Some(e);
        assert WiredUplink(x, x.fleet[k]) == Some(e);
      }
      if e in arp {
        var k :| 0 <= k < |x.fleet| && x.fleet[k].rid !in claimed && ArpOf(x, x.fleet[k]) == Some(e);
        assert WiredUplink(x, x.fleet[k]) == Some(e);
      }
      if IsWired(x, e) {
        var k :| 0 <= k < |x.fleet| && WiredUplink(x, x.fleet[k]) == Some(e);
        if DhcpOf(x, x.fleet[k]).None? { assert x.fleet[k].rid !in claimed; }
      }
    }
  }

  /** A wired heuristic uplink comes from a gateway that was open to claim it. */
  lemma WiredIsOpen(x: Evidence, e: Edge) returns (k: nat)
    requires IsWired(x, e)
    ensures k < |x.fleet| && WiredUplink(x, x.fleet[k]) == Some(e) && e.to == x.fleet[k].rid
    ensures Open(BlockedLinks(x.v), UplinkedRids(x.v), x.gateways, e.from_, e.to)
    ensures e.from_ in x.gateways && InFleet(x.fleet, e.from_)
    ensures e.relationship == LanUplink && e.method_ in {DhcpIp, DhcpMac, ArpPort}
  {
    k :| 0 <= k < |x.fleet| && WiredUplink(x, x.fleet[k]) == Some(e);
    var ap, blocked, uplinked := x.fleet[k], BlockedLinks(x.v), UplinkedRids(x.v);
    var hit := if DhcpOf(x, ap).Some? then DhcpHit(blocked, uplinked, x.gateways)
      else ArpHit(blocked, uplinked, x.gateways);
    FirstHitFrom(GatewayList(x), ap, hit);
    var g :| g in GatewayList(x) && hit(g, ap) == Some(e);
    var i :| 0 <= i < |x.fleet| && x.fleet[i] == g;
    if DhcpOf(x, ap).Some? { LeaseMethods(g.leases, ap.hostIp, ap.mac); }
  }

  lemma {:induction false} LeaseMethods(leases: seq<Lease>, hostIp: string, mac: string)
    ensures FindLease(leases, hostIp, mac).Some? ==> FindLease(leases, hostIp, mac).value in {DhcpIp, DhcpMac}
  {
    if leases != [] {
      LeaseMethods(leases[1..], hostIp, mac);
    }
  }

  ghost predicate AllLists(x: Evidence, lldp: seq<Edge>, dhcp: seq<Edge>, arp: seq<Edge>, wifi: seq<Edge>,
                           claimed: set<Rid>) {
    && EdgesOfView(lldp, x.v)
    && WiredLists(x, dhcp, arp, claimed)
    && WifiFrom(wifi, Sightings(x, x.fleet), BlockedLinks(x.v) + EdgePairs(dhcp) + EdgePairs(arp), UplinkedRids(x.v))
  }

  lemma BaseIsExact(x: Evidence, lldp: seq<Edge>, dhcp: seq<Edge>, arp: seq<Edge>, wifi: seq<Edge>, claimed: set<Rid>)
    requires AllLists(x, lldp, dhcp, arp, wifi, claimed)
    ensures forall e :: e in lldp + dhcp + arp + wifi <==> IsBase(x, e)
  {
    WiredIsExact(x, dhcp, arp, claimed);
    forall e ensures e in wifi <==> IsWifi(x, e) {
      var l := (e.from_, e.to);
      if l in EdgePairs(dhcp) + EdgePairs(arp) {
        var w :| (w in dhcp || w in arp) && (w.from_, w.to) == l;
        assert IsWired(x, w);
      }
      if exists w :: IsWired(x, w) && (w.from_, w.to) == l {
        var w :| IsWired(x, w) && (w.from_, w.to) == l;
        assert l in EdgePairs(dhcp) + EdgePairs(arp);
      }
    }
    forall e ensures e in lldp <==> IsLldp(x, e) {
    }
  }

  lemma UniqueAppend(a: seq<Edge>, b: seq<Edge>)
    requires UniqueEdges(a) && UniqueEdges(b) && EdgePairs(a) !! EdgePairs(b)
    ensures UniqueEdges(a + b)
  {
    var all := a + b;
    forall i, j | 0 <= i < j < |all| ensures (all[i].from_, all[i].to) != (all[j].from_, all[j].to) {
      if i < |a| <= j {
        assert all[i] in a && all[j] in b;
        assert (all[i].from_, all[i].to) in EdgePairs(a) && (all[j].from_, all[j].to) in EdgePairs(b);
      }
    }
  }

  lemma PairsOfAppend(a: seq<Edge>, b: seq<Edge>)
    ensures EdgePairs(a + b) == EdgePairs(a) + EdgePairs(b)
  {
  }

  lemma LldpUnique(x: Evidence, lldp: seq<Edge>)
    requires EdgesOfView(lldp, x.v)
    ensures UniqueEdges(lldp) && EdgePairs(lldp) <= BlockedLinks(x.v)
  {
    BlockedIffLinked(x.v);
    forall i, j | 0 <= i < j < |lldp| ensures (lldp[i].from_, lldp[i].to) != (lldp[j].from_, lldp[j].to) {
      assert {lldp[i].from_, lldp[i].to} != {lldp[j].from_, lldp[j].to};
    }
  }

  lemma TargetsAreUnique(edges: seq<Edge>)
    requires UniqueTargets(edges)
    ensures UniqueEdges(edges)
  {
  }

  lemma WiredIsUnblocked(x: Evidence, dhcp: seq<Edge>, arp: seq<Edge>, claimed: set<Rid>)
    requires WiredLists(x, dhcp, arp, claimed)
    ensures EdgePairs(dhcp) !! BlockedLinks(x.v) && EdgePairs(arp) !! BlockedLinks(x.v)
            && EdgePairs(dhcp) !! EdgePairs(arp)
  {
    WiredIsExact(x, dhcp, arp, claimed);
    forall e | e in dhcp || e in arp ensures (e.from_, e.to) !in BlockedLinks(x.v) {
      var k := WiredIsOpen(x, e);
    }
    var hit := ArpHit(BlockedLinks(x.v), UplinkedRids(x.v), x.gateways);
    forall e | e in arp ensures e.to !in claimed {
      var k :| 0 <= k < |x.fleet| && x.fleet[k].rid !in claimed && FirstHit(GatewayList(x), x.fleet[k], hit) == Some(e);
      FirstHitFrom(GatewayList(x), x.fleet[k], hit);
    }
  }

  lemma BaseIsUnique(x: Evidence, lldp: seq<Edge>, dhcp: seq<Edge>, arp: seq<Edge>, wifi: seq<Edge>, claimed: set<Rid>)
    requires AllLists(x, lldp, dhcp, arp, wifi, claimed)
    ensures UniqueEdges(lldp + dhcp + arp + wifi)
  {
    LldpUnique(x, lldp);
    WiredIsUnblocked(x, dhcp, arp, claimed);
    TargetsAreUnique(dhcp);
    TargetsAreUnique(arp);
    assert EdgePairs(wifi) !! BlockedLinks(x.v) + EdgePairs(dhcp) + EdgePairs(arp);
    AppendAll(lldp, dhcp, arp, wifi, BlockedLinks(x.v));
  }

  lemma AppendAll(lldp: seq<Edge>, dhcp: seq<Edge>, arp: seq<Edge>, wifi: seq<Edge>, blocked: set<Link>)
    requires UniqueEdges(lldp) && UniqueEdges(dhcp) && UniqueEdges(arp) && UniqueEdges(wifi)
    requires EdgePairs(lldp) <= blocked && EdgePairs(dhcp) !! blocked && EdgePairs(arp) !! blocked
    requires EdgePairs(dhcp) !! EdgePairs(arp) && EdgePairs(wifi) !! blocked + EdgePairs(dhcp) + EdgePairs(arp)
    ensures UniqueEdges(lldp + dhcp + arp + wifi)
  {
    UniqueAppend(lldp, dhcp);
    PairsOfAppend(lldp, dhcp);
    UniqueAppend(lldp + dhcp, arp);
    PairsOfAppend(lldp + dhcp, arp);
    UniqueAppend(lldp + dhcp + arp, wifi);
  }

  lemma PromotedIsExact(x: Evidence, base: seq<Edge>, promoted: seq<Edge>)
    requires (forall e :: e in base <==> IsBase(x, e)) && UniqueEdges(base)
    requires |promoted| == |base| && forall i | 0 <= i < |base| :: promoted[i] == Promoted(x.fleet, base[i])
    ensures forall e :: e in promoted <==> IsPromoted(x, e)
    ensures UniqueEdges(promoted)
    ensures forall r :: Untouched(promoted, r) <==> NoBase(x, r)
  {
    forall e ensures e in promoted <==> IsPromoted(x, e) {
      if e in promoted {
        var i :| 0 <= i < |base| && promoted[i] == e;
        assert base[i] in base;
      }
      if IsPromoted(x, e) {
        var b :| IsBase(x, b) && e == Promoted(x.fleet, b);
        var i :| 0 <= i < |base| && base[i] == b;
        assert promoted[i] == e;
      }
    }
    forall r ensures Untouched(promoted, r) <==> NoBase(x, r) {
      if Untouched(promoted, r) {
        forall b | IsBase(x, b) ensures !Touches(b, r) {
          assert Promoted(x.fleet, b) in promoted;
        }
      }
      if NoBase(x, r) {
        forall e | e in promoted ensures !Touches(e, r) {
          var b :| IsBase(x, b) && e == Promoted(x.fleet, b);
        }
      }
    }
  }

  /** A router without an edge is not blocked by anything either. */
  lemma UntouchedIsFree(x: Evidence, base: seq<Edge>, seen: set<Link>, g: Rid)
    requires Proper(x) && forall e :: e in base <==> IsBase(x, e)
    requires seen <= BlockedLinks(x.v) + EdgePairs(base)
    ensures forall r | NoBase(x, r) :: (g, r) !in seen && r !in UplinkedRids(x.v)
  {
    BlockedIffLinked(x.v);
    forall r | NoBase(x, r) ensures (g, r) !in seen && r !in UplinkedRids(x.v) {
      forall a | Linked(x.v, a, r) ensures false {
        LinksJoinRouters(x.v, x.fleet, x.gateways, a, r);
        EdgeIsSymmetric(x.v, a, r);
        var e := LldpEdge(x.v, a, r);
        assert IsLldp(x, e) by {
          assert e.from_ == a || e.from_ == r;
          EdgeIsSymmetric(x.v, e.from_, e.to);
        }
        assert Touches(e, r);
      }
      assert forall e | e in base :: !Touches(e, r);
    }
  }

  lemma FallbacksComplete(x: Evidence, promoted: seq<Edge>, more: seq<Edge>)
    requires GatewayList(x) != [] && UniqueEdges(promoted)
    requires forall e :: e in promoted <==> IsPromoted(x, e)
    requires forall r :: Untouched(promoted, r) <==> NoBase(x, r)
    requires FallbacksFor(more, promoted, x.fleet, x.gateways, GatewayList(x)[0])
    ensures Exact(x, promoted + more) && UniqueEdges(promoted + more)
  {
    forall e | e in more ensures IsFallback(x, e) && Untouched(promoted, e.to) {
      var k :| 0 <= k < |x.fleet| && FallbackOf(promoted, x.gateways, GatewayList(x)[0], x.fleet[k]) == Some(e);
    }
    forall e | IsFallback(x, e) ensures e in more {
      var k := FallbackOrigin(x, e);
      assert FallbackOf(promoted, x.gateways, GatewayList(x)[0], x.fleet[k]) == Some(e);
    }
    PairsApart(promoted, more);
    TargetsAreUnique(more);
    UniqueAppend(promoted, more);
  }

  lemma PairsApart(a: seq<Edge>, b: seq<Edge>)
    requires forall e | e in b :: Untouched(a, e.to)
    ensures EdgePairs(a) !! EdgePairs(b)
  {
  }

  /** Methods 0, 1, 2.5 and 2, in this order. */
  method CollectBase(fleet: seq<Router>, gateways: set<Rid>, macOwner: map<string, Rid>, ipOwner: map<string, Rid>)
    returns (base: seq<Edge>, seen: set<Link>, uplinked: set<Rid>, ghost x: Evidence)
    requires DistinctIds(fleet) && PeersConfigured(fleet)
    requires forall m | m in macOwner :: InFleet(fleet, macOwner[m])
    requires forall m | m in ipOwner :: InFleet(fleet, ipOwner[m])
    ensures x == Evidence(fleet, gateways, x.v, macOwner, ipOwner) && Proper(x)
    ensures (forall e :: e in base <==> IsBase(x, e)) && UniqueEdges(base)
    ensures seen <= BlockedLinks(x.v) + EdgePairs(base) && uplinked == UplinkedRids(x.v)
  {
    var lldp, blocked, uplinks, v := DetectLldpEdges(fleet, gateways);
    uplinked := uplinks;
    var ev := Evidence(fleet, gateways, v, macOwner, ipOwner);
    x := ev;
    LldpSets(v, blocked, uplinked);
    var gs := OrderedGateways(fleet, gateways);
    var dhcp, seen1, claimed1 := ClaimUplinks(fleet, gs, DhcpHit(blocked, uplinked, gateways), blocked, {});
    DhcpAreClaimed(x, dhcp, blocked, uplinked, claimed1);
    var arp, seen2, claimed2 := ClaimUplinks(fleet, gs, ArpHit(blocked, uplinked, gateways), seen1, claimed1);
    var wifi;
    wifi, seen := WifiUplinks(ev, seen2, uplinked);
    base := lldp + dhcp + arp + wifi;
    BaseIsExact(x, lldp, dhcp, arp, wifi, claimed1);
    BaseIsUnique(x, lldp, dhcp, arp, wifi, claimed1);
    PairsOfBase(lldp, dhcp, arp, wifi);
  }

  lemma PairsOfBase(lldp: seq<Edge>, dhcp: seq<Edge>, arp: seq<Edge>, wifi: seq<Edge>)
    ensures EdgePairs(dhcp) + EdgePairs(arp) + EdgePairs(wifi) <= EdgePairs(lldp + dhcp + arp + wifi)
  {
    PairsOfAppend(lldp, dhcp);
    PairsOfAppend(lldp + dhcp, arp);
    PairsOfAppend(lldp + dhcp + arp, wifi);
  }

  // ------------------------------------------------------------ the method

  method DetectInterRouterEdges(fleet: seq<Router>, gateways: set<Rid>, macOwner: map<string, Rid>,
                                ipOwner: map<string, Rid>)
    returns (edges: seq<Edge>, ghost x: Evidence)
    requires DistinctIds(fleet) && PeersConfigured(fleet)
    requires forall m | m in macOwner :: InFleet(fleet, macOwner[m])
    requires forall m | m in ipOwner :: InFleet(fleet, ipOwner[m])
    ensures x == Evidence(fleet, gateways, x.v, macOwner, ipOwner) && Proper(x)
    ensures Exact(x, edges) && UniqueEdges(edges)
  {
    var base, seen, uplinked;
    base, seen, uplinked, x := CollectBase(fleet, gateways, macOwner, ipOwner);
    var promoted := OverrideRepeaters(fleet, base);
    PromotedIsExact(x, base, promoted);
    var gs := OrderedGateways(fleet, gateways);
    if gs == [] {
      edges := promoted;
    } else {
      UntouchedIsFree(x, base, seen, gs[0].rid);
      var more := SubnetFallbacks(fleet, gateways, gs[0], promoted, seen, uplinked);
      FallbacksComplete(x, promoted, more);
      edges := promoted + more;
    }
  }

  // ------------------------------------------------------------ main results

  predicate WiredMethod(e: Edge) {
    e.method_ == DhcpIp || e.method_ == DhcpMac || e.method_ == ArpPort
  }

  /** The evidence behind an edge of the list, whatever was rewritten on it later. */
  lemma Justified(x: Evidence, edges: seq<Edge>, e: Edge) returns (b: Edge)
    requires Proper(x) && Exact(x, edges) && e in edges
    ensures (IsBase(x, b) && e == Promoted(x.fleet, b)) || (IsFallback(x, b) && e == b)
    ensures b.from_ == e.from_ && b.to == e.to && b.method_ == e.method_
  {
    if IsPromoted(x, e) {
      b :| IsBase(x, b) && e == Promoted(x.fleet, b);
    } else {
      b := e;
    }
  }

  lemma {:induction false} SightingsJoinRouters(x: Evidence, fleet: seq<Router>, l: Link)
    requires Proper(x) && (forall r | r in fleet :: r in x.fleet) && l in Sightings(x, fleet)
    ensures l.0 != l.1 && InFleet(x.fleet, l.0) && InFleet(x.fleet, l.1)
  {
    var n := |fleet| - 1;
    if l in Sightings(x, fleet[..n]) {
      SightingsJoinRouters(x, fleet[..n], l);
    } else {
      assert fleet[n] in x.fleet;
      var i :| 0 <= i < |x.fleet| && x.fleet[i] == fleet[n];
      SightingsOfJoinRouters(x, fleet[n].rid, fleet[n].clients, l);
    }
  }

  lemma {:induction false} SightingsOfJoinRouters(x: Evidence, src: Rid, clients: seq<Client>, l: Link)
    requires Proper(x) && InFleet(x.fleet, src) && l in SightingsOf(x, src, clients)
    ensures l.0 != l.1 && InFleet(x.fleet, l.0) && InFleet(x.fleet, l.1)
  {
    var n := |clients| - 1;
    if l in SightingsOf(x, src, clients[..n]) {
      SightingsOfJoinRouters(x, src, clients[..n], l);
    }
  }

  /** Every edge joins two different configured routers. */
  lemma EdgesJoinRouters(x: Evidence, edges: seq<Edge>, e: Edge)
    requires Proper(x) && Exact(x, edges) && e in edges
    ensures e.from_ != e.to && InFleet(x.fleet, e.from_) && InFleet(x.fleet, e.to)
  {
    var b := Justified(x, edges, e);
    if IsFallback(x, b) {
      FallbackJoins(x, b);
    } else if IsLldp(x, b) {
      LinksJoinRouters(x.v, x.fleet, x.gateways, b.from_, b.to);
    } else if IsWired(x, b) {
      var k := WiredIsOpen(x, b);
    } else {
      SightingsJoinRouters(x, x.fleet, (b.from_, b.to));
    }
  }

  lemma FallbackJoins(x: Evidence, e: Edge)
    requires IsFallback(x, e)
    ensures e.from_ != e.to && InFleet(x.fleet, e.from_) && InFleet(x.fleet, e.to)
    ensures e.from_ in x.gateways && e.to !in x.gateways && NoBase(x, e.to)
    ensures e.method_ == StaFallback || e.method_ == SubnetFallback
  {
    var g := GatewayList(x)[0];
    assert g in GatewayList(x);
    var i :| 0 <= i < |x.fleet| && x.fleet[i] == g;
    var k :| 0 <= k < |x.fleet| && x.fleet[k].rid !in x.gateways && NoBase(x, x.fleet[k].rid)
      && Fallback(g, x.fleet[k]) == Some(e);
  }

  lemma LinkedIsBase(x: Evidence, a: Rid, b: Rid)
    requires Proper(x) && Linked(x.v, a, b)
    ensures a != b && IsLldp(x, LldpEdge(x.v, a, b))
    ensures Touches(LldpEdge(x.v, a, b), a) && Touches(LldpEdge(x.v, a, b), b)
  {
    LinksJoinRouters(x.v, x.fleet, x.gateways, a, b);
    EdgeIsSymmetric(x.v, a, b);
    var e := LldpEdge(x.v, a, b);
    EdgeIsSymmetric(x.v, e.from_, e.to);
  }

  /** LLDP has the last word: a pair with an LLDP link has exactly that one edge, and no
      heuristic draws an edge into a router whose uplink LLDP established. */
  lemma LldpAlwaysWins(x: Evidence, edges: seq<Edge>, e: Edge)
    requires Proper(x) && Exact(x, edges) && e in edges
    requires Linked(x.v, e.from_, e.to) || Uplinked(x.v, e.to)
    ensures e.method_ == Lldp && e == Promoted(x.fleet, LldpEdge(x.v, e.from_, e.to))
  {
    BlockedIffLinked(x.v);
    var b := Justified(x, edges, e);
    if IsFallback(x, b) {
      FallbackJoins(x, b);
      if Linked(x.v, b.from_, b.to) {
        LinkedIsBase(x, b.from_, b.to);
      } else {
        var a :| Linked(x.v, a, b.to) && DirectionOf(x.v, a, b.to).to == b.to && DirectionOf(x.v, a, b.to).anchored;
        LinkedIsBase(x, a, b.to);
      }
      assert false;
    } else if IsWired(x, b) && !IsLldp(x, b) {
      var k := WiredIsOpen(x, b);
      assert false;
    }
  }

  /** Two edges of the list between the same two routers, in whichever direction, are
      the same edge if LLDP speaks about the pair. */
  lemma OneEdgePerLldpPair(x: Evidence, edges: seq<Edge>, e: Edge, f: Edge)
    requires Proper(x) && Exact(x, edges) && e in edges && f in edges
    requires Linked(x.v, e.from_, e.to) && {e.from_, e.to} == {f.from_, f.to}
    ensures e == f
  {
    EdgesJoinRouters(x, edges, e);
    EdgesJoinRouters(x, edges, f);
    assert f.from_ in {e.from_, e.to} && f.to in {e.from_, e.to};
    LldpAlwaysWins(x, edges, e);
    LldpAlwaysWins(x, edges, f);
    EdgeIsSymmetric(x.v, e.from_, e.to);
  }

  /** Where a wired heuristic edge of the list comes from. */
  lemma WiredOrigin(x: Evidence, edges: seq<Edge>, e: Edge) returns (k: nat)
    requires Proper(x) && Exact(x, edges) && e in edges && WiredMethod(e)
    ensures k < |x.fleet| && x.fleet[k].rid == e.to && WiredUplink(x, x.fleet[k]).Some?
    ensures e == Promoted(x.fleet, WiredUplink(x, x.fleet[k]).value)
    ensures e.from_ in x.gateways && e.to !in x.gateways
  {
    var b := Justified(x, edges, e);
    if IsFallback(x, b) {
      FallbackJoins(x, b);
    }
    k := WiredIsOpen(x, b);
  }

  /** An access point has at most one wired heuristic uplink, from a gateway; a gateway has none. */
  lemma OneWiredUplink(x: Evidence, edges: seq<Edge>, e: Edge, f: Edge)
    requires Proper(x) && Exact(x, edges) && e in edges && f in edges
    requires WiredMethod(e) && WiredMethod(f)
    ensures e.from_ in x.gateways && e.to !in x.gateways
    ensures e.to == f.to ==> e == f
  {
    var k := WiredOrigin(x, edges, e);
    var l := WiredOrigin(x, edges, f);
    SameIndex(x.fleet, k, l);
  }

  lemma SameIndex(fleet: seq<Router>, k: nat, l: nat)
    requires DistinctIds(fleet) && k < |fleet| && l < |fleet|
    ensures fleet[k].rid == fleet[l].rid ==> k == l
  {
  }

  /** The access point behind a fallback edge. */
  lemma FallbackOrigin(x: Evidence, e: Edge) returns (k: nat)
    requires IsFallback(x, e)
    ensures k < |x.fleet| && x.fleet[k].rid == e.to && Fallback(GatewayList(x)[0], x.fleet[k]) == Some(e)
    ensures x.fleet[k].rid !in x.gateways && NoBase(x, x.fleet[k].rid)
  {
    k :| 0 <= k < |x.fleet| && x.fleet[k].rid !in x.gateways && NoBase(x, x.fleet[k].rid)
         && Fallback(GatewayList(x)[0], x.fleet[k]) == Some(e);
  }

  /** A router with an active wireless uplink and no WAN carrier hangs on no cable by heuristics. */
  lemma NoCableIntoRepeater(x: Evidence, edges: seq<Edge>, e: Edge)
    requires Proper(x) && Exact(x, edges) && e in edges
    requires Repeater(x.fleet, e.to) && !Carrier(x.fleet, e.to)
    ensures e.relationship != LanUplink && e.relationship != MeshMember
  {
    var b := Justified(x, edges, e);
    if IsFallback(x, b) && e == b {
      var k := FallbackOrigin(x, b);
      var i: nat :| i < |x.fleet| && x.fleet[i].rid == e.to && x.fleet[i].staActive;
      SameIndex(x.fleet, i, k);
    } else {
      BaseIsNoMesh(x, b);
    }
  }

  lemma BaseIsNoMesh(x: Evidence, b: Edge)
    requires IsBase(x, b)
    ensures b.relationship == LanUplink ==> b.method_ != Lldp
    ensures b.relationship != MeshMember
  {
    if IsWired(x, b) {
      var k := WiredIsOpen(x, b);
    }
  }

  predicate OtherSubnet(g: Router, ap: Router) {
    g.net24.Some? && ap.net24.Some? && g.net24 != ap.net24
  }

  /** With a gateway present an access point stays without an edge exactly when no evidence
      touches it, it has no wireless uplink and it lies in another /24 than the first gateway. */
  lemma IsolatedIff(x: Evidence, edges: seq<Edge>, k: nat)
    requires Proper(x) && Exact(x, edges) && GatewayList(x) != []
    requires k < |x.fleet| && x.fleet[k].rid !in x.gateways
    ensures Untouched(edges, x.fleet[k].rid) <==>
              NoBase(x, x.fleet[k].rid) && !x.fleet[k].staActive && OtherSubnet(GatewayList(x)[0], x.fleet[k])
  {
    var ap, g := x.fleet[k], GatewayList(x)[0];
    assert Fallback(g, ap).None? <==> !ap.staActive && OtherSubnet(g, ap);
    if NoBase(x, ap.rid) {
      if Fallback(g, ap).Some? {
        FallbackIsListed(x, edges, k);
      } else if !Untouched(edges, ap.rid) {
        OnlyFallbackTouches(x, edges, k);
      }
    } else if Untouched(edges, ap.rid) {
      UntouchedHasNoBase(x, edges, ap.rid);
    }
  }

  lemma FallbackIsListed(x: Evidence, edges: seq<Edge>, k: nat)
    requires Exact(x, edges) && GatewayList(x) != [] && k < |x.fleet| && x.fleet[k].rid !in x.gateways
    requires NoBase(x, x.fleet[k].rid) && Fallback(GatewayList(x)[0], x.fleet[k]).Some?
    ensures !Untouched(edges, x.fleet[k].rid)
  {
    var e := Fallback(GatewayList(x)[0], x.fleet[k]).value;
    assert IsFallback(x, e) && Touches(e, x.fleet[k].rid);
  }

  lemma UntouchedHasNoBase(x: Evidence, edges: seq<Edge>, r: Rid)
    requires Exact(x, edges) && Untouched(edges, r)
    ensures NoBase(x, r)
  {
    forall b | IsBase(x, b) ensures !Touches(b, r) {
      assert IsPromoted(x, Promoted(x.fleet, b));
    }
  }

  lemma OnlyFallbackTouches(x: Evidence, edges: seq<Edge>, k: nat)
    requires Proper(x) && Exact(x, edges) && GatewayList(x) != []
    requires k < |x.fleet| && x.fleet[k].rid !in x.gateways
    requires NoBase(x, x.fleet[k].rid) && !Untouched(edges, x.fleet[k].rid)
    ensures Fallback(GatewayList(x)[0], x.fleet[k]).Some?
  {
    var e :| e in edges && Touches(e, x.fleet[k].rid);
    var b := Justified(x, edges, e);
    FallbackJoins(x, b);
    var l := FallbackOrigin(x, b);
    SameIndex(x.fleet, l, k);
  }

  /** A lease is never ignored: an access point that some gateway leases, and about which
      LLDP has nothing to say, gets its wired uplink. */
  lemma LeasedIsWired(x: Evidence, edges: seq<Edge>, k: nat, g: Router)
    requires Proper(x) && Exact(x, edges) && k < |x.fleet| && g in GatewayList(x)
    requires FindLease(g.leases, x.fleet[k].hostIp, x.fleet[k].mac).Some?
    requires x.fleet[k].rid !in x.gateways && !Uplinked(x.v, x.fleet[k].rid) && !Linked(x.v, g.rid, x.fleet[k].rid)
    ensures exists e | e in edges :: e.to == x.fleet[k].rid && (e.method_ == DhcpIp || e.method_ == DhcpMac)
  {
    BlockedIffLinked(x.v);
    var ap := x.fleet[k];
    var hit := DhcpHit(BlockedLinks(x.v), UplinkedRids(x.v), x.gateways);
    assert hit(g, ap).Some?;
    SomeHitIsFound(GatewayList(x), g, ap, hit);
    var b := WiredUplink(x, ap).value;
    FirstHitFrom(GatewayList(x), ap, hit);
    var h :| h in GatewayList(x) && hit(h, ap) == Some(b);
    LeaseMethods(h.leases, ap.hostIp, ap.mac);
    assert IsWired(x, b) && IsPromoted(x, Promoted(x.fleet, b));
  }

  lemma {:induction false} SomeHitIsFound(gs: seq<Router>, g: Router, ap: Router, hit: Hit)
    requires g in gs && hit(g, ap).Some?
    ensures FirstHit(gs, ap, hit).Some?
  {
    if gs[0] != g && hit(gs[0], ap).None? {
      SomeHitIsFound(gs[1..], g, ap, hit);
    }
  }
}
