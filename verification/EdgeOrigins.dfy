/** Where the edges between routers come from, told in terms of the tables the routers report. */
module EdgeOrigins {
  import opened Options
  import opened HopDepths
  import opened StringOrder
  import opened Names
  import opened Fleet
  import opened LldpEdges
  import opened InterRouterEdges

  // For each method of detection it is said which edges of the list it contributes: between
  // which routers, in which direction, of which kind and with which ports. Together the four
  // theorems determine the whole list.

  /** Some other router is known by LLDP to be upstream of `r`. */
  ghost predicate HasUpstream(x: Evidence, r: Rid) {
    exists q :: Downstream(x.fleet, x.gateways, x.v.depths, q, r)
  }

  /** LLDP has nothing to say about an uplink of `b` from `a`. */
  ghost predicate Free(x: Evidence, a: Rid, b: Rid) {
    a != b && !Cabled(x.fleet, a, b) && !HasUpstream(x, b)
  }

  lemma FreeIff(x: Evidence, a: Rid, b: Rid)
    requires Proper(x)
    ensures Free(x, a, b) <==> a != b && (a, b) !in BlockedLinks(x.v) && b !in UplinkedRids(x.v)
    ensures Cabled(x.fleet, a, b) <==> Linked(x.v, a, b)
  {
    BlockedIffLinked(x.v);
    TablesTold(x.v, x.fleet, a, b);
    UplinkTold(x.v, x.fleet, x.gateways, b);
  }

  /** A router that uplinks by radio and has no cable in its WAN port. */
  predicate Meshed(r: Router) {
    r.staActive && !r.wanCarrier
  }

  lemma MeshedIff(fleet: seq<Router>, r: Router)
    requires DistinctIds(fleet) && r in fleet
    ensures Repeater(fleet, r.rid) <==> r.staActive
    ensures Carrier(fleet, r.rid) <==> r.wanCarrier
  {
    var k :| 0 <= k < |fleet| && fleet[k] == r;
    assert forall i | 0 <= i < |fleet| && fleet[i].rid == r.rid :: i == k;
  }

  // ------------------------------------------------------------------- cables

  predicate NamedBy(l: Lease, ap: Router) {
    l.ip == Some(ap.hostIp) || l.mac == ap.mac
  }

  /** The first lease that names the access point does so by IP, or else by MAC. */
  ghost predicate LeasedBy(leases: seq<Lease>, ap: Router, m: Method) {
    exists i | 0 <= i < |leases| ::
      NamedBy(leases[i], ap) && (forall j | 0 <= j < i :: !NamedBy(leases[j], ap))
      && m == if leases[i].ip == Some(ap.hostIp) then DhcpIp else DhcpMac
  }

  ghost predicate Leases(g: Router, ap: Router) {
    exists l | l in g.leases :: NamedBy(l, ap)
  }

  predicate Forwards(g: Router, ap: Router) {
    ap.hostIp in g.trunk && g.trunk[ap.hostIp] != ""
  }

  /** The first gateway in order that leases the access point, of those LLDP leaves free. */
  ghost predicate FirstLessor(x: Evidence, gs: seq<Router>, i: int, ap: Router) {
    && 0 <= i < |gs| && Free(x, gs[i].rid, ap.rid) && Leases(gs[i], ap)
    && forall j | 0 <= j < i :: !(Free(x, gs[j].rid, ap.rid) && Leases(gs[j], ap))
  }

  ghost predicate NobodyLeases(x: Evidence, gs: seq<Router>, ap: Router) {
    forall j | 0 <= j < |gs| :: !(Free(x, gs[j].rid, ap.rid) && Leases(gs[j], ap))
  }

  /** The first gateway that knows the port towards the access point. */
  ghost predicate FirstForwarder(x: Evidence, gs: seq<Router>, i: int, ap: Router) {
    && 0 <= i < |gs| && Free(x, gs[i].rid, ap.rid) && Forwards(gs[i], ap)
    && forall j | 0 <= j < i :: !(Free(x, gs[j].rid, ap.rid) && Forwards(gs[j], ap))
  }

  /** A cable from `g` to `ap` before repeaters are told apart: by lease with the bridge port of
      the MAC, or, if nobody leases it, by the port behind which its address lies. */
  ghost predicate CableFrom(x: Evidence, gs: seq<Router>, i: int, ap: Router, m: Method, port: Option<string>) {
    || (FirstLessor(x, gs, i, ap) && LeasedBy(gs[i].leases, ap, m)
        && port == if Lower(ap.mac) in gs[i].fdb then Some(gs[i].fdb[Lower(ap.mac)]) else None)
    || (NobodyLeases(x, gs, ap) && FirstForwarder(x, gs, i, ap) && m == ArpPort
        && port == Some(gs[i].trunk[ap.hostIp]))
  }

  /** The edge as it is shown: a cable with its ports, or a radio link if the router is meshed. */
  predicate Shown(e: Edge, ap: Router, port: Option<string>) {
    if Meshed(ap)
    then e.relationship == WifiUplink && e.link == WifiLink && e.overridden && e.gatewayPort.None? && e.apPort.None?
    else e.relationship == LanUplink && e.link == LanLink && !e.overridden && e.gatewayPort == port
         && e.apPort == Some("wan")
  }

  ghost predicate CableTold(x: Evidence, gs: seq<Router>, i: int, ap: Router, e: Edge) {
    && 0 <= i < |gs| && ap in x.fleet && ap.rid !in x.gateways && e.from_ == gs[i].rid && e.to == ap.rid
    && exists port :: CableFrom(x, gs, i, ap, e.method_, port) && Shown(e, ap, port)
  }

  lemma {:induction false} LeaseTold(leases: seq<Lease>, ap: Router, m: Method)
    ensures FindLease(leases, ap.hostIp, ap.mac) == Some(m) <==> LeasedBy(leases, ap, m)
    ensures FindLease(leases, ap.hostIp, ap.mac).Some? <==> exists l | l in leases :: NamedBy(l, ap)
  {
    if leases != [] {
      LeaseTold(leases[1..], ap, m);
      if NamedBy(leases[0], ap) {
        assert leases[0] in leases;
        assert LeasedBy(leases, ap, m) <==> m == if leases[0].ip == Some(ap.hostIp) then DhcpIp else DhcpMac;
      } else {
        LeasedLater(leases, ap, m);
      }
    }
  }

  lemma LeasedLater(leases: seq<Lease>, ap: Router, m: Method)
    requires leases != [] && !NamedBy(leases[0], ap)
    ensures LeasedBy(leases, ap, m) <==> LeasedBy(leases[1..], ap, m)
  {
    var rest := leases[1..];
    if LeasedBy(rest, ap, m) {
      var i :| 0 <= i < |rest| && NamedBy(rest[i], ap) && (forall j | 0 <= j < i :: !NamedBy(rest[j], ap))
        && m == if rest[i].ip == Some(ap.hostIp) then DhcpIp else DhcpMac;
      assert leases[i + 1] == rest[i];
      assert forall j | 0 < j < i + 1 :: leases[j] == rest[j - 1];
    }
    if LeasedBy(leases, ap, m) {
      var i :| 0 <= i < |leases| && NamedBy(leases[i], ap) && (forall j | 0 <= j < i :: !NamedBy(leases[j], ap))
        && m == if leases[i].ip == Some(ap.hostIp) then DhcpIp else DhcpMac;
      assert rest[i - 1] == leases[i];
      assert forall j | 0 <= j < i - 1 :: rest[j] == leases[j + 1];
    }
  }

  lemma {:induction false} FirstHitAt(gs: seq<Router>, ap: Router, hit: Hit, e: Edge)
    ensures FirstHit(gs, ap, hit) == Some(e) <==>
            exists i | 0 <= i < |gs| :: hit(gs[i], ap) == Some(e) && forall j | 0 <= j < i :: hit(gs[j], ap).None?
    ensures FirstHit(gs, ap, hit).None? <==> forall j | 0 <= j < |gs| :: hit(gs[j], ap).None?
  {
    if gs != [] {
      FirstHitAt(gs[1..], ap, hit, e);
      var rest := gs[1..];
      if hit(gs[0], ap).None? {
        assert forall j | 0 <= j < |rest| :: rest[j] == gs[j + 1];
        if i :| 0 <= i < |rest| && hit(rest[i], ap) == Some(e) && forall j | 0 <= j < i :: hit(rest[j], ap).None? {
          assert hit(gs[i + 1], ap) == Some(e);
          assert forall j | 0 < j < i + 1 :: gs[j] == rest[j - 1];
        }
        if i :| 0 <= i < |gs| && hit(gs[i], ap) == Some(e) && forall j | 0 <= j < i :: hit(gs[j], ap).None? {
          assert hit(rest[i - 1], ap) == Some(e);
        }
        assert forall j | 0 < j < |gs| :: gs[j] == rest[j - 1];
      }
    }
  }

  function BridgePort(g: Router, ap: Router): Option<string> {
    if Lower(ap.mac) in g.fdb then Some(g.fdb[Lower(ap.mac)]) else None
  }

  lemma HitsTold(x: Evidence, g: Router, ap: Router, e: Edge)
    requires Proper(x) && ap.rid !in x.gateways
    ensures var hit := DhcpHit(BlockedLinks(x.v), UplinkedRids(x.v), x.gateways);
            && (hit(g, ap).Some? <==> Free(x, g.rid, ap.rid) && Leases(g, ap))
            && (hit(g, ap) == Some(e) <==> Free(x, g.rid, ap.rid) && LeasedBy(g.leases, ap, e.method_)
                                           && e == WiredEdge(g.rid, ap.rid, e.method_, BridgePort(g, ap)))
    ensures var hit := ArpHit(BlockedLinks(x.v), UplinkedRids(x.v), x.gateways);
            && (hit(g, ap).Some? <==> Free(x, g.rid, ap.rid) && Forwards(g, ap))
            && (hit(g, ap) == Some(e) <==> Free(x, g.rid, ap.rid) && Forwards(g, ap)
                                           && e == WiredEdge(g.rid, ap.rid, ArpPort, Some(g.trunk[ap.hostIp])))
  {
    FreeIff(x, g.rid, ap.rid);
    LeaseTold(g.leases, ap, e.method_);
    var found := FindLease(g.leases, ap.hostIp, ap.mac);
    if found.Some? { LeaseTold(g.leases, ap, found.value); }
  }

  lemma LeasedUplink(x: Evidence, ap: Router, b: Edge)
    requires Proper(x) && ap.rid !in x.gateways
    ensures DhcpOf(x, ap) == Some(b) <==>
            exists i :: FirstLessor(x, GatewayList(x), i, ap) && LeasedBy(GatewayList(x)[i].leases, ap, b.method_)
                        && b == WiredEdge(GatewayList(x)[i].rid, ap.rid, b.method_, BridgePort(GatewayList(x)[i], ap))
    ensures DhcpOf(x, ap).None? <==> NobodyLeases(x, GatewayList(x), ap)
  {
    var gs, hit := GatewayList(x), DhcpHit(BlockedLinks(x.v), UplinkedRids(x.v), x.gateways);
    forall i | 0 <= i < |gs|
      ensures hit(gs[i], ap).Some? <==> Free(x, gs[i].rid, ap.rid) && Leases(gs[i], ap)
      ensures hit(gs[i], ap) == Some(b) <==>
              Free(x, gs[i].rid, ap.rid) && LeasedBy(gs[i].leases, ap, b.method_)
              && b == WiredEdge(gs[i].rid, ap.rid, b.method_, BridgePort(gs[i], ap))
    {
      HitsTold(x, gs[i], ap, b);
    }
    FirstHitAt(gs, ap, hit, b);
  }

  lemma ForwardedUplink(x: Evidence, ap: Router, b: Edge)
    requires Proper(x) && ap.rid !in x.gateways
    ensures ArpOf(x, ap) == Some(b) <==>
            exists i :: FirstForwarder(x, GatewayList(x), i, ap) && b ==
                        WiredEdge(GatewayList(x)[i].rid, ap.rid, ArpPort, Some(GatewayList(x)[i].trunk[ap.hostIp]))
  {
    var gs, hit := GatewayList(x), ArpHit(BlockedLinks(x.v), UplinkedRids(x.v), x.gateways);
    forall i | 0 <= i < |gs|
      ensures hit(gs[i], ap).Some? <==> Free(x, gs[i].rid, ap.rid) && Forwards(gs[i], ap)
      ensures hit(gs[i], ap) == Some(b) <==>
              Free(x, gs[i].rid, ap.rid) && Forwards(gs[i], ap)
              && b == WiredEdge(gs[i].rid, ap.rid, ArpPort, Some(gs[i].trunk[ap.hostIp]))
    {
      HitsTold(x, gs[i], ap, b);
    }
    FirstHitAt(gs, ap, hit, b);
  }

  lemma CableUplink(x: Evidence, ap: Router, b: Edge)
    requires Proper(x) && ap.rid !in x.gateways
    ensures WiredUplink(x, ap) == Some(b) <==>
            exists i, port :: CableFrom(x, GatewayList(x), i, ap, b.method_, port)
                              && b == WiredEdge(GatewayList(x)[i].rid, ap.rid, b.method_, port)
  {
    var gs := GatewayList(x);
    LeasedUplink(x, ap, b);
    ForwardedUplink(x, ap, b);
    if NobodyLeases(x, gs, ap) {
      if i :| FirstForwarder(x, gs, i, ap) && b == WiredEdge(gs[i].rid, ap.rid, ArpPort, Some(gs[i].trunk[ap.hostIp])) {
        assert CableFrom(x, gs, i, ap, b.method_, Some(gs[i].trunk[ap.hostIp]));
      }
    } else {
      if i :| FirstLessor(x, gs, i, ap) && LeasedBy(gs[i].leases, ap, b.method_)
              && b == WiredEdge(gs[i].rid, ap.rid, b.method_, BridgePort(gs[i], ap)) {
        assert CableFrom(x, gs, i, ap, b.method_, BridgePort(gs[i], ap));
      }
    }
  }

  lemma ListedCable(x: Evidence, edges: seq<Edge>, e: Edge)
    requires Proper(x) && Exact(x, edges) && WiredMethod(e) && e in edges
    ensures exists i, ap :: CableTold(x, GatewayList(x), i, ap, e)
  {
    var gs := GatewayList(x);
    var k := WiredOrigin(x, edges, e);
    var ap := x.fleet[k];
    var b := WiredUplink(x, ap).value;
    CableUplink(x, ap, b);
    var i, port :| CableFrom(x, gs, i, ap, b.method_, port) && b == WiredEdge(gs[i].rid, ap.rid, b.method_, port);
    MeshedIff(x.fleet, ap);
    assert Shown(e, ap, port);
    assert CableTold(x, gs, i, ap, e);
  }

  lemma CableIsListed(x: Evidence, edges: seq<Edge>, i: int, ap: Router, e: Edge)
    requires Proper(x) && Exact(x, edges) && WiredMethod(e) && CableTold(x, GatewayList(x), i, ap, e)
    ensures e in edges
  {
    var gs := GatewayList(x);
    var port :| CableFrom(x, gs, i, ap, e.method_, port) && Shown(e, ap, port);
    var b := WiredEdge(gs[i].rid, ap.rid, e.method_, port);
    CableUplink(x, ap, b);
    MeshedIff(x.fleet, ap);
    assert e == Promoted(x.fleet, b);
    var k :| 0 <= k < |x.fleet| && x.fleet[k] == ap;
    assert IsWired(x, b);
    assert IsPromoted(x, e);
  }

  /** A cable is in the list exactly if the first gateway that leases the access point, or else
      the first one that knows its port, is left free by LLDP to be its uplink. It is shown with
      the bridge port of the MAC or of the address, unless the router is meshed. */
  lemma CablesAreTold(x: Evidence, edges: seq<Edge>, e: Edge)
    requires Proper(x) && Exact(x, edges) && WiredMethod(e)
    ensures e in edges <==> exists i, ap :: CableTold(x, GatewayList(x), i, ap, e)
  {
    if e in edges {
      ListedCable(x, edges, e);
    }
    if i, ap :| CableTold(x, GatewayList(x), i, ap, e) {
      CableIsListed(x, edges, i, ap, e);
    }
  }

  // -------------------------------------------------------------- radio links

  /** The router a client entry is: the owner of its MAC, or else the owner of its address. */
  predicate Identifies(x: Evidence, c: Client, b: Rid) {
    b != "" && if c.mac in x.macOwner && x.macOwner[c.mac] != "" then x.macOwner[c.mac] == b
               else c.ip in x.ipOwner && x.ipOwner[c.ip] == b
  }

  /** `a` lists `b` among its clients. */
  ghost predicate Sees(x: Evidence, a: Rid, b: Rid) {
    a != b && exists r, c :: r in x.fleet && r.rid == a && c in r.clients && Identifies(x, c, b)
  }

  /** Between a gateway and an access point it does not matter which side lists the other, and
      the link leads from the gateway; else it leads from the side that lists the other. */
  ghost predicate Sighted(x: Evidence, a: Rid, b: Rid) {
    if (a in x.gateways) == (b in x.gateways) then Sees(x, a, b)
    else a in x.gateways && (Sees(x, a, b) || Sees(x, b, a))
  }

  ghost predicate RadioTold(x: Evidence, edges: seq<Edge>, e: Edge) {
    && Sighted(x, e.from_, e.to) && Free(x, e.from_, e.to)
    && (forall f | f in edges && WiredMethod(f) :: (f.from_, f.to) != (e.from_, e.to))
    && e.relationship == WifiUplink && e.link == WifiLink && !e.overridden && e.gatewayPort.None? && e.apPort.None?
  }

  lemma {:induction false} InSightingsOf(x: Evidence, src: Rid, clients: seq<Client>, l: Link)
    ensures l in SightingsOf(x, src, clients) <==> exists c | c in clients :: Sighting(x, src, c) == Some(l)
  {
    if clients != [] {
      var n := |clients| - 1;
      InSightingsOf(x, src, clients[..n], l);
      assert clients == clients[..n] + [clients[n]];
    }
  }

  ghost predicate SightedBy(x: Evidence, r: Router, l: Link) {
    exists c | c in r.clients :: Sighting(x, r.rid, c) == Some(l)
  }

  lemma {:induction false} InSightings(x: Evidence, fleet: seq<Router>, l: Link)
    ensures l in Sightings(x, fleet) <==> exists r | r in fleet :: SightedBy(x, r, l)
  {
    if fleet != [] {
      var n := |fleet| - 1;
      InSightings(x, fleet[..n], l);
      InSightingsOf(x, fleet[n].rid, fleet[n].clients, l);
      var last := fleet[n];
      assert fleet == fleet[..n] + [last];
      assert Sightings(x, fleet) == Sightings(x, fleet[..n]) + SightingsOf(x, last.rid, last.clients);
      assert l in SightingsOf(x, last.rid, last.clients) <==> SightedBy(x, last, l);
    }
  }

  lemma SightingTold(x: Evidence, src: Rid, c: Client, a: Rid, b: Rid)
    ensures Sighting(x, src, c) == Some((a, b)) <==>
            a != b && ((src == a && Identifies(x, c, b) && (a in x.gateways || b !in x.gateways))
                       || (src == b && Identifies(x, c, a) && a in x.gateways && b !in x.gateways))
  {
  }

  lemma SightedIff(x: Evidence, a: Rid, b: Rid)
    ensures (a, b) in Sightings(x, x.fleet) <==> Sighted(x, a, b)
  {
    InSightings(x, x.fleet, (a, b));
    if r :| r in x.fleet && SightedBy(x, r, (a, b)) {
      var c :| c in r.clients && Sighting(x, r.rid, c) == Some((a, b));
      SightingTold(x, r.rid, c, a, b);
    }
    if Sighted(x, a, b) {
      var ahead := Sees(x, a, b);
      var src, other := if ahead then a else b, if ahead then b else a;
      var r, c :| r in x.fleet && r.rid == src && c in r.clients && Identifies(x, c, other);
      SightingTold(x, src, c, a, b);
      assert SightedBy(x, r, (a, b));
    }
  }

  lemma NoWiredPair(x: Evidence, edges: seq<Edge>, l: Link)
    requires Proper(x) && Exact(x, edges)
    ensures (forall w | IsWired(x, w) :: (w.from_, w.to) != l)
            <==> forall f | f in edges && WiredMethod(f) :: (f.from_, f.to) != l
  {
    if w :| IsWired(x, w) && (w.from_, w.to) == l {
      var k := WiredIsOpen(x, w);
      var f := Promoted(x.fleet, w);
      assert IsPromoted(x, f) && WiredMethod(f);
    }
    if f :| f in edges && WiredMethod(f) && (f.from_, f.to) == l {
      var k := WiredOrigin(x, edges, f);
      assert IsWired(x, WiredUplink(x, x.fleet[k]).value);
    }
  }

  /** A radio link is in the list exactly if one router lists the other as a client, neither LLDP
      nor a cable explains the pair, and LLDP knows no uplink of the farther one. */
  lemma RadioLinksAreTold(x: Evidence, edges: seq<Edge>, e: Edge)
    requires Proper(x) && Exact(x, edges) && e.method_ == WifiClient
    ensures e in edges <==> RadioTold(x, edges, e)
  {
    SightedIff(x, e.from_, e.to);
    FreeIff(x, e.from_, e.to);
    NoWiredPair(x, edges, (e.from_, e.to));
    if e in edges {
      var b := Justified(x, edges, e);
      if IsFallback(x, b) { FallbackJoins(x, b); }
      if IsWired(x, b) { var k := WiredIsOpen(x, b); }
      assert IsWifi(x, b);
      EdgesJoinRouters(x, edges, e);
    }
    if RadioTold(x, edges, e) {
      assert IsWifi(x, e) && e == Promoted(x.fleet, e);
      assert IsPromoted(x, e);
    }
  }

  /** Radio links lead away from gateways, whichever side lists the other; between routers of
      one role they lead from the one whose client list names the other. */
  lemma RadioLinksLeadAway(x: Evidence, edges: seq<Edge>, e: Edge)
    requires Proper(x) && Exact(x, edges) && e in edges && e.method_ == WifiClient
    ensures e.to in x.gateways ==> e.from_ in x.gateways
    ensures (e.from_ in x.gateways) == (e.to in x.gateways) ==> Sees(x, e.from_, e.to)
    ensures (e.from_ in x.gateways) != (e.to in x.gateways) ==> Sees(x, e.from_, e.to) || Sees(x, e.to, e.from_)
  {
    RadioLinksAreTold(x, edges, e);
  }

  /** Where one of a gateway and an access point lists the other and nothing else explains the
      pair, the edge out of the gateway is there and none leads into it. */
  lemma SightedMeansLinked(x: Evidence, edges: seq<Edge>, g: Rid, ap: Rid)
    requires Proper(x) && Exact(x, edges) && g in x.gateways && ap !in x.gateways
    requires (Sees(x, g, ap) || Sees(x, ap, g)) && !Cabled(x.fleet, g, ap) && !HasUpstream(x, ap)
    requires forall f | f in edges && WiredMethod(f) :: f.to != ap
    ensures exists e | e in edges :: (e.from_, e.to, e.method_, e.relationship) == (g, ap, WifiClient, WifiUplink)
    ensures forall e | e in edges && e.method_ == WifiClient :: (e.from_, e.to) != (ap, g)
  {
    var e := Edge(g, ap, WifiUplink, WifiLink, WifiClient, false, None, None);
    RadioLinksAreTold(x, edges, e);
    forall f | f in edges && f.method_ == WifiClient ensures (f.from_, f.to) != (ap, g) {
      RadioLinksAreTold(x, edges, f);
    }
  }

  // --------------------------------------------------------------------- LLDP

  ghost predicate LldpTold(x: Evidence, e: Edge) {
    && Runs(x.fleet, x.gateways, x.v.depths, e.from_, e.to)
    && PortsTold(e.(relationship := RouterUplink, overridden := false), x.fleet, x.gateways)
    && e.overridden == (e.link == WifiLink && Repeater(x.fleet, e.to) && !Carrier(x.fleet, e.to))
    && e.relationship == if e.overridden then WifiUplink else RouterUplink
  }

  lemma RunsIff(x: Evidence, a: Rid, b: Rid)
    requires Proper(x)
    ensures Runs(x.fleet, x.gateways, x.v.depths, a, b) <==> Linked(x.v, a, b) && DirectionOf(x.v, a, b).to == b
  {
    TablesTold(x.v, x.fleet, a, b);
    if Linked(x.v, a, b) {
      DirectionTold(x.v, x.fleet, x.gateways, a, b);
      LinksJoinRouters(x.v, x.fleet, x.gateways, a, b);
    }
  }

  /** The tables leave no choice about an edge between given ends. */
  lemma PortsDetermine(fleet: seq<Router>, gateways: set<Rid>, e: Edge, f: Edge)
    requires PortsTold(e, fleet, gateways) && PortsTold(f, fleet, gateways) && e.from_ == f.from_ && e.to == f.to
    ensures e == f
  {
    assert e.gatewayPort == f.gatewayPort by {
      if e.gatewayPort.Some? { assert f.gatewayPort == Some(e.gatewayPort.value); }
      if f.gatewayPort.Some? { assert e.gatewayPort == Some(f.gatewayPort.value); }
    }
    assert e.apPort == f.apPort by {
      if e.apPort.Some? { assert f.apPort == Some(e.apPort.value); }
      if f.apPort.Some? { assert e.apPort == Some(f.apPort.value); }
    }
  }

  /** An LLDP edge is in the list exactly if one of its routers reports the other: in the
      direction and with the ports their tables tell, and as a radio link if the far router is
      meshed and LLDP itself saw no cable. */
  lemma LldpEdgesAreTold(x: Evidence, edges: seq<Edge>, e: Edge)
    requires Proper(x) && Exact(x, edges) && e.method_ == Lldp
    ensures e in edges <==> LldpTold(x, e)
  {
    RunsIff(x, e.from_, e.to);
    var b := LldpEdge(x.v, e.from_, e.to);
    if e in edges {
      var c := Justified(x, edges, e);
      if IsFallback(x, c) { FallbackJoins(x, c); }
      if IsWired(x, c) { var k := WiredIsOpen(x, c); }
      assert IsLldp(x, c) && c == b;
      PortTold(x.v, x.fleet, x.gateways, b);
      if e.overridden { WirelessHasNoPorts(x, b); }
    }
    if LldpTold(x, e) {
      EdgeIsSymmetric(x.v, e.from_, e.to);
      PortTold(x.v, x.fleet, x.gateways, b);
      PortsDetermine(x.fleet, x.gateways, b, e.(relationship := RouterUplink, overridden := false));
      if e.overridden { WirelessHasNoPorts(x, b); }
      assert e == Promoted(x.fleet, b) && IsLldp(x, b);
      assert IsPromoted(x, e);
    }
  }

  lemma WirelessHasNoPorts(x: Evidence, b: Edge)
    requires PortsTold(b, x.fleet, x.gateways) && b.link == WifiLink
    ensures b.gatewayPort.None? && b.apPort.None?
  {
  }

  // ---------------------------------------------------------------- fallbacks

  ghost predicate FallbackTold(x: Evidence, edges: seq<Edge>, gs: seq<Router>, ap: Router, e: Edge) {
    && gs != [] && ap in x.fleet && ap.rid !in x.gateways && e.from_ == gs[0].rid && e.to == ap.rid
    && (forall f | f in edges && f != e :: f.from_ != ap.rid && f.to != ap.rid)
    && !e.overridden && e.gatewayPort.None? && e.apPort.None?
    && if ap.staActive then e.method_ == StaFallback && e.relationship == WifiUplink && e.link == WifiLink
       else (gs[0].net24 == ap.net24 || gs[0].net24.None? || ap.net24.None?)
            && e.method_ == SubnetFallback && e.relationship == MeshMember && e.link == UnknownLink
  }

  predicate FallbackMethod(e: Edge) {
    e.method_ == StaFallback || e.method_ == SubnetFallback
  }

  lemma ListedFallback(x: Evidence, edges: seq<Edge>, e: Edge) returns (ap: Router)
    requires Proper(x) && Exact(x, edges) && FallbackMethod(e) && e in edges
    ensures FallbackTold(x, edges, GatewayList(x), ap, e)
  {
    var b := Justified(x, edges, e);
    if IsWired(x, b) { var k := WiredIsOpen(x, b); }
    assert IsFallback(x, b);
    var k := FallbackOrigin(x, b);
    ap := x.fleet[k];
    forall f | f in edges && f != e ensures f.from_ != ap.rid && f.to != ap.rid {
      OthersAreElsewhere(x, edges, b, f, k);
    }
  }

  lemma OthersAreElsewhere(x: Evidence, edges: seq<Edge>, e: Edge, f: Edge, k: nat)
    requires Proper(x) && Exact(x, edges) && IsFallback(x, e) && f in edges && f != e
    requires k < |x.fleet| && x.fleet[k].rid !in x.gateways && NoBase(x, x.fleet[k].rid)
    requires Fallback(GatewayList(x)[0], x.fleet[k]) == Some(e)
    ensures !Touches(f, x.fleet[k].rid)
  {
    var b := Justified(x, edges, f);
    if IsFallback(x, b) {
      FallbackJoins(x, b);
      var l := FallbackOrigin(x, b);
      SameIndex(x.fleet, k, l);
    }
  }

  lemma FallbackIsInList(x: Evidence, edges: seq<Edge>, ap: Router, e: Edge)
    requires Proper(x) && Exact(x, edges) && FallbackMethod(e) && FallbackTold(x, edges, GatewayList(x), ap, e)
    ensures e in edges
  {
    forall b | IsBase(x, b) ensures !Touches(b, ap.rid) {
      var f := Promoted(x.fleet, b);
      assert IsPromoted(x, f) && f in edges;
      if IsWired(x, b) { var k := WiredIsOpen(x, b); }
      assert f != e;
    }
    var k :| 0 <= k < |x.fleet| && x.fleet[k] == ap;
    assert Fallback(GatewayList(x)[0], x.fleet[k]) == Some(e);
    assert IsFallback(x, e);
  }

  /** A guessed edge is in the list exactly if no other edge touches its access point: from the
      first gateway, as a radio link if the access point uplinks by radio, else as a mesh member
      if the two are not known to lie in different subnets. */
  lemma FallbacksAreTold(x: Evidence, edges: seq<Edge>, e: Edge)
    requires Proper(x) && Exact(x, edges) && FallbackMethod(e)
    ensures e in edges <==> exists ap :: FallbackTold(x, edges, GatewayList(x), ap, e)
  {
    if e in edges {
      var ap := ListedFallback(x, edges, e);
    }
    if ap :| FallbackTold(x, edges, GatewayList(x), ap, e) {
      FallbackIsInList(x, edges, ap, e);
    }
  }
}
