/** Hop distances from the nearest gateway over LLDP links, by breadth-first search. */
module HopDepths {

  /** The id of a router. */
  type Rid = string
  type Link = (Rid, Rid)

  /** A link is seen from one side or from both. */
  predicate Adjacent(links: set<Link>, a: Rid, b: Rid) {
    (a, b) in links || (b, a) in links
  }

  ghost predicate IsPath(links: set<Link>, p: seq<Rid>) {
    p != [] && forall i | 0 < i < |p| :: Adjacent(links, p[i - 1], p[i])
  }

  /** A path of LLDP links from some gateway to `r`. */
  ghost predicate FromGateway(links: set<Link>, gateways: set<Rid>, p: seq<Rid>, r: Rid) {
    IsPath(links, p) && p[0] in gateways && p[|p| - 1] == r
  }

  /** `depths[r]` is the length of a shortest path from a gateway; the unreachable are absent. */
  ghost predicate ShortestDepths(depths: map<Rid, nat>, links: set<Link>, gateways: set<Rid>) {
    && (forall p, r | FromGateway(links, gateways, p, r) :: r in depths && depths[r] <= |p| - 1)
    && (forall r | r in depths :: exists p :: FromGateway(links, gateways, p, r) && |p| - 1 == depths[r])
  }

  // --------------------------------------------------------------- layers

  function Endpoints(links: set<Link>): set<Rid> {
    (set l | l in links :: l.0) + (set l | l in links :: l.1)
  }

  ghost function Peers(links: set<Link>, s: set<Rid>): set<Rid> {
    set r | r in Endpoints(links) && exists q | q in s :: Adjacent(links, q, r)
  }

  /** The routers at most `n` hops from a gateway. */
  ghost function Within(links: set<Link>, gateways: set<Rid>, n: nat): set<Rid> {
    if n == 0 then gateways
    else Within(links, gateways, n - 1) + Peers(links, Within(links, gateways, n - 1))
  }

  lemma AdjacentIsPeer(links: set<Link>, q: Rid, r: Rid)
    requires Adjacent(links, q, r)
    ensures r in Endpoints(links) && q in Endpoints(links)
  {
    if (q, r) in links {
      assert (q, r).1 == r && (q, r).0 == q;
    } else {
      assert (r, q).0 == r && (r, q).1 == q;
    }
  }

  lemma {:induction false} WithinHasPath(links: set<Link>, gateways: set<Rid>, n: nat, r: Rid) returns (p: seq<Rid>)
    requires r in Within(links, gateways, n)
    ensures FromGateway(links, gateways, p, r) && |p| - 1 <= n
  {
    if n == 0 {
      p := [r];
    } else if r in Within(links, gateways, n - 1) {
      p := WithinHasPath(links, gateways, n - 1, r);
    } else {
      var q :| q in Within(links, gateways, n - 1) && Adjacent(links, q, r);
      p := WithinHasPath(links, gateways, n - 1, q);
      p := p + [r];
    }
  }

  lemma PrefixIsPath(links: set<Link>, p: seq<Rid>, n: nat)
    requires IsPath(links, p) && 0 < n <= |p|
    ensures IsPath(links, p[..n])
  {
    forall i | 0 < i < n ensures Adjacent(links, p[..n][i - 1], p[..n][i]) {
      assert Adjacent(links, p[i - 1], p[i]);
    }
  }

  lemma {:induction false} PathIsWithin(links: set<Link>, gateways: set<Rid>, p: seq<Rid>, r: Rid)
    requires FromGateway(links, gateways, p, r)
    ensures r in Within(links, gateways, |p| - 1)
  {
    var n := |p| - 1;
    if n > 0 {
      PrefixIsPath(links, p, n);
      PathIsWithin(links, gateways, p[..n], p[n - 1]);
      AdjacentIsPeer(links, p[n - 1], p[n]);
    }
  }

  lemma {:induction false} WithinGrows(links: set<Link>, gateways: set<Rid>, m: nat, n: nat)
    requires m <= n
    ensures Within(links, gateways, m) <= Within(links, gateways, n)
    decreases n
  {
    if m < n {
      WithinGrows(links, gateways, m, n - 1);
    }
  }

  lemma {:induction false} FixpointStays(links: set<Link>, gateways: set<Rid>, m: nat, n: nat)
    requires m <= n && Within(links, gateways, m) == Within(links, gateways, m + 1)
    ensures Within(links, gateways, n) == Within(links, gateways, m)
    decreases n - m
  {
    if m < n {
      SameLayerAfter(links, gateways, m, m + 1);
      FixpointStays(links, gateways, m + 1, n);
    }
  }

  lemma SameLayerAfter(links: set<Link>, gateways: set<Rid>, m: nat, n: nat)
    requires Within(links, gateways, m) == Within(links, gateways, n)
    ensures Within(links, gateways, m + 1) == Within(links, gateways, n + 1)
  {
  }

  /** The table is right for everything at most `d` hops away, and holds nothing else. */
  ghost predicate Layered(depths: map<Rid, nat>, links: set<Link>, gateways: set<Rid>, d: nat) {
    && depths.Keys == Within(links, gateways, d)
    && forall r | r in depths :: depths[r] <= d && FirstWithin(links, gateways, r, depths[r])
  }

  /** `n` is the first layer that contains `r`. */
  ghost predicate FirstWithin(links: set<Link>, gateways: set<Rid>, r: Rid, n: nat) {
    r in Within(links, gateways, n) && (n > 0 ==> r !in Within(links, gateways, n - 1))
  }

  lemma DepthIsLeast(depths: map<Rid, nat>, links: set<Link>, gateways: set<Rid>, d: nat, r: Rid, n: nat)
    requires Layered(depths, links, gateways, d) && r in depths && r in Within(links, gateways, n)
    ensures depths[r] <= n
  {
    if n < depths[r] {
      WithinGrows(links, gateways, n, depths[r] - 1);
    }
  }

  lemma LayeredIsShortest(depths: map<Rid, nat>, links: set<Link>, gateways: set<Rid>, d: nat)
    requires Layered(depths, links, gateways, d)
    requires Within(links, gateways, d) == Within(links, gateways, d + 1)
    ensures ShortestDepths(depths, links, gateways)
  {
    forall p, r | FromGateway(links, gateways, p, r) ensures r in depths && depths[r] <= |p| - 1 {
      NoPathIsShorter(depths, links, gateways, d, p, r);
    }
    forall r | r in depths ensures exists p :: FromGateway(links, gateways, p, r) && |p| - 1 == depths[r] {
      var p := PathOfDepth(depths, links, gateways, d, r);
    }
  }

  lemma NoPathIsShorter(depths: map<Rid, nat>, links: set<Link>, gateways: set<Rid>, d: nat, p: seq<Rid>, r: Rid)
    requires Layered(depths, links, gateways, d) && FromGateway(links, gateways, p, r)
    requires Within(links, gateways, d) == Within(links, gateways, d + 1)
    ensures r in depths && depths[r] <= |p| - 1
  {
    PathIsWithin(links, gateways, p, r);
    NothingBeyond(links, gateways, d, |p| - 1);
    DepthIsLeast(depths, links, gateways, d, r, |p| - 1);
  }

  lemma NothingBeyond(links: set<Link>, gateways: set<Rid>, d: nat, n: nat)
    requires Within(links, gateways, d) == Within(links, gateways, d + 1)
    ensures Within(links, gateways, n) <= Within(links, gateways, d)
  {
    if n > d {
      FixpointStays(links, gateways, d, n);
    } else {
      WithinGrows(links, gateways, n, d);
    }
  }

  lemma PathOfDepth(depths: map<Rid, nat>, links: set<Link>, gateways: set<Rid>, d: nat, r: Rid) returns (p: seq<Rid>)
    requires Layered(depths, links, gateways, d) && r in depths
    ensures FromGateway(links, gateways, p, r) && |p| - 1 == depths[r]
  {
    p := WithinHasPath(links, gateways, depths[r], r);
    PathIsWithin(links, gateways, p, r);
    DepthIsLeast(depths, links, gateways, d, r, |p| - 1);
  }

  // --------------------------------------------------------------- search

  /** The neighbour sets, as the search uses them. */
  method BuildAdjacency(links: set<Link>) returns (adjacency: map<Rid, set<Rid>>)
    ensures forall a, b :: Adjacent(links, a, b) <==> a in adjacency && b in adjacency[a]
  {
    adjacency := map[];
    var todo := links;
    while todo != {}
      invariant todo <= links
      invariant forall a, b :: Adjacent(links - todo, a, b) <==> a in adjacency && b in adjacency[a]
    {
      var l :| l in todo;
      var (a, b) := l;
      adjacency := adjacency[a := (if a in adjacency then adjacency[a] else {}) + {b}];
      adjacency := adjacency[b := (if b in adjacency then adjacency[b] else {}) + {a}];
      ghost var done := links - todo;
      todo := todo - {l};
      assert links - todo == done + {l};
      assert forall x, y ::
          Adjacent(done + {l}, x, y) <==> Adjacent(done, x, y) || (x, y) == (a, b) || (x, y) == (b, a);
    }
    assert links - todo == links;
  }

  /** `nxt` lists what the pass over the frontier adds at distance `depth`. */
  ghost predicate PassInv(before: map<Rid, nat>, depths: map<Rid, nat>, nxt: seq<Rid>, depth: nat, reached: set<Rid>) {
    && depths.Keys == before.Keys + reached
    && (forall r | r in before :: depths[r] == before[r])
    && (forall r | r in depths && r !in before :: depths[r] == depth)
    && (forall r :: r in nxt <==> r in depths && r !in before)
  }

  /** One pass: every peer of the frontier that is not known yet gets `depth`. */
  method Expand(adjacency: map<Rid, set<Rid>>, before: map<Rid, nat>, frontier: seq<Rid>, depth: nat,
                ghost links: set<Link>)
    returns (depths: map<Rid, nat>, nxt: seq<Rid>)
    requires forall a, b :: Adjacent(links, a, b) <==> a in adjacency && b in adjacency[a]
    ensures PassInv(before, depths, nxt, depth, Peers(links, set r | r in frontier))
  {
    depths, nxt := before, [];
    ghost var reached := {};
    for i := 0 to |frontier|
      invariant PassInv(before, depths, nxt, depth, reached)
      invariant forall r :: r in reached <==> exists q | q in frontier[..i] :: Adjacent(links, q, r)
    {
      var rid := frontier[i];
      var peers := if rid in adjacency then adjacency[rid] else {};
      ghost var start := reached;
      var todo := peers;
      while todo != {}
        invariant todo <= peers
        invariant PassInv(before, depths, nxt, depth, reached)
        invariant reached == start + (peers - todo)
      {
        var peer :| peer in todo;
        if peer !in depths {
          depths := depths[peer := depth];
          nxt := nxt + [peer];
        }
        todo, reached := todo - {peer}, reached + {peer};
      }
      assert frontier[..i + 1] == frontier[..i] + [rid];
      assert forall r :: Adjacent(links, rid, r) <==> r in peers;
    }
    assert frontier[..|frontier|] == frontier;
    forall r ensures r in reached <==> r in Peers(links, set q | q in frontier) {
      if r in reached {
        var q :| q in frontier && Adjacent(links, q, r);
        AdjacentIsPeer(links, q, r);
      }
    }
  }

  /** `_lldp_hop_depths`: exactly the shortest distances, for every set of links. */
  method ComputeDepths(links: set<Link>, roots: seq<Rid>) returns (depths: map<Rid, nat>)
    ensures ShortestDepths(depths, links, set r | r in roots)
  {
    ghost var gateways := set r | r in roots;
    var adjacency := BuildAdjacency(links);
    depths := map r | r in roots :: 0;
    var frontier := roots;
    var depth := 0;
    ghost var universe := gateways + Endpoints(links);
    while frontier != []
      invariant Layered(depths, links, gateways, depth)
      invariant depths.Keys <= universe
      invariant forall r :: r in frontier <==> r in depths && depths[r] == depth
      decreases universe - depths.Keys, |frontier|
    {
      ghost var before := depths;
      var nxt;
      depth := depth + 1;
      depths, nxt := Expand(adjacency, depths, frontier, depth, links);
      LayerStep(before, depths, frontier, nxt, links, gateways, depth - 1, universe);
      frontier := nxt;
    }
    NoNewLayer(depths, links, gateways, depth);
    LayeredIsShortest(depths, links, gateways, depth);
  }

  lemma LayerStep(before: map<Rid, nat>, depths: map<Rid, nat>, frontier: seq<Rid>, nxt: seq<Rid>,
                  links: set<Link>, gateways: set<Rid>, d: nat, universe: set<Rid>)
    requires Layered(before, links, gateways, d)
    requires forall r :: r in frontier <==> r in before && before[r] == d
    requires PassInv(before, depths, nxt, d + 1, Peers(links, set r | r in frontier))
    requires before.Keys <= universe == gateways + Endpoints(links)
    ensures Layered(depths, links, gateways, d + 1)
    ensures forall r :: r in nxt <==> r in depths && depths[r] == d + 1
    ensures depths.Keys <= universe
    ensures if nxt == [] then depths.Keys == before.Keys else universe - depths.Keys < universe - before.Keys
  {
    var front := set r | r in frontier;
    assert front == set r | r in before && before[r] == d;
    NextLayer(before, depths, nxt, links, gateways, d, front);
    PassProgress(before, depths, nxt, d + 1, Peers(links, front), universe);
  }

  lemma PassProgress(before: map<Rid, nat>, depths: map<Rid, nat>, nxt: seq<Rid>, depth: nat, reached: set<Rid>,
                     universe: set<Rid>)
    requires PassInv(before, depths, nxt, depth, reached)
    requires before.Keys <= universe && reached <= universe
    ensures depths.Keys <= universe
    ensures nxt == [] ==> depths.Keys == before.Keys
    ensures nxt != [] ==> universe - depths.Keys < universe - before.Keys
  {
    if nxt == [] {
      assert forall r | r in depths :: r in before by { assert forall r :: r !in nxt; }
    } else {
      assert nxt[0] in nxt;
      assert nxt[0] in universe - before.Keys && nxt[0] !in universe - depths.Keys;
    }
  }

  lemma NextLayer(before: map<Rid, nat>, depths: map<Rid, nat>, nxt: seq<Rid>, links: set<Link>, gateways: set<Rid>,
                  d: nat, front: set<Rid>)
    requires Layered(before, links, gateways, d)
    requires front == set r | r in before && before[r] == d
    requires PassInv(before, depths, nxt, d + 1, Peers(links, front))
    ensures Layered(depths, links, gateways, d + 1)
    ensures forall r :: r in nxt <==> r in depths && depths[r] == d + 1
  {
    NextWithin(before, links, gateways, d, front);
    var w, v := Within(links, gateways, d), Within(links, gateways, d + 1);
    assert depths.Keys == v && before.Keys == w;
    forall r | r in depths ensures depths[r] <= d + 1 && FirstWithin(links, gateways, r, depths[r]) {
      if r in before {
        assert FirstWithin(links, gateways, r, before[r]);
      } else {
        assert r in v && r !in w;
      }
    }
  }

  lemma NextWithin(before: map<Rid, nat>, links: set<Link>, gateways: set<Rid>, d: nat, front: set<Rid>)
    requires Layered(before, links, gateways, d)
    requires front == set r | r in before && before[r] == d
    ensures Within(links, gateways, d + 1) == before.Keys + Peers(links, front)
  {
    var w := Within(links, gateways, d);
    forall r | r in Peers(links, w) ensures r in w + Peers(links, front) {
      var q :| q in w && Adjacent(links, q, r);
      assert q in before;
      if before[q] < d {
        InnerPeer(links, gateways, q, r, before[q], d);
      } else {
        assert q in front;
      }
    }
    PeersGrow(links, front, w);
  }

  lemma InnerPeer(links: set<Link>, gateways: set<Rid>, q: Rid, r: Rid, k: nat, d: nat)
    requires q in Within(links, gateways, k) && k < d && Adjacent(links, q, r)
    ensures r in Within(links, gateways, d)
  {
    AdjacentIsPeer(links, q, r);
    assert r in Within(links, gateways, k + 1);
    WithinGrows(links, gateways, k + 1, d);
  }

  lemma PeersGrow(links: set<Link>, s: set<Rid>, t: set<Rid>)
    requires s <= t
    ensures Peers(links, s) <= Peers(links, t)
  {
  }

  lemma NoNewLayer(depths: map<Rid, nat>, links: set<Link>, gateways: set<Rid>, d: nat)
    requires Layered(depths, links, gateways, d)
    requires forall r | r in depths :: depths[r] != d
    ensures Within(links, gateways, d) == Within(links, gateways, d + 1)
  {
    if d == 0 {
      assert forall r :: r !in gateways by { assert depths.Keys == gateways; }
    } else {
      forall r | r in Within(links, gateways, d) ensures r in Within(links, gateways, d - 1) {
        assert r in depths;
        WithinGrows(links, gateways, depths[r], d - 1);
      }
      WithinGrows(links, gateways, d - 1, d);
      assert Within(links, gateways, d) == Within(links, gateways, d - 1);
    }
  }

  // -------------------------------------------------- what depths tell

  /** Neighbours of a reachable router are reachable, at most one hop further. */
  lemma NeighboursDiffer(depths: map<Rid, nat>, links: set<Link>, gateways: set<Rid>, a: Rid, b: Rid)
    requires ShortestDepths(depths, links, gateways) && Adjacent(links, a, b) && a in depths
    ensures b in depths && depths[b] <= depths[a] + 1
  {
    var p :| FromGateway(links, gateways, p, a) && |p| - 1 == depths[a];
    assert FromGateway(links, gateways, p + [b], b);
  }

  lemma DepthZeroIff(depths: map<Rid, nat>, links: set<Link>, gateways: set<Rid>, r: Rid)
    requires ShortestDepths(depths, links, gateways)
    ensures r in gateways <==> r in depths && depths[r] == 0
  {
    if r in gateways {
      assert FromGateway(links, gateways, [r], r);
    }
  }

  /** Every reachable router but a gateway has a neighbour exactly one hop nearer. */
  lemma NearerNeighbour(depths: map<Rid, nat>, links: set<Link>, gateways: set<Rid>, r: Rid) returns (q: Rid)
    requires ShortestDepths(depths, links, gateways) && r in depths && depths[r] > 0
    ensures Adjacent(links, q, r) && q in depths && depths[q] == depths[r] - 1
  {
    var p :| FromGateway(links, gateways, p, r) && |p| - 1 == depths[r];
    var n := |p| - 1;
    q := p[n - 1];
    assert Adjacent(links, p[n - 1], p[n]);
    PrefixIsPath(links, p, n);
    assert FromGateway(links, gateways, p[..n], q);
    NeighboursDiffer(depths, links, gateways, q, r);
  }
}
