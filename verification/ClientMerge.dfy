/** Merging the snapshots of all routers: one entry, one node and one place in the graph for
    every client, however many routers list it.

    Among the listings of one MAC a fresh one wins over a stale one and then the stronger signal;
    the node and the edges of the client follow the router that won. Nodes and edges of other
    kinds pass through, the first of every id. */
module ClientMerge {
  import opened Options
  import opened HopDepths
  import SwitchNodes

  type Wire = SwitchNodes.Wire

  datatype Station = Station(mac: string, signal: Option<int>, radio: string)

  /** One router's contribution: its last update went through or not, its access-point
      interfaces, and the stations it lists. */
  datatype View = View(rid: Rid, online: bool, ifaces: seq<string>, stations: seq<Station>)

  datatype Entry = Entry(mac: string, apMac: Rid, signal: Option<int>, stale: bool)

  /** Where a client hangs: at a router, or at one of its interfaces. */
  datatype Spot = AtRouter(rid: Rid) | AtIface(rid: Rid, ifname: string)

  datatype Node = RouterNode(rid: Rid) | IfaceNode(rid: Rid, ifname: string) | ClientNode(entry: Entry)
    | SwitchNode(gateway: Rid, port: string)

  datatype Edge =
    | HasInterface(rid: Rid, ifname: string, stale: bool)
    | HasClient(from_: Spot, mac: string, stale: bool)
    | Link(wire: Wire, stale: bool)

  datatype EdgeId =
    | InterfaceId(rid: Rid, ifname: string)
    | ClientId(spot: Spot, mac: string)
    | UplinkId(from_: Rid, to: Rid)
    | SwitchId(gateway: Rid, port: string)
    | TrunkId(gateway: Rid, port: string, ap: Rid)

  /** The id of an edge; what it says of the link, and whether it is stale, is not part of it. */
  function Id(e: Edge): EdgeId {
    match e
    case HasInterface(r, i, _) => InterfaceId(r, i)
    case HasClient(f, m, _) => ClientId(f, m)
    case Link(Direct(d), _) => UplinkId(d.from_, d.to)
    case Link(ToSwitch(g, port), _) => SwitchId(g, port)
    case Link(Trunk(g, port, ap), _) => TrunkId(g, port, ap)
  }

  // -------------------------------------------------- the routers' snapshots

  /** One listing of a client by a router. */
  datatype Sight = Sight(entry: Entry, from_: Spot)

  function SightOf(v: View, s: Station): Sight {
    Sight(Entry(s.mac, v.rid, s.signal, !v.online),
          if s.radio != "" && s.radio in v.ifaces then AtIface(v.rid, s.radio) else AtRouter(v.rid))
  }

  /** Stations without a MAC are not listed. */
  function Sights(v: View, stations: seq<Station>): seq<Sight> {
    if stations == [] then []
    else
      var s := stations[|stations| - 1];
      Sights(v, stations[..|stations| - 1]) + if s.mac == "" then [] else [SightOf(v, s)]
  }

  function FleetSights(fleet: seq<View>): seq<Sight> {
    if fleet == [] then []
    else
      var v := fleet[|fleet| - 1];
      FleetSights(fleet[..|fleet| - 1]) + Sights(v, v.stations)
  }

  function Entries(sights: seq<Sight>): seq<Entry> {
    seq(|sights|, i requires 0 <= i < |sights| => sights[i].entry)
  }

  function IfaceNodes(v: View, ifaces: seq<string>): seq<Node> {
    if ifaces == [] then []
    else
      var ifname := ifaces[|ifaces| - 1];
      IfaceNodes(v, ifaces[..|ifaces| - 1]) + if ifname == "" then [] else [IfaceNode(v.rid, ifname)]
  }

  function IfaceEdges(v: View, ifaces: seq<string>): seq<Edge> {
    if ifaces == [] then []
    else
      var ifname := ifaces[|ifaces| - 1];
      IfaceEdges(v, ifaces[..|ifaces| - 1]) + if ifname == "" then [] else [HasInterface(v.rid, ifname, !v.online)]
  }

  function ClientNodes(sights: seq<Sight>): seq<Node> {
    seq(|sights|, i requires 0 <= i < |sights| => ClientNode(sights[i].entry))
  }

  function ClientEdge(s: Sight): Edge {
    HasClient(s.from_, s.entry.mac, s.entry.stale)
  }

  function ClientEdges(sights: seq<Sight>): seq<Edge> {
    seq(|sights|, i requires 0 <= i < |sights| => ClientEdge(sights[i]))
  }

  function SnapshotNodes(v: View): seq<Node> {
    [RouterNode(v.rid)] + IfaceNodes(v, v.ifaces) + ClientNodes(Sights(v, v.stations))
  }

  function SnapshotEdges(v: View): seq<Edge> {
    IfaceEdges(v, v.ifaces) + ClientEdges(Sights(v, v.stations))
  }

  function FleetNodes(fleet: seq<View>): seq<Node> {
    if fleet == [] then [] else FleetNodes(fleet[..|fleet| - 1]) + SnapshotNodes(fleet[|fleet| - 1])
  }

  function FleetEdges(fleet: seq<View>): seq<Edge> {
    if fleet == [] then [] else FleetEdges(fleet[..|fleet| - 1]) + SnapshotEdges(fleet[|fleet| - 1])
  }

  // ------------------------------------------------------ the better listing

  /** A fresh listing beats a stale one; among equally fresh ones the stronger signal
      wins, and no signal is the weakest. */
  predicate Better(a: Entry, b: Entry) {
    if a.stale != b.stale then b.stale
    else a.signal.Some? && (b.signal.None? || a.signal.value > b.signal.value)
  }

  /** `k` is the first listing of its MAC that no other listing beats. */
  ghost predicate Winner(all: seq<Entry>, k: int) {
    && 0 <= k < |all|
    && (forall j | 0 <= j < k && all[j].mac == all[k].mac :: Better(all[k], all[j]))
    && (forall j | k < j < |all| && all[j].mac == all[k].mac :: !Better(all[j], all[k]))
  }

  ghost predicate Wins(all: seq<Entry>, c: Entry) {
    exists k :: Winner(all, k) && all[k] == c
  }

  ghost predicate Listed(all: seq<Entry>, mac: string) {
    exists k | 0 <= k < |all| :: all[k].mac == mac
  }

  /** The MACs in the order in which they first come up; entries without one do not count. */
  function FirstMacs(all: seq<Entry>): seq<string> {
    if all == [] then []
    else
      var before, mac := FirstMacs(all[..|all| - 1]), all[|all| - 1].mac;
      if mac == "" || mac in before then before else before + [mac]
  }

  lemma {:induction false} FirstMacsAreTheListed(all: seq<Entry>)
    ensures forall mac :: mac in FirstMacs(all) <==> mac != "" && Listed(all, mac)
    ensures forall i, j | 0 <= i < j < |FirstMacs(all)| :: FirstMacs(all)[i] != FirstMacs(all)[j]
  {
    if all != [] {
      var n := |all| - 1;
      FirstMacsAreTheListed(all[..n]);
      forall mac ensures Listed(all, mac) <==> Listed(all[..n], mac) || all[n].mac == mac {
        ListedGrows(all, n, mac);
      }
    }
  }

  lemma ListedGrows(all: seq<Entry>, n: nat, mac: string)
    requires n == |all| - 1
    ensures Listed(all, mac) <==> Listed(all[..n], mac) || all[n].mac == mac
  {
    if Listed(all, mac) && all[n].mac != mac {
      var k :| 0 <= k < |all| && all[k].mac == mac;
      assert all[..n][k].mac == mac;
    }
    if Listed(all[..n], mac) {
      var k :| 0 <= k < n && all[..n][k].mac == mac;
      assert all[k].mac == mac;
    }
  }

  /** No MAC has two winning listings. */
  lemma WinnerIsUnique(all: seq<Entry>, j: int, k: int)
    requires Winner(all, j) && Winner(all, k) && all[j].mac == all[k].mac
    ensures j == k
  {
  }

  lemma WinnerBeatsOrTies(all: seq<Entry>, k: int, j: int)
    requires Winner(all, k) && 0 <= j < |all| && all[j].mac == all[k].mac
    ensures !Better(all[j], all[k])
  {
  }

  /** One more listing: it wins if it beats the winner so far, or comes first. */
  lemma NextWins(all: seq<Entry>, c: Entry, held: Entry)
    requires Wins(all, held) && held.mac == c.mac
    ensures Wins(all + [c], if Better(c, held) then c else held)
  {
    var k :| Winner(all, k) && all[k] == held;
    var now := all + [c];
    assert forall j | 0 <= j < |all| :: now[j] == all[j];
    if Better(c, held) {
      forall j | 0 <= j < |all| && all[j].mac == c.mac ensures Better(c, now[j]) {
        if j != k { WinnerBeatsOrTies(all, k, j); }
      }
      assert Winner(now, |all|);
    } else {
      assert Winner(now, k);
    }
  }

  lemma FirstWins(all: seq<Entry>, c: Entry)
    requires !Listed(all, c.mac)
    ensures Wins(all + [c], c)
  {
    assert Winner(all + [c], |all|);
  }

  lemma OtherStaysWinner(all: seq<Entry>, c: Entry, other: Entry)
    requires Wins(all, other) && other.mac != c.mac
    ensures Wins(all + [c], other)
  {
    var k :| Winner(all, k) && all[k] == other;
    assert forall j | 0 <= j < |all| :: (all + [c])[j] == all[j];
    assert Winner(all + [c], k);
  }

  /** One entry per listed MAC, in the order of first appearance, and each the winner. */
  ghost predicate Deduplicated(all: seq<Entry>, r: seq<Entry>) {
    && |r| == |FirstMacs(all)|
    && (forall k | 0 <= k < |r| :: r[k].mac == FirstMacs(all)[k] && Wins(all, r[k]))
  }

  ghost predicate BestSoFar(all: seq<Entry>, macs: seq<string>, best: map<string, Entry>) {
    && (forall mac :: mac in best <==> mac in macs)
    && (forall mac | mac in best :: best[mac].mac == mac && Wins(all, best[mac]))
  }

  method DeduplicateClients(all: seq<Entry>) returns (r: seq<Entry>)
    ensures Deduplicated(all, r)
  {
    var best: map<string, Entry> := map[];
    var order: seq<string> := [];
    for i := 0 to |all|
      invariant order == FirstMacs(all[..i])
      invariant BestSoFar(all[..i], order, best)
    {
      var c := all[i];
      assert all[..i + 1] == all[..i] + [c];
      OneMoreMac(all[..i], c);
      OneMoreListing(all[..i], order, c, best);
      if c.mac == "" {
      } else if c.mac !in best {
        best := best[c.mac := c];
        order := order + [c.mac];
      } else {
        var held := best[c.mac];
        if c.stale != held.stale {
          if held.stale {
            best := best[c.mac := c];
          }
        } else if c.signal.Some? && (held.signal.None? || c.signal.value > held.signal.value) {
          best := best[c.mac := c];
        }
      }
    }
    assert all[..|all|] == all;
    r := seq(|order|, k requires 0 <= k < |order| && order[k] in best => best[order[k]]);
  }

  lemma OneMoreMac(all: seq<Entry>, c: Entry)
    ensures "" !in FirstMacs(all) && (c.mac != "" && c.mac !in FirstMacs(all) ==> !Listed(all, c.mac))
    ensures FirstMacs(all + [c]) == if c.mac == "" || c.mac in FirstMacs(all) then FirstMacs(all)
            else FirstMacs(all) + [c.mac]
  {
    FirstMacsAreTheListed(all);
    assert (all + [c])[..|all|] == all;
  }

  lemma OneMoreListing(all: seq<Entry>, macs: seq<string>, c: Entry, best: map<string, Entry>)
    requires BestSoFar(all, macs, best) && "" !in macs && (c.mac != "" && c.mac !in macs ==> !Listed(all, c.mac))
    ensures BestSoFar(all + [c], if c.mac == "" || c.mac in macs then macs else macs + [c.mac],
                      if c.mac == "" || (c.mac in best && !Better(c, best[c.mac])) then best else best[c.mac := c])
  {
    forall mac | mac in best && mac != c.mac ensures Wins(all + [c], best[mac]) {
      OtherStaysWinner(all, c, best[mac]);
    }
    if c.mac in best {
      NextWins(all, c, best[c.mac]);
    } else if c.mac != "" {
      FirstWins(all, c);
    }
  }

  // ----------------------------------------------- which clients are shown

  /** Known routers are no clients. */
  function WithoutRouters(clients: seq<Entry>, known: set<string>): (r: seq<Entry>)
    ensures forall c :: c in r <==> c in clients && c.mac !in known
  {
    if clients == [] then []
    else
      var c := clients[|clients| - 1];
      WithoutRouters(clients[..|clients| - 1], known) + if c.mac in known then [] else [c]
  }

  ghost predicate DistinctMacs(clients: seq<Entry>) {
    forall i, j | 0 <= i < j < |clients| :: clients[i].mac != clients[j].mac
  }

  lemma {:induction false} WithoutRoutersStaysDistinct(clients: seq<Entry>, known: set<string>)
    requires DistinctMacs(clients)
    ensures DistinctMacs(WithoutRouters(clients, known))
  {
    if clients != [] {
      var n := |clients| - 1;
      WithoutRoutersStaysDistinct(clients[..n], known);
      var rest := WithoutRouters(clients[..n], known);
      forall i | 0 <= i < |rest| ensures rest[i].mac != clients[n].mac {
        assert rest[i] in rest;
        var k :| 0 <= k < n && clients[..n][k] == rest[i];
        assert clients[k].mac != clients[n].mac;
      }
    }
  }

  /** The clients to show: the winner of every listed MAC that is no known router. */
  ghost predicate Survivors(all: seq<Entry>, known: set<string>, clients: seq<Entry>) {
    && DistinctMacs(clients)
    && (forall c | c in clients :: c.mac != "" && c.mac !in known && Wins(all, c))
    && (forall mac | mac != "" && mac !in known && Listed(all, mac) :: exists c | c in clients :: c.mac == mac)
  }

  lemma DedupeSurvives(all: seq<Entry>, known: set<string>, r: seq<Entry>)
    requires Deduplicated(all, r)
    ensures Survivors(all, known, WithoutRouters(r, known))
  {
    DedupeCovers(all, r);
    WithoutRoutersStaysDistinct(r, known);
  }

  lemma DedupeCovers(all: seq<Entry>, r: seq<Entry>)
    requires Deduplicated(all, r)
    ensures DistinctMacs(r)
    ensures forall c | c in r :: c.mac != "" && Wins(all, c)
    ensures forall mac | mac != "" && Listed(all, mac) :: exists c | c in r :: c.mac == mac
  {
    var macs := FirstMacs(all);
    FirstMacsAreTheListed(all);
    forall c | c in r ensures c.mac != "" && Wins(all, c) {
      var k :| 0 <= k < |r| && r[k] == c;
      assert c.mac == macs[k] && macs[k] in macs;
    }
    forall mac | mac != "" && Listed(all, mac) ensures exists c | c in r :: c.mac == mac {
      var k :| 0 <= k < |macs| && macs[k] == mac;
      assert r[k].mac == mac && r[k] in r;
    }
  }

  /** A client is shown as stale exactly when no router whose update went through lists it. */
  lemma StaleIffNobodyFresh(all: seq<Entry>, known: set<string>, clients: seq<Entry>, c: Entry)
    requires Survivors(all, known, clients) && c in clients
    ensures c.stale <==> forall k | 0 <= k < |all| && all[k].mac == c.mac :: all[k].stale
  {
    var w :| Winner(all, w) && all[w] == c;
    forall k | 0 <= k < |all| && all[k].mac == c.mac && !all[k].stale ensures !c.stale {
      WinnerBeatsOrTies(all, w, k);
    }
  }

  /** No listing of the same freshness has a stronger signal than the one shown. */
  lemma ShownSignalIsStrongest(all: seq<Entry>, known: set<string>, clients: seq<Entry>, c: Entry, k: int)
    requires Survivors(all, known, clients) && c in clients
    requires 0 <= k < |all| && all[k].mac == c.mac && all[k].stale == c.stale && all[k].signal.Some?
    ensures c.signal.Some? && c.signal.value >= all[k].signal.value
  {
    var w :| Winner(all, w) && all[w] == c;
    WinnerBeatsOrTies(all, w, k);
  }

  // -------------------------------------------------------------- the nodes

  /** Nodes that the merge passes through. */
  predicate Plain(n: Node) {
    n.ClientNode? ==> n.entry.mac == ""
  }

  function Plains(nodes: seq<Node>): seq<Node> {
    if nodes == [] then []
    else Plains(nodes[..|nodes| - 1]) + if Plain(nodes[|nodes| - 1]) then [nodes[|nodes| - 1]] else []
  }

  /** The entries of the client nodes, in order. */
  function Shown(nodes: seq<Node>): seq<Entry> {
    if nodes == [] then []
    else Shown(nodes[..|nodes| - 1]) + if Plain(nodes[|nodes| - 1]) then [] else [nodes[|nodes| - 1].entry]
  }

  /** `k` is the last listing of its MAC by router `ap`, or the first one if `ap` has none. */
  ghost predicate Stands(all: seq<Entry>, ap: Rid, k: int) {
    && 0 <= k < |all|
    && if all[k].apMac == ap then forall j | k < j < |all| && all[j].mac == all[k].mac :: all[j].apMac != ap
       else forall j | 0 <= j < |all| && all[j].mac == all[k].mac :: all[j].apMac != ap && k <= j
  }

  ghost predicate StandsFor(all: seq<Entry>, ap: Rid, c: Entry) {
    exists k :: Stands(all, ap, k) && all[k] == c
  }

  lemma NextStand(all: seq<Entry>, c: Entry, ap: Rid, held: Entry)
    requires StandsFor(all, ap, held)
    ensures StandsFor(all + [c], ap, if c.mac == held.mac && c.apMac == ap then c else held)
  {
    var k :| Stands(all, ap, k) && all[k] == held;
    var now := all + [c];
    assert forall j | 0 <= j < |all| :: now[j] == all[j];
    assert Stands(now, ap, if c.mac == held.mac && c.apMac == ap then |all| else k);
  }

  lemma FirstStand(all: seq<Entry>, c: Entry, ap: Rid)
    requires !Listed(all, c.mac)
    ensures StandsFor(all + [c], ap, c)
  {
    assert Stands(all + [c], ap, |all|);
  }

  ghost predicate NodesSoFar(seen: map<string, nat>, out: seq<Node>, all: seq<Entry>, winning: map<string, Rid>,
                             known: set<string>) {
    SeenAreListed(seen, all, winning, known) && SeenStand(seen, out, all, winning) && NodesAreSeen(seen, out)
  }

  ghost predicate SeenAreListed(seen: map<string, nat>, all: seq<Entry>, winning: map<string, Rid>,
                                known: set<string>) {
    forall mac :: mac in seen <==> mac != "" && mac in winning && mac !in known && Listed(all, mac)
  }

  ghost predicate SeenStand(seen: map<string, nat>, out: seq<Node>, all: seq<Entry>, winning: map<string, Rid>) {
    forall mac | mac in seen :: mac in winning && StandsAt(seen[mac], out, all, mac, winning[mac])
  }

  ghost predicate StandsAt(p: nat, out: seq<Node>, all: seq<Entry>, mac: string, ap: Rid) {
    p < |out| && !Plain(out[p]) && out[p].entry.mac == mac && StandsFor(all, ap, out[p].entry)
  }

  ghost predicate NodesAreSeen(seen: map<string, nat>, out: seq<Node>) {
    forall p | 0 <= p < |out| && !Plain(out[p]) :: out[p].entry.mac in seen && seen[out[p].entry.mac] == p
  }

  /** The other nodes pass, one node stands for every surviving MAC. */
  method DedupeNodes(nodes: seq<Node>, winning: map<string, Rid>, known: set<string>)
    returns (out: seq<Node>, ghost seen: map<string, nat>)
    ensures Plains(out) == Plains(nodes)
    ensures NodesSoFar(seen, out, Shown(nodes), winning, known)
  {
    var at: map<string, nat> := map[];
    out := [];
    for i := 0 to |nodes|
      invariant Plains(out) == Plains(nodes[..i])
      invariant NodesSoFar(at, out, Shown(nodes[..i]), winning, known)
    {
      OneMoreNode(nodes, i);
      at, out := PlaceNode(at, out, nodes[i], Shown(nodes[..i]), winning, known);
    }
    assert nodes[..|nodes|] == nodes;
    seen := at;
  }

  method PlaceNode(at: map<string, nat>, out: seq<Node>, n: Node, ghost all: seq<Entry>, winning: map<string, Rid>,
                   known: set<string>)
    returns (at2: map<string, nat>, out2: seq<Node>)
    requires NodesSoFar(at, out, all, winning, known)
    ensures NodesSoFar(at2, out2, all + if Plain(n) then [] else [n.entry], winning, known)
    ensures Plains(out2) == Plains(out) + if Plain(n) then [n] else []
  {
    at2, out2 := at, out;
    PlainsAppend(out, n);
    if !n.ClientNode? {
      PassedNode(at, out, all, winning, known, n);
      out2 := out + [n];
    } else if n.entry.mac != "" && n.entry.mac in known {
      SkippedListing(at, out, all, winning, known, n.entry);
    } else if n.entry.mac in at {
      if n.entry.apMac == winning[n.entry.mac] {
        PlainsReplace(out, at[n.entry.mac], n);
        out2 := out[at[n.entry.mac] := n];
      }
      RepeatedListing(at, out, out2, all, winning, known, n.entry);
    } else if n.entry.mac != "" && n.entry.mac in winning {
      FirstListing(at, out, all, winning, known, n.entry);
      at2 := at[n.entry.mac := |out|];
      out2 := out + [n];
    } else if n.entry.mac == "" {
      PassedNode(at, out, all, winning, known, n);
      out2 := out + [n];
    } else {
      SkippedListing(at, out, all, winning, known, n.entry);
    }
  }

  lemma PassedNode(seen: map<string, nat>, out: seq<Node>, all: seq<Entry>, winning: map<string, Rid>,
                   known: set<string>, n: Node)
    requires NodesSoFar(seen, out, all, winning, known) && Plain(n)
    ensures NodesSoFar(seen, out + [n], all + [], winning, known)
  {
    assert all + [] == all;
  }

  lemma OneMoreNode(nodes: seq<Node>, i: nat)
    requires i < |nodes|
    ensures Plains(nodes[..i + 1]) == Plains(nodes[..i]) + if Plain(nodes[i]) then [nodes[i]] else []
    ensures Shown(nodes[..i + 1]) == Shown(nodes[..i]) + if Plain(nodes[i]) then [] else [nodes[i].entry]
  {
    assert nodes[..i + 1][..i] == nodes[..i];
  }

  lemma PlainsAppend(out: seq<Node>, n: Node)
    ensures Plains(out + [n]) == Plains(out) + if Plain(n) then [n] else []
  {
    assert (out + [n])[..|out|] == out;
  }

  lemma {:induction false} PlainsReplace(out: seq<Node>, p: nat, n: Node)
    requires p < |out| && !Plain(out[p]) && !Plain(n)
    ensures Plains(out[p := n]) == Plains(out)
  {
    var l := |out| - 1;
    if p == l {
      assert out[p := n][..l] == out[..l];
    } else {
      assert out[p := n][..l] == out[..l][p := n];
      PlainsReplace(out[..l], p, n);
    }
  }

  lemma MoreListed(all: seq<Entry>, c: Entry)
    ensures forall mac :: Listed(all + [c], mac) <==> Listed(all, mac) || c.mac == mac
  {
    forall mac ensures Listed(all + [c], mac) <==> Listed(all, mac) || c.mac == mac {
      ListedGrows(all + [c], |all|, mac);
      assert (all + [c])[..|all|] == all;
    }
  }

  lemma SkippedListing(seen: map<string, nat>, out: seq<Node>, all: seq<Entry>, winning: map<string, Rid>,
                       known: set<string>, c: Entry)
    requires NodesSoFar(seen, out, all, winning, known) && (c.mac in known || c.mac !in winning)
    ensures NodesSoFar(seen, out, all + [c], winning, known)
  {
    MoreListed(all, c);
    forall mac | mac in seen ensures StandsAt(seen[mac], out, all + [c], mac, winning[mac]) {
      OtherStands(seen[mac], out, out, all, mac, winning[mac], c);
    }
  }

  lemma OtherStands(p: nat, held: seq<Node>, out: seq<Node>, all: seq<Entry>, mac: string, ap: Rid, c: Entry)
    requires StandsAt(p, held, all, mac, ap) && mac != c.mac && p < |out| && out[p] == held[p]
    ensures StandsAt(p, out, all + [c], mac, ap)
  {
    NextStand(all, c, ap, held[p].entry);
  }

  lemma RepeatedListing(seen: map<string, nat>, held: seq<Node>, out: seq<Node>, all: seq<Entry>,
                        winning: map<string, Rid>, known: set<string>, c: Entry)
    requires NodesSoFar(seen, held, all, winning, known) && c.mac in seen && c.mac != ""
    requires out == if c.apMac == winning[c.mac] then held[seen[c.mac] := ClientNode(c)] else held
    ensures NodesSoFar(seen, out, all + [c], winning, known)
  {
    MoreListed(all, c);
    var p := seen[c.mac];
    assert StandsAt(p, held, all, c.mac, winning[c.mac]);
    forall mac | mac in seen ensures StandsAt(seen[mac], out, all + [c], mac, winning[mac]) {
      if mac == c.mac {
        NextStand(all, c, winning[mac], held[p].entry);
      } else {
        assert StandsAt(seen[mac], held, all, mac, winning[mac]) && seen[mac] != p;
        OtherStands(seen[mac], held, out, all, mac, winning[mac], c);
      }
    }
  }

  lemma FirstListing(seen: map<string, nat>, out: seq<Node>, all: seq<Entry>, winning: map<string, Rid>,
                     known: set<string>, c: Entry)
    requires NodesSoFar(seen, out, all, winning, known) && c.mac !in seen && c.mac != "" && c.mac in winning
             && c.mac !in known
    ensures NodesSoFar(seen[c.mac := |out|], out + [ClientNode(c)], all + [c], winning, known)
  {
    MoreListed(all, c);
    var more, now := out + [ClientNode(c)], seen[c.mac := |out|];
    FirstStand(all, c, winning[c.mac]);
    forall mac | mac in now ensures StandsAt(now[mac], more, all + [c], mac, winning[mac]) {
      if mac != c.mac {
        assert StandsAt(seen[mac], out, all, mac, winning[mac]);
        OtherStands(seen[mac], out, more, all, mac, winning[mac], c);
      }
    }
  }

  // -------------------------------------------------------------- the edges

  /** A client edge from a router other than the one that won the client. */
  predicate Losing(e: Edge, winning: map<string, Rid>, owners: map<Spot, Rid>) {
    && e.HasClient?
    && e.mac in winning && winning[e.mac] != ""
    && e.from_ in owners && owners[e.from_] != ""
    && owners[e.from_] != winning[e.mac]
  }

  /** Who owns the places a client can hang at. */
  method EdgeOwners(fleet: seq<View>, nodes: seq<Node>) returns (owners: map<Spot, Rid>)
    ensures forall v | v in fleet :: AtRouter(v.rid) in owners
    ensures forall n | n in nodes && n.IfaceNode? && n.rid != "" :: AtIface(n.rid, n.ifname) in owners
    ensures forall s | s in owners :: owners[s] == s.rid
  {
    owners := map[];
    for i := 0 to |fleet|
      invariant forall v | v in fleet[..i] :: AtRouter(v.rid) in owners
      invariant forall s | s in owners :: owners[s] == s.rid
    {
      owners := owners[AtRouter(fleet[i].rid) := fleet[i].rid];
    }
    assert fleet[..|fleet|] == fleet;
    for i := 0 to |nodes|
      invariant forall v | v in fleet :: AtRouter(v.rid) in owners
      invariant forall n | n in nodes[..i] && n.IfaceNode? && n.rid != "" :: AtIface(n.rid, n.ifname) in owners
      invariant forall s | s in owners :: owners[s] == s.rid
    {
      var n := nodes[i];
      if n.IfaceNode? && n.rid != "" {
        owners := owners[AtIface(n.rid, n.ifname) := n.rid];
      }
    }
    assert nodes[..|nodes|] == nodes;
  }

  /** The edges that did not lose, the first of every id. */
  ghost predicate KeptEdges(edges: seq<Edge>, losing: Edge -> bool, out: seq<Edge>) {
    && (forall i, j | 0 <= i < j < |out| :: Id(out[i]) != Id(out[j]))
    && (forall e | e in out :: IsFirst(edges, losing, e))
    && (forall e | e in edges && !losing(e) :: exists f | f in out :: Id(f) == Id(e))
  }

  ghost predicate IsFirst(edges: seq<Edge>, losing: Edge -> bool, e: Edge) {
    exists k | 0 <= k < |edges| :: edges[k] == e && FirstOfItsId(edges, losing, k)
  }

  ghost predicate FirstOfItsId(edges: seq<Edge>, losing: Edge -> bool, k: int)
    requires 0 <= k < |edges|
  {
    !losing(edges[k]) && forall j | 0 <= j < k && Id(edges[j]) == Id(edges[k]) :: losing(edges[j])
  }

  method DedupeEdges(edges: seq<Edge>, losing: Edge -> bool) returns (out: seq<Edge>)
    ensures KeptEdges(edges, losing, out)
  {
    var ids: set<EdgeId> := {};
    out := [];
    for i := 0 to |edges|
      invariant KeptSoFar(edges[..i], losing, ids, out)
    {
      var e := edges[i];
      assert edges[..i + 1] == edges[..i] + [e];
      OneMoreEdge(edges[..i], losing, ids, out, e);
      if !losing(e) && Id(e) !in ids {
        ids := ids + {Id(e)};
        out := out + [e];
      }
    }
    assert edges[..|edges|] == edges;
  }

  /** `ids` are the ids kept, and of every edge that did not lose. */
  ghost predicate KeptSoFar(edges: seq<Edge>, losing: Edge -> bool, ids: set<EdgeId>, out: seq<Edge>) {
    && KeptEdges(edges, losing, out)
    && (forall d :: d in ids <==> exists f | f in out :: Id(f) == d)
  }

  lemma OneMoreEdge(edges: seq<Edge>, losing: Edge -> bool, ids: set<EdgeId>, out: seq<Edge>, e: Edge)
    requires KeptSoFar(edges, losing, ids, out)
    ensures if !losing(e) && Id(e) !in ids then KeptSoFar(edges + [e], losing, ids + {Id(e)}, out + [e])
            else KeptSoFar(edges + [e], losing, ids, out)
  {
    forall f | f in out ensures IsFirst(edges + [e], losing, f) {
      FirstStays(edges, losing, e, f);
    }
    if !losing(e) && Id(e) !in ids {
      NewIsFirst(edges, losing, ids, out, e);
      assert e in out + [e] && forall f | f in out :: f in out + [e];
    }
  }

  lemma FirstStays(edges: seq<Edge>, losing: Edge -> bool, e: Edge, f: Edge)
    requires IsFirst(edges, losing, f)
    ensures IsFirst(edges + [e], losing, f)
  {
    var k :| 0 <= k < |edges| && edges[k] == f && FirstOfItsId(edges, losing, k);
    assert (edges + [e])[k] == f && FirstOfItsId(edges + [e], losing, k);
  }

  lemma NewIsFirst(edges: seq<Edge>, losing: Edge -> bool, ids: set<EdgeId>, out: seq<Edge>, e: Edge)
    requires KeptSoFar(edges, losing, ids, out) && !losing(e) && Id(e) !in ids
    ensures IsFirst(edges + [e], losing, e)
  {
    forall j | 0 <= j < |edges| && Id(edges[j]) == Id(e) ensures losing(edges[j]) {
      assert edges[j] in edges;
    }
    assert FirstOfItsId(edges + [e], losing, |edges|);
  }

  // ------------------------------------------------------------- the merge

  /** Every router has an id. */
  ghost predicate NamedRouters(fleet: seq<View>) {
    forall v | v in fleet :: v.rid != ""
  }

  /** Where the listings of a fleet come from. */
  ghost predicate WellPlaced(fleet: seq<View>, s: Sight) {
    && s.entry.mac != "" && s.from_.rid == s.entry.apMac
    && (exists v | v in fleet :: v.rid == s.entry.apMac)
    && (s.from_.AtIface? ==> IfaceNode(s.from_.rid, s.from_.ifname) in FleetNodes(fleet))
  }

  lemma {:induction false} IfaceNodesOf(v: View, ifaces: seq<string>)
    ensures forall n ::
              n in IfaceNodes(v, ifaces) <==> n.IfaceNode? && n.rid == v.rid && n.ifname != "" && n.ifname in ifaces
    ensures forall n | n in IfaceNodes(v, ifaces) :: Plain(n)
  {
    if ifaces != [] {
      IfaceNodesOf(v, ifaces[..|ifaces| - 1]);
      assert ifaces == ifaces[..|ifaces| - 1] + [ifaces[|ifaces| - 1]];
    }
  }

  lemma {:induction false} SightsOf(v: View, stations: seq<Station>)
    ensures forall s | s in Sights(v, stations) :: s.entry.mac != "" && exists t | t in stations :: s == SightOf(v, t)
  {
    if stations != [] {
      SightsOf(v, stations[..|stations| - 1]);
    }
  }

  lemma {:induction false} FleetIsWellPlaced(fleet: seq<View>)
    ensures forall s | s in FleetSights(fleet) :: WellPlaced(fleet, s)
  {
    if fleet != [] {
      var n := |fleet| - 1;
      var v := fleet[n];
      FleetIsWellPlaced(fleet[..n]);
      SightsOf(v, v.stations);
      IfaceNodesOf(v, v.ifaces);
      forall s | s in FleetSights(fleet) ensures WellPlaced(fleet, s) {
        if s in FleetSights(fleet[..n]) {
          assert WellPlaced(fleet[..n], s);
          var w :| w in fleet[..n] && w.rid == s.entry.apMac;
          assert w in fleet;
        } else {
          assert s in Sights(v, v.stations) && v in fleet;
        }
      }
    }
  }

  lemma {:induction false} ShownJoin(a: seq<Node>, b: seq<Node>)
    ensures Shown(a + b) == Shown(a) + Shown(b)
  {
    if b == [] {
      assert a + b == a;
    } else {
      var n := |b| - 1;
      ShownJoin(a, b[..n]);
      assert (a + b)[..|a + b| - 1] == a + b[..n];
    }
  }

  lemma {:induction false} PlainShowsNothing(nodes: seq<Node>)
    requires forall n | n in nodes :: Plain(n)
    ensures Shown(nodes) == []
  {
    if nodes != [] { PlainShowsNothing(nodes[..|nodes| - 1]); }
  }

  lemma {:induction false} ClientNodesShow(sights: seq<Sight>)
    requires forall s | s in sights :: s.entry.mac != ""
    ensures Shown(ClientNodes(sights)) == Entries(sights)
  {
    if sights != [] {
      var n := |sights| - 1;
      ClientNodesShow(sights[..n]);
      assert ClientNodes(sights)[..n] == ClientNodes(sights[..n]);
      assert Entries(sights) == Entries(sights[..n]) + [sights[n].entry];
    }
  }

  /** The client nodes of the fleet are its client entries, in the same order. */
  lemma {:induction false} NodesShowTheEntries(fleet: seq<View>)
    ensures Shown(FleetNodes(fleet)) == Entries(FleetSights(fleet))
  {
    if fleet != [] {
      var n := |fleet| - 1;
      var v := fleet[n];
      NodesShowTheEntries(fleet[..n]);
      SnapshotShowsItsEntries(v);
      ShownJoin(FleetNodes(fleet[..n]), SnapshotNodes(v));
      EntriesJoin(FleetSights(fleet[..n]), Sights(v, v.stations));
    }
  }

  lemma EntriesJoin(a: seq<Sight>, b: seq<Sight>)
    ensures Entries(a + b) == Entries(a) + Entries(b)
  {
  }

  lemma SnapshotShowsItsEntries(v: View)
    ensures Shown(SnapshotNodes(v)) == Entries(Sights(v, v.stations))
  {
    var plain, sights := [RouterNode(v.rid)] + IfaceNodes(v, v.ifaces), Sights(v, v.stations);
    IfaceNodesOf(v, v.ifaces);
    SightsOf(v, v.stations);
    PlainShowsNothing(plain);
    ClientNodesShow(sights);
    ShownJoin(plain, ClientNodes(sights));
  }

  /** The client edges of the fleet are those of its listings. */
  lemma {:induction false} EdgesFollowTheSights(fleet: seq<View>)
    ensures forall e: Edge | e.HasClient? ::
              e in FleetEdges(fleet) <==> exists s | s in FleetSights(fleet) :: ClientEdge(s) == e
  {
    if fleet != [] {
      var n := |fleet| - 1;
      var v := fleet[n];
      var mine := Sights(v, v.stations);
      EdgesFollowTheSights(fleet[..n]);
      IfaceEdgesAreNoClients(v, v.ifaces);
      forall e: Edge | e.HasClient?
        ensures e in FleetEdges(fleet) <==> exists s | s in FleetSights(fleet) :: ClientEdge(s) == e
      {
        if e in ClientEdges(mine) {
          var i :| 0 <= i < |mine| && ClientEdges(mine)[i] == e;
          assert mine[i] in FleetSights(fleet) && ClientEdge(mine[i]) == e;
        }
        forall s | s in mine && ClientEdge(s) == e ensures e in ClientEdges(mine) {
          var i :| 0 <= i < |mine| && mine[i] == s;
          assert ClientEdges(mine)[i] == e;
        }
      }
    }
  }

  lemma {:induction false} IfaceEdgesAreNoClients(v: View, ifaces: seq<string>)
    ensures forall e | e in IfaceEdges(v, ifaces) :: e.HasInterface?
  {
    if ifaces != [] { IfaceEdgesAreNoClients(v, ifaces[..|ifaces| - 1]); }
  }

  datatype Mesh = Mesh(clients: seq<Entry>, nodes: seq<Node>, edges: seq<Edge>)

  /** The client part of the merged snapshot.
      Every MAC that some router lists and that is no known router has one entry, the winning
      listing; one node, the last listing by the winning router; and the edges that the winning
      router's listings gave it. All other client edges lead to known routers. */
  ghost predicate Merged(fleet: seq<View>, known: set<string>, mesh: Mesh) {
    var sights := FleetSights(fleet);
    && Survivors(Entries(sights), known, mesh.clients)
    && OneNodeEach(Entries(sights), mesh.clients, mesh.nodes)
    && EdgesOfWinners(sights, mesh.clients, mesh.edges)
  }

  /** Client nodes and surviving clients correspond one to one, on the winning router. */
  ghost predicate OneNodeEach(all: seq<Entry>, clients: seq<Entry>, nodes: seq<Node>) {
    DistinctNodes(nodes) && NodesBacked(clients, nodes) && ClientsShown(all, clients, nodes)
  }

  ghost predicate DistinctNodes(nodes: seq<Node>) {
    forall p, q | 0 <= p < q < |nodes| && nodes[p].ClientNode? && nodes[q].ClientNode? ::
      nodes[p].entry.mac != nodes[q].entry.mac
  }

  ghost predicate NodesBacked(clients: seq<Entry>, nodes: seq<Node>) {
    forall n | n in nodes && n.ClientNode? :: exists c | c in clients :: c.mac == n.entry.mac
  }

  ghost predicate ClientsShown(all: seq<Entry>, clients: seq<Entry>, nodes: seq<Node>) {
    forall c | c in clients :: exists n | n in nodes :: ShowsLast(all, c, n)
  }

  /** `n` is the node of `c` and shows the last listing by its router. */
  ghost predicate ShowsLast(all: seq<Entry>, c: Entry, n: Node) {
    n.ClientNode? && n.entry.mac == c.mac && LastListing(all, c.apMac, n.entry)
  }

  ghost predicate LastListing(all: seq<Entry>, ap: Rid, c: Entry) {
    c.apMac == ap && exists k | 0 <= k < |all| ::
      all[k] == c && forall j | k < j < |all| && all[j].mac == c.mac :: all[j].apMac != ap
  }

  /** A client edge is there, up to its stale mark, iff a listing gave it and, for a surviving
      client, that listing is the winning router's. */
  ghost predicate EdgesOfWinners(sights: seq<Sight>, clients: seq<Entry>, edges: seq<Edge>) {
    && (forall i, j | 0 <= i < j < |edges| :: Id(edges[i]) != Id(edges[j]))
    && (forall e | e in edges && e.HasClient? :: exists s | s in sights :: ClientEdge(s) == e && Prevails(s, clients))
    && (forall s | s in sights && Prevails(s, clients) :: exists e | e in edges :: Id(e) == Id(ClientEdge(s)))
  }

  /** Edges other than client edges come from the input, and none of their ids is lost. */
  ghost predicate OthersKept(before: seq<Edge>, after: seq<Edge>) {
    && (forall e | e in after && !e.HasClient? :: e in before)
    && (forall e | e in before && !e.HasClient? :: exists f | f in after :: Id(f) == Id(e))
  }

  ghost predicate Prevails(s: Sight, clients: seq<Entry>) {
    forall c | c in clients && c.mac == s.entry.mac :: c.apMac == s.entry.apMac
  }

  method MergeSnapshots(fleet: seq<View>, switches: seq<Node>, links: seq<Edge>, known: set<string>)
    returns (clients: seq<Entry>, nodes: seq<Node>, edges: seq<Edge>)
    requires NamedRouters(fleet)
    requires forall n | n in switches :: n.SwitchNode?
    requires forall e | e in links :: e.Link?
    ensures Merged(fleet, known, Mesh(clients, nodes, edges))
    ensures Plains(nodes) == Plains(FleetNodes(fleet) + switches)
    ensures OthersKept(FleetEdges(fleet) + links, edges)
  {
    var listed := Entries(FleetSights(fleet));
    var deduped := DeduplicateClients(listed);
    clients := WithoutRouters(deduped, known);
    DedupeSurvives(listed, known, deduped);
    var winning := WinningRouters(clients);
    nodes := MergeNodes(fleet, switches, known, clients, winning);
    edges := MergeEdges(fleet, switches, links, clients, winning);
  }

  method MergeNodes(fleet: seq<View>, switches: seq<Node>, known: set<string>, clients: seq<Entry>,
                    winning: map<string, Rid>) returns (nodes: seq<Node>)
    requires forall n | n in switches :: n.SwitchNode?
    requires Survivors(Entries(FleetSights(fleet)), known, clients) && WinningOf(clients, winning)
    ensures OneNodeEach(Entries(FleetSights(fleet)), clients, nodes)
    ensures Plains(nodes) == Plains(FleetNodes(fleet) + switches)
  {
    ghost var seen;
    nodes, seen := DedupeNodes(FleetNodes(fleet) + switches, winning, known);
    SwitchesShowNothing(fleet, switches);
    PlainsKeepNameless(FleetNodes(fleet) + switches, nodes);
    NodesAreRight(Entries(FleetSights(fleet)), known, clients, winning, nodes, seen);
  }

  lemma SwitchesShowNothing(fleet: seq<View>, switches: seq<Node>)
    requires forall n | n in switches :: n.SwitchNode?
    ensures Shown(FleetNodes(fleet) + switches) == Entries(FleetSights(fleet))
            && NoNameless(FleetNodes(fleet) + switches)
  {
    NodesShowTheEntries(fleet);
    ShownJoin(FleetNodes(fleet), switches);
    PlainShowsNothing(switches);
    FleetHasNoNameless(fleet);
  }

  method MergeEdges(fleet: seq<View>, switches: seq<Node>, links: seq<Edge>, clients: seq<Entry>,
                    winning: map<string, Rid>) returns (edges: seq<Edge>)
    requires NamedRouters(fleet) && WinningOf(clients, winning)
    requires forall e | e in links :: e.Link?
    requires forall c | c in clients :: Wins(Entries(FleetSights(fleet)), c)
    ensures EdgesOfWinners(FleetSights(fleet), clients, edges)
    ensures OthersKept(FleetEdges(fleet) + links, edges)
  {
    var owners := EdgeOwners(fleet, FleetNodes(fleet) + switches);
    var losing := (e: Edge) => Losing(e, winning, owners);
    edges := DedupeEdges(FleetEdges(fleet) + links, losing);
    LosersLose(fleet, clients, winning, FleetNodes(fleet) + switches, owners, losing);
    EdgesAreRight(fleet, links, clients, losing, edges);
  }

  method WinningRouters(clients: seq<Entry>) returns (winning: map<string, Rid>)
    requires DistinctMacs(clients) && forall c | c in clients :: c.mac != ""
    ensures WinningOf(clients, winning)
  {
    winning := map[];
    for i := 0 to |clients|
      invariant WinningOf(clients[..i], winning)
    {
      ghost var was := winning;
      winning := winning[clients[i].mac := clients[i].apMac];
      forall c | c in clients[..i + 1] ensures c.mac in winning && winning[c.mac] == c.apMac {
        var k :| 0 <= k < i + 1 && clients[k] == c;
        if k < i { assert clients[..i][k] == c; }
      }
      forall mac | mac in winning ensures exists c | c in clients[..i + 1] :: c.mac == mac {
        if mac in was {
          var c :| c in clients[..i] && c.mac == mac;
          assert c in clients[..i + 1];
        } else {
          assert clients[..i + 1][i].mac == mac;
        }
      }
    }
    assert clients[..|clients|] == clients;
  }

  ghost predicate WinningOf(clients: seq<Entry>, winning: map<string, Rid>) {
    && (forall c | c in clients :: c.mac in winning && winning[c.mac] == c.apMac)
    && (forall mac | mac in winning :: exists c | c in clients :: c.mac == mac)
  }

  /** What the node loop leaves is right when no client node is without a MAC. */
  lemma NodesAreRight(all: seq<Entry>, known: set<string>, clients: seq<Entry>, winning: map<string, Rid>,
                      nodes: seq<Node>, seen: map<string, nat>)
    requires Survivors(all, known, clients) && WinningOf(clients, winning)
    requires NodesSoFar(seen, nodes, all, winning, known) && NoNameless(nodes)
    ensures OneNodeEach(all, clients, nodes)
  {
    NodesAreDistinct(all, known, winning, nodes, seen);
    NodesAreBacked(all, known, clients, winning, nodes, seen);
    ClientsAreShown(all, known, clients, winning, nodes, seen);
  }

  ghost predicate NoNameless(nodes: seq<Node>) {
    forall n | n in nodes && n.ClientNode? :: n.entry.mac != ""
  }

  lemma NodesAreDistinct(all: seq<Entry>, known: set<string>, winning: map<string, Rid>, nodes: seq<Node>,
                         seen: map<string, nat>)
    requires NodesSoFar(seen, nodes, all, winning, known) && NoNameless(nodes)
    ensures DistinctNodes(nodes)
  {
    forall p, q | 0 <= p < q < |nodes| && nodes[p].ClientNode? && nodes[q].ClientNode?
      ensures nodes[p].entry.mac != nodes[q].entry.mac {
      assert nodes[p] in nodes && nodes[q] in nodes;
    }
  }

  lemma NodesAreBacked(all: seq<Entry>, known: set<string>, clients: seq<Entry>, winning: map<string, Rid>,
                       nodes: seq<Node>, seen: map<string, nat>)
    requires WinningOf(clients, winning) && NodesSoFar(seen, nodes, all, winning, known) && NoNameless(nodes)
    ensures NodesBacked(clients, nodes)
  {
    forall n | n in nodes && n.ClientNode? ensures exists c | c in clients :: c.mac == n.entry.mac {
      var p :| 0 <= p < |nodes| && nodes[p] == n;
      assert n.entry.mac in winning;
    }
  }

  lemma ClientsAreShown(all: seq<Entry>, known: set<string>, clients: seq<Entry>, winning: map<string, Rid>,
                        nodes: seq<Node>, seen: map<string, nat>)
    requires Survivors(all, known, clients) && WinningOf(clients, winning)
    requires NodesSoFar(seen, nodes, all, winning, known)
    ensures ClientsShown(all, clients, nodes)
  {
    forall c | c in clients ensures exists n | n in nodes :: ShowsLast(all, c, n) {
      WinnersAreListed(all, c);
      assert c.mac in seen;
      var n := StandingNode(seen[c.mac], all, nodes, c);
    }
  }

  lemma StandingNode(p: nat, all: seq<Entry>, nodes: seq<Node>, c: Entry) returns (n: Node)
    requires Wins(all, c) && StandsAt(p, nodes, all, c.mac, c.apMac)
    ensures n in nodes && n.ClientNode? && n.entry.mac == c.mac && LastListing(all, c.apMac, n.entry)
  {
    n := nodes[p];
    StandingIsLast(all, c, n.entry);
  }

  lemma WinnersAreListed(all: seq<Entry>, c: Entry)
    requires Wins(all, c)
    ensures Listed(all, c.mac)
  {
  }

  lemma StandingIsLast(all: seq<Entry>, c: Entry, n: Entry)
    requires Wins(all, c) && StandsFor(all, c.apMac, n) && n.mac == c.mac
    ensures LastListing(all, c.apMac, n)
  {
    var w :| Winner(all, w) && all[w] == c;
    var k :| Stands(all, c.apMac, k) && all[k] == n;
    assert all[k].apMac == c.apMac;
  }

  lemma {:induction false} PlainsMembers(nodes: seq<Node>)
    ensures forall n :: n in Plains(nodes) <==> n in nodes && Plain(n)
  {
    if nodes != [] {
      PlainsMembers(nodes[..|nodes| - 1]);
      assert nodes == nodes[..|nodes| - 1] + [nodes[|nodes| - 1]];
    }
  }

  lemma {:induction false} FleetHasNoNameless(fleet: seq<View>)
    ensures NoNameless(FleetNodes(fleet))
  {
    if fleet != [] {
      var v := fleet[|fleet| - 1];
      FleetHasNoNameless(fleet[..|fleet| - 1]);
      IfaceNodesOf(v, v.ifaces);
      SightsOf(v, v.stations);
      forall n | n in SnapshotNodes(v) && n.ClientNode? ensures n.entry.mac != "" {
        assert n in ClientNodes(Sights(v, v.stations));
      }
    }
  }

  lemma PlainsKeepNameless(before: seq<Node>, after: seq<Node>)
    requires Plains(before) == Plains(after) && NoNameless(before)
    ensures NoNameless(after)
  {
    PlainsMembers(before);
    PlainsMembers(after);
    forall n | n in after && n.ClientNode? ensures n.entry.mac != "" {
      assert n in Plains(after) ==> n in Plains(before);
    }
  }

  /** In a fleet's graph the losing edges are those of listings that do not prevail. */
  lemma LosersLose(fleet: seq<View>, clients: seq<Entry>, winning: map<string, Rid>, nodes: seq<Node>,
                   owners: map<Spot, Rid>, losing: Edge -> bool)
    requires NamedRouters(fleet) && WinningOf(clients, winning)
    requires forall c | c in clients :: Wins(Entries(FleetSights(fleet)), c)
    requires forall n | n in FleetNodes(fleet) :: n in nodes
    requires forall v | v in fleet :: AtRouter(v.rid) in owners
    requires forall n | n in nodes && n.IfaceNode? && n.rid != "" :: AtIface(n.rid, n.ifname) in owners
    requires forall s | s in owners :: owners[s] == s.rid
    requires forall e :: losing(e) == Losing(e, winning, owners)
    ensures forall s | s in FleetSights(fleet) :: losing(ClientEdge(s)) <==> !Prevails(s, clients)
  {
    var sights := FleetSights(fleet);
    FleetIsWellPlaced(fleet);
    forall c | c in clients ensures c.apMac != "" {
      var w :| Winner(Entries(sights), w) && Entries(sights)[w] == c;
      assert WellPlaced(fleet, sights[w]);
    }
    forall s | s in sights ensures losing(ClientEdge(s)) <==> !Prevails(s, clients) {
      assert WellPlaced(fleet, s);
      assert owners[s.from_] == s.entry.apMac != "";
    }
  }

  lemma EdgesAreRight(fleet: seq<View>, links: seq<Edge>, clients: seq<Entry>, losing: Edge -> bool, edges: seq<Edge>)
    requires KeptEdges(FleetEdges(fleet) + links, losing, edges)
    requires forall s | s in FleetSights(fleet) :: losing(ClientEdge(s)) <==> !Prevails(s, clients)
    requires forall e | e in links :: e.Link?
    ensures EdgesOfWinners(FleetSights(fleet), clients, edges)
  {
    EdgesFollowTheSights(fleet);
    var all, sights := FleetEdges(fleet) + links, FleetSights(fleet);
    forall e | e in edges && e.HasClient? ensures exists s | s in sights :: ClientEdge(s) == e && Prevails(s, clients) {
      var k :| 0 <= k < |all| && all[k] == e && FirstOfItsId(all, losing, k);
      assert e !in links;
      assert e in FleetEdges(fleet);
      var s :| s in sights && ClientEdge(s) == e;
      assert Prevails(s, clients);
    }
    forall s | s in sights && Prevails(s, clients) ensures exists e | e in edges :: Id(e) == Id(ClientEdge(s)) {
      assert ClientEdge(s) in FleetEdges(fleet) && ClientEdge(s) in all;
    }
  }

  // ------------------------------------------------------------ main results

  /** A surviving client hangs off the winning router and nobody else: it has at least one
      client edge, and each comes from that router or one of its interfaces. */
  lemma HangsOffTheWinner(fleet: seq<View>, known: set<string>, mesh: Mesh, c: Entry)
    requires Merged(fleet, known, mesh) && c in mesh.clients
    ensures exists e | e in mesh.edges :: e.HasClient? && e.mac == c.mac
    ensures forall e | e in mesh.edges && e.HasClient? && e.mac == c.mac :: e.from_.rid == c.apMac
  {
    FleetIsWellPlaced(fleet);
    var e := WinnersEdge(FleetSights(fleet), known, mesh.clients, mesh.edges, c);
    forall e | e in mesh.edges && e.HasClient? && e.mac == c.mac ensures e.from_.rid == c.apMac {
      OnlyWinnersEdges(fleet, mesh.clients, mesh.edges, c, e);
    }
  }

  lemma WinnersEdge(sights: seq<Sight>, known: set<string>, clients: seq<Entry>, edges: seq<Edge>, c: Entry)
    returns (e: Edge)
    requires Survivors(Entries(sights), known, clients) && EdgesOfWinners(sights, clients, edges) && c in clients
    ensures e in edges && e.HasClient? && e.mac == c.mac
  {
    var w :| Winner(Entries(sights), w) && Entries(sights)[w] == c;
    var s := sights[w];
    forall d | d in clients && d.mac == c.mac ensures d == c {
      OneEntryPerMac(clients, c, d);
    }
    assert s in sights && s.entry == c && Prevails(s, clients);
    e :| e in edges && Id(e) == Id(ClientEdge(s));
  }

  lemma OnlyWinnersEdges(fleet: seq<View>, clients: seq<Entry>, edges: seq<Edge>, c: Entry, e: Edge)
    requires EdgesOfWinners(FleetSights(fleet), clients, edges)
             && forall s | s in FleetSights(fleet) :: WellPlaced(fleet, s)
    requires c in clients && e in edges && e.HasClient? && e.mac == c.mac
    ensures e.from_.rid == c.apMac
  {
    var s :| s in FleetSights(fleet) && ClientEdge(s) == e && Prevails(s, clients);
    assert WellPlaced(fleet, s);
  }

  lemma OneEntryPerMac(clients: seq<Entry>, c: Entry, d: Entry)
    requires DistinctMacs(clients) && c in clients && d in clients && c.mac == d.mac
    ensures c == d
  {
    var i :| 0 <= i < |clients| && clients[i] == c;
    var j :| 0 <= j < |clients| && clients[j] == d;
    assert i == j;
  }

  /** Exactly the MACs that are listed and belong to no known router get a client node. */
  lemma ShownIff(fleet: seq<View>, known: set<string>, mesh: Mesh, mac: string)
    requires Merged(fleet, known, mesh)
    ensures (exists n | n in mesh.nodes :: n.ClientNode? && n.entry.mac == mac) <==>
            mac != "" && mac !in known && Listed(Entries(FleetSights(fleet)), mac)
  {
    var all := Entries(FleetSights(fleet));
    ShownAreListed(all, known, mesh.clients, mesh.nodes, mac);
    ListedAreShown(all, known, mesh.clients, mesh.nodes, mac);
  }

  lemma ShownAreListed(all: seq<Entry>, known: set<string>, clients: seq<Entry>, nodes: seq<Node>, mac: string)
    requires Survivors(all, known, clients) && NodesBacked(clients, nodes)
    ensures (exists n | n in nodes :: n.ClientNode? && n.entry.mac == mac)
            ==> mac != "" && mac !in known && Listed(all, mac)
  {
    if n :| n in nodes && n.ClientNode? && n.entry.mac == mac {
      var c :| c in clients && c.mac == n.entry.mac;
      WinnersAreListed(all, c);
    }
  }

  lemma ListedAreShown(all: seq<Entry>, known: set<string>, clients: seq<Entry>, nodes: seq<Node>, mac: string)
    requires Survivors(all, known, clients) && ClientsShown(all, clients, nodes)
    ensures mac != "" && mac !in known && Listed(all, mac)
            ==> exists n | n in nodes :: n.ClientNode? && n.entry.mac == mac
  {
    if mac != "" && mac !in known && Listed(all, mac) {
      var c :| c in clients && c.mac == mac;
      var n :| n in nodes && n.ClientNode? && n.entry.mac == c.mac && LastListing(all, c.apMac, n.entry);
    }
  }

  /** A client edge ends at no node exactly when it leads to a known router: those edges are
      kept, from every router that lists it, although the node is not. */
  lemma DanglesIff(fleet: seq<View>, known: set<string>, mesh: Mesh, e: Edge)
    requires Merged(fleet, known, mesh) && e in mesh.edges && e.HasClient?
    ensures (exists n | n in mesh.nodes :: n.ClientNode? && n.entry.mac == e.mac) <==> e.mac !in known
  {
    var sights := FleetSights(fleet);
    FleetIsWellPlaced(fleet);
    var s :| s in sights && ClientEdge(s) == e && Prevails(s, mesh.clients);
    assert WellPlaced(fleet, s);
    var i :| 0 <= i < |sights| && sights[i] == s;
    assert Entries(sights)[i].mac == e.mac;
    ShownIff(fleet, known, mesh, e.mac);
  }

  lemma EdgeToKnownRouterStays(fleet: seq<View>, known: set<string>, mesh: Mesh, s: Sight)
    requires Merged(fleet, known, mesh) && s in FleetSights(fleet) && s.entry.mac in known
    ensures exists e | e in mesh.edges :: Id(e) == Id(ClientEdge(s))
  {
    assert Prevails(s, mesh.clients);
  }

  /** The node of a client shows the winning router's last listing, not its best one: the two
      agree iff the winning listing is that last one. */
  lemma NodeAgreesIff(fleet: seq<View>, known: set<string>, mesh: Mesh, c: Entry, n: Node)
    requires Merged(fleet, known, mesh) && c in mesh.clients && n in mesh.nodes && n.ClientNode? && n.entry.mac == c.mac
    ensures n.entry.apMac == c.apMac
    ensures n.entry == c <==> LastListing(Entries(FleetSights(fleet)), c.apMac, c)
  {
    OneNodeAgreesIff(Entries(FleetSights(fleet)), mesh.clients, mesh.nodes, c, n);
  }

  lemma OneNodeAgreesIff(all: seq<Entry>, clients: seq<Entry>, nodes: seq<Node>, c: Entry, n: Node)
    requires DistinctNodes(nodes) && ClientsShown(all, clients, nodes) && c in clients && n in nodes && n.ClientNode?
             && n.entry.mac == c.mac
    ensures n.entry.apMac == c.apMac
    ensures n.entry == c <==> LastListing(all, c.apMac, c)
  {
    var m :| m in nodes && m.ClientNode? && m.entry.mac == c.mac && LastListing(all, c.apMac, m.entry);
    SameClientNode(nodes, m, n);
    if LastListing(all, c.apMac, c) {
      LastIsUnique(all, c.apMac, c, m.entry);
    }
  }

  lemma LastIsUnique(all: seq<Entry>, ap: Rid, c: Entry, d: Entry)
    requires LastListing(all, ap, c) && LastListing(all, ap, d) && c.mac == d.mac
    ensures c == d
  {
    var j :| 0 <= j < |all| && all[j] == c && forall i | j < i < |all| && all[i].mac == c.mac :: all[i].apMac != ap;
    var k :| 0 <= k < |all| && all[k] == d && forall i | k < i < |all| && all[i].mac == d.mac :: all[i].apMac != ap;
    assert j == k;
  }

  /** A router that lists a client on two of its radios, the stronger one first: whatever the
      merge makes of it, the entry shows the stronger and the node the weaker listing. */
  lemma NodeMayShowAWeakerSignal(known: set<string>, mesh: Mesh, n: Node)
    requires var v := View("r", true, [], [Station("c", Some(-40), ""), Station("c", Some(-70), "")]);
             Merged([v], known, mesh) && "c" !in known
    requires n in mesh.nodes && n.ClientNode?
    ensures n.entry == Entry("c", "r", Some(-70), false)
    ensures Entry("c", "r", Some(-40), false) in mesh.clients
  {
    var v := View("r", true, [], [Station("c", Some(-40), ""), Station("c", Some(-70), "")]);
    var all := Entries(FleetSights([v]));
    TwoStations(v, v.stations[0], v.stations[1]);
    assert all == [Entry("c", "r", Some(-40), false), Entry("c", "r", Some(-70), false)];
    var c := OnlyWinner(all, known, mesh.clients);
    ShownAreListed(all, known, mesh.clients, mesh.nodes, n.entry.mac);
    assert n.entry.mac == "c";
    var m :| m in mesh.nodes && m.ClientNode? && m.entry.mac == c.mac && LastListing(all, c.apMac, m.entry);
    SameClientNode(mesh.nodes, m, n);
    WeakerLast(all[0], all[1], m.entry);
  }

  lemma SameClientNode(nodes: seq<Node>, m: Node, n: Node)
    requires DistinctNodes(nodes) && m in nodes && n in nodes && m.ClientNode? && n.ClientNode?
             && m.entry.mac == n.entry.mac
    ensures m == n
  {
    var p :| 0 <= p < |nodes| && nodes[p] == n;
    var q :| 0 <= q < |nodes| && nodes[q] == m;
    assert p == q;
  }

  lemma OnlyWinner(all: seq<Entry>, known: set<string>, clients: seq<Entry>) returns (c: Entry)
    requires |all| == 2 && all[0].mac == all[1].mac != "" && all[0].mac !in known && Better(all[0], all[1])
    requires Survivors(all, known, clients)
    ensures c == all[0] && c in clients
  {
    assert Listed(all, all[0].mac);
    c :| c in clients && c.mac == all[0].mac;
    assert Winner(all, 0);
    var k :| Winner(all, k) && all[k] == c;
    WinnerIsUnique(all, 0, k);
  }

  lemma TwoStations(v: View, a: Station, b: Station)
    requires v.stations == [a, b] && a.mac != "" && b.mac != ""
    ensures FleetSights([v]) == [SightOf(v, a), SightOf(v, b)]
  {
    assert [a, b][..1] == [a] && [a][..0] == [] && [v][..0] == [];
    assert Sights(v, [a]) == [SightOf(v, a)];
    assert Sights(v, [a, b]) == [SightOf(v, a), SightOf(v, b)];
  }

  lemma WeakerLast(c: Entry, d: Entry, last: Entry)
    requires c.mac == d.mac == last.mac && c.apMac == d.apMac && LastListing([c, d], c.apMac, last)
    ensures last == d
  {
    var all := [c, d];
    var k :| 0 <= k < 2 && all[k] == last && forall j | k < j < 2 && all[j].mac == last.mac :: all[j].apMac != c.apMac;
    assert all[1] == d;
  }
}
