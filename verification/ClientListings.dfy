/** The merged snapshot in terms of what the routers list. */
module ClientListings {
  import opened Options
  import opened HopDepths
  import opened ClientMerge

  // A listing is a place in the client list of one router. Which clients, client edges and
  // interfaces the merged snapshot shows is said here by listings alone: by the routers, whether
  // their updates went through, their interfaces, and the MAC, signal and radio they report.

  /** Router `i` lists a client with a MAC in place `j`. */
  predicate Lists(fleet: seq<View>, i: int, j: int) {
    0 <= i < |fleet| && 0 <= j < |fleet[i].stations| && fleet[i].stations[j].mac != ""
  }

  predicate Earlier(i: int, j: int, k: int, l: int) {
    i < k || (i == k && j < l)
  }

  predicate SameMac(fleet: seq<View>, i: int, j: int, k: int, l: int)
    requires Lists(fleet, i, j) && Lists(fleet, k, l)
  {
    fleet[i].stations[j].mac == fleet[k].stations[l].mac
  }

  /** What the listing shows of the client: stale if the update of its router failed. */
  predicate Shows(fleet: seq<View>, i: int, j: int, c: Entry) {
    && Lists(fleet, i, j) && c.mac == fleet[i].stations[j].mac && c.apMac == fleet[i].rid
    && c.signal == fleet[i].stations[j].signal && (c.stale <==> !fleet[i].online)
  }

  /** The client hangs at an interface of the router if the listing names one, else at the router. */
  predicate Hangs(fleet: seq<View>, i: int, j: int, spot: Spot) {
    && Lists(fleet, i, j) && spot.rid == fleet[i].rid
    && if fleet[i].stations[j].radio != "" && fleet[i].stations[j].radio in fleet[i].ifaces
       then spot.AtIface? && spot.ifname == fleet[i].stations[j].radio
       else spot.AtRouter?
  }

  /** A listing of a router whose update went through beats one of a router whose update failed;
      else the stronger signal does. */
  predicate Beats(fleet: seq<View>, i: int, j: int, k: int, l: int)
    requires Lists(fleet, i, j) && Lists(fleet, k, l)
  {
    if fleet[i].online && !fleet[k].online then true
    else if !fleet[i].online && fleet[k].online then false
    else
      match (fleet[i].stations[j].signal, fleet[k].stations[l].signal)
      case (Some(a), Some(b)) => a > b
      case (Some(_), None) => true
      case (None, _) => false
  }

  /** The first of the best listings of its MAC. */
  ghost predicate Best(fleet: seq<View>, i: int, j: int) {
    Lists(fleet, i, j) &&
    forall k, l | Lists(fleet, k, l) && SameMac(fleet, i, j, k, l) ::
      if Earlier(k, l, i, j) then Beats(fleet, i, j, k, l) else !Beats(fleet, k, l, i, j)
  }

  // ------------------------------------------------- positions of listings

  lemma {:induction false} SightAt(v: View, stations: seq<Station>, j: nat)
    requires j < |stations| && stations[j].mac != ""
    ensures var p := |Sights(v, stations[..j])|;
            p < |Sights(v, stations)| && Sights(v, stations)[p] == SightOf(v, stations[j])
  {
    var n := |stations| - 1;
    if j < n {
      SightAt(v, stations[..n], j);
      assert stations[..n][..j] == stations[..j];
    }
  }

  lemma {:induction false} SightFrom(v: View, stations: seq<Station>, p: nat) returns (j: nat)
    requires p < |Sights(v, stations)|
    ensures j < |stations| && stations[j].mac != "" && |Sights(v, stations[..j])| == p
  {
    var n := |stations| - 1;
    if p < |Sights(v, stations[..n])| {
      j := SightFrom(v, stations[..n], p);
      assert stations[..n][..j] == stations[..j];
    } else {
      j := n;
    }
  }

  /** Where the listing comes in the list of all listings. */
  function Position(fleet: seq<View>, i: int, j: int): nat
    requires Lists(fleet, i, j)
  {
    |FleetSights(fleet[..i])| + |Sights(fleet[i], fleet[i].stations[..j])|
  }

  lemma {:induction false} ListingAt(fleet: seq<View>, i: int, j: int)
    requires Lists(fleet, i, j)
    ensures Position(fleet, i, j) < |FleetSights(fleet)|
    ensures FleetSights(fleet)[Position(fleet, i, j)] == SightOf(fleet[i], fleet[i].stations[j])
  {
    var n := |fleet| - 1;
    if i < n {
      ListingAt(fleet[..n], i, j);
      assert fleet[..n][..i] == fleet[..i];
    } else {
      SightAt(fleet[n], fleet[n].stations, j);
    }
  }

  lemma {:induction false} ListingFrom(fleet: seq<View>, p: nat) returns (i: nat, j: nat)
    requires p < |FleetSights(fleet)|
    ensures Lists(fleet, i, j) && Position(fleet, i, j) == p
  {
    var n := |fleet| - 1;
    if p < |FleetSights(fleet[..n])| {
      i, j := ListingFrom(fleet[..n], p);
      assert fleet[..n][..i] == fleet[..i];
    } else {
      i := n;
      j := SightFrom(fleet[n], fleet[n].stations, p - |FleetSights(fleet[..n])|);
    }
  }

  lemma PositionsAreOrdered(fleet: seq<View>, i: int, j: int, k: int, l: int)
    requires Lists(fleet, i, j) && Lists(fleet, k, l) && Earlier(i, j, k, l)
    ensures Position(fleet, i, j) < Position(fleet, k, l)
  {
    if i < k {
      ListingAt(fleet[..k], i, j);
      assert fleet[..k][..i] == fleet[..i];
    } else {
      SightAt(fleet[i], fleet[i].stations[..l], j);
      assert fleet[i].stations[..l][..j] == fleet[i].stations[..j];
    }
  }

  lemma EntryAt(fleet: seq<View>, i: int, j: int)
    requires Lists(fleet, i, j)
    ensures var all := Entries(FleetSights(fleet));
            Position(fleet, i, j) < |all| && Shows(fleet, i, j, all[Position(fleet, i, j)])
  {
    ListingAt(fleet, i, j);
  }

  lemma BeatsIffBetter(fleet: seq<View>, i: int, j: int, k: int, l: int, a: Entry, b: Entry)
    requires Shows(fleet, i, j, a) && Shows(fleet, k, l, b)
    ensures Beats(fleet, i, j, k, l) <==> Better(a, b)
    ensures SameMac(fleet, i, j, k, l) <==> a.mac == b.mac
  {
  }

  // ----------------------------------------------------------- the clients

  lemma WinnerIsBest(fleet: seq<View>, i: int, j: int)
    requires Lists(fleet, i, j) && Winner(Entries(FleetSights(fleet)), Position(fleet, i, j))
    ensures Best(fleet, i, j)
  {
    var all := Entries(FleetSights(fleet));
    var p := Position(fleet, i, j);
    EntryAt(fleet, i, j);
    forall k, l | Lists(fleet, k, l) && SameMac(fleet, i, j, k, l)
      ensures if Earlier(k, l, i, j) then Beats(fleet, i, j, k, l) else !Beats(fleet, k, l, i, j)
    {
      var q := Position(fleet, k, l);
      EntryAt(fleet, k, l);
      BeatsIffBetter(fleet, i, j, k, l, all[p], all[q]);
      BeatsIffBetter(fleet, k, l, i, j, all[q], all[p]);
      if Earlier(k, l, i, j) {
        PositionsAreOrdered(fleet, k, l, i, j);
      } else if Earlier(i, j, k, l) {
        PositionsAreOrdered(fleet, i, j, k, l);
      }
    }
  }

  lemma BestWins(fleet: seq<View>, i: int, j: int)
    requires Best(fleet, i, j)
    ensures Winner(Entries(FleetSights(fleet)), Position(fleet, i, j))
  {
    var all := Entries(FleetSights(fleet));
    var p := Position(fleet, i, j);
    EntryAt(fleet, i, j);
    forall q | 0 <= q < |all| && all[q].mac == all[p].mac
      ensures q < p ==> Better(all[p], all[q])
      ensures p < q ==> !Better(all[q], all[p])
    {
      var k, l := ListingFrom(fleet, q);
      EntryAt(fleet, k, l);
      BeatsIffBetter(fleet, i, j, k, l, all[p], all[q]);
      BeatsIffBetter(fleet, k, l, i, j, all[q], all[p]);
      if Earlier(i, j, k, l) {
        PositionsAreOrdered(fleet, i, j, k, l);
      } else if Earlier(k, l, i, j) {
        PositionsAreOrdered(fleet, k, l, i, j);
      }
    }
  }

  /** The snapshot shows exactly the first of the best listings of every MAC that is no router's. */
  lemma ClientsAreTold(fleet: seq<View>, known: set<string>, clients: seq<Entry>, c: Entry)
    requires Survivors(Entries(FleetSights(fleet)), known, clients)
    ensures c in clients <==> c.mac !in known && exists i, j :: Best(fleet, i, j) && Shows(fleet, i, j, c)
  {
    var all := Entries(FleetSights(fleet));
    if c in clients {
      var p :| Winner(all, p) && all[p] == c;
      var i, j := ListingFrom(fleet, p);
      WinnerIsBest(fleet, i, j);
      EntryAt(fleet, i, j);
    }
    if c.mac !in known && exists i, j :: Best(fleet, i, j) && Shows(fleet, i, j, c) {
      var i, j :| Best(fleet, i, j) && Shows(fleet, i, j, c);
      BestWins(fleet, i, j);
      EntryAt(fleet, i, j);
      var p := Position(fleet, i, j);
      assert all[p] == c && Listed(all, c.mac);
      var d :| d in clients && d.mac == c.mac;
      var q :| Winner(all, q) && all[q] == d;
      WinnerIsUnique(all, p, q);
    }
  }

  // ------------------------------------------------------------- the edges

  lemma SightIffListing(fleet: seq<View>, c: Entry, spot: Spot)
    ensures Sight(c, spot) in FleetSights(fleet) <==> exists i, j :: Shows(fleet, i, j, c) && Hangs(fleet, i, j, spot)
  {
    var sights := FleetSights(fleet);
    if Sight(c, spot) in sights {
      var p :| 0 <= p < |sights| && sights[p] == Sight(c, spot);
      var i, j := ListingFrom(fleet, p);
      ListingAt(fleet, i, j);
      assert Shows(fleet, i, j, c) && Hangs(fleet, i, j, spot);
    }
    if i, j :| Shows(fleet, i, j, c) && Hangs(fleet, i, j, spot) {
      ListingAt(fleet, i, j);
      assert SightOf(fleet[i], fleet[i].stations[j]) == Sight(c, spot);
    }
  }

  /** The listing gives the client a place at `spot`; unless its MAC is a known router's, its
      router is the one with the best listing. */
  ghost predicate Places(fleet: seq<View>, known: set<string>, i: int, j: int, spot: Spot, mac: string) {
    && Hangs(fleet, i, j, spot) && fleet[i].stations[j].mac == mac
    && (mac in known || exists k, l :: Best(fleet, k, l) && SameMac(fleet, i, j, k, l) && fleet[k].rid == fleet[i].rid)
  }

  lemma PrevailsIff(fleet: seq<View>, known: set<string>, clients: seq<Entry>, i: int, j: int, c: Entry, spot: Spot)
    requires Survivors(Entries(FleetSights(fleet)), known, clients)
    requires Shows(fleet, i, j, c) && Hangs(fleet, i, j, spot)
    ensures Prevails(Sight(c, spot), clients) <==> Places(fleet, known, i, j, spot, c.mac)
  {
    var all := Entries(FleetSights(fleet));
    if c.mac !in known {
      EntryAt(fleet, i, j);
      assert Listed(all, c.mac);
      var d :| d in clients && d.mac == c.mac;
      ClientsAreTold(fleet, known, clients, d);
      var k, l :| Best(fleet, k, l) && Shows(fleet, k, l, d);
      forall m, n | Best(fleet, m, n) && SameMac(fleet, i, j, m, n) ensures fleet[m].rid == d.apMac {
        BestIsUnique(fleet, k, l, m, n);
      }
      forall e | e in clients && e.mac == c.mac ensures e == d {
        OneEntryPerMac(clients, d, e);
      }
    }
  }

  lemma BestIsUnique(fleet: seq<View>, i: int, j: int, k: int, l: int)
    requires Best(fleet, i, j) && Best(fleet, k, l) && SameMac(fleet, i, j, k, l)
    ensures i == k && j == l
  {
  }

  /** A client edge is in the snapshot exactly if a listing places the client there. */
  lemma ClientEdgesAreTold(fleet: seq<View>, known: set<string>, mesh: Mesh, spot: Spot, mac: string)
    requires Merged(fleet, known, mesh)
    ensures (exists e | e in mesh.edges :: e.HasClient? && e.from_ == spot && e.mac == mac) <==>
            exists i, j :: Places(fleet, known, i, j, spot, mac)
  {
    if e :| e in mesh.edges && e.HasClient? && e.from_ == spot && e.mac == mac {
      EdgeHasListing(fleet, known, mesh, e);
    }
    if i, j :| Places(fleet, known, i, j, spot, mac) {
      ListingHasEdge(fleet, known, mesh, i, j, spot);
    }
  }

  lemma EdgeHasListing(fleet: seq<View>, known: set<string>, mesh: Mesh, e: Edge)
    requires Merged(fleet, known, mesh) && e in mesh.edges && e.HasClient?
    ensures exists i, j :: Places(fleet, known, i, j, e.from_, e.mac) && (e.stale <==> !fleet[i].online)
  {
    var s :| s in FleetSights(fleet) && ClientEdge(s) == e && Prevails(s, mesh.clients);
    SightIffListing(fleet, s.entry, s.from_);
    var i, j :| Shows(fleet, i, j, s.entry) && Hangs(fleet, i, j, s.from_);
    PrevailsIff(fleet, known, mesh.clients, i, j, s.entry, s.from_);
  }

  lemma ListingHasEdge(fleet: seq<View>, known: set<string>, mesh: Mesh, i: int, j: int, spot: Spot)
    requires Merged(fleet, known, mesh) && Lists(fleet, i, j)
    requires Places(fleet, known, i, j, spot, fleet[i].stations[j].mac)
    ensures exists e | e in mesh.edges :: e.HasClient? && e.from_ == spot && e.mac == fleet[i].stations[j].mac
  {
    var v, t := fleet[i], fleet[i].stations[j];
    var c := Entry(t.mac, v.rid, t.signal, !v.online);
    assert Shows(fleet, i, j, c);
    SightIffListing(fleet, c, spot);
    PrevailsIff(fleet, known, mesh.clients, i, j, c, spot);
    var e :| e in mesh.edges && Id(e) == Id(ClientEdge(Sight(c, spot)));
    assert e.HasClient?;
  }

  // -------------------------------------------------------- the interfaces

  lemma {:induction false} IfaceEdgesOf(v: View, ifaces: seq<string>, e: Edge)
    ensures e in IfaceEdges(v, ifaces) <==>
            e.HasInterface? && e.rid == v.rid && e.ifname != "" && e.ifname in ifaces && (e.stale <==> !v.online)
  {
    if ifaces != [] {
      IfaceEdgesOf(v, ifaces[..|ifaces| - 1], e);
      assert ifaces == ifaces[..|ifaces| - 1] + [ifaces[|ifaces| - 1]];
    }
  }

  predicate HasIface(v: View, rid: Rid, ifname: string) {
    v.rid == rid && ifname in v.ifaces && ifname != ""
  }

  lemma {:induction false} FleetIfaceEdges(fleet: seq<View>, e: Edge)
    requires e.HasInterface?
    ensures e in FleetEdges(fleet) <==>
            exists v | v in fleet :: HasIface(v, e.rid, e.ifname) && (e.stale <==> !v.online)
  {
    if fleet != [] {
      var n := |fleet| - 1;
      FleetIfaceEdges(fleet[..n], e);
      IfaceEdgesOf(fleet[n], fleet[n].ifaces, e);
      assert fleet == fleet[..n] + [fleet[n]];
      assert forall x | x in ClientEdges(Sights(fleet[n], fleet[n].stations)) :: x.HasClient?;
    }
  }

  /** Every named interface of every router has its edge in the snapshot, marked stale where an
      update failed, and nothing else does. */
  lemma InterfacesAreTold(fleet: seq<View>, links: seq<Edge>, edges: seq<Edge>, rid: Rid, ifname: string)
    requires OthersKept(FleetEdges(fleet) + links, edges) && forall e | e in links :: e.Link?
    ensures (exists e | e in edges :: e.HasInterface? && e.rid == rid && e.ifname == ifname) <==>
            exists v | v in fleet :: HasIface(v, rid, ifname)
    ensures forall e | e in edges && e.HasInterface? ::
              exists v | v in fleet :: HasIface(v, e.rid, e.ifname) && (e.stale <==> !v.online)
  {
    forall e | e in edges && e.HasInterface?
      ensures exists v | v in fleet :: HasIface(v, e.rid, e.ifname) && (e.stale <==> !v.online)
    {
      FleetIfaceEdges(fleet, e);
    }
    if v :| v in fleet && HasIface(v, rid, ifname) {
      var e := HasInterface(rid, ifname, !v.online);
      FleetIfaceEdges(fleet, e);
      var f :| f in edges && Id(f) == Id(e);
      assert f.HasInterface?;
    }
  }
}
