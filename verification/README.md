# A verified model of the OpenWrt router integration

A Home Assistant integration polls a fleet of OpenWrt routers. Under its I/O lie algorithms and
state machines that decide over unbounded inputs and runs; this project models them in Dafny and
proves what they are for. Verify everything with `dafny verify dfyconfig.toml`.

- **The mesh graph** (`HopDepths`, `Fleet`, `Names`, `StringOrder`, `LldpEdges`, `InterRouterEdges`, `EdgeOrigins`,
  `SwitchNodes`, `MeshGraph`, `RouterRoles`, `ClientMerge`, `ClientListings`, `MeshSnapshot`). Roles of routers and their memory through an outage,
  hop depths, oriented LLDP edges, the layered heuristics, inferred switches, and the merge of all
  routers' client lists into one snapshot. The edge list is proved equal to a declarative description (`Exact`), and
  the theorems about the graph follow from that. `EdgeOrigins` and `ClientListings` say the same of edges and
  clients in terms of the tables the routers report.
- **The API client** (`Router`, `ApiSession`, `SshSharing`, `ShellWords`, `UciShow`, `UciGrammar`). Sessions,
  backoff and the cache of denied methods against an abstract router with a set of live sessions
  and an ACL; one SSH connection shared by any number of interleaved commands; the parser of
  `uci show` against a printer, and against its grammar for any text.
- **Repairs issues** (`OutageTracker`, `ChannelPlanMonitor`, `RamPressure`). What is open in the
  issue registry is a ghost field next to the object's own fields.
- **Logs and windows** (`LogCursor`, `EventLimiter`, `BoundedWindow`, `RollingCounter`,
  `AssociationTracker`). Each agrees with the naive thing it speeds up: the full log or history.
- **Channel plan** (`ChannelPlan`, `PairSums`, `ChannelFindings`).

Objects the program updates in place are classes whose methods are proved to do what a step
function says; the theorems over runs are about that function. Times are integers, ids are
strings, edge ids are pairs of ids. Network outcomes, the clock and calls into libraries are
parameters.

## What the code does not keep

Where a property fails, the model keeps the code, shows an input and proves when it holds.

- The outage issues go wrong exactly when the settle timer fires during a fleet outage while not
  all routers are out (`JoiningMidOutageLeaksAnIssue`, `StepRightIff`, `RunRightIff`). That needs
  a router added in mid-outage (`NoJoinNoMix`); one that is merely reloaded and times out again
  does no harm (`ReloadKeepsIssuesRight`). In every run each outage has some issue once no
  evaluation is pending (`EveryOutageHasItsIssue`).
- The channel findings depend on the order of the radios when two different radios carry the same
  router title and phy but look different (`OrderShows`, `SameFindingsIff`).
- A reconnect after an error closes the connection other commands are running on, although a
  release takes care not to (`ReconnectCutsOthers`): exactly when another command runs on an open
  connection (`ReconnectCutsIff`, `CommandIsCutIff`).
- Unloading closes the shared SSH connection, but a command that is connecting at that time
  leaves one open (`CloseMayLeaveAConnection`): exactly when its connection is opened with no
  release pending and nothing takes it away (`CloseLeavesIff`).
- A list of one item cannot be told from a plain value in `uci show` output (`OneItemIsNoList`,
  `ValuesSurviveIff`).
- Disconnects are pruned by the window, so a late connect report can lose its reconnect flag:
  exactly when its disconnect was pruned (`FlagMatchesIff`), which can happen to every connect
  below the bound and to no other (`PruningShowsBelowTheBound`). The reconnect count is then too
  low, the association count never is (`CountsMatchHistory`).
- A client that one router lists twice may be drawn with the weaker listing
  (`NodeMayShowAWeakerSignal`, `NodeAgreesIff`), and client edges to known routers stay without a
  node (`EdgeToKnownRouterStays`, `DanglesIff`).

## Model

| member | source | states |
|---|---|---|
| `HopDepths.ComputeDepths` | custom_components/openwrt_router/topology_mesh.py:443-477 | the search ends, and the depths are exactly the shortest undirected distances from any gateway, for every link set; unreachable routers are absent |
| `HopDepths.Expand` | custom_components/openwrt_router/topology_mesh.py:468-476 | one pass gives the new depth to exactly the peers of the frontier not known before |
| `HopDepths.BuildAdjacency` | custom_components/openwrt_router/topology_mesh.py:455-459 | the neighbour sets say exactly what the link set says, in both directions |
| `HopDepths.LayeredIsShortest` | custom_components/openwrt_router/topology_mesh.py:467-477 | layers that stopped growing are shortest distances over paths |
| `HopDepths.PathIsWithin` | custom_components/openwrt_router/topology_mesh.py:443-477 | a router that a path of n steps reaches is in the n-th layer (completeness) |
| `HopDepths.WithinHasPath` | custom_components/openwrt_router/topology_mesh.py:443-477 | a router in the n-th layer has a path of at most n steps from a gateway (soundness) |
| `HopDepths.NeighboursDiffer` | custom_components/openwrt_router/topology_mesh.py:468-476 | neighbours of a reachable router are reachable and at most one hop further |
| `HopDepths.NearerNeighbour` | custom_components/openwrt_router/topology_mesh.py:468-476 | every reachable router but a gateway has a neighbour exactly one hop nearer |
| `HopDepths.DepthZeroIff` | custom_components/openwrt_router/topology_mesh.py:464-466 | depth 0 holds exactly for gateways |
| `LldpEdges.OrientIsSymmetric` | custom_components/openwrt_router/topology_mesh.py:500-544 | the direction of a link does not depend on which end is passed first |
| `LldpEdges.EdgeIsSymmetric` | custom_components/openwrt_router/topology_mesh.py:633-754 | the whole edge of a pair, ports included, is the same from both ends |
| `LldpEdges.CollectObservations` | custom_components/openwrt_router/topology_mesh.py:583-620 | a pair is observed iff the neighbour table names it; with parallel links the first entry counts; nobody observes itself |
| `LldpEdges.CollectFrom` | custom_components/openwrt_router/topology_mesh.py:592-620 | the same for the table of one router |
| `LldpEdges.DrawEdges` | custom_components/openwrt_router/topology_mesh.py:633-768 | exactly one edge per observed pair; both orientations blocked; uplinked are exactly the ends of anchored edges |
| `LldpEdges.DetectLldpEdges` | custom_components/openwrt_router/topology_mesh.py:558-772 | edges, blocked pairs and uplinked routers are exactly those the observations and shortest depths call for; told by the neighbour tables: every pair has its edge from the gateway, else from the nearer one, else towards the only WAN port, else from the lesser id, with the ports both sides report, and uplinked are exactly the routers with such evidence |
| `LldpEdges.WanPortDecides` | custom_components/openwrt_router/topology_mesh.py:539-544 | between two routers of one role and depth the one that faces the link with its WAN port is the end of the edge and counts as uplinked; if neither or both do, the edge runs from the lesser id and marks nobody |
| `LldpEdges.DirectionTold` | custom_components/openwrt_router/topology_mesh.py:525-544 | the direction of every link follows from roles, depths and the interfaces in the neighbour tables alone |
| `LldpEdges.PortTold` | custom_components/openwrt_router/topology_mesh.py:653-728 | medium and ports of an edge follow from the two neighbour entries; only a gateway shows ports, and a radio link none |
| `LldpEdges.FirstToIsFirst` | custom_components/openwrt_router/topology_mesh.py:596-610 | the entry of a pair is the first one that identifies the peer |
| `Names.WanByPrefix` | custom_components/openwrt_router/topology_mesh.py:488-490 | an interface is a WAN port iff its stripped lower-case name begins with wan; the radio test never matters |
| `Names.WirelessByPrefix` | custom_components/openwrt_router/topology_mesh.py:281-294 | the prefixes that make a device name a radio; wlan adds nothing to wl |
| `Names.BeforeDotIs` | custom_components/openwrt_router/topology_mesh.py:322-324 | the port is the part of the name before the first dot |
| `Names.StripTrims` | custom_components/openwrt_router/topology_mesh.py:322-324 | stripping takes off all blanks at both ends and nothing else |
| `Names.LowerAt` | custom_components/openwrt_router/topology_mesh.py:322-324 | capitals become small letters, all else stays |
| `StringOrder.StrLeIff` | custom_components/openwrt_router/topology_mesh.py:544 | ids are compared from the left: a prefix comes first, else the first different character decides |
| `LldpEdges.LinksJoinRouters` | custom_components/openwrt_router/topology_mesh.py:585-595 | links join two different configured routers |
| `LldpEdges.EdgesLeadAway` | custom_components/openwrt_router/topology_mesh.py:533-538 | no LLDP edge between reachable routers leads to a smaller depth, or more than one hop further |
| `LldpEdges.UplinkExists` | custom_components/openwrt_router/topology_mesh.py:525-538 | every reachable router but a gateway has an anchored edge from a router exactly one hop nearer, and counts as uplinked |
| `LldpEdges.UplinkTheorem` | custom_components/openwrt_router/topology_mesh.py:558-772 | walking such edges back from any reachable router reaches a gateway in exactly depth-many steps |
| `Fleet.GatewaysAreOrdered` | custom_components/openwrt_router/topology_mesh.py:216-228 | connected gateways come before those in an outage, and each kind is sorted by id |
| `InterRouterEdges.ClaimUplinks` | custom_components/openwrt_router/topology_mesh.py:858-953 | every unclaimed access point gets exactly the hit of the first gateway that sees it |
| `InterRouterEdges.ClaimFrom` | custom_components/openwrt_router/topology_mesh.py:861-908 | one gateway claims exactly the unclaimed access points it sees |
| `InterRouterEdges.CollectBase` | custom_components/openwrt_router/topology_mesh.py:794-1005 | before the rewriting the list holds exactly the LLDP, wired and WiFi edges the evidence calls for, no id twice |
| `InterRouterEdges.WifiUplinks` | custom_components/openwrt_router/topology_mesh.py:962-1005 | one edge for every pair seen over WiFi that is neither blocked nor uplinked by LLDP |
| `InterRouterEdges.OverrideRepeaters` | custom_components/openwrt_router/topology_mesh.py:1025-1055 | each edge of the list is rewritten in place exactly as the repeater rule says; none is added or lost |
| `InterRouterEdges.SubnetFallbacks` | custom_components/openwrt_router/topology_mesh.py:1057-1142 | exactly the access points without any edge get a fallback edge from the first gateway, if the rule gives one |
| `InterRouterEdges.DetectInterRouterEdges` | custom_components/openwrt_router/topology_mesh.py:775-1144 | the list holds exactly the edges the evidence calls for, and no edge id twice |
| `InterRouterEdges.EdgesJoinRouters` | custom_components/openwrt_router/topology_mesh.py:775-1144 | every edge joins two different configured routers |
| `InterRouterEdges.LldpAlwaysWins` | custom_components/openwrt_router/topology_mesh.py:822-846 | no heuristic edge joins a pair that LLDP linked or enters a router with an LLDP uplink |
| `InterRouterEdges.OneEdgePerLldpPair` | custom_components/openwrt_router/topology_mesh.py:762-764 | a pair with an LLDP edge has no other edge in either direction |
| `InterRouterEdges.OneWiredUplink` | custom_components/openwrt_router/topology_mesh.py:858-953 | an access point has at most one wired heuristic uplink, always from a gateway; a gateway has none |
| `InterRouterEdges.NoCableIntoRepeater` | custom_components/openwrt_router/topology_mesh.py:1008-1055 | no lan_uplink or mesh_member edge ends at a router with an active STA interface and no WAN carrier |
| `InterRouterEdges.IsolatedIff` | custom_components/openwrt_router/topology_mesh.py:1057-1142 | with a gateway present an access point is without an edge iff nothing else touches it, it has no STA uplink and it is in another /24 |
| `InterRouterEdges.LeasedIsWired` | custom_components/openwrt_router/topology_mesh.py:854-910 | an access point leased by some gateway, about which LLDP is silent, does get its wired uplink |
| `EdgeOrigins.CablesAreTold` | custom_components/openwrt_router/topology_mesh.py:854-953 | a wired edge is in the list iff the first gateway in order that leases the access point, or else the first that knows the port of its address, is left free by LLDP; it shows the bridge port of the MAC or of the address, or a radio link if the router has an active STA uplink and no WAN carrier |
| `EdgeOrigins.RadioLinksAreTold` | custom_components/openwrt_router/topology_mesh.py:962-1005 | a radio link is in the list iff one router lists the other as a client, in the right direction, and neither LLDP nor a cable explains the pair |
| `EdgeOrigins.RadioLinksLeadAway` | custom_components/openwrt_router/topology_mesh.py:973-983 | a radio link into a gateway comes from a gateway; between routers of one role it comes from the one whose client list names the other |
| `EdgeOrigins.SightedMeansLinked` | custom_components/openwrt_router/topology_mesh.py:973-1005 | where a gateway and a free access point see each other, on whichever side, the edge out of the gateway is there and none into it |
| `EdgeOrigins.LldpEdgesAreTold` | custom_components/openwrt_router/topology_mesh.py:558-772 | an LLDP edge is in the list iff one of its routers reports the other, in the direction and with the ports the tables tell; promoted to a radio link iff LLDP saw a radio and the far router is a repeater without WAN carrier |
| `EdgeOrigins.FallbacksAreTold` | custom_components/openwrt_router/topology_mesh.py:1057-1142 | a guessed edge is in the list iff no other edge touches its access point: from the first gateway, as a radio link for an active STA uplink, else as a mesh member unless the two lie in different /24 |
| `EdgeOrigins.SightedIff` | custom_components/openwrt_router/topology_mesh.py:962-983 | which pairs are seen over WiFi: by MAC before IP, and away from the gateway |
| `EdgeOrigins.LeaseTold` | custom_components/openwrt_router/topology_mesh.py:871-880 | the first lease that names the access point decides, by IP before MAC |
| `SwitchNodes.GroupByPort` | custom_components/openwrt_router/topology_mesh.py:1227-1242 | the groups are exactly the member edges per gateway port, in order |
| `SwitchNodes.ReplacedOn` | custom_components/openwrt_router/topology_mesh.py:1298-1305 | exactly the ids of the direct wired edges of that port |
| `SwitchNodes.DetectSwitchNodes` | custom_components/openwrt_router/topology_mesh.py:1181-1324 | switches stand on exactly the ports of the first gateway that carry two cables of their own, all or none of them seen by LLDP; wires and replaced ids are exactly theirs; no wire twice |
| `SwitchNodes.SharedIsSwitched` | custom_components/openwrt_router/topology_mesh.py:1226-1264 | a port gets a switch iff it carries two different wired edges to routers behind no other router, and LLDP has seen all or none of its wired edges |
| `SwitchNodes.MixedPortIsLeftAlone` | custom_components/openwrt_router/topology_mesh.py:1244-1257 | a port that mixes LLDP with heuristic uplinks gets no switch, and both direct edges stay |
| `SwitchNodes.SingleCableStays` | custom_components/openwrt_router/topology_mesh.py:1262-1264 | the only cable on its port stays |
| `SwitchNodes.OthersSurvive` | custom_components/openwrt_router/topology_mesh.py:1652-1661 | an edge is in the rewritten graph iff it was there and was not replaced |
| `SwitchNodes.UnderOneSwitch` | custom_components/openwrt_router/topology_mesh.py:1263-1322 | every replaced access point hangs under exactly one switch, that of its port, and the switch under the gateway |
| `SwitchNodes.ChainsStay` | custom_components/openwrt_router/topology_mesh.py:1216-1242 | no access point behind another router by LLDP is put under a switch, and only one with a direct wired edge is |
| `SwitchNodes.ReachabilityPreserved` | custom_components/openwrt_router/topology_mesh.py:1652-1661 | router-to-router reachability is the same before and after, along edges and ignoring direction |
| `MeshGraph.DropReplaced` | custom_components/openwrt_router/topology_mesh.py:1658-1660 | the list without the replaced ids |
| `MeshGraph.InferGraph` | custom_components/openwrt_router/topology_mesh.py:1630-1661 | exactly the links the evidence calls for, rewritten for exactly the switches behind the first gateway; the final graph reaches what those links reach |
| `MeshGraph.LldpRoutersHangOffAGateway` | custom_components/openwrt_router/topology_mesh.py:1630-1661 | whatever LLDP connects to a gateway is reachable from a gateway in the final directed graph |
| `MeshGraph.WiresJoinNodes` | custom_components/openwrt_router/topology_mesh.py:1654-1661 | every wire of the final graph joins two routers of the fleet or inferred switches |
| `MeshGraph.WiresAreDistinct` | custom_components/openwrt_router/topology_mesh.py:1654-1661 | no two wires join the same two nodes |
| `MeshSnapshot.MarkStale` | custom_components/openwrt_router/topology_mesh.py:1645-1649 | a link is stale iff one of its two routers is offline |
| `MeshSnapshot.StaleIff` | custom_components/openwrt_router/topology_mesh.py:1645-1649 | a link between two routers is stale iff the last update of one of them failed; switch cables never are |
| `MeshSnapshot.BuildSnapshot` | custom_components/openwrt_router/topology_mesh.py:1636-1752 | in the merged snapshot the links are exactly the inferred wires with their stale marks, both ends of each are nodes of it, it reaches what the evidence links reach, and the client part is right |
| `MeshSnapshot.LinksAreShown` | custom_components/openwrt_router/topology_mesh.py:1743-1752 | no link is lost to the id filter or mistaken for another |
| `MeshSnapshot.SnapshotHangsOffAGateway` | custom_components/openwrt_router/topology_mesh.py:1636-1752 | in the merged snapshot whatever LLDP connects to a gateway is reachable from a gateway along directed links |
| `RouterRoles.ResolveRoles` | custom_components/openwrt_router/topology_mesh.py:139-185 | the role of every router is exactly the rule, told by the WAN status: online uplinks; else the remembered that do not deny a WAN; else the least one online by SSH; else one configured uplink that is down, hand-made before default, then the least |
| `RouterRoles.EvidenceTold` | custom_components/openwrt_router/topology_mesh.py:119-136 | what counts as an uplink: a listed protocol, not denied, another address than its own |
| `RouterRoles.NoUplinkNoRole` | custom_components/openwrt_router/topology_mesh.py:119-131 | a router that is not remembered is an access point if it denies its WAN, has no uplink protocol or carries its own address on it |
| `RouterRoles.OnlineBySshGoesFirst` | custom_components/openwrt_router/topology_mesh.py:171-184 | a router whose line is down is guessed only if nobody is online, by ubus or SSH |
| `RouterRoles.FindForemost` | custom_components/openwrt_router/topology_mesh.py:171-184 | the guess is the least candidate in the documented order, if there is one |
| `RouterRoles.AtMostOneGuess` | custom_components/openwrt_router/topology_mesh.py:171-185 | without a connected or remembered gateway there are never two gateways |
| `RouterRoles.SomeGatewayIff` | custom_components/openwrt_router/topology_mesh.py:139-185 | a fleet has a gateway iff some router shows evidence of a WAN or is remembered and still configured |
| `RouterRoles.OrderDoesNotMatter` | custom_components/openwrt_router/topology_mesh.py:139-185 | roles do not depend on the order of the entries |
| `RouterRoles.RoleMemory.RememberGateways` | custom_components/openwrt_router/topology_mesh.py:188-204 | the memory becomes exactly the routers with an uplink that is online, or stays when there is none |
| `RouterRoles.RoleMemory.Snapshot` | custom_components/openwrt_router/topology_mesh.py:1593-1594 | roles come from the memory before the snapshot, then it is updated |
| `RouterRoles.RunRemembers` | custom_components/openwrt_router/topology_mesh.py:188-204 | after any run the memory is exactly the gateway set of the last snapshot with a connected gateway |
| `RouterRoles.RolesSurviveOutage` | custom_components/openwrt_router/topology_mesh.py:159-170 | through an outage of any length exactly the still configured gateways of that snapshot are gateways; nobody is promoted or demoted |
| `RouterRoles.TheGatewayStays` | custom_components/openwrt_router/topology_mesh.py:159-170 | a single gateway stays the single gateway while its line is down |
| `RouterRoles.GuessesAreNotRemembered` | custom_components/openwrt_router/topology_mesh.py:188-204 | a guessed role never enters the memory |
| `RouterRoles.StaggeredOutageDemotes` | custom_components/openwrt_router/topology_mesh.py:188-204 | a gateway that goes down before the other one is forgotten and stays an access point in the common outage |
| `ClientMerge.DeduplicateClients` | custom_components/openwrt_router/topology_mesh.py:1147-1178 | one entry per non-empty MAC, in order of first appearance, each the first maximal listing (fresh over stale, then signal, none lowest) |
| `ClientMerge.WinnerIsUnique` | custom_components/openwrt_router/topology_mesh.py:1158-1177 | no MAC has two winning listings |
| `ClientMerge.DedupeSurvives` | custom_components/openwrt_router/topology_mesh.py:1676-1682 | dropping known routers leaves exactly the winners of the other MACs |
| `ClientMerge.StaleIffNobodyFresh` | custom_components/openwrt_router/topology_mesh.py:1150-1157 | a client is shown as stale iff no router whose update went through lists it |
| `ClientMerge.ShownSignalIsStrongest` | custom_components/openwrt_router/topology_mesh.py:1173-1177 | no equally fresh listing has a stronger signal than the one shown |
| `ClientMerge.DedupeNodes` | custom_components/openwrt_router/topology_mesh.py:1691-1718 | one node per surviving MAC: the last listing of the winning router, or the first at all; other nodes pass unchanged |
| `ClientMerge.EdgeOwners` | custom_components/openwrt_router/topology_mesh.py:1720-1727 | every router and every interface node owns its edges |
| `ClientMerge.DedupeEdges` | custom_components/openwrt_router/topology_mesh.py:1744-1752 | of the edges that did not lose exactly the first of every id stays |
| `ClientMerge.NodesShowTheEntries` | custom_components/openwrt_router/topology_diagnostic.py:511-591 | the client nodes of all snapshots are their client entries, in the same order |
| `ClientMerge.MergeSnapshots` | custom_components/openwrt_router/topology_mesh.py:1663-1752 | entries, nodes and client edges of the merged snapshot agree: one winner, one node, the winning router's edges; every other edge comes from the input and none of their ids is lost |
| `ClientMerge.HangsOffTheWinner` | custom_components/openwrt_router/topology_mesh.py:1729-1742 | a surviving client has at least one client edge and all come from the winning router |
| `ClientMerge.ShownIff` | custom_components/openwrt_router/topology_mesh.py:1676-1718 | a MAC has a client node iff some router lists it and it is no known router |
| `ClientMerge.DanglesIff` | custom_components/openwrt_router/topology_mesh.py:1701-1703 | a kept client edge ends at no node iff it leads to a known router |
| `ClientMerge.EdgeToKnownRouterStays` | custom_components/openwrt_router/topology_mesh.py:1740-1742 | client edges to known routers are kept from every router that lists them |
| `ClientMerge.NodeAgreesIff` | custom_components/openwrt_router/topology_mesh.py:1705-1710 | the node carries the winning router; its listing equals the winning entry iff that entry is the router's last listing |
| `ClientMerge.NodeMayShowAWeakerSignal` | custom_components/openwrt_router/topology_mesh.py:1705-1710 | a router lists a client twice, stronger first: in every merge of it the entry shows the stronger and the node the weaker listing |
| `ClientListings.ClientsAreTold` | custom_components/openwrt_router/topology_mesh.py:1147-1178 | the snapshot shows exactly, for every MAC that is no router, the first of its best listings: of a router whose update went through before one whose update failed, then by signal |
| `ClientListings.ClientEdgesAreTold` | custom_components/openwrt_router/topology_mesh.py:1690-1730 | a client edge is there iff a listing puts the client at that interface or router and, unless the MAC is a router, its router has the best listing |
| `ClientListings.InterfacesAreTold` | custom_components/openwrt_router/topology_diagnostic.py:466-499 | every named interface of every router has its edge, marked stale iff the update of a router failed, and nothing else does |
| `ApiSession.CacheKeyGranularity` | custom_components/openwrt_router/api.py:5176-5200 | a denial blocks another call iff object and method are the same and, for files and configs, the same target is named (path, else command) |
| `ApiSession.FilesAreDeniedOneByOne` | custom_components/openwrt_router/api.py:5191-5195 | a denied path or command never blocks another one |
| `ApiSession.RunKeepsSessions` | custom_components/openwrt_router/api.py:1362-1481 | in every run of a new client the live sessions are the current one, those whose destroy failed and those whose login reply was lost |
| `ApiSession.CloseLeavesOnlyOrphans` | custom_components/openwrt_router/api.py:1327-1357 | closing leaves only the latter two |
| `ApiSession.BenignCall` | custom_components/openwrt_router/api.py:5075-5161 | with valid credentials a call reports exactly what the ACL and the method say, whatever cache and token; only denied keys are cached |
| `ApiSession.CacheIsTransparent` | custom_components/openwrt_router/api.py:5123-5161 | for a new client, over any sequence of calls and ACL deployments, the outcomes equal those of a client without cache |
| `ApiSession.TransparentFrom` | custom_components/openwrt_router/api.py:5123-5161 | the same from any two trusted states of the cached and the uncached client |
| `ApiSession.DeploymentCounts` | custom_components/openwrt_router/api.py:1293-1308 | after a new ACL is deployed and the cache is reset, a call is answered iff that ACL permits it, whatever was denied before |
| `ApiSession.ReloginsAreBounded` | custom_components/openwrt_router/api.py:5139-5161 | for a new client the re-logins caused by denials number exactly the distinct denied keys, and the cache ends as exactly those |
| `ApiSession.ReloginsFrom` | custom_components/openwrt_router/api.py:5139-5161 | the same from any trusted state, for the newly denied keys |
| `ApiSession.WithoutRetryCacheShowsIff` | custom_components/openwrt_router/api.py:5123-5138 | were the retry switched off by its parameter, which no caller does, a denied call would show the cache iff its key is cached |
| `ApiSession.CacheShowsWithoutRetry` | custom_components/openwrt_router/api.py:5123-5161 | a run of a new client after which that happens |
| `ApiSession.FailuresAreBounded` | custom_components/openwrt_router/api.py:5163-5174 | in no run of a new client does the failure count exceed three |
| `ApiSession.SessionsAreRenewedAfter240s` | custom_components/openwrt_router/api.py:1592-1601 | a call logs in from 240 s after the last login on and not before |
| `ApiSession.FailsAtOnceIff` | custom_components/openwrt_router/api.py:5097-5113 | a call fails at once, and changes nothing, iff three logins in a row were rejected and it begins before the backoff is over, or the client is closed |
| `ApiSession.BackoffSchedule` | custom_components/openwrt_router/api.py:5163-5168 | 30, 60, 120, 240 and then 300 s |
| `ApiSession.RejectionsAreCounted` | custom_components/openwrt_router/api.py:5105-5174 | what the logins of one call do to the count of rejections and the backoff, which start afresh after a backoff |
| `ApiSession.RequestTold` | custom_components/openwrt_router/api.py:5131-5161 | outcome, count and cache after a request, told by whether the session is alive and the ACL permits the call; only data and a successful re-login take rejections back |
| `ApiSession.RetryTold` | custom_components/openwrt_router/api.py:5145-5160 | the second attempt enters the cache iff the new session is denied, too |
| `ApiSession.OldSessionsEnd` | custom_components/openwrt_router/api.py:1450-1481 | where the router is willing a re-login ends the old session and closing the last one |
| `ApiSession.ClosedIsSilent` | custom_components/openwrt_router/api.py:1327-1357 | a closed client has no session and every call fails without a request |
| `Router.SurvivesDestroyIff` | custom_components/openwrt_router/api.py:1450-1481 | when a session survives the request to destroy it |
| `ApiSession.ThirdRejectionArms` | custom_components/openwrt_router/api.py:5163-5174 | the third rejection sets a backoff of 120 s from that login |
| `ApiSession.ThirdRejectionSilences` | custom_components/openwrt_router/api.py:5102-5174 | after the third rejection every call that begins within 120 s fails at once, sends nothing and changes nothing |
| `ApiSession.BackoffIsSilent` | custom_components/openwrt_router/api.py:5102-5113 | during the backoff no call sends anything or changes anything |
| `ApiSession.RejectedCall` | custom_components/openwrt_router/api.py:5102-5174 | a call against a rejecting router keeps the logins since the first rejection four apart by 120 s |
| `ApiSession.NewClient` | custom_components/openwrt_router/api.py:1212-1239 | a new client satisfies every invariant the run theorems start from |
| `ApiSession.AtMostThreeLoginsIn120s` | custom_components/openwrt_router/api.py:5102-5174 | whatever a client went through before: from the moment the router rejects everything, old sessions included, any interval shorter than 120 s holds at most three logins |
| `ApiSession.OpenWrtApi.Login` | custom_components/openwrt_router/api.py:1362-1448 | the object does what the specification of login says: a new session, token and expiry, the replaced session destroyed |
| `ApiSession.OpenWrtApi.DestroySession` | custom_components/openwrt_router/api.py:1450-1481 | best effort: the session is gone afterwards, or accounted as left over |
| `ApiSession.OpenWrtApi.EnsureFreshToken` | custom_components/openwrt_router/api.py:1592-1601 | a login exactly when the token is missing or about to expire |
| `ApiSession.OpenWrtApi.NoteLoginFailure` | custom_components/openwrt_router/api.py:5163-5174 | count and backoff after a rejection |
| `ApiSession.OpenWrtApi.Call` | custom_components/openwrt_router/api.py:5075-5161 | the whole call: backoff, refresh, cache, request, denial |
| `ApiSession.OpenWrtApi.Request` | custom_components/openwrt_router/api.py:5131-5161 | the request and the handling of a denial |
| `ApiSession.OpenWrtApi.RetryAfterDenial` | custom_components/openwrt_router/api.py:5139-5161 | one re-login and one retry; a second denial enters the cache |
| `ApiSession.OpenWrtApi.ResetAclBlocked` | custom_components/openwrt_router/api.py:1293-1308 | the cache is emptied |
| `ApiSession.OpenWrtApi.AsyncClose` | custom_components/openwrt_router/api.py:1327-1357 | no further calls, the current session destroyed |
| `SshSharing.NextKeepsInv` | custom_components/openwrt_router/api.py:2950-3038 | every enabled step of any command keeps counter, lock and connection consistent |
| `SshSharing.RunKeepsInv` | custom_components/openwrt_router/api.py:2950-3038 | so does every interleaving |
| `SshSharing.AtMostOneOpen` | custom_components/openwrt_router/api.py:2961-2974 | in every reachable state at most one connection is open, the shared one; a deferred release implies a command in flight |
| `SshSharing.ReleaseNeverCutsACommand` | custom_components/openwrt_router/api.py:2986-2997 | only reconnect, unload and the server ever close a connection while a command is in flight |
| `SshSharing.ReconnectCutsOthers` | custom_components/openwrt_router/api.py:3025-3031 | the reconnect does: a reachable run in which it closes the connection another command runs on |
| `SshSharing.CommandIsCutIff` | custom_components/openwrt_router/api.py:2950-3038 | in every reachable state a running command is cut off by an event iff that is the reconnect of another command, the close on unload or the server hanging up |
| `SshSharing.ReconnectCutsIff` | custom_components/openwrt_router/api.py:3025-3031 | a reconnect cuts somebody else iff another command runs on an open connection |
| `SshSharing.PendingReleaseComes` | custom_components/openwrt_router/api.py:3034-3038 | a deferred release is carried out when the last command ends |
| `SshSharing.ReleaseIsHonoured` | custom_components/openwrt_router/api.py:2986-3038 | after a release request no connection is open as soon as nothing is in flight |
| `SshSharing.CloseLeavesIff` | custom_components/openwrt_router/api.py:1327-1357 | after a close, once nothing is in flight, a connection is left open iff a connect finished after it, with no release pending, and nothing took that connection away |
| `SshSharing.CloseMayLeaveAConnection` | custom_components/openwrt_router/api.py:2961-2974 | a close that comes while a command is connecting leaves a connection |
| `SshSharing.OneLoginPerPoll` | custom_components/openwrt_router/api.py:3009-3038 | however many commands overlap in an undisturbed poll, at most one connection is opened |
| `SshSharing.OneRetryPerCommand` | custom_components/openwrt_router/api.py:3022-3038 | in every interleaving a command reconnects at most once, and an error on its first attempt leads to the second |
| `SshSharing.SshTransport.StartCommand` | custom_components/openwrt_router/api.py:3022-3024 | counts the command |
| `SshSharing.SshTransport.AcquireConnection` | custom_components/openwrt_router/api.py:2961-2970 | reuses an open connection or starts connecting under the lock |
| `SshSharing.SshTransport.FinishConnect` | custom_components/openwrt_router/api.py:2967-2974 | shares the new connection |
| `SshSharing.SshTransport.DropConnection` | custom_components/openwrt_router/api.py:2976-2984 | forgets and closes the shared connection |
| `SshSharing.SshTransport.RunFailed` | custom_components/openwrt_router/api.py:3025-3030 | an unusable connection is dropped for the one retry |
| `SshSharing.SshTransport.RetryCommand` | custom_components/openwrt_router/api.py:3030-3031 | the retry goes through the lock again |
| `SshSharing.SshTransport.EndCommand` | custom_components/openwrt_router/api.py:3034-3038 | uncounts the command and carries out a deferred release with the last one |
| `SshSharing.SshTransport.RequestRelease` | custom_components/openwrt_router/api.py:2986-2997 | at once when idle, else deferred |
| `ShellWords.SplitUndoesQuoting` | custom_components/openwrt_router/api.py:528-544 | quoting words as uci prints them (POSIX.1-2017 Shell Command Language, section 2.2) and splitting is the identity, for any words |
| `ShellWords.SplitPlain` | custom_components/openwrt_router/api.py:528-544 | an unquoted plain word splits to itself |
| `ShellWords.SplitDoubleQuoted` | custom_components/openwrt_router/api.py:536-540 | any word in double quotes, its quotes and backslashes escaped, is read back |
| `ShellWords.LexEscapeInDouble` | custom_components/openwrt_router/api.py:536-540 | inside double quotes a backslash escapes the quote and itself and stays before anything else |
| `UciShow.ShowPrintedValue` | custom_components/openwrt_router/api.py:528-544 | a printed value is read back, with lists of fewer than two items collapsed |
| `UciShow.Store` | custom_components/openwrt_router/api.py:559-565 | one line enters its section: position on first sight, type or option |
| `UciShow.ParseUciShow` | custom_components/openwrt_router/api.py:546-566 | the loop over the lines computes the specification that the round trip is proved about |
| `UciShow.ApplySection` | custom_components/openwrt_router/api.py:557-566 | the lines of one printed section add exactly that section at the next position |
| `UciShow.RoundTrip` | custom_components/openwrt_router/api.py:546-566 | parsing any printed well-formed config gives back sections, positions, types and options |
| `UciShow.ValuesSurviveIff` | custom_components/openwrt_router/api.py:528-544 | all values come back unchanged iff every list has at least two items |
| `UciShow.OneItemIsNoList` | custom_components/openwrt_router/api.py:541-544 | a printed list of one item is read back as a plain value |
| `UciShow.OtherOutputIsSkipped` | custom_components/openwrt_router/api.py:553-558 | lines of other configs and other output never matter, wherever they are |
| `UciGrammar.LinesOfText` | custom_components/openwrt_router/api.py:555 | any text falls into lines at exactly the ends that str.splitlines knows, with a carriage return and line feed as one end |
| `UciGrammar.MatchesIff` | custom_components/openwrt_router/api.py:522-525 | a line matches iff it has the form config.section=value or config.section.option=value, and its parts are unique |
| `UciGrammar.WordsAre` | custom_components/openwrt_router/api.py:522-525 | which characters names are made of |
| `UciGrammar.UnbalancedValue` | custom_components/openwrt_router/api.py:536-540 | a value whose quotes do not balance loses only the quotes at its two ends |
| `UciGrammar.AnswerIsTold` | custom_components/openwrt_router/api.py:546-566 | for any text: the sections are those its lines name, in the order of first lines, and type and options hold what the last line about them says |
| `OutageTracker.StepSound` | custom_components/openwrt_router/fleet.py:107-281 | no call forgets an outage, and every up event closes the down event of its own outage |
| `OutageTracker.StepAgreesIff` | custom_components/openwrt_router/fleet.py:107-281 | a call keeps issues, state and the shape of a fleet outage (at least two routers, all down, none reported, nothing pending) in agreement iff it does not add a router during a fleet outage |
| `OutageTracker.RunSound` | custom_components/openwrt_router/fleet.py:107-314 | nothing is forgotten over all runs: an unreported outage has its evaluation pending or the fleet issue open |
| `OutageTracker.OutagesAreHistory` | custom_components/openwrt_router/fleet.py:107-170 | over all runs: who is registered, who is out, since when by the first report and why by the last |
| `OutageTracker.LanIssueOpensIff` | custom_components/openwrt_router/fleet.py:176-208 | over all runs: after the timer the LAN issue is open iff there are two routers, all of them are out by the reports and none by rejected credentials, or it was open before |
| `OutageTracker.LanOutageBeginsEarliest` | custom_components/openwrt_router/fleet.py:234-263 | the LAN outage begins with the earliest of the outages and fires one event about all routers |
| `OutageTracker.AnswerEndsOneOutage` | custom_components/openwrt_router/fleet.py:146-170 | over all runs an answer ends the LAN outage if that is open, else the reported outage of this router, with its start and the time of the answer |
| `OutageTracker.RunNames` | custom_components/openwrt_router/fleet.py:299-314 | events of a router are about it alone, events of the fleet about two routers or more |
| `OutageTracker.RunAgrees` | custom_components/openwrt_router/fleet.py:107-281 | over all runs without such an addition the open issues are exactly those the state calls for, and a fleet outage has that shape |
| `OutageTracker.NeverBothKinds` | custom_components/openwrt_router/fleet.py:235-245 | the LAN issue and single issues never coexist in such runs |
| `OutageTracker.TimerCoversEveryOutage` | custom_components/openwrt_router/fleet.py:202-232 | over all runs, without any hypothesis: after the timer fired nothing is pending and every router that is down has its own or the LAN issue |
| `OutageTracker.EveryOutageHasItsIssue` | custom_components/openwrt_router/fleet.py:107-281 | over all runs: whenever no evaluation is pending, every router that is down has its own or the LAN issue |
| `OutageTracker.RunBacked` | custom_components/openwrt_router/fleet.py:107-281 | over all runs: the LAN issue is open iff a fleet outage is, and what is reported has its issue |
| `OutageTracker.TimerLeavesOneKind` | custom_components/openwrt_router/fleet.py:202-232 | in runs without an addition in mid-outage the timer leaves issues of exactly one kind, one per router or the LAN issue |
| `OutageTracker.StepRightIff` | custom_components/openwrt_router/fleet.py:202-232 | the issues stay right in a call, none wrong and never both kinds, iff it is not the timer firing during a fleet outage while not all routers are out |
| `OutageTracker.RunRightIff` | custom_components/openwrt_router/fleet.py:107-281 | over all runs: the issues are right throughout iff no such evaluation happens |
| `OutageTracker.NoJoinNoMix` | custom_components/openwrt_router/fleet.py:107-281 | without an addition in mid-outage there is none |
| `OutageTracker.ReloadKeepsIssuesRight` | custom_components/openwrt_router/fleet.py:107-143 | a router that is reloaded in mid-outage and times out again makes no issue wrong |
| `OutageTracker.JoiningMidOutageLeaksAnIssue` | custom_components/openwrt_router/fleet.py:107-114 | a router added mid-outage that fails with rejected credentials: both kinds coexist and an issue outlives its outage |
| `OutageTracker.FleetOutageIsReachable` | custom_components/openwrt_router/fleet.py:202-208 | a fleet outage of two routers is reachable |
| `OutageTracker.FleetOutageTracker.Register` | custom_components/openwrt_router/fleet.py:107-114 | adds the router |
| `OutageTracker.FleetOutageTracker.Unregister` | custom_components/openwrt_router/fleet.py:117-129 | drops router, outage and issue, ends or re-evaluates a fleet outage |
| `OutageTracker.FleetOutageTracker.ReportDown` | custom_components/openwrt_router/fleet.py:132-143 | first report schedules an evaluation, later ones update the error |
| `OutageTracker.FleetOutageTracker.ReportUp` | custom_components/openwrt_router/fleet.py:146-170 | ends the single or the fleet outage with its event |
| `OutageTracker.FleetOutageTracker.ScheduleEvaluation` | custom_components/openwrt_router/fleet.py:184-193 | one evaluation pending at most |
| `OutageTracker.FleetOutageTracker.Evaluate` | custom_components/openwrt_router/fleet.py:202-232 | one LAN issue or one issue per unreported router |
| `OutageTracker.FleetOutageTracker.ReportAll` | custom_components/openwrt_router/fleet.py:208-232 | issue and event for every unreported router, no other |
| `OutageTracker.FleetOutageTracker.ReportRouter` | custom_components/openwrt_router/fleet.py:209-230 | the same for one router |
| `OutageTracker.FleetOutageTracker.ReportLoop` | custom_components/openwrt_router/fleet.py:208-232 | the loop over all routers that are down |
| `OutageTracker.FleetOutageTracker.EndPartialFleetOutage` | custom_components/openwrt_router/fleet.py:123-127 | the LAN issue goes when not all routers are out any more |
| `OutageTracker.FleetOutageTracker.StartFleetOutage` | custom_components/openwrt_router/fleet.py:235-269 | folds single issues into the LAN issue, since the earliest outage |
| `OutageTracker.FleetOutageTracker.EndFleetOutage` | custom_components/openwrt_router/fleet.py:272-281 | closes the LAN issue with its event |
| `OutageTracker.MinSince` | custom_components/openwrt_router/fleet.py:236 | the earliest start of an outage |
| `ChannelPlanMonitor.CountersReadHistory` | custom_components/openwrt_router/fleet.py:461-492 | the streak counters are determined by the history: conflicts in a row per router, clean evaluations in a row |
| `ChannelPlanMonitor.StreakCounts` | custom_components/openwrt_router/fleet.py:469-474 | a counter of two means twice in a row with nothing else between |
| `ChannelPlanMonitor.RaisedIff` | custom_components/openwrt_router/fleet.py:465-479 | the issue appears iff the polling router is in a conflict on its second own evaluation in a row without a clean one between |
| `ChannelPlanMonitor.ClearedIff` | custom_components/openwrt_router/fleet.py:466-492 | it goes iff two clean evaluations in a row, or a router in every remaining conflict is unregistered |
| `ChannelPlanMonitor.RunConsistent` | custom_components/openwrt_router/fleet.py:500-525 | the registry shows what the monitor remembers; nothing persistent goes unraised |
| `ChannelPlanMonitor.TextIsCurrent` | custom_components/openwrt_router/fleet.py:500-516 | the shown text is that of the last call that saw conflicts |
| `ChannelPlanMonitor.Monitor.Evaluate` | custom_components/openwrt_router/fleet.py:461-479 | one evaluation; a failed poll changes nothing |
| `ChannelPlanMonitor.Monitor.Unregister` | custom_components/openwrt_router/fleet.py:482-492 | forgets streaks, re-checks a raised issue |
| `ChannelPlanMonitor.Monitor.Raise` | custom_components/openwrt_router/fleet.py:500-517 | raises or updates when the text differs |
| `ChannelPlanMonitor.Monitor.Clear` | custom_components/openwrt_router/fleet.py:520-525 | clears a raised issue |
| `LogCursor.LogCursor.Ingest` | custom_components/openwrt_router/log_parser.py:283-307 | one answer: sorted, compared with the remembered line, new lines and gap computed |
| `LogCursor.LogCursor.LooksRestarted` | custom_components/openwrt_router/log_parser.py:309-313 | the remembered line is gone or changed although older ids are there |
| `LogCursor.CollectUsable` | custom_components/openwrt_router/log_parser.py:284-290 | entries without a usable id are dropped |
| `LogCursor.CollectAbove` | custom_components/openwrt_router/log_parser.py:300 | the lines above the remembered id |
| `LogCursor.BaselineIff` | custom_components/openwrt_router/log_parser.py:296-313 | a restart stays undetected iff the answer lies above the remembered id or repeats the remembered (id, time) |
| `LogCursor.IngestContinues` | custom_components/openwrt_router/log_parser.py:283-307 | an answer in any order continues exactly where the last one ended |
| `LogCursor.FirstAnswerIsBaseline` | custom_components/openwrt_router/log_parser.py:295-298 | the first non-empty answer is the only baseline |
| `LogCursor.RunContinues` | custom_components/openwrt_router/log_parser.py:283-307 | over any fetches: no baseline, in id order, delivered plus missed are the ids since |
| `LogCursor.ExactlyOnce` | custom_components/openwrt_router/log_parser.py:269-313 | a whole run from a new cursor: one baseline, later lines once and in order iff shown in time, the sum conserved |
| `EventLimiter.EventLimiter.Select` | custom_components/openwrt_router/log_parser.py:328-355 | one call selects as specified and updates the cooldowns |
| `EventLimiter.SelectionFair` | custom_components/openwrt_router/log_parser.py:316-355 | budget kept; fired, suppressed and count-only add up; sorted by id; nothing cooling fires; no lower priority before a dropped higher one |
| `EventLimiter.WalkKeeps` | custom_components/openwrt_router/log_parser.py:341-353 | each step of the walk over the ranked events keeps budget and cooldowns |
| `EventLimiter.WalkFair` | custom_components/openwrt_router/log_parser.py:341-353 | the walk drops for budget only below what it fires |
| `EventLimiter.FiringRemembered` | custom_components/openwrt_router/log_parser.py:332-352 | a firing is remembered until its window is over |
| `EventLimiter.FiringsAreSpaced` | custom_components/openwrt_router/log_parser.py:316-355 | in any run two firings of a key in different calls are at least one window apart |
| `EventLimiter.KeyFiresOncePerCall` | custom_components/openwrt_router/log_parser.py:341-353 | within a call a key fires once |
| `EventLimiter.CoolingIff` | custom_components/openwrt_router/log_parser.py:334-336 | before each call of a run exactly the keys cool down that fired less than one window ago |
| `EventLimiter.RanksByTier` | custom_components/openwrt_router/log_parser.py:71-80 | which kinds go first: radar and failed authentication, then address trouble, last inactivity |
| `EventLimiter.SameKeyIff` | custom_components/openwrt_router/log_parser.py:344-348 | two events share a window iff of one kind and about one client, or, without a client, one interface and frequency |
| `EventLimiter.LoneEventFiresIff` | custom_components/openwrt_router/log_parser.py:55-61 | which kinds are only counted |
| `StableSort.SortIsStable` | custom_components/openwrt_router/log_parser.py:337-340 | events of one priority, and lines of one id, are taken in the order in which they came |
| `RollingCounter.RollingCounter.Add` | custom_components/openwrt_router/log_parser.py:365-366 | appends to the bounded deque and to the full history |
| `RollingCounter.RollingCounter.Counts` | custom_components/openwrt_router/log_parser.py:368-377 | the naive count of the unexpired items among the last max_items of the full history |
| `RollingCounter.TallyLive` | custom_components/openwrt_router/log_parser.py:374-377 | counts live items by key |
| `BoundedWindow.RetainedCount` | custom_components/openwrt_router/log_parser.py:358-377 | counting live items in the deque is counting them among the last items added |
| `BoundedWindow.PushRetains` | custom_components/openwrt_router/log_parser.py:365-366 | appending to the deque keeps that |
| `BoundedWindow.DropRetains` | custom_components/openwrt_router/log_parser.py:371-372 | dropping expired items from the left keeps that, although times are in any order |
| `BoundedWindow.CountPositions` | custom_components/openwrt_router/log_parser.py:368-377 | counting from some position on is counting positions |
| `AssociationTracker.RemembersHistory` | custom_components/openwrt_router/client_stability.py:163-209 | the remembered disconnect is exactly that of the full history, unless a call of counts after the last call about the client found it too old |
| `AssociationTracker.FlagMatchesIff` | custom_components/openwrt_router/client_stability.py:177-200 | the reconnect flag equals its definition over the full history iff the disconnect that makes it a reconnect was not pruned; it is never set wrongly |
| `AssociationTracker.ReconnectIff` | custom_components/openwrt_router/client_stability.py:177-186 | by the history a connect is a reconnect iff the last call about its client was a disconnect at most the reconnect time before, from the same interface or with one of the two unknown |
| `AssociationTracker.FlagMatchesHistory` | custom_components/openwrt_router/client_stability.py:177-200 | above the bound now - window + reconnect time of every earlier call of counts the flag is that of the full history, in any run |
| `AssociationTracker.PruningShowsBelowTheBound` | custom_components/openwrt_router/client_stability.py:177-200 | a connect can lose its flag to a call of counts iff it lies below the bound: for every such time there is a run that loses it, for no other time is there one |
| `AssociationTracker.RunRetains` | custom_components/openwrt_router/client_stability.py:177-209 | after any run, with timestamps in any order, the deque holds what the window may still need of all that was pushed |
| `AssociationTracker.CountsMatchGiven` | custom_components/openwrt_router/client_stability.py:193-209 | over all such runs both counts equal those over the last max_items of everything pushed, with the flags given |
| `AssociationTracker.CountsMatchHistory` | custom_components/openwrt_router/client_stability.py:193-209 | over all runs with non-decreasing now and arbitrary timestamps: the associations equal the count over the last max_items of the full history; the reconnects never exceed it, and equal it iff no counted connect lost its flag |
| `AssociationTracker.PunctualRunsAreExact` | custom_components/openwrt_router/client_stability.py:193-209 | without late connects the reconnects are exact, too |
| `AssociationTracker.HistoriesCompare` | custom_components/openwrt_router/client_stability.py:177-186 | the pushed associations are those of the history, and a flag differs exactly where a connect lost it |
| `AssociationTracker.AssociationTracker.Connected` | custom_components/openwrt_router/client_stability.py:177-186 | appends with its reconnect flag, forgets the disconnect |
| `AssociationTracker.AssociationTracker.Disconnected` | custom_components/openwrt_router/client_stability.py:188-191 | remembers the disconnect |
| `AssociationTracker.AssociationTracker.CountsAt` | custom_components/openwrt_router/client_stability.py:193-209 | expires, prunes and counts |
| `AssociationTracker.TallyLive` | custom_components/openwrt_router/client_stability.py:201-209 | associations and reconnects per MAC |
| `AssociationTracker.TimerIsUnbroken` | custom_components/openwrt_router/client_stability.py:146-160 | a key is held since the first update of its unbroken run |
| `AssociationTracker.HoldTimer.Update` | custom_components/openwrt_router/client_stability.py:152-154 | keeps the start of the keys still present, starts the new ones |
| `AssociationTracker.HoldTimer.Held` | custom_components/openwrt_router/client_stability.py:156-160 | exactly the keys held for the given time, with their start |
| `ChannelPlan.SpansIntersectIff` | custom_components/openwrt_router/channel_plan.py:91-104 | on the same grid open spans intersect iff a 20 MHz channel is shared |
| `ChannelPlan.IntersectIffNear` | custom_components/openwrt_router/channel_plan.py:91-98 | in every band two spectra intersect iff the centers are nearer than the mean of the widths, with 12 MHz between channels 13 and 14 |
| `ChannelPlan.HasBlock5Iff` | custom_components/openwrt_router/channel_plan.py:64-70 | which 5 GHz channels have a tabled block of which width |
| `ChannelPlan.Block24` | custom_components/openwrt_router/channel_plan.py:165-172 | the side of a 40 MHz block in the 2.4 GHz band |
| `ChannelPlan.NarrowIsCentered` | custom_components/openwrt_router/channel_plan.py:163-164 | a 20 MHz radio is centered on its channel |
| `ChannelPlan.Block6IsAligned` | custom_components/openwrt_router/channel_plan.py:173-176 | whatever the channel, a derived 6 GHz block starts at a multiple of its own size and reaches the channel |
| `ChannelPlan.Block5IsTabled` | custom_components/openwrt_router/channel_plan.py:177-180 | whatever the channel, the derived 5 GHz center is a tabled one whose block reaches it, or the channel itself |
| `ChannelPlan.WellKnownFrequencies` | custom_components/openwrt_router/channel_plan.py:120-126 | channels by their frequencies |
| `ChannelPlan.Block6` | custom_components/openwrt_router/channel_plan.py:161-180 | which channels a derived 6 GHz block holds |
| `ChannelPlan.Block6ContainsPrimary` | custom_components/openwrt_router/channel_plan.py:161-180 | a derived 6 GHz block contains its primary channel |
| `ChannelPlan.Blocks6Nest` | custom_components/openwrt_router/channel_plan.py:161-180 | any two derived 6 GHz blocks are nested or disjoint |
| `ChannelPlan.Block5ContainsPrimary` | custom_components/openwrt_router/channel_plan.py:161-180 | a tabled 5 GHz block contains its primary channel |
| `ChannelPlan.Blocks5Nest` | custom_components/openwrt_router/channel_plan.py:161-180 | any two 5 GHz blocks are nested or disjoint |
| `ChannelFindings.Analyze` | custom_components/openwrt_router/channel_plan.py:238-275 | the findings, as a multiset, are those of all radios and all unordered pairs |
| `ChannelFindings.SingleFindings` | custom_components/openwrt_router/channel_plan.py:246-252 | the findings about radios alone |
| `ChannelFindings.PairsFrom` | custom_components/openwrt_router/channel_plan.py:255-266 | one radio against all later ones |
| `ChannelFindings.PairFindings` | custom_components/openwrt_router/channel_plan.py:256-266 | the finding of one pair, if any |
| `ChannelFindings.OneFindingPerPair` | custom_components/openwrt_router/channel_plan.py:254-266 | a finding about two radios is there once per unordered pair of positions that qualifies |
| `ChannelFindings.OverlapIsSharedSubchannel` | custom_components/openwrt_router/channel_plan.py:260-266 | on one grid a pair is reported as overlap iff channels differ and a 20 MHz channel is shared |
| `ChannelFindings.FindingsTold` | custom_components/openwrt_router/channel_plan.py:238-267 | every finding told by channels, centers and widths: off 1, 6 and 11; reaching into 52 to 144; two rivals on one channel; two rivals whose centers are nearer than the mean of their widths |
| `ChannelFindings.OverlapIn24` | custom_components/openwrt_router/channel_plan.py:254-266 | two radios on different channels from 1 to 13 of the 2.4 GHz band overlap iff ten times the distance of their centers is below the sum of their widths |
| `ChannelFindings.OverlapWith14` | custom_components/openwrt_router/channel_plan.py:120-126 | channel 14 overlaps at 20 MHz with 12 and 13 only |
| `ChannelFindings.StandardPlanIsClean` | custom_components/openwrt_router/channel_plan.py:238-267 | any number of 20 MHz radios on channels 1, 6 and 11 has no overlap and no radio off the plan |
| `ChannelFindings.ReachesDfsIff` | custom_components/openwrt_router/channel_plan.py:249-252 | a block reaches the DFS channels iff it ends at 52 or above and begins at 144 or below |
| `ChannelFindings.PairSymmetricIff` | custom_components/openwrt_router/channel_plan.py:288-295 | a pair gives the same finding in both orders iff it is not two different radios under one title and phy |
| `ChannelFindings.SameFindingsIff` | custom_components/openwrt_router/channel_plan.py:238-275 | the findings are independent of the order of the radios iff no reported pair is ambiguous in that way |
| `ChannelFindings.OrderShows` | custom_components/openwrt_router/channel_plan.py:288-295 | two routers of one title with overlapping radios of one phy name: the findings differ with the order |
| `PairSums.PairCount` | custom_components/openwrt_router/channel_plan.py:254-266 | nested loops over i < j count every unordered pair of positions once |
| `PairSums.PairsOrderIndependentIff` | custom_components/openwrt_router/channel_plan.py:238-275 | such a double loop is order-independent iff the pair function is symmetric on the list |
| `RamPressure.Coordinator.CheckMemoryPressure` | custom_components/openwrt_router/coordinator.py:1703-1768 | one poll; without usable stats nothing changes; registry and flag stay equal |
| `RamPressure.QuietTracksSpan` | custom_components/openwrt_router/coordinator.py:1722-1747 | the hold start is the start of the longest unbroken high span |
| `RamPressure.SpanGrows` | custom_components/openwrt_router/coordinator.py:1722-1747 | a further high reading extends the span or starts it after a gap |
| `RamPressure.RaisedIff` | custom_components/openwrt_router/coordinator.py:1740-1749 | the issue appears iff every usable reading of a span of at least the hold time was high, with gaps of at most two intervals |
| `RamPressure.ActiveIff` | custom_components/openwrt_router/coordinator.py:1729-1749 | over all runs the issue is open iff the router once stayed high for the hold time and no reading since was normal |
| `RamPressure.ActiveInNumbers` | custom_components/openwrt_router/coordinator.py:1703-1768 | over all runs the issue is open iff the router was above 85 percent or below 16 MiB for 900 s without a gap, and at no reading since below 80 percent with 16 MiB left |
| `RamPressure.ClearedIff` | custom_components/openwrt_router/coordinator.py:1729-1738 | it goes iff a reading is below the clear threshold with enough RAM available |

## Left out

- HTTP, ubus JSON, `asyncssh` and file reads on the router: their outcomes are parameters.
- Home Assistant plumbing (entities, config flow, diagnostics, device registry, display names, texts of issues and notifications).
- Log-line regular expressions and router output parsers other than `uci show`: each claim is settled by one branch.
- Identity tables of known routers and the matching of LLDP neighbours against them: neighbours arrive identified, and neighbour tables arrive in their sorted order.
- Bridge-port enrichment of gateway nodes, DHCP enrichment of client nodes, WAN statistics: one lookup each.
- The rest of the coordinator, the frontend and the scripts: polling order and presentation.
- Concurrent overlapping logins, and routers that share an id: excluded by hypothesis, because the code does not guard against them.
- OutageTracker.FleetOutageTracker.ScheduleEvaluation: does not model the delay, only that an evaluation is pending; titles and error types in events are left out, too.
- LldpEdges.DetectLldpEdges: VLAN tags, conflict notes, parallel-link notes and neighbour details of an edge are not modelled; they decide nothing.
- InterRouterEdges.DetectInterRouterEdges: confidence, signal and inference texts of an edge are not modelled.
- SwitchNodes.DetectSwitchNodes: labels and counts shown on a switch are not modelled.
- ClientMerge.MergeSnapshots: only MAC, router, signal and staleness of a client are modelled; MACs are lower-case on arrival, and router nodes never lose theirs.
- ChannelFindings.Analyze: the final sort of the findings for display is not modelled, only their multiset; where the radios come from is left out.
- UciShow.ParseUciShow: names and indices use ASCII letters and digits; the program's pattern also accepts other alphabets.
- SshSharing.SshTransport.FinishConnect: a cancellation that hits exactly the completion of a connect is the library's and is not modelled.
- EventLimiter.EventLimiter.Select: the parsing that assigns kinds and keys to lines is not modelled.
- RouterRoles.ResolveRoles: a protocol or address that is absent is an empty string.
- ApiSession.OpenWrtApi.Login: does not model the counter of failed logins, which only decides about log messages, nor the warning about the root account.
- ApiSession.OpenWrtApi.ResetAclBlocked: only the cache of denied methods is modelled; the port map, LLDP, core count and hostapd probes it also restarts belong to polling.
- ApiSession.OpenWrtApi.AsyncClose: only the session is modelled here; the SSH drop is the event `Close` of `SshSharing`, and the other fields it clears are lookup caches.
- Interface and port names: blanks and letter case are those of ASCII; the program also strips and lowers other alphabets.
- MeshSnapshot.BuildSnapshot: stale marks are put on the links after the switch inference instead of before, which does not read them.
