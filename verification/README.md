# A verified model of the NetBird client and reverse proxy

This project models the stateful core of NetBird in Dafny and proves what that core is meant to
keep over every run, every input and every failure that the surrounding system can inject.

* **Reverse-proxy mappings** (`RouterTable`, `ProxyModel`, `ProxyRouting`, `ProxySetup`,
  `ProxyTheorems`, `ProxyTidy`, `ProxyExact`, `ProxyHolders`, `ProxyRoundTrip`, `ProxyWitness`,
  `ProxyContents`, `ProxyRelays`, `ProxyServer`). One worker applies
  CREATED, MODIFIED and REMOVED updates to the main router, the per-port routers, the port and
  relay tables, the stored mappings and the CrowdSec registry. `ProxyModel` gives each operation
  as a function on the whole state; `ProxyServer` holds the objects with their fields and proves
  that every method moves the state exactly as that function says. A *footprint* is what one
  mapping describes: an SNI route, a catch-all on a port, a datagram relay or nothing. The theorems
  compare the routing state with the footprints of the live services. `ProxyHolders` follows who holds
  a shared catch-all, and `ProxyRelays` which relay connections a cleanup closes. `ProxyContents`
  says in terms of the mappings' own fields what is written and where connections end up.
* **Peers** (`PeerModel`, `PeerLazy`, `PeerEngine`, `PeerOutcomes`, `PeerRuns`, `PeerAwake`, `PeerStatus`, `PeerSync`,
  `NetLists`, `PeerObjects`). Network
  maps are reconciled with a peer store whose connections are opened at once or handed to a lazy
  manager. A connection carries a serial number, so equality of connections is identity.
  `PeerStatus` gives the effect of every event on every single peer. `PeerObjects` holds the store,
  the connection manager and the engine as objects.
* **Posture checks** (`PostureChecks`), the comparison by sorting and joining.
* **Daemon** (`DaemonModel`, `DaemonServer`). Start, Up, Down, Login and the client goroutine
  interleave in atomic steps over `clientRunning`, contexts and two channels.
* **Token cache** (`JwtCache`), **address anonymizer** (`Anonymizer`).
* **Codecs and address arithmetic** (`Base62`, `ServiceEnv`, `ReverseDns`, `LastAddress`).

`Prelude` holds shared helpers. What the code cannot decide itself is a parameter: whether a
listener opens, a peer can be added, a target splits into host and port, the CrowdSec bouncer
starts, a monitor can be installed, an address string parses, an enclave opens, the time, and the
order in which a Go map is visited.

## Where the code differs from what one would hope

For each of these a lemma states the exact condition, or all outcomes, and another a concrete input
on the failing side. Hypotheses beyond the types are listed under "Left out".

* CREATED followed by REMOVED restores the state except for TCP mappings that carry a domain or
  whose port already has a fallback, and TLS mappings without a domain on a port other than the main
  one that has a fallback (`ProxyRoundTrip.CreateRemoveIff`; input
  `ProxyWitness.SharedPortNotRestored`). `RemoveFallback` clears the fallback whoever owns it.
* Creating and removing a service leaves an orphan exactly when it is a TCP service with a domain
  (`ProxyExact.RemovalOrphansIff`; input `ProxyWitness.NamedTcpOrphaned`).
* Two TCP services on one port: the later one displaces the earlier, and only this makes routing
  inexact (`ProxyTheorems.ApplyExactIff`, `ProxyTheorems.AlwaysExactIff`; input
  `ProxyWitness.SharedPortDisplaces`). Services with server names and relays keep their place even
  then (`ProxyExact.RunNamed`). Who holds the port is the latest service installed on it, unless a
  later cleanup of any service of the port has cleared it (`ProxyHolders.RunHolds`); live services and
  holders together determine all routing (`ProxyHolders.HoldersDetermine`) and where each connection
  ends up (`ProxyHolders.DestinationAlways`).
* Removing the holder of a shared port drops the router when it is empty, and with it the relay
  connections that displaced services still have on it (`ProxyRelays.CleanupCloses`; input
  `ProxyWitness.DisplacedConnectionsClosed`). On routers that stay, a cleanup closes the connections of
  its own service only.
* A repeated CREATED that succeeds with another footprint leaves the old routes behind
  (`ProxyExact.RecreateIff`; input `ProxyWitness.MovedServiceOrphaned`). A later REMOVED clears them
  exactly when it can still address them (`ProxyExact.RecreatedRemovalIff`).
* A repeated CREATED that fails is rolled back with the new mapping. The old place survives exactly
  when that mapping does not address it (`ProxyExact.FailedRecreateKeepsIff`), but its port is
  forgotten, and a later REMOVED leaves an orphan exactly when the old place is a catch-all or a
  server name off the main port which the new mapping does not address
  (`ProxyExact.FailedRecreateRemovalIff`; input `ProxyWitness.FailedCreateOrphans`).
* A repeated CREATED that succeeds keeps a CrowdSec registration that the new mapping no longer asks
  for, while a MODIFIED drops it (`ProxyTidy.ApplyRegisters`).
* A TLS mapping without a domain that opens a new port leaves an empty router
  (`ProxyTidy.EmptyRouterIff`; input `ProxyWitness.NamelessTlsLeavesRouter`).
* A MODIFIED that fails for a live service takes the service down but keeps its mapping stored, and
  so does a CREATED that fails with a mapping of the same footprint
  (`ProxyTheorems.LiveIsStoredIff`; input `ProxyWitness.FailedModifyStaysStored`).
* A peer that was excluded, leaves the network map and comes back after the exclude list has dropped
  it is stored but stranded: neither traffic nor signalling opens it
  (`PeerLazy.ReturningPeerStranded`). Which steps bring this about is exact: adding a peer over a stale
  active entry (`PeerLazy.AddStrandsIff`), which only a changed exclude list leaves behind
  (`PeerLazy.ExcludeGhostIff`). The peer stays stranded until an inactivity time-out, a go-idle message for
  the connection the entry still names, exclusion, removal, or switching the lazy manager off
  (`PeerLazy.StrandedStepIff`, `PeerLazy.StrandedAlong`); after a time-out activity opens it again
  (`PeerLazy.TimeoutThenActivityOpens`). The exclude list is an arbitrary input of these lemmas. The
  list that the engine itself computes compares bare addresses with prefixes. After an accepted map
  with distinct keys it is always empty (`PeerOutcomes.NobodyExcluded`), and no run of such maps ever
  strands a peer (`PeerAwake.ComputedAwake`). A map that repeats a key can put a stored peer on the
  list (`PeerAwake.RepeatedKeyExcluded`), and then the engine's own lists do strand it (input
  `PeerAwake.EngineStrands`).
* A new peer is left open although the lazy manager waits for its activity exactly when it does not
  support lazy connections and the manager still has an idle entry under its key
  (`PeerStatus.AddTightIff`; input `PeerStatus.ReturningOldPeerOpen`). In orderly runs, and in runs
  with the lists that the engine computes, a peer is open if and only if it is not idle
  (`PeerStatus.OpenIffNotIdle`, `PeerAwake.ComputedOpenIff`).
* Re-applying a network map is quiet exactly when repeated keys in it agree (`PeerEngine.ReapplyIff`,
  `PeerRuns.UpdateIdempotentIff`; input `PeerOutcomes.RepeatedKeyFlaps`).
* A map that changes a peer to an entry from which no connection can be made removes the stored peer
  before it fails, together with all changed peers behind it (`PeerOutcomes.FailedModifyLoses`; input
  `PeerOutcomes.BadPrefixDropsPeer`).
* A peer without allowed addresses makes the engine index an empty slice. The model ends the update
  with the outcome `NoAddress`; `PeerOutcomes.ReconcilePanicsIff` says exactly when, and
  `PeerOutcomes.EmptyAddressListPanics` gives the input.
* The give-up channel is closed at the end of a client run only when automatic connection is on,
  although the comment on the field promises it always (`DaemonModel.GiveUpIff`; input
  `DaemonModel.ManualClientLeavesChannelOpen`).
* An Up that finds a client running waits on the channels of that client. It may be told at once
  that the client gave up exactly when the client has automatic connection and is between the end
  of its retry loop and its reset (`DaemonModel.UpGivesUpIff`). It may be told success at once
  exactly when the engine of that client had started, even while the client is being torn down
  (`DaemonModel.UpSucceedsIff`, `DaemonModel.StaleSuccessIff`). Both can hold together
  (`DaemonModel.DownThenUpIsStale`).
* An address can be anonymized differently on a second call, exactly when it has come into or left
  the range of handed-out addresses in between and is not exempt (`Anonymizer.SecondCallAgreesIff`;
  input `Anonymizer.SecondCallDiffers`). The call that uses up an address family removes the protection
  of all pseudonyms of that family (`Anonymizer.IdempotentIff`, `Anonymizer.IdempotentAtOnceIff`; input
  `Anonymizer.LastAddressUnprotected`).
* The pseudonym that is next to be handed out already passes through, so that address and the next one
  to be replaced get the same result (`Anonymizer.PassesIff`, `Anonymizer.NextPseudonymCollides`).
* Making a name absolute twice adds a second dot exactly when the name ends in an odd number of
  backslashes (`ReverseDns.FqdnIdempotentIff`).
* Posture checks are compared by the pieces between bars, so names with bars can collide
  (`PostureChecks.ChecksEqualAlways`; input `PostureChecks.BarsAndEmptyNamesCollide`).
* The reverse zone covers its network only for prefix lengths 8, 16, 24 and 32
  (`ReverseDns.ZoneCoversIff`, whose proof constructs the address that is not covered).
* The last-address computation fails for addresses whose first byte is zero
  (`LastAddress.LastIpIff`, `LastAddress.LastIpV4Fails`; input `LastAddress.ZeroNetworkFails`).

## Model

| member | source | states |
|---|---|---|
| RouterTable.AddRouteHas | proxy/internal/tcp/router.go:158-176 | after adding, the host's routes are the new one and those of other services; other hosts and the fallback are untouched |
| RouterTable.RemoveRouteHas | proxy/internal/tcp/router.go:181-194 | exactly the routes of that service under that host disappear |
| RouterTable.WithoutConcat | proxy/internal/tcp/router.go:181-194 | removal keeps the order of the remaining routes |
| RouterTable.EmptyIff | proxy/internal/tcp/router.go:236-240 | a table counts as empty exactly when it has neither a fallback nor any route |
| RouterTable.BestIsFirstOfLeastType | proxy/internal/tcp/router.go:371-385 | lookup picks an HTTP route when there is one, and the earliest route of its kind |
| ProxyServer.Router.AddRoute | proxy/internal/tcp/router.go:158-176 | the loop that replaces or appends yields the specified table; replacing closes the relay connections of that service and of no other, appending closes none |
| ProxyServer.UpsertReplaces | proxy/internal/tcp/router.go:158-176 | a route of a service that has one for the host takes its place in the order |
| ProxyServer.UpsertAppends | proxy/internal/tcp/router.go:158-176 | a route of a new service comes last |
| ProxyServer.Router.RemoveRoute | proxy/internal/tcp/router.go:181-194 | filtering in place yields the specified table, dropping the host with its last route, and closes the relay connections of that service and of no other |
| ProxyServer.Router.SetFallback | proxy/internal/tcp/router.go:199-203 | replaces the fallback and nothing else; relay connections stay open |
| ProxyServer.Router.RemoveFallback | proxy/internal/tcp/router.go:207-212 | clears the fallback whoever set it and closes the relay connections of the named service and of no other |
| ProxyServer.Router.AcquireRelay | proxy/internal/tcp/router.go:550-571 | a new relay connection shares its service's context or starts a new one; a draining router refuses it before, a full one after that |
| ProxyServer.Router.CancelService | proxy/internal/tcp/router.go:441-447 | cancels and forgets the context of one service and leaves the others open |
| ProxyServer.Router.CancelAll | proxy/server.go:902-928 | cancelling what the router serves under closes every relay connection on it |
| ProxyRelays.Ensure | proxy/internal/tcp/router.go:550-571 | a service keeps its open context, or gets one that is new, not closed and shared with no other service |
| ProxyRelays.Sever | proxy/internal/tcp/router.go:441-447 | the service's context is closed, every other service keeps its own, which stays open |
| ProxyServer.Router.LookupRoute | proxy/internal/tcp/router.go:371-385 | one scan over the host's routes returns the first route of the least type |
| ProxyServer.Router.HandleConn | proxy/internal/tcp/router.go:281-367 | where a connection goes, including the shortcut of a router that can only fall back, is what the specified lookup by lower-case server name gives |
| Prelude.LowerIff | proxy/internal/tcp/router.go:313 | two names have the same lower-case form exactly when they are equal up to the case of letters, and the form has no capitals |
| ProxyServer.Registry.Acquire | proxy/internal/crowdsec/registry.go:43-66 | a consumer is recorded exactly when a bouncer is available or starts |
| ProxyServer.Registry.Release | proxy/internal/crowdsec/registry.go:70-79 | the consumer goes and the bouncer stops with the last one |
| ProxyServer.Server.RouterForPort | proxy/server.go:834-897 | main router, existing router or a fresh one; on a failed listener the state is unchanged |
| ProxyServer.Server.RouterForPortExisting | proxy/server.go:844-855 | finds a router exactly where one exists and never creates one |
| ProxyServer.Server.CleanupPortIfEmpty | proxy/server.go:902-928 | drops a per-port router exactly when it is empty, closing all relay connections on it |
| ProxyServer.Server.ParseRestrictions | proxy/server.go:1304-1336 | registers the service with CrowdSec only when the mode asks for it and the bouncer is there |
| ProxyServer.Server.ReleaseCrowdSec | proxy/server.go:1340-1349 | releases only services that had been registered |
| ProxyServer.Server.SetupHTTPMapping | proxy/server.go:1126-1156 | refines the specified HTTP setup, both new state and success |
| ProxyServer.Server.SetupTCPMapping | proxy/server.go:1159-1205 | refines the specified TCP setup including its early failures |
| ProxyServer.Server.SetupUDPMapping | proxy/server.go:1208-1231 | refines the specified UDP setup: an old relay goes even when the new one fails to start |
| ProxyServer.Server.SetupTLSMapping | proxy/server.go:1234-1289 | refines the specified TLS setup, tracking the port only off the main port |
| ProxyServer.Server.SetupMappingRoutes | proxy/server.go:1112-1123 | dispatches on the mode, HTTP being the default |
| ProxyServer.Server.CleanupMappingRoutes | proxy/server.go:1540-1585 | refines the specified cleanup of main route, tracked ports, relay and registration, and of the relay connections on all routers |
| ProxyRelays.CleanupCloses | proxy/server.go:1540-1585 | a cleanup closes the service's relay connections on the main router, if the mapping has a domain, and on every recorded port; another service loses connections only on a router that the cleanup drops |
| ProxyServer.Server.RemoveUDPRelay | proxy/server.go:1588-1600 | removes the relay of one service |
| ProxyServer.Server.StoreMapping | proxy/server.go:1602-1606 | stores the mapping under its service |
| ProxyServer.Server.AddMapping | proxy/server.go:1069-1088 | refines the specified add, including the rollback of a failed setup |
| ProxyServer.Server.ModifyMapping | proxy/server.go:1093-1108 | tears down with the stored mapping when there is one, sets up the new one, rolls back on failure |
| ProxyServer.Server.RemoveMapping | proxy/server.go:1516-1535 | deletes the stored mapping and cleans up with it, relay connections included |
| ProxyServer.Server.ProcessMappings | proxy/server.go:1034-1066 | a batch of updates moves the objects exactly along the specified run |
| ProxySetup.SetupEffect | proxy/server.go:1112-1289 | a successful setup adds exactly the mapping's footprint; a failed one disturbs nothing of other services |
| ProxyContents.FailedSetup | proxy/server.go:1112-1289 | what a failing setup has done by then: nothing for TCP and TLS, the old relay gone for UDP past its checks, the route in place for HTTP |
| ProxyContents.SplitsIff | proxy/server.go:1370-1384 | a target is accepted exactly when it is a host and a port around a colon, the host in brackets if it has colons |
| ProxyContents.SetupAccepted | proxy/server.go:1112-1289 | exactly which setups succeed, from the port number, the target text, the tunnel port, the routers and the environment |
| ProxyContents.TcpPlaced | proxy/server.go:1159-1205 | a TCP setup makes the route to its first target, with account, service and domain, the fallback of the listen port, records the port, and changes nothing else |
| ProxyContents.TlsPlaced | proxy/server.go:1234-1289 | a TLS setup adds the route to its first target for the lower-case domain on the listen port, and records the port unless it is the main one |
| ProxyContents.HttpPlaced | proxy/server.go:1126-1156 | an HTTP setup adds the HTTP route for the lower-case domain on the main port |
| ProxyContents.UdpPlaced | proxy/server.go:1420-1475 | a UDP setup starts the relay from the listen port to the first target in place of the old one |
| ProxyRouting.CleanupCleans | proxy/server.go:1540-1585 | exactly which routes, fallbacks and table entries a cleanup removes |
| ProxyRouting.CleanupSound | proxy/server.go:1540-1585 | cleaning up with a mapping that addresses the service's footprint removes every trace of it and nothing of the others |
| ProxyTheorems.ApplySound | proxy/server.go:1034-1121 | each update keeps routing state owned by live services, whatever fails |
| ProxyModel.SetupSucceedsIff | proxy/server.go:1112-1289 | exactly when a setup succeeds, from the mapping, the routers and the environment before the call |
| ProxyTheorems.InstallExactIff | proxy/server.go:1112-1289 | installing keeps routing exact if and only if it fails or no other live service has the same catch-all port |
| ProxyTheorems.ApplyExactIff | proxy/server.go:1034-1121 | every admissible update, with failures anywhere, keeps routing exact if and only if it does not take over the catch-all port of another live service |
| ProxyTheorems.RunSound | proxy/server.go:1034-1066 | the invariant holds after every admissible run |
| ProxyTheorems.RunExact | proxy/server.go:1034-1066 | after every admissible run without shared catch-alls the live services are exactly installed |
| ProxyTheorems.AlwaysExactIff | proxy/server.go:1034-1066 | routing is exact at every point of an admissible run if and only if no update of it takes over a catch-all port |
| ProxyTheorems.LiveIsStoredIff | proxy/server.go:1069-1108 | live and stored services stay the same if and only if the update does not fail for a live service |
| ProxyTheorems.LiveIsStored | proxy/server.go:1602-1621 | in every run that drops no service the live services are the stored mappings |
| ProxyTheorems.NoOrphanRoutes | proxy/server.go:1034-1121 | after every admissible run, with failures anywhere, each SNI route, fallback and relay belongs to a stored mapping and matches its mode, domain and port |
| ProxyExact.PortsExact | proxy/server.go:834-928 | per-port routers exist for exactly the non-main ports that some live service uses |
| ProxyExact.ExactDetermines | proxy/server.go:834-928 | the live services determine routes, fallbacks, relays, tracked ports and the set of routers |
| ProxyExact.OrderIndependent | proxy/server.go:1034-1066 | two runs that leave the same services live leave the same routing, whatever their order and failures |
| ProxyExact.AdmissibleNoEmptyRouters | proxy/server.go:902-928 | no admissible run leaves an empty per-port router |
| ProxyExact.DispatchExact | proxy/internal/tcp/router.go:281-385 | a connection for a host on a port goes to a live service claiming that host there, HTTP first, else to the catch-all of that port |
| ProxyExact.RunNamed | proxy/server.go:1034-1121 | in every admissible run, shared catch-alls or not, each live service with a server name or a relay is installed |
| ProxyExact.DispatchAlways | proxy/internal/tcp/router.go:281-385 | in every admissible run the route looked up belongs to a live service claiming the host, HTTP first, else to a live catch-all service of the port, or there is none |
| ProxyHolders.RunHolds | proxy/server.go:1034-1066 | after every admissible run the fallback of each port is that of the latest service installed there, unless a later cleanup of any service of the port cleared it |
| ProxyHolders.KnownPort | proxy/server.go:834-928 | per-port routers exist for exactly the other ports that are held or claimed by a server name |
| ProxyHolders.HoldersDetermine | proxy/server.go:1034-1066 | two admissible runs, with shared catch-alls, that leave the same services live and the same holders leave the same routing |
| ProxyHolders.DestinationAlways | proxy/internal/tcp/router.go:281-367 | after every admissible run, for each port and server name: the HTTP channel if a live HTTP service claims it, else a live service claiming it, else the holder of the port, else the HTTP channel on the main port and a closed connection elsewhere |
| ProxyContents.ConnectionsServed | proxy/internal/tcp/router.go:281-367 | the same for server names in any letter case and with the targets themselves: HTTP server, first target of a live TLS service of that name, first target of the TCP service holding the port, HTTP server on the main port, or closed |
| ProxyContents.RelaysServed | proxy/server.go:1420-1475 | after every admissible run the UDP relays are exactly those of the live UDP services, from listen port to first target |
| ProxyExact.RemovalOrphansIff | proxy/server.go:1540-1585 | for any mapping whatever, create and remove leaves an orphan if and only if it is a TCP service with a domain whose setup succeeds |
| ProxyExact.RecreateIff | proxy/server.go:1069-1088 | a repeated CREATED, failing or not, leaves no orphans if and only if it fails or keeps the footprint |
| ProxyExact.FailedRecreateKeepsIff | proxy/server.go:1069-1088 | a repeated CREATED that fails leaves the old place of the service installed if and only if the new mapping does not address it |
| ProxyExact.FailedRecreateRemovalIff | proxy/server.go:1069-1088 | after it a REMOVED leaves no orphans if and only if the old place had no route, was addressed by the new mapping, or was a server name on the main port |
| ProxyExact.RecreatedRemovalIff | proxy/server.go:1069-1088 | after a repeated CREATED that succeeds a REMOVED leaves no orphans if and only if the footprint was kept or the new mapping addresses the old place on a port still recorded |
| ProxyTidy.CleanupTidy | proxy/server.go:1540-1585 | cleanup frees the service's entries in all tables and keeps them consistent |
| ProxyTidy.ApplyTidy | proxy/server.go:1034-1066 | each update keeps tables within the stored mappings and the registry equal to the registered services |
| ProxyTidy.RunTidy | proxy/server.go:1034-1066 | the same after every run without any hypothesis, and no empty or main-port router when TLS mappings have domains |
| ProxyTidy.InstallRegisters | proxy/server.go:1304-1349 | a service is registered with CrowdSec after an install exactly when it succeeds and was registered, or asks for it and the bouncer runs or starts; others are not affected |
| ProxyTidy.ApplyRegisters | proxy/server.go:1034-1108 | the same for CREATED, MODIFIED and REMOVED, with failures anywhere |
| ProxyTidy.EmptyRouterIff | proxy/server.go:1234-1289 | a setup leaves an empty router behind exactly for an accepted TLS mapping without a domain on a new port |
| ProxyRoundTrip.CleanupUnknown | proxy/server.go:1540-1585 | cleaning up a service that has nothing changes nothing |
| ProxyRoundTrip.RemoveUnknown | proxy/server.go:1516-1535 | removing an unknown service changes nothing |
| ProxyRoundTrip.SetupUndoneIff | proxy/server.go:1112-1289 | cleanup after setup restores the whole state if and only if the mapping is reversible there |
| ProxyRoundTrip.FailedCreateIsRolledBack | proxy/server.go:1069-1088 | a create that fails at any point leaves the state as it was |
| ProxyRoundTrip.CreateRemoveIff | proxy/server.go:1069-1088 | remove undoes create if and only if the mapping is reversible there |
| ProxyRoundTrip.RunSettled | proxy/server.go:1034-1066 | states reached by admissible runs satisfy what the round trips assume |
| ProxyWitness.SharedPortDisplaces | proxy/server.go:1159-1205 | two TCP services on one port: routing is exact after the first and not after the second |
| ProxyWitness.SharedPortNotRestored | proxy/server.go:1540-1585 | a reached state that create and remove does not restore |
| ProxyWitness.NamedTcpOrphaned | proxy/server.go:1540-1585 | a TCP service with a domain leaves its catch-all in an otherwise empty proxy |
| ProxyWitness.MovedServiceOrphaned | proxy/server.go:1069-1088 | a repeated CREATED on another port leaves the old catch-all |
| ProxyWitness.FailedCreateOrphans | proxy/server.go:1069-1088 | a failed CREATED under another mode keeps the old catch-all, forgets its port, and REMOVED then leaves an orphan |
| ProxyWitness.SecondHolds | proxy/server.go:1159-1205 | of two live TCP services on one port the second holds it |
| ProxyWitness.DisplacedConnectionsClosed | proxy/server.go:902-928 | removing the second also closes the relay connections of the first |
| ProxyWitness.NamelessTlsLeavesRouter | proxy/server.go:1234-1289 | a TLS service without a domain leaves an empty router |
| ProxyWitness.FailedModifyStaysStored | proxy/server.go:1093-1108 | a failed MODIFIED takes the service down and keeps it stored |
| PeerObjects.Store.AddPeerConn | client/internal/peerstore/store.go:25-36 | adds unless the key is present |
| PeerObjects.Store.Remove | client/internal/peerstore/store.go:38-48 | returns the removed connection and forgets it |
| PeerObjects.Store.PeersPubKey | client/internal/peerstore/store.go:120-125 | lists every key once |
| PeerObjects.ConnMgr.Start | client/internal/conn_mgr.go:55-73 | a lazy manager appears only when enabled and Rosenpass is off |
| PeerObjects.ConnMgr.UpdatedRemoteFeatureFlag | client/internal/conn_mgr.go:78-108 | flipping the flag hands all peers to a new manager or opens them all |
| PeerObjects.ConnMgr.CloseManager | client/internal/conn_mgr.go:294-306 | closing the manager opens every stored peer |
| PeerObjects.ConnMgr.SetExcludeList | client/internal/conn_mgr.go:121-159 | newly excluded peers are opened, those leaving the list become managed |
| PeerObjects.ConnMgr.AddPeerConn | client/internal/conn_mgr.go:161-206 | refines the branches of adding a peer |
| PeerObjects.ConnMgr.RemovePeerConn | client/internal/conn_mgr.go:208-221 | removes a peer from store and manager and closes it |
| PeerObjects.ConnMgr.ActivatePeer | client/internal/conn_mgr.go:223-233 | opens a managed peer and its group |
| PeerObjects.ConnMgr.DeactivatePeer | client/internal/conn_mgr.go:237-244 | sends a peer back to idle only for the connection the manager watches |
| PeerObjects.ConnMgr.UpdateRouteHAMap | client/internal/conn_mgr.go:111-118 | replaces the groups of a present manager |
| PeerObjects.ConnMgr.Close | client/internal/conn_mgr.go:246-254 | drops the manager |
| PeerLazy.StepHeld | client/internal/conn_mgr.go:55-306 | each event keeps every stored peer opened or managed, and no manager exists with Rosenpass on |
| PeerLazy.NoPeerLost | client/internal/conn_mgr.go:55-306 | the same after every run of events, and all peers are opened whenever there is no manager |
| PeerLazy.ExcludeKeys | client/internal/lazyconn/manager/manager.go:148-187 | exactly which peers are managed after the exclude list changes |
| PeerLazy.AddStrandsIff | client/internal/conn_mgr.go:161-206 | adding a peer leaves one that cannot be woken exactly when a stale active entry for its key exists |
| PeerLazy.ExcludeGhostIff | client/internal/lazyconn/manager/manager.go:148-187 | changing the exclude list creates a managed peer that is not stored exactly when an excluded peer had left the store |
| PeerLazy.EveryPeerWakeable | client/internal/conn_mgr.go:121-306 | in runs where excluded peers stay stored while the list changes, every stored peer is opened or can be woken |
| PeerLazy.ReturningPeerStranded | client/internal/conn_mgr.go:121-206 | every excluded peer that leaves and returns after the list dropped it is stored, not opened and not idle, and a signal does not open it |
| PeerLazy.NotWakeableIff | client/internal/lazyconn/manager/manager.go:300-317 | some stored peer cannot be woken exactly when one is stranded under an entry that waits for inactivity |
| PeerLazy.StrandedStepIff | client/internal/lazyconn/manager/manager.go:253-296 | a stranded peer stays stranded in a step if and only if the event is not a time-out, go-idle, exclusion, removal or switching off that frees it |
| PeerLazy.StrandedAlong | client/internal/lazyconn/manager/manager.go:517-586 | it stays stranded along every run without such an event |
| PeerLazy.TimeoutThenActivityOpens | client/internal/lazyconn/manager/manager.go:543-586 | a time-out that no active group member puts off, followed by activity, opens it |
| PeerStatus.AddEffect | client/internal/conn_mgr.go:161-206 | for every peer, before and after an addition: the new one is handed to the lazy manager, closed and idle, exactly when a manager is there, the peer is supported, not excluded, not managed, can be monitored and no group member is active; opened in every other case without an old entry; others untouched |
| PeerStatus.WakeEffect | client/internal/lazyconn/manager/manager.go:253-374 | waking opens the idle peer and the idle members of its groups and no other |
| PeerStatus.ActivateEffect | client/internal/conn_mgr.go:223-233 | a signal wakes a stored idle peer with its group |
| PeerStatus.ActivityEffect | client/internal/lazyconn/manager/manager.go:517-541 | activity on a connection wakes the idle peer whose entry names that connection |
| PeerStatus.InactivityEffect | client/internal/lazyconn/manager/manager.go:469-586 | a time-out closes a peer exactly when it is reported, watched, and no active group member is missing from the report |
| PeerStatus.DeactivateEffect | client/internal/lazyconn/manager/manager.go:271-296 | a go-idle message closes exactly the peer whose active entry names that connection |
| PeerStatus.RemoveEffect | client/internal/conn_mgr.go:208-221 | a removed peer is gone, closed and unmanaged, but stays excluded |
| PeerStatus.ExcludeEffect | client/internal/lazyconn/manager/manager.go:148-187 | peers new on the list are opened and no longer managed, those leaving it are managed as active, others keep their state |
| PeerStatus.FlagEffect | client/internal/conn_mgr.go:78-108 | when the flag makes a manager appear or go, and what happens to every peer then |
| PeerStatus.StartEffect | client/internal/conn_mgr.go:55-73 | a manager is there after the start exactly when enabled locally with Rosenpass off |
| PeerStatus.AddTightIff | client/internal/conn_mgr.go:161-206 | adding a peer leaves one open that waits for activity exactly when it is unsupported and an idle entry for its key exists |
| PeerStatus.ReturningOldPeerOpen | client/internal/conn_mgr.go:121-206 | every excluded peer that leaves, is dropped, times out and returns unsupported ends up so |
| PeerStatus.NothingLeaks | client/internal/conn_mgr.go:55-306 | over every run each open connection belongs to a stored peer |
| PeerStatus.OpenIffNotIdle | client/internal/conn_mgr.go:55-306 | over every orderly run a stored peer is open if and only if it does not wait for activity |
| NetLists.SliceDiff | util/common.go:19-31 | the difference in order, holding exactly the elements of the first list that are not in the second |
| NetLists.DifferenceConcat | util/common.go:19-31 | the difference keeps order and repetitions: it distributes over concatenation |
| NetLists.CompareNetIPLists | client/internal/engine.go:2317-2346 | true exactly when all strings parse and the lists are equal as multisets; the final loop never decides |
| PeerEngine.AddNewPeerEffect | client/internal/engine.go:1495-1527 | a new peer is stored under a fresh connection with the map's version and addresses; known peers and failures change nothing; the already-exists error cannot occur |
| PeerEngine.AddNewPeersEffect | client/internal/engine.go:1484-1492 | the whole pass over the map, stopping at the first failure |
| PeerEngine.ModifyEffect | client/internal/engine.go:716-761 | replaced peers are built from the map, unchanged ones keep their connection |
| PeerOutcomes.AddNewPeerOutcome | client/internal/engine.go:1495-1527 | the outcome of adding one peer, success, error or panic, from the store, the entry and the environment |
| PeerOutcomes.AddOutcome | client/internal/engine.go:1484-1492 | the pass ends with the fault of the first entry that needs a connection and cannot get one, and on success adds exactly the listed keys |
| PeerOutcomes.AddFailure | client/internal/engine.go:1484-1492 | when the pass fails at an entry, exactly the entries before it have been added |
| PeerOutcomes.ModifyOutcome | client/internal/engine.go:716-761 | the same for the pass over changed peers |
| PeerOutcomes.FailedModifyLoses | client/internal/engine.go:716-761 | when the pass over changed peers fails, exactly those before the failing one are back, and the failing peer is gone |
| PeerOutcomes.BadPrefixDropsPeer | client/internal/engine.go:716-761 | for every engine: an entry that does not parse removes the peer stored under its key |
| PeerOutcomes.ReconcileOutcome | client/internal/engine.go:1307-1320 | the outcome of all passes is the first fault among changed peers, then among new ones |
| PeerOutcomes.ReconcileOkIff | client/internal/engine.go:1307-1320 | reconciling succeeds if and only if a connection can be made for every entry that needs one, repeated keys included |
| PeerOutcomes.ReconcileOkDistinct | client/internal/engine.go:1307-1320 | with distinct keys: if and only if every entry is buildable or stored unchanged |
| PeerOutcomes.ReconcilePanicsIff | client/internal/engine.go:1516 | exactly when the empty slice is indexed |
| PeerOutcomes.UpdateOutcome | client/internal/engine.go:1210-1343 | the outcome of a whole update from the state before it |
| PeerOutcomes.UpdateOkIff | client/internal/engine.go:1210-1343 | exactly when a whole update succeeds |
| PeerOutcomes.EmptyAddressListPanics | client/internal/engine.go:1516 | every engine that does not know the peer panics on an entry without addresses |
| PeerOutcomes.RepeatedKeyFlaps | client/internal/engine.go:716-761 | a map with a repeated key is accepted and replaces the connection when applied again |
| PeerOutcomes.ToExcludedLazyPeers | client/internal/engine.go:2234-2250 | the nested loops collect exactly the peers that list a rule's bare address |
| PeerOutcomes.NobodyExcluded | client/internal/engine.go:2234-2250 | after an accepted map with distinct keys the computed exclude list is empty |
| PeerEngine.ReconcileConverges | client/internal/engine.go:1290-1331 | on success the stored keys are those of the map, every stored peer is built from an entry of it, and unchanged peers keep their connection |
| PeerEngine.ReconcileDistinct | client/internal/engine.go:1290-1331 | with distinct keys every stored peer has its entry's version and address multiset, and a second application changes nothing |
| PeerEngine.ReapplyIff | client/internal/engine.go:716-761 | a second application changes nothing if and only if repeated keys agree |
| PeerEngine.ReplacedWhenStale | client/internal/engine.go:716-761 | a peer whose version or addresses differ never keeps its connection |
| PeerObjects.Engine.RemovePeers | client/internal/engine.go:765-781 | removes exactly the peers missing from the map |
| PeerObjects.Engine.RemoveAllPeers | client/internal/engine.go:783-792 | removes every stored peer |
| PeerObjects.Engine.RemovePeer | client/internal/engine.go:795-805 | removes and closes one peer |
| PeerObjects.Engine.ModifyPeers | client/internal/engine.go:716-761 | refines the specified pass and its outcome |
| PeerObjects.Engine.AddNewPeer | client/internal/engine.go:1495-1527 | refines the specified step and its outcome |
| PeerObjects.Engine.AddNewPeers | client/internal/engine.go:1484-1492 | refines the specified pass and its outcome |
| PeerObjects.Engine.UpdateNetworkMap | client/internal/engine.go:1210-1343 | refines the specified update: serial check, flag, groups, passes, exclude list, new serial |
| PeerObjects.Engine.HandleSync | client/internal/engine.go:849-934 | a sync on a stopped engine changes nothing, otherwise the map is applied |
| PeerObjects.Engine.OnSignal | client/internal/engine.go:1581-1646 | a signal wakes or idles a known peer only |
| PeerObjects.Engine.Stop | client/internal/engine.go:293-388 | closes the manager and removes all peers |
| PeerRuns.UpdateConverges | client/internal/engine.go:1210-1343 | an older serial changes nothing, a failure keeps the serial, and success leaves exactly the map's peers minus our own key (or none) |
| PeerRuns.UpdateIdempotent | client/internal/engine.go:1210-1343 | applying an accepted consistent map again changes nothing at all, lazy manager included |
| PeerRuns.UpdateIdempotentIff | client/internal/engine.go:1210-1343 | a second copy of an accepted map changes nothing if and only if the map empties the store or its repeated keys agree |
| PeerRuns.StepInv | client/internal/engine.go:849-934 | each input keeps the invariant, never lowers the serial, and does nothing on a stopped engine |
| PeerRuns.RunInv | client/internal/engine.go:849-934 | the invariant holds after every run of starts, syncs, signals and stops |
| PeerRuns.SerialMonotone | client/internal/engine.go:1219-1223 | the network serial never decreases along a run |
| PeerRuns.StoppedStaysEmpty | client/internal/engine.go:293-357 | once stopped the store is empty and no sync or signal changes anything until a start |
| PeerSync.UpdateSettles | client/internal/engine.go:1210-1343 | after an accepted map: whether a lazy manager is there, its groups, and exactly whom it excludes under which connection |
| PeerSync.FailedUpdateKeepsExcludes | client/internal/engine.go:1210-1343 | a map that fails has set flag and groups, but leaves the exclude list as it was |
| PeerSync.NewlyExcludedOpen | client/internal/engine.go:1333-1343 | a peer newly excluded by an accepted map is open |
| PeerSync.RejectedIff | client/internal/engine.go:849-934 | exactly which inputs are rejected, and that they change nothing |
| PeerSync.SignalEffect | client/internal/engine.go:1581-1646 | for every peer: what a signal or go-idle message from a stored peer does |
| PeerSync.StartStop | client/internal/engine.go:293-388 | what a start sets up, and that a stop leaves no peer, no manager and no open connection |
| PeerSync.RunLeaksNothing | client/internal/engine.go:849-934 | over every run of the engine each open connection is that of a stored peer |
| PeerAwake.RunAwake | client/internal/engine.go:849-934 | in every engine run whose accepted exclude lists name no stored peer, each stored peer is open or can be woken |
| PeerAwake.NoExclusionsAwake | client/internal/engine.go:849-934 | in every run without exclusions each stored peer is open or can be woken and no managed peer is missing from the store |
| PeerAwake.ComputedAwake | client/internal/engine.go:2234-2250 | the same in every run with the exclude lists that the engine computes and maps without repeated keys |
| PeerAwake.ComputedOpenIff | client/internal/engine.go:2234-2250 | in those runs a stored peer is open if and only if it is not idle |
| PeerAwake.RepeatedKeyExcluded | client/internal/engine.go:2234-2250 | a map that repeats a key is accepted and puts a stored peer on the computed list |
| PeerAwake.EngineStrands | client/internal/engine.go:1210-1343 | a run of the engine with its own computed lists that ends with a stranded peer, for every environment that parses the one prefix |
| PostureChecks.NormalizeChecks | client/internal/engine.go:2253-2271 | the loop over the checks yields the sorted list of joined sorted file lists |
| PostureChecks.IsChecksEqual | client/internal/engine.go:2253-2271 | compares the two normal forms |
| PostureChecks.SortDecides | client/internal/engine.go:2253-2271 | sorted lists are equal exactly when the multisets are |
| PostureChecks.FormDecides | client/internal/engine.go:2253-2271 | without bars in names, joined sorted lists are equal exactly when the file multisets are |
| PostureChecks.ChecksEqualIff | client/internal/engine.go:2253-2271 | without bars in names the comparison decides equality of multisets of file multisets, with the empty list identified with one empty name |
| PostureChecks.ChecksEqualNamed | client/internal/engine.go:2253-2271 | with non-empty names it decides multiset equality at both levels |
| PostureChecks.FormIffPieces | client/internal/engine.go:2253-2271 | for any names, joined sorted lists are equal exactly when the sorted names fall into the same pieces between bars |
| PostureChecks.ChecksEqualAlways | client/internal/engine.go:2253-2271 | for any names, the comparison decides equality of the multisets of piece lists |
| PostureChecks.BarsAndEmptyNamesCollide | client/internal/engine.go:2253-2271 | checks that differ and compare as equal when a hypothesis is dropped |
| DaemonModel.StepKeeps | client/server/server.go:127-269 | each step of an RPC or of the goroutine keeps the invariant |
| DaemonModel.RunSafe | client/server/server.go:640-736 | in every interleaving at most one client runs, the flag is set exactly while one has not reset it, and no channel is closed twice |
| DaemonModel.DownCancelsTheClient | client/server/server.go:822-888 | Down cancels the context of the running client, in every reachable state |
| DaemonModel.CancelledIff | client/server/server.go:640-888 | for every run and step: the context of the live client is cancelled by exactly an Up that finds it waiting for login, a Login, a Status or a round of its wait that asks for it, and a Down |
| DaemonModel.NothingCancelled | client/server/server.go:640-736 | any other step, in particular an Up that finds a client not needing login, cancels nothing |
| DaemonModel.ContextInstalled | client/server/server.go:127-269 | exactly which steps replace the context that Down and Login cancel, and that the new one is not cancelled |
| DaemonModel.LiveIff | client/server/server.go:127-269 | for every run and step, which goroutines are there afterwards and how they changed |
| DaemonModel.LaunchedFresh | client/server/server.go:717-725 | a client starts with a live context, open channels that a waiting Up looks at, and the given automatic connection |
| DaemonModel.ConnectClientIff | client/server/server.go:848-888 | which connect client is published after each step |
| DaemonModel.GiveUpIff | client/server/server.go:215-269 | after a client run has ended its give-up channel is closed if and only if automatic connection is on |
| DaemonModel.ManualClientLeavesChannelOpen | client/server/server.go:222-228 | a client without automatic connection that has ended with its give-up channel open |
| DaemonModel.UpLaunchesIff | client/server/server.go:640-736 | Up starts a client if and only if none is live and it reaches the launch |
| DaemonModel.UpGivesUpIff | client/server/server.go:640-756 | for every run, a waiting Up may be told a give-up at once if and only if a client with automatic connection is between the end of its loop and its reset |
| DaemonModel.RunningClosedIff | client/internal/connect.go:385-391 | the running channel of a live client is closed exactly when its engine has started at some point of the run |
| DaemonModel.UpSucceedsIff | client/server/server.go:640-756 | for every run, a waiting Up may be told success at once if and only if the engine of the live client has started |
| DaemonModel.StaleSuccessIff | client/server/server.go:739-756 | success while the client is being torn down is possible exactly when that client's engine had started |
| DaemonModel.DownThenUpIsStale | client/server/server.go:739-852 | after Up, engine start and Down another Up is told success with no connect client left, and after the end of the loop it may be told either |
| DaemonModel.DownThenUpGivesUp | client/server/server.go:739-852 | without an engine start only the give-up is possible |
| DaemonServer.Server.Start | client/server/server.go:127-210 | refines the Start step and keeps the protocol invariant |
| DaemonServer.Server.Up | client/server/server.go:640-736 | refines the Up step, keeps the invariant and says when the call goes on to wait |
| DaemonServer.Server.Login | client/server/server.go:407-420 | refines the cancelling part of Login and keeps the invariant |
| DaemonServer.Server.Down | client/server/server.go:822-888 | refines the Down step, says when it succeeds, and leaves every live client without its context |
| DaemonServer.Server.GoConnect | client/server/server.go:1640-1654 | refines the step that publishes a new connect client |
| DaemonServer.Server.GoEngineStarted | client/internal/connect.go:385-391 | refines the close of the running channel, which is shown to be open |
| DaemonServer.Server.GoFinish | client/server/server.go:215-269 | refines the end of the retry loop; its unconditional close is shown to hit an open channel |
| DaemonServer.Server.GoDeferredReset | client/server/server.go:215-227 | refines the deferred reset, after which no client is live |
| DaemonServer.Server.WaitForUp | client/server/server.go:739-756 | exactly which of the four answers the select can give without waiting longer, caller and deadline included |
| DaemonServer.Server.Status | client/server/server.go:1059-1077 | refines the first cancellation of Status, which needs a running client |
| DaemonServer.Server.StatusTick | client/server/server.go:1081-1099 | refines a round of the waiting Status, which may cancel whatever client has come since |
| DaemonServer.Server.RunSchedule | client/server/server.go:127-269 | any schedule of calls and goroutine actions keeps the invariant: no channel is closed twice, at most one client is live, the flag says whether one is |
| JwtCache.RunInv | client/server/jwt_cache.go:25-79 | the cache agrees with the latest store over every interleaving of stores, time and timer callbacks |
| JwtCache.GetIsLatest | client/server/jwt_cache.go:54-71 | get returns only the latest stored token and not after its expiry, and does return it before |
| JwtCache.GetIff | client/server/jwt_cache.go:54-71 | exactly what get returns: the latest token up to and including its expiry unless its timer has gone off, it is empty or cannot be unsealed |
| JwtCache.StaleCallbackIsHarmless | client/server/jwt_cache.go:41-50 | a late callback of a replaced timer changes neither the token nor what get returns |
| JwtCache.ExpiryWipes | client/server/jwt_cache.go:41-50 | the callback of the current timer erases a token that has expired |
| JwtCache.TokenCache.StoreToken | client/server/jwt_cache.go:25-52 | refines the store step |
| JwtCache.TokenCache.OnTimer | client/server/jwt_cache.go:41-50 | refines the callback step |
| JwtCache.TokenCache.GetToken | client/server/jwt_cache.go:54-71 | refines the read |
| JwtCache.TokenCache.CleanupLocked | client/server/jwt_cache.go:74-79 | erases enclave and expiry |
| Anonymizer.AnonymizeInv | client/anonymize/anonymize.go:46-70 | until a family's counter overflows each call keeps the pseudonyms of that family in bijection with the addresses handed out, whatever becomes of the other family |
| Anonymizer.RunInv | client/anonymize/anonymize.go:46-70 | the same over every run, along which the counter only advances |
| Anonymizer.ReachedInv | client/anonymize/anonymize.go:33-70 | the bijection holds in every state a new anonymizer reaches before that family is used up |
| Anonymizer.RunsOutIff | client/anonymize/anonymize.go:58-67 | a call uses a family up exactly when it assigns the last address |
| Anonymizer.IdempotentIff | client/anonymize/anonymize.go:46-96 | a result is mapped to itself by a later call, with any calls in between, if and only if it is exempt or its family has not been used up by then |
| Anonymizer.IdempotentAtOnceIff | client/anonymize/anonymize.go:46-96 | decided before the call: the next call maps the result to itself if and only if it is exempt, or the address passes through or is known, or its family has another address to give out |
| Anonymizer.LastAddressUnprotected | client/anonymize/anonymize.go:58-67 | the last address given out is replaced on the next call |
| Anonymizer.SecondCallAgreesIff | client/anonymize/anonymize.go:46-96 | a later call on the same address, with any calls in between and counters overflowing or not, agrees if and only if the address is exempt or is in the handed-out range at both calls or at neither |
| Anonymizer.SecondCallDiffers | client/anonymize/anonymize.go:28-70 | a second call that disagrees, from the default start |
| Anonymizer.CollisionIff | client/anonymize/anonymize.go:46-96 | two settled addresses share a result exactly when one passes through and is the pseudonym of the other |
| Anonymizer.PassesIff | client/anonymize/anonymize.go:89-96 | by numbers, an address passes through exactly when exempt or from the start up to and including the next pseudonym |
| Anonymizer.NextPseudonymCollides | client/anonymize/anonymize.go:46-96 | for every state that can assign, the next pseudonym and the next address to be replaced get the same result |
| Anonymizer.IpAnonymizer.AnonymizeIP | client/anonymize/anonymize.go:46-70 | refines the specified call for every state and address, used-up families included |
| Anonymizer.IpAnonymizer.IsInAnonymizedRange | client/anonymize/anonymize.go:89-96 | compares with the inclusive range of the address's family |
| Base62.Reverse | base62/base62.go:52-58 | the in-place swaps reverse the string |
| Base62.Encode | base62/base62.go:15-33 | yields the canonical text, of at most six digits |
| Base62.Decode | base62/base62.go:36-50 | fails exactly on a foreign character, else returns the wrapped sum |
| Base62.IndexInAlphabet | base62/base62.go:41-44 | scanning the alphabet finds each digit at its value and nothing else |
| Base62.TextValue | base62/base62.go:15-33 | the text of a number is canonical and denotes the number |
| Base62.NoWrapIff | base62/base62.go:36-50 | on at most six digits no product and no sum of the loop wraps if and only if the value fits into 32 bits |
| Base62.DecodeEncode | base62/base62.go:15-50 | decoding an encoded 32-bit number gives it back, with every product and every sum below 2^32 |
| Base62.EncodeDecodeIff | base62/base62.go:15-50 | encoding a decoded digit string gives it back if and only if it is canonical and fits into 32 bits, for every length and whatever oversized powers convert to |
| ServiceEnv.ParseServiceEnvVars | client/cmd/service.go:95-119 | the loop yields the specified map or error |
| ServiceEnv.ParseFailsIff | client/cmd/service.go:95-119 | parsing fails exactly on a non-empty string without separator or with only white space before its first one |
| ServiceEnv.TrimsToOne | client/cmd/service.go:108-109 | trimming yields the one text without outer white space that remains when only white space is cut off at the ends |
| ServiceEnv.EntryMeaning | client/cmd/service.go:98-115 | one string, decided on its characters: which key and value it sets, or that it is broken |
| ServiceEnv.ParsedIff | client/cmd/service.go:95-119 | for an accepted list of strings, a key has a value exactly when the last string that sets the key sets it to that value |
| ServiceEnv.LastOccurrenceWins | client/cmd/service.go:95-119 | a key has the value of its last occurrence |
| ServiceEnv.ParsedKeyIsSet | client/cmd/service.go:95-119 | every key of the result is set by some entry, the last one for it |
| ServiceEnv.ParsedWellFormed | client/cmd/service.go:95-119 | every accepted list yields trimmed non-empty keys without separator and trimmed values |
| ServiceEnv.EnvMapToSlice | client/cmd/service_params.go:212-218 | prints every entry once, in some order |
| ServiceEnv.ParsePrintIff | client/cmd/service_params.go:212-218 | parsing what was printed in any order gives the map back if and only if it is well formed |
| ServiceEnv.MergedEnvironment | client/cmd/service_params.go:159-191 | saved entries alone, none, or saved overridden by given ones, according to the flag |
| ServiceEnv.MergeIff | client/cmd/service_params.go:159-191 | for arbitrary saved entries the merge is faithful if and only if the saved entries that survive are well formed |
| ServiceEnv.ReinstallRestoresIff | client/cmd/service_params.go:109-191 | a reinstall without flags restores the saved parameters if and only if no empty level or address meets a default and the environment is printable |
| ServiceEnv.SaveThenReinstall | client/cmd/service_params.go:73-191 | parameters captured from one install come back on the next |
| ServiceEnv.Command.CurrentServiceParams | client/cmd/service_params.go:73-93 | captures all settings, dropping an unreadable environment |
| ServiceEnv.Command.ApplyServiceEnvParams | client/cmd/service_params.go:159-191 | realizes the specified plan for the entry list and touches nothing else |
| ServiceEnv.Command.ApplyServiceParams | client/cmd/service_params.go:109-152 | each setting that was not given takes the saved value, with the guards for empty ones |
| ReverseDns.ParseTextIff | client/internal/dns.go:16-20 | a text parses to an address exactly when it is that address's text |
| ReverseDns.PtrNamesDistinct | client/internal/dns.go:26-28 | names are equal exactly when the addresses are |
| ReverseDns.FqdnPlain | client/internal/dns.go:28 | without backslashes a dot is added exactly when the name does not end in one |
| ReverseDns.FqdnIdempotentIff | client/internal/dns.go:35 | adding the final dot twice is adding it once exactly when the name is absolute or ends in an even number of backslashes |
| ReverseDns.ContainsIff | client/internal/dns.go:22-24 | a network contains an address exactly when the two agree, as numbers, above the host bits |
| ReverseDns.GenerateReverseZoneName | client/internal/dns.go:40-61 | the filling loop yields the reversed masked octets, rounded up to bytes; IPv6 networks are refused |
| ReverseDns.UnderZoneIff | client/internal/dns.go:40-61 | a PTR name lies label-wise under the zone exactly when the address starts with the masked octets used |
| ReverseDns.ZoneCoversIff | client/internal/dns.go:40-61 | all addresses of the network lie under its zone if and only if the length is 8, 16, 24 or 32 |
| ReverseDns.CollectPTRRecords | client/internal/dns.go:75-94 | the nested loops yield the specified list |
| ReverseDns.CollectedMembers | client/internal/dns.go:75-94 | collected records are exactly those of A records of authoritative zones with an address in the network |
| ReverseDns.CollectedIff | client/internal/dns.go:16-94 | the collected records are exactly the answers for A records of authoritative zones with an address in the network: named by the reversed octets, pointing to the absolute name, with the class and lifetime of the A record |
| ReverseDns.CollectedInZoneOrder | client/internal/dns.go:75-94 | records follow the order of the zones |
| ReverseDns.CollectedInRecordOrder | client/internal/dns.go:75-94 | within a zone they follow its records, one for each that qualifies |
| ReverseDns.Config.HasZone | client/internal/dns.go:64-72 | finds a zone exactly when one has that name |
| ReverseDns.Config.AddReverseZone | client/internal/dns.go:97-119 | refines the specified addition |
| ReverseDns.AddedZone | client/internal/dns.go:97-119 | nothing changes for IPv6 or an existing name, else one authoritative zone outside searches is appended, named by the reversed masked octets, with the collected records |
| ReverseDns.AddReverseIdempotent | client/internal/dns.go:97-119 | adding a network twice is adding it once |
| ReverseDns.ReverseZonesAreInert | client/internal/dns.go:75-119 | an added zone never contributes records to another |
| ReverseDns.NetworksCommute | client/internal/dns.go:97-119 | networks with different zone names give the same zones in either order |
| ReverseDns.RecordsInZone | client/internal/dns.go:75-119 | for byte-aligned networks every record lies under its zone's name |
| LastAddress.GetLastIPFromNetwork | client/net/net.go:45-69 | the byte loop and the big-integer steps yield the specified result for every distance |
| LastAddress.OrLowOnes | client/net/net.go:50-52 | or-ing with the complement of a mask byte sets the low bits |
| LastAddress.EndValue | client/net/net.go:50-56 | the byte-wise end of the network is the address with all host bits set, as a number |
| LastAddress.LastIpExact | client/net/net.go:54-69 | for every distance, an address comes back exactly when the wanted number without its sign fills 4 or 16 bytes, and has that value |
| LastAddress.LastIpIff | client/net/net.go:45-69 | for distances inside the network, IPv4 and IPv6, the result is in the network and at that distance if and only if its first byte is not zero |
| LastAddress.LastIpV4Fails | client/net/net.go:61-66 | for IPv4 the remaining cases are errors, not wrong addresses |
| LastAddress.ZeroNetworkFails | client/net/net.go:61-66 | in 0.0.0.0/8 and every longer prefix of zeros no address is found |

## Left out

- ProxyTheorems.NoOrphanRoutes: requires mappings whose domain fits their mode and repeated CREATED updates that keep the footprint; ProxyExact.RemovalOrphansIff and ProxyExact.RecreateIff say exactly when these fail.
- ProxyTheorems.RunSound: has the hypotheses of ProxyTheorems.NoOrphanRoutes.
- ProxyTheorems.ApplySound: has the hypotheses of ProxyTheorems.NoOrphanRoutes, for one update.
- ProxySetup.SetupEffect: excludes TCP mappings with a domain and TLS mappings without one, whose effect ProxyExact.RemovalOrphansIff and ProxyTidy.EmptyRouterIff cover.
- ProxyTheorems.InstallExactIff: has the hypotheses of ProxyTheorems.NoOrphanRoutes, for one install; a mapping that violates them already breaks ownership, as ProxyExact.RemovalOrphansIff and ProxyExact.RecreateIff say.
- ProxyTheorems.ApplyExactIff: has the hypotheses of ProxyTheorems.NoOrphanRoutes, for one update.
- ProxyTheorems.AlwaysExactIff: has the hypotheses of ProxyTheorems.NoOrphanRoutes.
- ProxyExact.RunNamed: has the hypotheses of ProxyTheorems.NoOrphanRoutes.
- ProxyHolders.RunHolds: has the hypotheses of ProxyTheorems.NoOrphanRoutes.
- ProxyHolders.HoldersDetermine: has the hypotheses of ProxyTheorems.NoOrphanRoutes.
- ProxyHolders.DestinationAlways: has the hypotheses of ProxyTheorems.NoOrphanRoutes.
- ProxyContents.ConnectionsServed: has the hypotheses of ProxyTheorems.NoOrphanRoutes.
- ProxyContents.RelaysServed: has the hypotheses of ProxyTheorems.NoOrphanRoutes.
- ProxyContents.TlsPlaced: is stated for mappings with a domain; ProxyTidy.EmptyRouterIff covers those without.
- ProxyContents.HttpPlaced: is stated for mappings with a domain and a target; without either nothing is routed, as ProxySetup.SetupEffect says.
- ProxyTheorems.RunExact: requires that no update takes over a catch-all port; ProxyTheorems.AlwaysExactIff is the equivalence.
- ProxyExact.OrderIndependent: requires the same, because with a shared port the order decides who has the catch-all; ProxyHolders.HoldersDetermine is what holds with shared ports.
- ProxyExact.DispatchExact: requires the same; ProxyHolders.DestinationAlways is what holds without it.
- ProxyExact.DispatchAlways: leaves open who has a shared catch-all and what happens without a route; ProxyHolders.DestinationAlways says both.
- ProxyServer.Router.AcquireRelay: the connection limit is an input; the count of connections behind it is not modelled.
- ProxyServer.Server.ParseRestrictions: models the CrowdSec registration, not the filter that is returned.
- ProxyServer.Server.SetupHTTPMapping: does not model the certificate, authentication and reverse-proxy tables, which are keyed by host.
- ProxyServer.Server.SetupTCPMapping: routes carry no filter, time limits or proxy-protocol flag.
- ProxyServer.Server.SetupTLSMapping: routes carry no filter, time limits or proxy-protocol flag.
- ProxyServer.Server.SetupUDPMapping: relays carry no filter, time limits or session limits.
- ProxyServer.Server.CleanupMappingRoutes: does not model the host-keyed tables and hijacked connections.
- PeerStatus.OpenIffNotIdle: requires that the exclude list only changes while every excluded peer is stored; PeerStatus.AddTightIff and PeerLazy.AddStrandsIff say exactly when it fails otherwise.
- PeerOutcomes.NobodyExcluded: requires distinct keys; PeerAwake.RepeatedKeyExcluded shows an accepted map with a repeated key whose computed list is not empty.
- PeerEngine.AddNewPeerEffect: says what a success does; PeerOutcomes.AddNewPeerOutcome says when it succeeds.
- PeerEngine.AddNewPeersEffect: says what a success does; PeerOutcomes.AddOutcome says when it succeeds.
- PostureChecks.ChecksEqualIff: is stated for file names without bars; PostureChecks.ChecksEqualAlways covers all names.
- Anonymizer.AnonymizeInv: holds until the family is used up; Anonymizer.RunsOutIff and Anonymizer.IdempotentIff say when that is and what it breaks.
- Anonymizer.RunInv: has the same hypothesis.
- Anonymizer.ReachedInv: has the same hypothesis.
- ServiceEnv.ParseServiceEnvVars: works on characters, so byte sequences that are not valid UTF-8 are not covered.
- Base62.Decode: takes the value of powers beyond 32 bits as a parameter, because converting an oversized float to an integer depends on the platform.
- ReverseDns.ParseTextIff: reads IPv4 text only; IPv6 text never matches an IPv4 network and yields no record either way.
- DaemonServer.Server.WaitForUp: reads the channels at one moment, while the code reads the fields without the lock.
- DaemonServer.Server.Status: is one step up to the wait; the rounds of the wait are steps of their own, DaemonServer.Server.StatusTick, and the status report is not modelled.
- RouterTable: hosts are lower-cased on ASCII letters only, which is what domain names consist of on the wire.
- In the proxy: TLS and ACME, health and debug servers, metrics, geolocation, access logs, relaying of bytes and graceful shutdown.
- In the peer engine: WireGuard, ICE, firewall, routes, the DNS server, Rosenpass key exchange and SSH; the exclude list of an update is an arbitrary input.
- The lazy manager is modelled on values inside the connection manager object, not as an object of its own; its timers and listeners are steps.
- The persisted sync response.
- Daemon and cache steps are atomic, as the mutex makes them; finer interleavings inside one critical section do not occur in the model.
- Anonymizing of domains, URIs and whole strings, which relies on regular expressions and randomness; which well-known addresses are exempt is a parameter, and IPv6 zones are not modelled.
- Reading and writing the saved parameter file; its contents are an input.
- High availability of the signal and management services, command-line and graphical front ends, mobile bindings, platform code.
