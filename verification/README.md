# Verified models of frp's stateful kernels

frp lets a machine behind a NAT publish services through a server. This project models the parts of frp whose
guarantees run across many operations, and proves those guarantees for every input and every run:

- **Virtual hosts.** The server routes an HTTP request by host, user and path. The index keeps, for every domain
  and user, a bucket of routes in descending order, so that the first prefix hit is the longest one; above it come
  wildcard domains, load-balancing groups that share one route, and proxies that register all their routes or none
  (`text.dfy`, `router.dfy`, `vhost.dfy`, `http_group.dfy`, `http_proxy.dfy`, `http_runs.dfy`).
- **Ports and bookkeeping.** The port allocator with reservations shared between two tables, TCP groups that hold
  one port together, TCP proxies, and the sessions that register and close proxies under a quota and a name
  registry common to all sessions (`ports.dfy`, `tcp_group.dfy`, `tcp_proxy.dfy`, `server_ledger.dfy`,
  `server_runs.dfy`, `server_ports.dfy`, `server_accidents.dfy`, `control.dfy`).
- **Starting proxies.** The client's phase machine and reload, and the protocol between any number of clients and
  one server over FIFO links; and the pool of work connections (`client_wrapper.dfy`, `client_manager.dfy`,
  `start_protocol.dfy`, `work_conn.dfy`).
- **NAT holes.** Classifying the two NATs, the scores that choose a strategy, and the instructions for both sides
  (`analysis.dfy`, `public_network.dfy`, `nathole.dfy`).
- **Day counter.** A shifted array that refines a map from days to sums (`date_counter.dfy`).

## How the models are built

What the source updates in place is a class here with the same fields. Its methods are proved against functions or
relations on values (`Enter`, `Acquires`, `Closed`, `Turn`, `Recommended`, and so on), and the theorems are
lemmas about these: what every step keeps, and what therefore holds in every run. Where the source locks, the model
has one atomic step; the sections of different sessions and proxies interleave freely (`server_runs.dfy`,
`start_protocol.dfy`, `http_runs.dfy`). `server_ports.dfy` runs the sessions and the allocator together.
Acquiring a port, opening its socket, closing the socket and releasing the port are four steps, because no lock spans
them. `control.dfy`, `work_conn.dfy` and the lemmas `AcquireIsStart`, `OpenedIsOpen`, `ListenIsRun`,
`ReleaseIsRelease` and `CloseListenerIsClose` connect the objects with the steps of those runs.

What comes from outside is a parameter of the operation that needs it: the clock, whether the operating system lets a
port be bound, whether a socket opens, whether a proxy's `Run` succeeds, the answers of `GetWorkConn`, the text form of
addresses (`net.SplitHostPort`, `strconv.Atoi`) and the order of a map iteration. A Go error is a `Result` or an
`Option`. Strings are compared unit by unit, as Go compares bytes.

## What turned out false or conditional

Each of these comes with the exact condition and with an input or a run that shows the failure.

- *A running proxy is held by the server.* Not when a health failure or a reload with changed settings takes back this
  very proxy while its start is still under way: an acceptance that is already on its way is then acted on after the
  close. `ReloadWhileStarting` gives such a run, and `ProvisoIsExact` says exactly when an interrupt does harm. For a
  proxy without a health check that is not reloaded the guarantee holds in every run (`RunningIsHeldUninterrupted`).
- *TCP ports are conserved.* `EveryRunAccountsForPorts` shows that they are if and only if none of three accidents
  happens. The first listener of a group keeps the port it acquired when its socket cannot be opened
  (server/group/tcp.go:99-107; `GroupLeaksPort`). A proxy that asks for any port gets the one of its reservation although
  it is in use: with an honest operating system, exactly while the owner has no socket on it (`HonestlyTakenTwice`),
  that is between acquiring and opening (server/proxy/tcp.go:66-76), between closing and releasing
  (server/proxy/tcp.go:94-99), or for a group that asked for port 0. The one that comes second cannot open the port and
  releases it under the first one's feet (`PortFreedWhileInUse`). And a failing acquisition can mark port 0.
- *An open reservation belongs to a port in use.* It does after a step exactly when the step does not take the port
  away from another name (`LinkedUnlessDisplaced`, `LinkedThroughout`). The branch for reserved ports does not look at
  the used ones (server/ports/ports.go:80-91), so it takes no more than a used port without a socket
  (`PortGrantedTwice`).
- *A failing `Acquire` changes nothing.* If port 0 is allowed, the random search can mark it as used and still
  report an error (server/ports/ports.go:93-112): exactly when `FailureCanChange` says, for example in
  `FailureThatChanges`.
- *A group deals its members in turn.* `RoundRobin` says exactly for which windows of the counter, on machines with
  32-bit and with 64-bit `int`s: once the counter does not fit into an `int`, the remainder is negative and the index
  mostly out of range (`LateDraws`, `FirstUnfairWindow`).
- *`GetWorkConnFromPool` returns a usable connection or an error.* When every write fails, the inner `err` shadows the
  outer one and a closed connection is returned as a success (server/proxy/proxy.go:118-168). The contract of
  `GetWorkConnFromPool` says that it happens then and only then; `ClosedConnectionIsReturned` is an input.
- *The first address is the base of the classification.* Leading addresses with an empty host are passed over, because
  an empty base means that none was seen yet (pkg/nathole/classify.go:66-72). `TrimKeepsHosts` and `EasyMeansAgree`
  say exactly when that makes a difference, `EmptyHostIsPassedOver` gives an example.
- *"mode 0, both EasyNAT, PublicNetwork is always receiver"* (comment at pkg/nathole/analysis.go:25). In the code this
  is a head start of one point for some entries, and none at all between two hard NATs. `PublicSidesReceiveFor` says
  for exactly how many recommendations every public side receives: with two easy NATs five or six, and none if both
  sides are public; with other NATs between none and eleven, or for ever. `FirstRecommendation` is the condition for
  the first one, `PublicSidesAlwaysReceive` the one for all histories, and `PublicSideSends` has inputs in mode 0.

## Model

| member | source | states |
|---|---|---|
| Text.PrefixesOrderByLength | pkg/util/vhost/router.go:139-141 | among the prefixes of one path, the sort order of the buckets is order by length |
| Text.JoinSplit | pkg/util/vhost/http.go:213-229 | joining the labels of a host gives the host back |
| Text.SplitJoin | pkg/util/vhost/http.go:213-229 | splitting a joined list of dot-free labels gives the labels back |
| Text.WildcardsExact | pkg/util/vhost/http.go:213-229 | the wildcard domains tried for a host are exactly a star followed by a suffix of the host that starts with a dot and has another one (at least three labels with the star) |
| Text.WildcardsGetShorter | pkg/util/vhost/http.go:213-229 | the wildcard domains are tried from the most to the least specific |
| Text.WildcardsOfLabels | pkg/util/vhost/http.go:213-229 | one turn of the label loop yields the next wildcard domain, and three labels are the fewest it works on |
| Routing.LongestIsLongest | pkg/util/vhost/router.go:88-108 | the reference lookup on the simple map finds the longest registered location that is a prefix of the path, or there is none |
| Routing.FirstHitIsLongest | pkg/util/vhost/router.go:88-108 | in a descending bucket the first location that is a prefix of the path is the longest |
| Routing.TableIsUnique | pkg/util/vhost/router.go:16-33 | an index stands for at most one map from (domain, user, location) to payload |
| Routing.SortByLocation | pkg/util/vhost/router.go:57-62 | a rearrangement of the bucket in strictly descending order |
| Routing.PutRepresents | pkg/util/vhost/router.go:35-86 | replacing one bucket changes the represented map for that domain and user only |
| Routing.Routers.Add | pkg/util/vhost/router.go:35-64 | fails, changing nothing, exactly when the key is present; otherwise adds exactly this entry to the map; buckets stay descending |
| Routing.Routers.Del | pkg/util/vhost/router.go:66-86 | removes exactly the entry with this key |
| Routing.Routers.Get | pkg/util/vhost/router.go:88-108 | the longest registered prefix of the path for this host and user, whatever the order of earlier calls |
| Routing.Routers.Exist | pkg/util/vhost/router.go:110-126 | finds a route exactly when the key is in the map, with the payload stored there |
| Routing.Routers.AddThenDel | pkg/util/vhost/router.go:35-86 | adding a new route and deleting it restores the map |
| VirtualHosts.ResolveExact | pkg/util/vhost/http.go:192-237 | resolution answers with a route exactly when it is the first hit in the order exact host, wildcards by decreasing length, star, the user's own route before the userless one; and its location is the longest prefix |
| VirtualHosts.ResolveNone | pkg/util/vhost/http.go:192-237 | resolution finds nothing exactly when no candidate domain has a matching route for the user or for no user |
| VirtualHosts.FoundWhenMatching | pkg/util/vhost/http.go:192-237 | in terms of registered keys alone: something is found exactly when a key matches on the host, on a wildcard that covers it, or on the star |
| VirtualHosts.UserBeforeUserless | pkg/util/vhost/http.go:193-207 | on the answering domain a matching route of the requesting user beats every route for no particular user |
| VirtualHosts.HostBeforeWildcards | pkg/util/vhost/http.go:206-229 | a matching key on the host itself beats every wildcard and the star |
| VirtualHosts.LongerWildcardsFirst | pkg/util/vhost/http.go:213-229 | a matching key on a covering wildcard beats every shorter wildcard and the star |
| VirtualHosts.StarIsLast | pkg/util/vhost/http.go:231-236 | the star answers only when nothing else matches |
| VirtualHosts.AddOnlyAttractsToItself | pkg/util/vhost/http.go:130-137 | a new registration never redirects a request to another route and never makes it fail |
| VirtualHosts.DelKeepsOtherRequests | pkg/util/vhost/http.go:139-141 | deleting a route does not change where requests to other routes go |
| VirtualHosts.Find | pkg/util/vhost/http.go:193-207 | the user's own longest route, or else the userless one |
| VirtualHosts.GetVhost | pkg/util/vhost/http.go:192-237 | the label loop terminates and computes the reference resolution |
| VirtualHosts.GetListener | pkg/util/vhost/vhost.go:137-179 | the second implementation of the loop yields the payload of the same route on the same table |
| HttpGroups.RemoveFirstElements | server/group/http.go:126-142 | cutting a name out of the dealing list removes it and keeps the list free of duplicates |
| HttpGroups.RemoveFirstCuts | server/group/http.go:126-142 | cutting a name out leaves the others in their order |
| HttpGroups.EnterAnswers | server/group/http.go:84-124 | when joining succeeds and when each error comes, in terms of the group's data and the routes |
| HttpGroups.EnterChanges | server/group/http.go:84-124 | what joining changes: the member, and for the first one the group's data and its route |
| HttpGroups.EnterConsistent | server/group/http.go:84-124 | after joining, the dealing list has no duplicates and names exactly the registered functions |
| HttpGroups.RegisterCoherent | server/group/http.go:30-44 | registering, whether it succeeds or fails, keeps: the shared route is in the router exactly while the group has members |
| HttpGroups.UnRegisterCoherent | server/group/http.go:46-59 | unregistering a member keeps the same invariant; the last one takes the route along |
| HttpGroups.RoundRobin | server/group/http.go:144-186 | with n members fixed, n consecutive draws hit every member exactly once if and only if n is at most 1, or the counter stays within the machine's `int`, or just reaches its end and n divides that |
| HttpGroups.DrawIs | server/group/http.go:167-186 | while the counter fits, the member at the counter modulo the group size is dealt |
| HttpGroups.DrawIgnoresWrap | server/group/http.go:167-186 | the wrap of the 64-bit counter makes no difference to a draw |
| HttpGroups.LateDraws | server/group/http.go:167-186 | a draw is out of range exactly when the counter does not fit into an `int` and the group size does not divide its absolute value |
| HttpGroups.FirstUnfairWindow | server/group/http.go:167-186 | the last fair and the first unfair window of two members with 64 bits |
| HttpGroups.HTTPGroup.Register | server/group/http.go:84-124 | first member, conflict, disagreeing parameters, wrong key, repeated name: exact new state and error of each |
| HttpGroups.HTTPGroup.UnRegister | server/group/http.go:126-142 | the member is gone from both structures; the route goes with the last one |
| HttpGroups.HTTPGroup.ChooseEndpoint | server/group/http.go:167-186 | deals the member at the next counter value |
| HttpGroups.HTTPGroup.CreateConn | server/group/http.go:144-165 | deals with the same counter and calls that member's function |
| HttpGroups.HTTPGroup.CreateConnByEndpoint | server/group/http.go:188-198 | finds a function exactly for the names in the dealing list |
| HttpGroups.HTTPGroupController.Register | server/group/http.go:30-44 | over all group objects and the shared router: the value-level registration, and nothing else changes |
| HttpGroups.HTTPGroupController.UnRegister | server/group/http.go:46-59 | over all group objects and the shared router: the value-level removal; an empty group is forgotten |
| HttpProxies.UndoDirect | server/proxy/http.go:201-206 | running the close functions of direct routes removes exactly the routes they claim |
| HttpProxies.TargetsExact | server/proxy/http.go:55-149 | what a proxy registers, by its settings: exactly every non-empty custom domain and the sub-domain, with every location or the empty one, for its user |
| HttpProxies.RunUngrouped | server/proxy/http.go:55-149 | without a group, after any number of registrations: nothing changed, or exactly one own route per claim was added |
| HttpProxies.SecondJoinFails | server/group/http.go:84-124 | a proxy cannot join the same group twice |
| HttpProxies.JoinThenLeave | server/group/http.go:84-142 | joining and leaving restores routes and groups, up to empty groups |
| HttpProxies.RunGrouped | server/proxy/http.go:55-149 | with a group: a failure without trace, or exactly one join |
| HttpProxies.RunIsAtomic | server/proxy/http.go:55-149 | a run that nobody interrupts is all or nothing, and closing after a success restores the state before |
| HttpRuns.StepTouchesOnlyItsOwn | server/proxy/http.go:55-149 | every single registration and removal of a proxy, between those of any others, touches no route and no membership of another proxy |
| HttpRuns.EveryRunIsAccounted | server/proxy/http.go:55-206 | however the registrations and removals of any number of proxies interleave, each route and membership belongs to exactly one live proxy |
| HttpRuns.UpServesItsSettings | server/proxy/http.go:55-149 | at every moment of every such run, a proxy that is up has for every domain and location of its settings its own route, or its group's route and its place in the group |
| HttpRuns.OthersHaveNothing | server/proxy/http.go:55-206 | one that failed, closed or never started has no route and no membership |
| HttpRuns.NothingLeaks | server/proxy/http.go:201-206 | when no proxy is live any more, no route is left |
| HttpRuns.CloseIsSteps | server/proxy/http.go:201-206 | closing without interruption is that sequence of removals |
| HttpRuns.ClosingIsSteps | server/proxy/http.go:201-206 | closing a proxy that is up is the sequence of removals, and then it is gone |
| HttpRuns.RunIsSteps | server/proxy/http.go:55-149 | the run of the proxy object is that sequence of registrations, and removals after an error |
| HttpProxies.HTTPProxy.AddRoute | pkg/util/vhost/http.go:130-137 | adds a direct route or reports the conflict |
| HttpProxies.HTTPProxy.DelRoute | pkg/util/vhost/http.go:139-141 | removes the route with this key |
| HttpProxies.HTTPProxy.Run | server/proxy/http.go:55-149 | the nested loops with deferred clean-up compute the value-level run over the live router and group objects |
| HttpProxies.HTTPProxy.Close | server/proxy/http.go:201-206 | runs the close functions in order |
| Ports.StepKeepsPartition | server/ports/ports.go:63-180 | each operation keeps used and free ports disjoint with the allowed set as their union |
| Ports.PortsAreConserved | server/ports/ports.go:42-180 | so does every run, whatever the operating system answers |
| Ports.LinkedUnlessDisplaced | server/ports/ports.go:80-91 | open reservations stay linked to ports in use by the same name exactly when the step displaces nobody |
| Ports.LinkedThroughout | server/ports/ports.go:63-180 | over a whole run they stay linked exactly when no step displaces another name |
| Ports.ReservationsStayLinked | server/ports/ports.go:63-180 | if the operating system refuses used ports, they stay linked in every run |
| Ports.CleaningSparesUsedPorts | server/ports/ports.go:157-180 | in every run of a new manager, whatever the system answers, cleaning spares the reservation that a name has for a port it is using |
| Ports.ReservationLastsADay | server/ports/ports.go:157-180 | over whole runs: after its port was released, a name's reservation survives every cleaning of the next 24 hours |
| Ports.ReservationExpires | server/ports/ports.go:169-180 | and the first cleaning after that drops it |
| Ports.PortAffinity | server/ports/ports.go:80-91 | over whole runs: until it is given another port or its reservation is cleaned, a name that asks for any port gets its last port whenever that one is available |
| Ports.UsedPortKeepsItsReservation | server/ports/ports.go:157-180 | until it is released or given to another name, a port stays with its name and its reservation survives every cleaning |
| Ports.AcquireTakes | server/ports/ports.go:63-133 | a success takes an allowed port, one in use exactly when the name's reservation is for it and the system grants it; a failure takes nothing, or port 0 |
| Ports.GrantedOnlyIfAvailable | server/ports/ports.go:80-126 | no port is granted that the operating system refuses |
| Ports.SpecifiedPort | server/ports/ports.go:113-131 | a port asked for by number: when it is granted and when each error comes, in terms of free and used ports and the operating system |
| Ports.SuccessRecords | server/ports/ports.go:63-92 | what a success records in all three tables |
| Ports.AnyPortIsFound | server/ports/ports.go:93-112 | asking for any port succeeds if fewer than five, and not all, of the free ports are refused |
| Ports.FailureCanChange | server/ports/ports.go:93-112 | a failing acquisition can change something if and only if the random search runs and can come to port 0 |
| Ports.FailureThatChanges | server/ports/ports.go:93-112 | a concrete failing acquisition that marks port 0 |
| Ports.PortGrantedTwice | server/ports/ports.go:80-91 | a run from a fresh allocator in which a used port is granted to another name and an open reservation loses its port |
| Ports.Manager.OpenReservationIsInUse | server/ports/ports.go:25-61 | an open reservation is the very object in the table of used ports |
| Ports.Manager.constructor | server/ports/ports.go:42-61 | the allowed ports, or 1 to 65535, are free, and nothing is used or reserved |
| Ports.Manager.Acquire | server/ports/ports.go:63-133 | reserved, random and specified ports with all errors, and the shared context in both tables |
| Ports.Manager.Search | server/ports/ports.go:93-112 | finds an available free port, or as many as it may try were refused |
| Ports.Manager.Release | server/ports/ports.go:157-166 | the port becomes free and exactly the reservation that shares its context is closed |
| Ports.Manager.CleanReservedPorts | server/ports/ports.go:169-180 | one cleaning round removes exactly the expired reservations |
| TcpGroups.RemoveElements | server/group/tcp.go:163-172 | cutting a listener out removes it alone |
| TcpGroups.RemoveCuts | server/group/tcp.go:163-172 | and leaves the others in their order |
| TcpGroups.JoinAnswers | server/group/tcp.go:121-137 | when a later listener is accepted and when each error comes |
| TcpGroups.ListenAnswers | server/group/tcp.go:94-140 | when listening succeeds, on which port, and what the group is then |
| TcpGroups.ListenThenClose | server/group/tcp.go:94-178 | listening through a group and closing again restores the groups, and the ports exactly when a newly acquired port was not in use; a group without other listeners is gone |
| TcpGroups.TCPGroup.Listen | server/group/tcp.go:94-140 | the first listener acquires the port, later ones must agree; exact state and error of every path |
| TcpGroups.TCPGroupCtl.Listen | server/group/tcp.go:46-58 | changes the named group and the ports and nothing else |
| TcpGroups.TCPGroupCtl.CloseListener | server/group/tcp.go:163-178 | removes one listener; with the last one the port is released and the group forgotten |
| TcpProxies.RunThenClose | server/proxy/tcp.go:49-99 | what a run without a group and a close, or a failed run, leave of the ports: everything as before exactly when the port was not in use and no error marked port 0 |
| TcpProxies.TCPProxy.Run | server/proxy/tcp.go:49-88 | both branches against the live allocator and group objects, with the deferred release, and the port that is remembered |
| TcpProxies.TCPProxy.Close | server/proxy/tcp.go:94-99 | releases the proxy's own port, or leaves the group |
| ServerLedgers.HolderGainsPort | server/proxy/tcp.go:66-76 | giving a holder a port keeps "used ports are the disjoint union of the holders' ports" exactly when the port was unused |
| ServerLedgers.HolderLosesPort | server/proxy/tcp.go:94-99 | a holder that gives up its port, which is released, keeps it |
| ServerLedgers.HolderHandsOver | server/group/tcp.go:94-140 | passing a port from the first listener to its group, or from a group to its last one, keeps it |
| ServerLedgers.StartIsSound | server/proxy/tcp.go:49-76 | acquiring a port or joining a group keeps members, places, sockets and group locks consistent |
| ServerLedgers.OpenIsSound | server/proxy/tcp.go:76-83 | so does opening the socket, or failing to |
| ServerLedgers.CloseIsSound | server/group/tcp.go:163-178 | so does closing the socket or leaving the group |
| ServerLedgers.StartConservesPorts | server/proxy/tcp.go:49-76 | acquiring conserves the ports if and only if the granted port was not in use and no port was marked for nobody |
| ServerLedgers.OpenConservesPorts | server/group/tcp.go:99-107 | opening conserves the ports if and only if it succeeds or the proxy has no group |
| ServerLedgers.CloseConservesPorts | server/group/tcp.go:163-178 | closing a socket or leaving a group conserves the ports |
| ServerLedgers.ReleaseConservesPorts | server/proxy/tcp.go:94-99 | releasing conserves the ports |
| ServerLedgers.HonestGrantIsBenign | server/ports/ports.go:135-155 | a port without a socket of the server is in use exactly when its owner is opening or closing it, or is a group that asked for port 0 |
| ServerLedgers.AcquireIsStart | server/proxy/tcp.go:66-70 | acquiring from the allocator is the first section of a run in the ledger |
| ServerLedgers.OpenedIsOpen | server/proxy/tcp.go:71-82 | opening the socket is the second section |
| ServerLedgers.ListenIsRun | server/group/tcp.go:94-140 | listening through a group is both sections |
| ServerLedgers.ReleaseIsRelease | server/proxy/tcp.go:94-99 | releasing a port in the allocator is the last section of closing |
| ServerLedgers.CloseListenerIsClose | server/group/tcp.go:163-178 | closing a group's listener is both sections of closing |
| ServerRuns.StepGood | server/control.go:610-688 | every locked section keeps: a proxy holds something, and owns its name, exactly while its session says so |
| ServerRuns.NextSectionApplies | server/control.go:610-688 | no section is stuck: what a session is working on is held as its next section needs it |
| ServerRuns.StepConservesPorts | server/control.go:635-670 | one section of one session conserves the TCP ports exactly when it is benign |
| ServerRuns.EveryRunConservesPorts | server/control.go:610-688 | from an empty server, however the sections of any number of sessions interleave, the ports are conserved at every moment if and only if every section is benign |
| ServerPorts.NextMatches | server/ports/ports.go:63-166 | in every step of server and allocator together, the allocator's used ports are those of the ledger, and with the free ones a partition of the allowed |
| ServerPorts.EveryRunAccountsForPorts | server/control.go:610-688 | from a new server, whatever the system answers, the allocator's `usedPorts` are at every moment the disjoint union of the ports of proxies and groups if and only if none of three accidents happens, the first one given by the guard of the reserved-port branch |
| ServerPorts.HonestlyTakenTwice | server/ports/ports.go:80-91 | with an honest operating system that guard holds for a port in use exactly when its owner is opening or closing it, or is a group that asked for port 0 |
| ServerAccidents.GroupLeaksPort | server/group/tcp.go:99-107 | a run from a new server in which a port stays in use and nobody has it |
| ServerAccidents.PortFreedWhileInUse | server/proxy/tcp.go:66-76 | a run from a new server, with an honest operating system and every grant an answer of the allocator, in which a port counts as free while a proxy listens on it |
| ServerRuns.RegistryIsShared | server/proxy/proxy.go:318-340 | in every run from an empty server, between operations, a session's proxies are exactly its share of the name registry, and exactly these hold something |
| ServerRuns.OneOwnerPerName | server/proxy/proxy.go:318-327 | at every moment of every run from an empty server a name is published by at most one session |
| ServerRuns.SumWithout | server/control.go:610-629 | the port sum of a set of proxies without one of them |
| ServerRuns.StepKeepsQuota | server/control.go:610-670 | every section keeps: the count is the sum over the session's proxies plus the registration at work, within the limit |
| ServerRuns.EveryRunKeepsQuota | server/control.go:610-670 | so does every run from an empty server, through duplicate names, failed runs, lost races for a name and closing |
| Controls.RegisterUntilRun | server/control.go:610-638 | quota, name check and run, as sections of a run, leave the session as `RegisterProxy` does |
| Controls.RegisterAfterRun | server/control.go:639-654 | adding the name and publishing, or closing the proxy of a lost race, as sections of a run |
| Controls.CloseAndUnregister | server/control.go:656-670 | the sections of closing leave session and registry as `CloseProxy` does |
| Controls.LastAddedStays | server/control.go:43-63 | the session added last for a run id is the registered one until it deletes itself, so a replaced session's late clean-up does no harm |
| Controls.ProxyManager.Add | server/proxy/proxy.go:318-327 | fails exactly when the name is taken, and never overwrites |
| Controls.Control.ReservePorts | server/control.go:610-619 | counts the ports, or refuses beyond the limit without a change |
| Controls.Control.RegisterProxy | server/control.go:557-654 | each error in its order, with other sessions changing the registry in between; an error leaves the session as it was |
| Controls.Control.CloseProxy | server/control.go:656-670 | the proxy, its ports and its name are gone; an unknown name changes nothing |
| Controls.ControlManager.Add | server/control.go:43-54 | registers the session and returns the one it replaces, which loses its run id and shuts down |
| Controls.ControlManager.Del | server/control.go:57-63 | removes a session only if it is still the registered one |
| ClientProxies.ClosedIsTerminal | client/proxy/proxy_wrapper.go:158-223 | a stopped wrapper never sends and never accepts an answer; no other phase turns into it by itself |
| ClientProxies.FirstCheck | client/proxy/proxy_wrapper.go:179-204 | a new wrapper asks at its first check, one with a health check when that has succeeded |
| ClientProxies.AsksAgain | client/proxy/proxy_wrapper.go:179-204 | over any checks: a healthy wrapper that neither runs nor is closed asks by the first check more than 20 seconds after its last request and 30 after its last refusal |
| ClientProxies.RequestsAreSpaced | client/proxy/proxy_wrapper.go:189-204 | without an answer in between, two requests are more than 20 seconds apart |
| ClientProxies.RefusalIsRespected | client/proxy/proxy_wrapper.go:123-149 | after a refusal or a failed local start every further request comes more than 30 seconds later |
| ClientProxies.TimeoutsAreExact | client/proxy/proxy_wrapper.go:189-204 | a waiting wrapper asks exactly after 20 seconds, a refused one exactly after 30 |
| ClientProxies.FailureTakesBackOnce | client/proxy/proxy_wrapper.go:206-213 | while the health check fails nothing is asked, and the proxy is taken back once |
| ClientProxies.HealthyAgainAsks | client/proxy/proxy_wrapper.go:225-247 | when it succeeds again, the next check asks |
| ClientProxies.AnswerOutcomes | client/proxy/proxy_wrapper.go:123-149 | it runs exactly if the server accepted and the local start succeeded; an acceptance it cannot use is given back |
| ClientProxies.Wrapper.SetRunningStatus | client/proxy/proxy_wrapper.go:123-149 | ignored outside waiting; refusal, failed local run (taken back) and success |
| ClientProxies.Wrapper.Stop | client/proxy/proxy_wrapper.go:158-169 | closed, and one close message |
| ClientProxies.Wrapper.CheckOnce | client/proxy/proxy_wrapper.go:179-223 | asks when new, failed its check, or timed out; takes back when the health check fails |
| ClientManager.Manager.StartProxy | client/proxy/proxy_manager.go:57-70 | the answer reaches the wrapper of that name and no other |
| ClientManager.Manager.RemoveChanged | client/proxy/proxy_manager.go:121-134 | exactly the wrappers whose settings are gone or changed are removed, stopped and reported, once each |
| ClientManager.Manager.AddMissing | client/proxy/proxy_manager.go:139-148 | exactly the missing names get new wrappers |
| ClientManager.Manager.Reload | client/proxy/proxy_manager.go:116-152 | exactly the given names remain; unchanged wrappers keep identity and state; every other old one is stopped exactly once |
| ClientManager.Manager.ReloadAgain | client/proxy/proxy_manager.go:116-152 | an identical reload stops, starts and sends nothing |
| ClientManager.Manager.Close | client/proxy/proxy_manager.go:72-79 | everything is stopped once |
| StartProtocol.ServeSettles | server/control.go:477-516 | the server's answer to the oldest message keeps the invariant of that name |
| StartProtocol.CloseSettles | client/proxy/proxy_wrapper.go:206-213 | when a close may be sent without breaking the invariant |
| StartProtocol.StepKeepsInv | client/proxy/proxy_wrapper.go:123-223 | the invariant of one name in one session, which excludes stale acceptances, is inductive over every kind of step of every session and name |
| StartProtocol.EveryRunKeepsInv | client/proxy/proxy_wrapper.go:123-223 | so it holds in every run in which this one proxy is not closed while starting, whatever happens to others |
| StartProtocol.RunningIsHeld | client/proxy/proxy_wrapper.go:123-149 | in every such run of any number of sessions, a proxy that a live client takes to be running is held by the server for that session |
| StartProtocol.OneRunningPerName | server/proxy/proxy.go:318-327 | at most one live session has a proxy of a name running |
| StartProtocol.UninterruptedIsCalm | client/proxy/proxy_wrapper.go:179-223 | a proxy without a health check that is not reloaded is never closed by an interrupt |
| StartProtocol.RunningIsHeldUninterrupted | client/proxy/proxy_wrapper.go:123-223 | so for such a proxy the guarantee needs no proviso, whatever health checks and reloads others have |
| StartProtocol.UnsettledCanBreak | client/proxy/proxy_wrapper.go:179-223 | from an unsettled state some run without further interrupts shows a running proxy that the server does not hold |
| StartProtocol.ProvisoIsExact | client/proxy/proxy_wrapper.go:206-213 | where this proxy is settled, an interrupt of it is harmless to every later run without further ones if and only if it was running, or its close overtakes no acceptance and follows no request under way, or the name is stuck with a lost session |
| StartProtocol.ReloadWhileStarting | client/proxy/proxy_manager.go:116-152 | a concrete run in which reloading with changed settings during the start is harmful |
| WorkConns.StepKeepsBooks | server/control.go:237-306 | every step keeps the balance, the capacity, and that no connection is pooled or handed out twice |
| WorkConns.EveryRunKeepsBooks | server/control.go:237-306 | so does every run |
| WorkConns.WorkConnectionLedger | server/control.go:210-218 | with no call half-way: pooled + outstanding + lost = pool count + calls that found the pool empty; the pool never exceeds pool count + 10; no connection is handed out twice |
| WorkConns.MissesAreBounded | client/control.go:129-163 | calls find the pool empty at most as often as answers are missing or lost, plus ten |
| WorkConns.GetIsSteps | server/control.go:260-306 | an uninterrupted `GetWorkConn` is a sequence of steps of the ledger |
| WorkConns.RegisterIsStep | server/control.go:237-254 | a connection is pooled behind the others unless the pool has ten more than the pool count; then it is lost |
| WorkConns.WorkConnPool.RegisterWorkConn | server/control.go:237-254 | pools the connection at the end, or refuses it exactly when the channel is full |
| WorkConns.WorkConnPool.GetWorkConn | server/control.go:260-306 | the oldest pooled connection, or what arrives; and the requests it sends |
| WorkConns.GetWorkConnFromPool | server/proxy/proxy.go:118-168 | the first connection that can be told to start, an error exactly when a try gets none first, and the closed connection that is returned when all writes fail |
| WorkConns.ClosedConnectionIsReturned | server/proxy/proxy.go:118-168 | an input for which a closed connection is returned as a success |
| HoleStrategies.ClassifyFeatureCount | pkg/nathole/classify.go:111-128 | easy sides, hard sides, and hard sides with regular changes |
| HoleStrategies.NewScores | pkg/nathole/analysis.go:177-214 | the modes to try and their starting scores, from the counts |
| HoleStrategies.BestIsFirstMaximum | pkg/nathole/analysis.go:232-245 | the chosen entry is the first one with the highest score |
| HoleStrategies.RecommendationCosts | pkg/nathole/analysis.go:232-245 | a recommendation takes one point off the first entry with the highest score, and touches no other |
| HoleStrategies.ReportRaises | pkg/nathole/analysis.go:216-230 | a success report gives two points, up to ten, to the first entry for this mode and index, and touches no other |
| HoleStrategies.ReportOfNothing | pkg/nathole/analysis.go:216-230 | a report of something not recorded changes nothing |
| HoleStrategies.SuccessIsRecommended | pkg/nathole/analysis.go:216-245 | what works is recommended: an entry is chosen once its reports have put it ahead of all others |
| HoleStrategies.RecommendLowersLead | pkg/nathole/analysis.go:232-245 | each recommendation of another entry lowers the lead over an entry by exactly one |
| HoleStrategies.ReportRaisesLeadByTwo | pkg/nathole/analysis.go:216-230 | a success report raises it by at most two |
| HoleStrategies.NoStarvation | pkg/nathole/analysis.go:216-245 | with k reports interleaved, an entry is recommended within 1 + lead + 2k recommendations |
| HoleStrategies.ScoresStayAtMostTen | pkg/nathole/analysis.go:216-230 | scores never rise above ten |
| HoleStrategies.EqualScoresTakeTurns | pkg/nathole/analysis.go:232-245 | from equal scores, call m chooses entry m modulo n for ever, and scores differ by at most one |
| HoleStrategies.InitialScoresFit | pkg/nathole/analysis.go:177-214 | every initial entry exists and its mode fits the two NATs |
| HoleStrategies.StrategiesOfModeZero | pkg/nathole/analysis.go:24-47 | which strategies mode 0 has, as combinations of times to live, delays and roles |
| HoleStrategies.StrategiesOfModeOne | pkg/nathole/analysis.go:50-64 | which strategies mode 1 has |
| HoleStrategies.StrategiesOfOtherModes | pkg/nathole/analysis.go:66-118 | which strategies modes 2, 3 and 4 have |
| HoleStrategies.StrategiesComplement | pkg/nathole/analysis.go:24-118 | in every strategy one part sends and the other receives; in modes 1, 2 and 4 the first part sends |
| HoleStrategies.RolesAreGood | pkg/nathole/analysis.go:269-299 | after the swap the roles are complementary, and in mode 1 the sender is hard, in mode 2 the receiver is hard and the sender easy, in mode 4 the sender has regular changes |
| HoleStrategies.EveryHistoryGivesGoodRoles | pkg/nathole/analysis.go:269-299 | so for every pair of features and every history of the cached records |
| PublicNetworks.TurnsOf | pkg/nathole/analysis.go:232-245 | entries one point ahead are recommended first, in list order; then all take turns |
| PublicNetworks.EntriesAre | pkg/nathole/analysis.go:177-214 | which mode and strategy each position of two sides' records is for |
| PublicNetworks.HeadStartIsRaised | pkg/nathole/analysis.go:177-214 | which entries two sides' records put one point ahead |
| PublicNetworks.PublicSidesReceiveFor | pkg/nathole/analysis.go:177-214 | on records that two sides started, every public side receives in the recommendations 0 to m if and only if m is below a number read off their features |
| PublicNetworks.FirstRecommendation | pkg/nathole/analysis.go:177-214 | when that holds for the first recommendation |
| PublicNetworks.PublicSidesAlwaysReceive | pkg/nathole/analysis.go:216-245 | when it holds for every history of recommendations and reports |
| PublicNetworks.PublicSideSends | pkg/nathole/analysis.go:24-30 | inputs for which a public side sends in mode 0 |
| HoleStrategies.MakeHoleRecords.ReportSuccess | pkg/nathole/analysis.go:216-230 | the reported entry, and no other, gains two points up to ten |
| HoleStrategies.MakeHoleRecords.Recommand | pkg/nathole/analysis.go:232-245 | the best entry is returned and loses a point |
| HoleStrategies.Analyzer.GetRecommandBehaviors | pkg/nathole/analysis.go:269-299 | on the live records: the best strategy of this key, good roles for the two sides, other keys untouched, records stay consistent with their keys |
| HoleStrategies.Analyzer.ReportSuccess | pkg/nathole/analysis.go:301-309 | changes the scores of this key only, and keeps the records consistent |
| HoleStrategies.Analyzer.Clean | pkg/nathole/analysis.go:311-328 | forgets exactly the records unused for longer than the duration, and counts them |
| NatHoles.ClassifyNATFeature | pkg/nathole/classify.go:43-109 | easy exactly when all host and port texts agree; regular exactly when only ports differ, by 1 to 5; errors for too few or malformed addresses |
| NatHoles.VerdictIs | pkg/nathole/classify.go:43-109 | pair by pair: easy exactly if any two addresses are the same, regular exactly if all hosts are and the ports differ by one to five, public exactly if an own address was mapped |
| NatHoles.ChangeIs | pkg/nathole/classify.go:82-107 | which changes are reported: hosts differ, ports differ, both or neither |
| NatHoles.TrimKeepsHosts | pkg/nathole/classify.go:66-72 | no address is passed over if and only if the first one has a host |
| NatHoles.EasyMeansAgree | pkg/nathole/classify.go:43-109 | when the verdict "easy" means that all addresses are the same, exactly |
| NatHoles.EmptyHostIsPassedOver | pkg/nathole/classify.go:66-72 | two different addresses that are classified as easy |
| NatHoles.DescriptionIsUnique | pkg/nathole/classify.go:43-109 | the description admits one classification only |
| NatHoles.RangesHold | pkg/nathole/controller.go:368-391 | a guessed range contains the last mapped port, lies in 1..65535, and holds exactly the ports no further from it than difference+5 and maxNumber |
| NatHoles.UniqElements | pkg/nathole/controller.go:335-358 | the candidate addresses are the reported ones without repetition |
| NatHoles.ParsedIPs | pkg/nathole/nathole.go:432-441 | the local addresses are the hosts of the well-formed ones |
| NatHoles.KeyTellsApart | pkg/nathole/controller.go:73-91 | two keys are equal exactly if the first mapped hosts and type, behaviour and regularity of both sides are |
| NatHoles.ResponseCarries | pkg/nathole/controller.go:328-359 | the response carries the behaviour and the other side's addresses and port range |
| NatHoles.Decide | pkg/nathole/controller.go:320-359 | a sound decision from features, key and behaviours |
| NatHoles.DecisionMeans | pkg/nathole/controller.go:320-359 | roles as the modes demand; both sides stop listening at the same time, five seconds after the later one sends, or thirty-five with random ports; each is told the other's addresses |
| NatHoles.Analysis | pkg/nathole/controller.go:297-366 | the whole decision is sound for every two sides, on the live analyzer, and fails exactly on bad addresses |
| DayCounters.NothingLater | pkg/util/metric/date_counter.go:80-92 | nothing is counted on days after the last one |
| DayCounters.WindowAfterEvents | pkg/util/metric/date_counter.go:80-92 | entry i of the window is the 64-bit value of the net amount of the day i days before the last one |
| DayCounters.DayWindow | pkg/util/metric/date_counter.go:65-134 | as of any later day, gaps longer than the window included, entry i is the 64-bit value of the net amount of the day i days ago |
| DayCounters.WrapFits | pkg/util/metric/date_counter.go:80-92 | the 64-bit value of a number is the number exactly when it fits |
| DayCounters.WrapOfSum | pkg/util/metric/date_counter.go:80-92 | wrapping after every addition is wrapping once |
| DayCounters.StandardDateCounter.Rotate | pkg/util/metric/date_counter.go:114-134 | shifts the array by the days passed, keeping it the window of the history |
| DayCounters.StandardDateCounter.Inc | pkg/util/metric/date_counter.go:80-85 | the array stays the window of the history extended by this amount |
| DayCounters.StandardDateCounter.Dec | pkg/util/metric/date_counter.go:87-92 | the array stays the window of the history extended by the negated amount |
| DayCounters.StandardDateCounter.TodayCount | pkg/util/metric/date_counter.go:57-63 | the net amount of today, as a 64-bit value |
| DayCounters.StandardDateCounter.GetLastDaysCount | pkg/util/metric/date_counter.go:65-78 | for each of the last days, as many as are kept, the net amount recorded on it, as a 64-bit value |
| DayCounters.StandardDateCounter.Clear | pkg/util/metric/date_counter.go:104-110 | all counts are zero and the history starts anew |

## Left out

- Sockets, TLS, KCP, QUIC, yamux, STUN, message framing, encryption, compression, rate limits, HTTP forwarding and
  authentication, dashboards, logs, the command line and the remote check of proxy settings: input and output, or libraries.
- The shutdown of a session: `stoper` returns early when closing the connection fails (server/control.go:383-386), so
  nothing says that everything is released on exit. A lost session is an event with or without clean-up.
- Channel closing and panics turned into errors while a session shuts down (`ErrCtlClosed`).
- UDP proxies: `UDPProxy.Close` runs twice and releases its port outside the guard (server/proxy/udp.go:252-270).
- Goroutine scheduling inside one turn: each turn of `checkWorker` and each locked section is atomic. The lock that is
  dropped between finding a group and registering in it (server/group/http.go:35-43, server/group/tcp.go:46-58) is not
  modelled: each controller call is one step.
- `StatusFailed` and `StatusNormal` stand for the health monitor, which counts failures without resetting them.
- `Muxer.Listen`, `Listener.Close`, the headers and credentials of a route, and the remote addresses that
  `HTTPProxy.Run` reports: they only wrap or decorate what is modelled.
- TCPMux groups, the visitor manager, plugin pipelines, config marshalling, metrics aggregation: near-duplicates or easy.
- The sessions of the NAT hole controller (`HandleVisitor`, `HandleClient`, `HandleReport`): message plumbing around `analysis`.
- `genAnalysisKey` hashes with MD5; the key is the hashed tuple itself, so collisions are excluded.
- The lower score bound of -10 is only a comment (pkg/nathole/analysis.go:250); the code enforces the upper bound only.
- `Snapshot` of the day counter, which copies without rotating, and hours within a day: days are whole numbers.
- Integer widths, except for the group's dealing counter and the counts of days: ports, scores and times are unbounded.
- What the remote check, the parsing of a registration and the making of a proxy do: `RegisterProxy` is told whether
  they succeed. What the shutdown of a replaced session does: only that it begins.
- Ports.ReservationsStayLinked: assumes that the operating system refuses every used port; `LinkedThroughout` is exact without that assumption.
