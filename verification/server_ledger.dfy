/**
 * Who has which TCP port on the server (server/proxy/tcp.go, server/group/tcp.go): ports are acquired
 * from the allocator, opened as sockets, closed and released again, in separate sections.
 */
module ServerLedgers {
  import opened Prelude
  import opened Ports
  import opened TcpGroups
  import opened TcpProxies

  /** What a client asks for; `tcp` is false for proxy types that use no TCP port. */
  datatype Conf = Conf(name: string, group: string, groupKey: string, addr: string, port: int, tcp: bool, ports: nat)

  /** A proxy object, with the session that made it and its `GetUsedPortsNum`. */
  datatype Proxy = Proxy(id: nat, session: nat, name: string, ports: nat)

  /**
   * What a proxy holds: a port acquired and not opened yet, a port with a socket, a place in a group, or
   * a port whose socket is closed and that is not released yet. While the first or the last member of a
   * group is in between, nobody else gets the group's lock.
   */
  datatype Holding =
    | Nothing
    | Opening(port: int, group: string)
    | Port(port: int)
    | Place(group: string)
    | Releasing(port: int, group: string)

  /** Who can have a port: a proxy, or a group with members. */
  datatype Holder = ByProxy(x: Proxy) | ByGroup(group: string)

  /** TCP ports in use, the ports that sockets are bound to, the groups, and what the proxies hold. */
  datatype Ledger = Ledger(used: set<int>, bound: map<Holder, int>, groups: map<string, TcpGroup<Proxy>>, holds: map<Proxy, Holding>)

  function PortOf(l: Ledger, h: Holder): Option<int> {
    match h
    case ByProxy(x) => if x in l.holds && !l.holds[x].Nothing? && !l.holds[x].Place? then Some(l.holds[x].port) else None
    case ByGroup(g) => if g in l.groups && l.groups[g].members != [] then Some(l.groups[g].realPort) else None
  }

  /** The used ports are exactly the disjoint union of the ports of proxies and of groups with members. */
  ghost predicate Conserved(l: Ledger) {
    && (forall h, k :: PortOf(l, h).Some? && PortOf(l, h) == PortOf(l, k) ==> h == k)
    && (forall p :: p in l.used <==> exists h :: PortOf(l, h) == Some(p))
  }

  /** The proxy is between two sections of this group. */
  predicate Pends(h: Holding, group: string) {
    (h.Opening? || h.Releasing?) && h.group == group
  }

  predicate Busy(l: Ledger, group: string) {
    group != "" && exists x :: x in l.holds && Pends(l.holds[x], group)
  }

  /** The answer of the allocator: a port, or an error, which may have marked port 0 as used. */
  datatype Grant = Got(port: int) | Refused | Marked

  datatype Progress = Failed | AtPort | Done

  /** The run asks the allocator for a port: it is a TCP proxy without a group, or the first of its group. */
  predicate AsksForPort(l: Ledger, conf: Conf) {
    conf.tcp && (conf.group == "" || GroupAt(l.groups, conf.group).members == [])
  }

  /**
   * The first section of `Run`: a port is acquired, or a group with members joined. `works` says whether
   * the run of another type succeeds.
   */
  function StartRun(l: Ledger, conf: Conf, x: Proxy, grant: Grant, works: bool): (Ledger, Progress) {
    if !conf.tcp then
      if works then (l.(holds := l.holds[x := Nothing]), Done) else (l, Failed)
    else if AsksForPort(l, conf) then
      var created := if conf.group == "" then l.groups else l.groups[conf.group := GroupAt(l.groups, conf.group)];
      match grant
      case Got(p) => (l.(used := l.used + {p}, groups := created, holds := l.holds[x := Opening(p, conf.group)]), AtPort)
      case Refused => (l.(groups := created), Failed)
      case Marked => (l.(used := l.used + {0}, groups := created), Failed)
    else
      match Join(GroupAt(l.groups, conf.group), conf.group, conf.groupKey, conf.addr, conf.port, x)
      case Err(_) => (l, Failed)
      case Ok(joined) => (l.(groups := l.groups[conf.group := joined], holds := l.holds[x := Place(conf.group)]), Done)
  }

  /**
   * The second section of `Run`: the socket is opened, on the port given, or not. Without a group the
   * acquired port is then released; with a group it is not.
   */
  function OpenSocket(l: Ledger, conf: Conf, x: Proxy, socket: Option<int>): (Ledger, bool)
    requires x in l.holds && l.holds[x].Opening?
  {
    var p, g := l.holds[x].port, l.holds[x].group;
    match socket
    case None => (l.(used := if g == "" then l.used - {p} else l.used, holds := l.holds - {x}), false)
    case Some(q) =>
      if g == "" then (l.(bound := l.bound[ByProxy(x) := q], holds := l.holds[x := Port(p)]), true)
      else
        (l.(bound := l.bound[ByGroup(g) := q],
            groups := l.groups[g := TcpGroup(g, conf.groupKey, conf.addr, conf.port, p, [x])],
            holds := l.holds[x := Place(g)]), true)
  }

  /**
   * What the operating system can do: it binds no port twice, and it binds the one asked for. (A group
   * asks for the port of its settings, which is the acquired one, unless it is 0.)
   */
  predicate Possible(l: Ledger, conf: Conf, x: Proxy, socket: Option<int>)
    requires x in l.holds && l.holds[x].Opening?
  {
    socket.Some? ==>
      socket.value !in l.bound.Values && (l.holds[x].group == "" || conf.port != 0 ==> socket.value == l.holds[x].port)
  }

  /** The first section of `TCPProxy.Close`: the socket is closed, or the group left. */
  function CloseSocket(l: Ledger, x: Proxy): Ledger
    requires x in l.holds
  {
    match l.holds[x]
    case Nothing => l.(holds := l.holds - {x})
    case Port(p) => l.(bound := l.bound - {ByProxy(x)}, holds := l.holds[x := Releasing(p, "")])
    case Place(name) =>
      var g := GroupAt(l.groups, name);
      var left := g.(members := Remove(g.members, x));
      if left.members == [] then
        Ledger(l.used, l.bound - {ByGroup(name)}, l.groups - {left.group}, l.holds[x := Releasing(left.realPort, name)])
      else l.(groups := l.groups[name := left], holds := l.holds - {x})
    case _ => l
  }

  /** The second section of `TCPProxy.Close`: the port is released. */
  function ReleasePort(l: Ledger, x: Proxy): Ledger
    requires x in l.holds && l.holds[x].Releasing?
  {
    l.(used := l.used - {l.holds[x].port}, holds := l.holds - {x})
  }

  // ----- the ledger is sound -----

  /** The members of a group are exactly the proxies that hold a place in it. */
  ghost predicate GroupSound(l: Ledger, g: string)
    requires g in l.groups
  {
    var members := l.groups[g].members;
    && (forall i, j :: 0 <= i < j < |members| ==> members[i] != members[j])
    && (forall x :: x in members ==> x in l.holds && l.holds[x] == Place(g))
    && (members != [] ==> l.groups[g].group == g)
  }

  ghost predicate PlaceSound(l: Ledger, x: Proxy)
    requires x in l.holds
  {
    l.holds[x].Place? ==> l.holds[x].group in l.groups && x in l.groups[l.holds[x].group].members
  }

  /** A group that a proxy is opening or closing has no members, and no second proxy is doing so. */
  ghost predicate PendSound(l: Ledger, x: Proxy, y: Proxy)
    requires x in l.holds && y in l.holds
  {
    (l.holds[x].Opening? || l.holds[x].Releasing?) && l.holds[x].group != "" ==>
      GroupAt(l.groups, l.holds[x].group).members == [] && (x == y || !Pends(l.holds[y], l.holds[x].group))
  }

  /** Exactly the open proxies and the groups with members have sockets, on their own ports unless the group asked for port 0. */
  ghost predicate SocketSound(l: Ledger, h: Holder) {
    match h
    case ByProxy(x) =>
      if h in l.bound then x in l.holds && l.holds[x] == Port(l.bound[h]) else !(x in l.holds && l.holds[x].Port?)
    case ByGroup(g) =>
      && (h in l.bound <==> g in l.groups && l.groups[g].members != [])
      && (h in l.bound && l.groups[g].port != 0 ==> l.bound[h] == l.groups[g].realPort)
  }

  ghost predicate Sound(l: Ledger) {
    && (forall g :: g in l.groups ==> GroupSound(l, g))
    && (forall x :: x in l.holds ==> PlaceSound(l, x))
    && (forall x, y :: x in l.holds && y in l.holds ==> PendSound(l, x, y))
    && (forall h :: SocketSound(l, h))
  }

  /** What the sections ask of the caller: the proxy is new, nobody holds the group's lock, and a given port is the one asked for. */
  predicate CanStart(l: Ledger, conf: Conf, x: Proxy, grant: Grant) {
    x !in l.holds && !(conf.tcp && Busy(l, conf.group)) && (grant.Got? && conf.port != 0 ==> grant.port == conf.port)
  }

  lemma StartIsSound(l: Ledger, conf: Conf, x: Proxy, grant: Grant, works: bool)
    requires Sound(l) && CanStart(l, conf, x, grant)
    ensures Sound(StartRun(l, conf, x, grant, works).0)
  {
    if AsksForPort(l, conf) {
      AcquireIsSound(l, conf, x, grant, works);
    } else if conf.tcp {
      JoinIsSound(l, conf, x, grant, works);
    } else {
      OtherIsSound(l, conf, x, grant, works);
    }
  }

  lemma AcquireIsSound(l: Ledger, conf: Conf, x: Proxy, grant: Grant, works: bool)
    requires Sound(l) && CanStart(l, conf, x, grant) && AsksForPort(l, conf)
    ensures Sound(StartRun(l, conf, x, grant, works).0)
  {
    var next := StartRun(l, conf, x, grant, works).0;
    assert SocketSound(l, ByProxy(x));
    forall g | g in next.groups ensures GroupSound(next, g) { if g in l.groups { assert GroupSound(l, g); } }
    forall y | y in next.holds ensures PlaceSound(next, y) { if y in l.holds { assert PlaceSound(l, y); } }
    forall y, z | y in next.holds && z in next.holds ensures PendSound(next, y, z) {
      if y in l.holds { assert PendSound(l, y, y); }
      if y in l.holds && z in l.holds { assert PendSound(l, y, z); }
    }
    forall h ensures SocketSound(next, h) { assert SocketSound(l, h); }
  }

  lemma JoinIsSound(l: Ledger, conf: Conf, x: Proxy, grant: Grant, works: bool)
    requires Sound(l) && CanStart(l, conf, x, grant) && conf.tcp && !AsksForPort(l, conf)
    ensures Sound(StartRun(l, conf, x, grant, works).0)
  {
    var next := StartRun(l, conf, x, grant, works).0;
    assert SocketSound(l, ByProxy(x));
    forall g | g in next.groups ensures GroupSound(next, g) { if g in l.groups { assert GroupSound(l, g); } }
    forall y | y in next.holds ensures PlaceSound(next, y) { if y in l.holds { assert PlaceSound(l, y); } }
    forall y, z | y in next.holds && z in next.holds ensures PendSound(next, y, z) {
      if y in l.holds { assert PendSound(l, y, y); }
      if y in l.holds && z in l.holds { assert PendSound(l, y, z); }
    }
    forall h ensures SocketSound(next, h) { assert SocketSound(l, h); }
  }

  lemma OtherIsSound(l: Ledger, conf: Conf, x: Proxy, grant: Grant, works: bool)
    requires Sound(l) && CanStart(l, conf, x, grant) && !conf.tcp
    ensures Sound(StartRun(l, conf, x, grant, works).0)
  {
    var next := StartRun(l, conf, x, grant, works).0;
    assert SocketSound(l, ByProxy(x));
    forall g | g in next.groups ensures GroupSound(next, g) { if g in l.groups { assert GroupSound(l, g); } }
    forall y | y in next.holds ensures PlaceSound(next, y) { if y in l.holds { assert PlaceSound(l, y); } }
    forall y, z | y in next.holds && z in next.holds ensures PendSound(next, y, z) {
      if y in l.holds { assert PendSound(l, y, y); }
      if y in l.holds && z in l.holds { assert PendSound(l, y, z); }
    }
    forall h ensures SocketSound(next, h) { assert SocketSound(l, h); }
  }

  lemma OpenIsSound(l: Ledger, conf: Conf, x: Proxy, socket: Option<int>)
    requires Sound(l) && x in l.holds && l.holds[x].Opening? && Possible(l, conf, x, socket)
    ensures Sound(OpenSocket(l, conf, x, socket).0)
  {
    var next := OpenSocket(l, conf, x, socket).0;
    assert SocketSound(l, ByProxy(x)) && PendSound(l, x, x);
    forall g | g in next.groups ensures GroupSound(next, g) { if g in l.groups { assert GroupSound(l, g); } }
    forall y | y in next.holds ensures PlaceSound(next, y) { assert PlaceSound(l, y); }
    forall y, z | y in next.holds && z in next.holds ensures PendSound(next, y, z) {
      assert PendSound(l, y, z) && PendSound(l, x, y);
    }
    forall h ensures SocketSound(next, h) { assert SocketSound(l, h); }
  }

  lemma CloseIsSound(l: Ledger, x: Proxy)
    requires Sound(l) && x in l.holds
    ensures Sound(CloseSocket(l, x))
  {
    if l.holds[x].Place? {
      LeaveIsSound(l, x);
    } else {
      var next := CloseSocket(l, x);
      assert SocketSound(l, ByProxy(x));
      forall g | g in next.groups ensures GroupSound(next, g) { assert GroupSound(l, g); }
      forall y | y in next.holds ensures PlaceSound(next, y) { assert PlaceSound(l, y); }
      forall y, z | y in next.holds && z in next.holds ensures PendSound(next, y, z) { assert PendSound(l, y, z); }
      forall h ensures SocketSound(next, h) { assert SocketSound(l, h); }
    }
  }

  lemma LeaveIsSound(l: Ledger, x: Proxy)
    requires Sound(l) && x in l.holds && l.holds[x].Place?
    ensures Sound(CloseSocket(l, x))
  {
    assert PlaceSound(l, x);
    if Remove(l.groups[l.holds[x].group].members, x) == [] { LeaveLastIsSound(l, x); } else { LeaveOthersIsSound(l, x); }
  }

  lemma LeaveOthersIsSound(l: Ledger, x: Proxy)
    requires Sound(l) && x in l.holds && l.holds[x].Place?
    requires Remove(GroupAt(l.groups, l.holds[x].group).members, x) != []
    ensures Sound(CloseSocket(l, x))
  {
    var next, name := CloseSocket(l, x), l.holds[x].group;
    assert PlaceSound(l, x) && SocketSound(l, ByProxy(x)) && GroupSound(l, name);
    RemoveElements(l.groups[name].members, x);
    forall g | g in next.groups ensures GroupSound(next, g) { assert GroupSound(l, g); }
    forall y | y in next.holds ensures PlaceSound(next, y) { assert PlaceSound(l, y); }
    forall y, z | y in next.holds && z in next.holds ensures PendSound(next, y, z) { assert PendSound(l, y, z); }
    forall h ensures SocketSound(next, h) { assert SocketSound(l, h); }
  }

  lemma LeaveLastIsSound(l: Ledger, x: Proxy)
    requires Sound(l) && x in l.holds && l.holds[x].Place?
    requires Remove(GroupAt(l.groups, l.holds[x].group).members, x) == []
    ensures Sound(CloseSocket(l, x))
  {
    var next, name := CloseSocket(l, x), l.holds[x].group;
    assert PlaceSound(l, x) && SocketSound(l, ByProxy(x)) && GroupSound(l, name);
    RemoveElements(l.groups[name].members, x);
    forall g | g in next.groups ensures GroupSound(next, g) { assert GroupSound(l, g); }
    forall y | y in next.holds ensures PlaceSound(next, y) { assert PlaceSound(l, y); }
    forall y, z | y in next.holds && z in next.holds ensures PendSound(next, y, z) {
      assert PendSound(l, y, z) && PendSound(l, y, x) && PendSound(l, z, x);
    }
    forall h ensures SocketSound(next, h) { assert SocketSound(l, h); }
  }

  lemma ReleaseIsSound(l: Ledger, x: Proxy)
    requires Sound(l) && x in l.holds && l.holds[x].Releasing?
    ensures Sound(ReleasePort(l, x))
  {
    var next := ReleasePort(l, x);
    assert SocketSound(l, ByProxy(x));
    forall g | g in next.groups ensures GroupSound(next, g) { assert GroupSound(l, g); }
    forall y | y in next.holds ensures PlaceSound(next, y) { assert PlaceSound(l, y); }
    forall y, z | y in next.holds && z in next.holds ensures PendSound(next, y, z) { assert PendSound(l, y, z); }
    forall h ensures SocketSound(next, h) { assert SocketSound(l, h); }
  }

  // ----- conservation of TCP ports -----

  ghost predicate OnlyHolderChanged(l: Ledger, next: Ledger, h: Holder) {
    forall k :: k != h ==> PortOf(next, k) == PortOf(l, k)
  }

  /** When no holder's port changes, the ledger stays conserved exactly when the used ports stay the same. */
  lemma NoHolderChanged(l: Ledger, next: Ledger)
    requires Conserved(l) && forall k :: PortOf(next, k) == PortOf(l, k)
    ensures Conserved(next) <==> next.used == l.used
  {
    forall p ensures (exists h :: PortOf(next, h) == Some(p)) <==> p in l.used {
      if h :| PortOf(l, h) == Some(p) { assert PortOf(next, h) == Some(p); }
      if h :| PortOf(next, h) == Some(p) { assert PortOf(l, h) == Some(p); }
    }
    if Conserved(next) {
      assert forall p :: p in next.used <==> p in l.used;
    }
  }

  /** A holder that gains a port keeps the ledger conserved exactly when the port was not in use. */
  lemma HolderGainsPort(l: Ledger, next: Ledger, h: Holder, p: int)
    requires Conserved(l) && OnlyHolderChanged(l, next, h)
    requires PortOf(l, h) == None && PortOf(next, h) == Some(p) && next.used == l.used + {p}
    ensures Conserved(next) <==> p !in l.used
  {
    if p in l.used {
      var k :| PortOf(l, k) == Some(p);
      assert PortOf(next, k) == PortOf(next, h) && k != h;
    } else {
      forall j, k | PortOf(next, j).Some? && PortOf(next, j) == PortOf(next, k) ensures j == k {
        assert j != h ==> PortOf(l, j) == PortOf(next, j);
        assert k != h ==> PortOf(l, k) == PortOf(next, k);
      }
      forall q ensures q in next.used <==> exists k :: PortOf(next, k) == Some(q) {
        if q in l.used { var k :| PortOf(l, k) == Some(q); assert PortOf(next, k) == Some(q); }
        if k :| PortOf(next, k) == Some(q) { assert k != h ==> PortOf(l, k) == Some(q); }
      }
    }
  }

  /** A holder that gives up its port, which is released, keeps the ledger conserved. */
  lemma HolderLosesPort(l: Ledger, next: Ledger, h: Holder, p: int)
    requires Conserved(l) && OnlyHolderChanged(l, next, h)
    requires PortOf(l, h) == Some(p) && PortOf(next, h) == None && next.used == l.used - {p}
    ensures Conserved(next)
  {
    forall j, k | PortOf(next, j).Some? && PortOf(next, j) == PortOf(next, k) ensures j == k {
      assert PortOf(l, j) == PortOf(next, j) && PortOf(l, k) == PortOf(next, k);
    }
    forall q ensures q in next.used <==> exists k :: PortOf(next, k) == Some(q) {
      if q in next.used { var k :| PortOf(l, k) == Some(q); assert PortOf(next, k) == Some(q); }
      if k :| PortOf(next, k) == Some(q) { assert PortOf(l, k) == Some(q); }
    }
  }

  /** One holder passes its port to another. */
  lemma HolderHandsOver(l: Ledger, next: Ledger, h: Holder, k: Holder, p: int)
    requires Conserved(l) && h != k && next.used == l.used
    requires forall j :: j != h && j != k ==> PortOf(next, j) == PortOf(l, j)
    requires PortOf(l, h) == Some(p) && PortOf(l, k) == None && PortOf(next, h) == None && PortOf(next, k) == Some(p)
    ensures Conserved(next)
  {
    forall i, j | PortOf(next, i).Some? && PortOf(next, i) == PortOf(next, j) ensures i == j {
      assert i != k ==> PortOf(l, i) == PortOf(next, i);
      assert j != k ==> PortOf(l, j) == PortOf(next, j);
    }
    forall q ensures q in next.used <==> exists j :: PortOf(next, j) == Some(q) {
      if q in next.used {
        var j :| PortOf(l, j) == Some(q);
        assert PortOf(next, if j == h then k else j) == Some(q);
      }
      if j :| PortOf(next, j) == Some(q) { assert PortOf(l, if j == k then h else j) == Some(q); }
    }
  }

  /** A holder that gives up its port, which stays in use, loses it. */
  lemma HolderLeaksPort(l: Ledger, next: Ledger, h: Holder, p: int)
    requires Conserved(l) && OnlyHolderChanged(l, next, h)
    requires PortOf(l, h) == Some(p) && PortOf(next, h) == None && next.used == l.used
    ensures !Conserved(next)
  {
    forall k ensures PortOf(next, k) != Some(p) { assert k != h ==> PortOf(next, k) == PortOf(l, k); }
    assert p in next.used;
  }

  /** The answer of the allocator neither shares a port nor loses one. */
  predicate BenignGrant(l: Ledger, conf: Conf, grant: Grant) {
    AsksForPort(l, conf) ==> match grant case Got(p) => p !in l.used case Refused => true case Marked => 0 in l.used
  }

  /** Acquiring conserves the TCP ports exactly when the granted port was not in use and no port was marked for nobody. */
  lemma StartConservesPorts(l: Ledger, conf: Conf, x: Proxy, grant: Grant, works: bool)
    requires Conserved(l) && Sound(l) && CanStart(l, conf, x, grant)
    ensures Conserved(StartRun(l, conf, x, grant, works).0) <==> BenignGrant(l, conf, grant)
  {
    var next := StartRun(l, conf, x, grant, works).0;
    if AsksForPort(l, conf) && grant.Got? {
      HolderGainsPort(l, next, ByProxy(x), grant.port);
    } else {
      NoHolderChanged(l, next);
    }
  }

  /** Opening conserves the TCP ports exactly when it succeeds, or the port is the proxy's own. */
  lemma OpenConservesPorts(l: Ledger, conf: Conf, x: Proxy, socket: Option<int>)
    requires Conserved(l) && Sound(l) && x in l.holds && l.holds[x].Opening?
    ensures Conserved(OpenSocket(l, conf, x, socket).0) <==> socket.Some? || l.holds[x].group == ""
  {
    var next := OpenSocket(l, conf, x, socket).0;
    var p, g := l.holds[x].port, l.holds[x].group;
    assert PendSound(l, x, x);
    if socket.Some? {
      if g == "" { NoHolderChanged(l, next); } else { HolderHandsOver(l, next, ByProxy(x), ByGroup(g), p); }
    } else if g == "" {
      HolderLosesPort(l, next, ByProxy(x), p);
    } else {
      HolderLeaksPort(l, next, ByProxy(x), p);
    }
  }

  /** Closing a socket or leaving a group conserves the TCP ports: the last member takes over the group's port. */
  lemma CloseConservesPorts(l: Ledger, x: Proxy)
    requires Conserved(l) && Sound(l) && x in l.holds
    ensures Conserved(CloseSocket(l, x))
  {
    var next := CloseSocket(l, x);
    assert PlaceSound(l, x);
    if l.holds[x].Place? {
      var name := l.holds[x].group;
      assert GroupSound(l, name);
      if Remove(l.groups[name].members, x) == [] {
        HolderHandsOver(l, next, ByGroup(name), ByProxy(x), l.groups[name].realPort);
      } else {
        NoHolderChanged(l, next);
      }
    } else {
      NoHolderChanged(l, next);
    }
  }

  lemma ReleaseConservesPorts(l: Ledger, x: Proxy)
    requires Conserved(l) && x in l.holds && l.holds[x].Releasing?
    ensures Conserved(ReleasePort(l, x))
  {
    HolderLosesPort(l, ReleasePort(l, x), ByProxy(x), l.holds[x].port);
  }

  // ----- what an honest operating system prevents -----

  /** The port is in use, but no socket shows it: its owner is opening or closing it, or is a group that asked for port 0. */
  ghost predicate Unwatched(l: Ledger, p: int) {
    || (exists x :: x in l.holds && (l.holds[x].Opening? || l.holds[x].Releasing?) && l.holds[x].port == p)
    || (exists g :: g in l.groups && l.groups[g].members != [] && l.groups[g].realPort == p && l.groups[g].port == 0)
  }

  /** A port without a socket is in use exactly when it is unwatched; only such a port can be granted twice. */
  lemma HonestGrantIsBenign(l: Ledger, p: int)
    requires Conserved(l) && Sound(l) && p !in l.bound.Values
    ensures p in l.used <==> Unwatched(l, p)
  {
    if p in l.used {
      var h :| PortOf(l, h) == Some(p);
      assert SocketSound(l, h);
    }
    if x :| x in l.holds && (l.holds[x].Opening? || l.holds[x].Releasing?) && l.holds[x].port == p {
      assert PortOf(l, ByProxy(x)) == Some(p);
    }
    if g :| g in l.groups && l.groups[g].members != [] && l.groups[g].realPort == p { assert PortOf(l, ByGroup(g)) == Some(p); }
  }

  // ----- the ledger follows the allocator and the group objects -----

  /** What the allocator's answer means for the ledger. */
  function Answer(s: PortState, mid: PortState, acquired: Result<int, PortError>): Grant {
    match acquired case Ok(p) => Got(p) case Err(_) => if mid.used == s.used then Refused else Marked
  }

  /** Acquiring from the allocator is what the first section of a run records. */
  lemma AcquireIsStart(l: Ledger, conf: Conf, x: Proxy, s: PortState, mid: PortState, avail: Oracle, now: int,
                       acquired: Result<int, PortError>, allowed: set<int>)
    requires AsksForPort(l, conf) && s.used.Keys == l.used && Partition(s, allowed)
    requires Acquires(s, mid, conf.name, conf.port, avail, now, acquired)
    ensures var (next, progress) := StartRun(l, conf, x, Answer(s, mid, acquired), true);
            next.used == mid.used.Keys && (progress.AtPort? <==> acquired.Ok?) && (progress.Failed? <==> acquired.Err?)
    ensures acquired.Ok? && conf.port != 0 ==> acquired.value == conf.port
  {
    if acquired.Ok? {
      assert mid == Ports.Grant(s, conf.name, acquired.value, now);
      assert mid.used.Keys == s.used.Keys + {acquired.value};
    } else if mid != s {
      assert mid == Ports.Grant(s, conf.name, 0, now);
      assert mid.used.Keys == s.used.Keys + {0};
      assert 0 in mid.used && 0 !in s.used;
    }
  }

  /** Opening the socket of a proxy without a group is what the second section records. */
  lemma OpenedIsOpen(l: Ledger, conf: Conf, x: Proxy, mid: PortState, s2: PortState, now: int, bound: bool, p: int, r: Result<int, ListenError>)
    requires x in l.holds && l.holds[x] == Opening(p, "") && mid.used.Keys == l.used
    requires Opened(mid, s2, now, bound, Ok(p), r)
    ensures var (next, ok) := OpenSocket(l, conf, x, if bound then Some(p) else None);
            next.used == s2.used.Keys && (ok <==> r.Ok?) && (ok ==> next.holds[x] == Port(r.value))
  {
    assert (mid.used - {p}).Keys == mid.used.Keys - {p};
    assert p !in mid.used ==> mid.used.Keys - {p} == mid.used.Keys;
  }

  /** Listening through a group does to the group and the ports what the sections record, one after the other. */
  lemma ListenIsRun(l: Ledger, conf: Conf, x: Proxy, s: PortState, s2: PortState, avail: Oracle, now: int, bound: bool, socket: int,
                    acquired: Result<int, PortError>, after: TcpGroup<Proxy>, r: Result<int, ListenError>, allowed: set<int>)
    requires conf.tcp && conf.group != "" && s.used.Keys == l.used && Partition(s, allowed)
    requires Listens(GroupAt(l.groups, conf.group), after, s, s2, conf.name, conf.group, conf.groupKey, conf.addr, conf.port,
                     avail, now, bound, acquired, x, r)
    ensures var (mid, progress) := StartRun(l, conf, x, Answer(s, s2, acquired), true);
            var (next, ok) := if progress.AtPort? then OpenSocket(mid, conf, x, if bound then Some(socket) else None)
                              else (mid, progress.Done?);
            next.used == s2.used.Keys && next.groups == l.groups[conf.group := after] && (ok <==> r.Ok?)
  {
    var g := GroupAt(l.groups, conf.group);
    if g.members == [] {
      AcquireIsStart(l, conf, x, s, s2, avail, now, acquired, allowed);
      Overwrite(l.groups, conf.group, g, after);
    } else {
      assert l.groups[conf.group := l.groups[conf.group]] == l.groups;
    }
  }

  /** Releasing a port in the allocator is what the last section of closing records. */
  lemma ReleaseIsRelease(l: Ledger, x: Proxy, s: PortState, now: int)
    requires x in l.holds && l.holds[x].Releasing? && s.used.Keys == l.used
    ensures ReleasePort(l, x).used == Released(s, l.holds[x].port, now).used.Keys
  {
    var p := l.holds[x].port;
    assert (s.used - {p}).Keys == s.used.Keys - {p};
    assert p !in s.used ==> s.used.Keys - {p} == s.used.Keys;
  }

  /** Closing a group's listener does to the groups and the ports what the sections record, one after the other. */
  lemma CloseListenerIsClose(l: Ledger, x: Proxy, s: PortState, now: int)
    requires Sound(l) && x in l.holds && l.holds[x].Place? && s.used.Keys == l.used
    ensures l.holds[x].group in l.groups
    ensures var (groups, after) := Closed(l.groups, s, l.holds[x].group, x, now);
            var mid := CloseSocket(l, x);
            var next := if x in mid.holds then ReleasePort(mid, x) else mid;
            next.groups == groups && next.used == after.used.Keys
  {
    assert PlaceSound(l, x);
    var mid := CloseSocket(l, x);
    if x in mid.holds { ReleaseIsRelease(mid, x, s, now); }
  }
}
