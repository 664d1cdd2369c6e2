/**
 * TCP proxies on the server (server/proxy/tcp.go): a proxy acquires a port of its own, or listens
 * through a group, and gives back what it has when it closes.
 */
module TcpProxies {
  import opened Prelude
  import opened Ports
  import opened TcpGroups

  /** What a proxy listens on: a socket of its own, or its place in a group. */
  datatype Listener = Socket(port: int) | Member(ln: TCPGroupListener)

  /** Opening the acquired port: it is released again when the socket cannot be opened. */
  ghost predicate Opened(mid: PortState, s2: PortState, now: int, bound: bool, acquired: Result<int, PortError>, r: Result<int, ListenError>) {
    match acquired
    case Err(e) => s2 == mid && r == Err(PortFailed(e))
    case Ok(p) => if bound then s2 == mid && r == Ok(p) else s2 == Released(mid, p, now) && r == Err(BindFailed)
  }

  /** Running without a group: a port is acquired and opened. */
  ghost predicate RunsAlone(s: PortState, s2: PortState, name: string, port: int, avail: Oracle, now: int, bound: bool,
                            acquired: Result<int, PortError>, r: Result<int, ListenError>)
  {
    exists mid :: Acquires(s, mid, name, port, avail, now, acquired) && Opened(mid, s2, now, bound, acquired, r)
  }

  /**
   * A run without a group takes one port if it succeeds, and closing leaves the ports as they were exactly
   * when that port was not in use. A failed run leaves them as they were, unless the socket failed on a
   * port in use, or the acquisition on port 0.
   */
  lemma RunThenClose(s: PortState, s2: PortState, name: string, port: int, avail: Oracle, now: int, bound: bool,
                     acquired: Result<int, PortError>, r: Result<int, ListenError>, allowed: set<int>, later: int)
    requires RunsAlone(s, s2, name, port, avail, now, bound, acquired, r) && Partition(s, allowed)
    ensures match r
            case Ok(p) =>
              && s2.used == s.used[p := name]
              && (Released(s2, p, later).used == s.used && Released(s2, p, later).free == s.free <==> p !in s.used)
            case Err(_) =>
              if acquired.Ok? then s2.used == s.used && s2.free == s.free <==> acquired.value !in s.used
              else s2 == s || (TakesZero(s, name, port, avail) && s2 == Grant(s, name, 0, now))
  {
    var mid :| Acquires(s, mid, name, port, avail, now, acquired) && Opened(mid, s2, now, bound, acquired, r);
    AcquireTakes(s, mid, name, port, avail, now, acquired, allowed);
    if acquired.Ok? {
      AcquireThenRelease(s, mid, name, port, avail, now, acquired.value, allowed, if bound then later else now);
    }
  }

  class TCPProxy {
    const name: string
    const group: string
    const groupKey: string
    const addr: string
    const groupCtl: TCPGroupCtl
    var remotePort: int
    var realBindPort: int
    var listeners: seq<Listener>

    constructor (name: string, group: string, groupKey: string, addr: string, remotePort: int, groupCtl: TCPGroupCtl)
      ensures this.name == name && this.group == group && this.groupKey == groupKey && this.addr == addr
      ensures this.groupCtl == groupCtl && this.remotePort == remotePort && listeners == []
    {
      this.name, this.group, this.groupKey, this.addr, this.groupCtl := name, group, groupKey, addr, groupCtl;
      this.remotePort, realBindPort, listeners := remotePort, 0, [];
    }

    ghost predicate Valid()
      reads groupCtl, groupCtl.groups.Values, groupCtl.portManager, groupCtl.portManager.reservedPorts.Values, groupCtl.portManager.usedPorts.Values
    {
      groupCtl.Valid() && groupCtl.portManager.Valid()
    }

    method Run(avail: Oracle, now: int, bound: bool)
      returns (r: Result<int, ListenError>, ghost acquired: Result<int, PortError>, ghost ln: Option<TCPGroupListener>,
               ghost after: TcpGroup<TCPGroupListener>)
      requires Valid()
      modifies this, groupCtl, groupCtl.groups.Values, groupCtl.portManager, groupCtl.portManager.usedPorts.Values
      ensures Valid()
      ensures group == "" ==>
                && RunsAlone(old(groupCtl.portManager.View()), groupCtl.portManager.View(), name, old(remotePort), avail, now, bound, acquired, r)
                && groupCtl.States() == old(groupCtl.States())
      ensures group != "" ==>
                && ln.Some?
                && Listens(GroupAt(old(groupCtl.States()), group), after, old(groupCtl.portManager.View()), groupCtl.portManager.View(),
                           name, group, groupKey, addr, old(remotePort), avail, now, bound, acquired, ln.value, r)
                && groupCtl.States() == old(groupCtl.States())[group := after]
                && (r.Ok? ==> group in groupCtl.groups && ln.value in groupCtl.groups[group].lns)
      // The proxy remembers the port and what it listens on.
      ensures r.Err? ==> listeners == old(listeners)
      ensures r.Ok? ==> realBindPort == remotePort == r.value
      ensures r.Ok? ==> listeners == old(listeners) + [if ln.Some? then Member(ln.value) else Socket(r.value)]
      ensures ln.Some? <==> group != ""
    {
      if group != "" {
        var l: TCPGroupListener;
        l, r, acquired, after := groupCtl.Listen(name, group, groupKey, addr, remotePort, avail, now, bound);
        ln := Some(l);
        if r.Ok? {
          Remember(r.value, Member(l));
        }
      } else {
        ln, after := None, Blank();
        var got := Acquire(avail, now);
        acquired := got;
        r := Open(got, now, bound);
      }
    }

    method Acquire(avail: Oracle, now: int) returns (got: Result<int, PortError>)
      requires Valid()
      modifies groupCtl.portManager
      ensures Valid() && groupCtl.States() == old(groupCtl.States())
      ensures Acquires(old(groupCtl.portManager.View()), groupCtl.portManager.View(), name, remotePort, avail, now, got)
      ensures fresh(groupCtl.portManager.usedPorts.Values - old(groupCtl.portManager.usedPorts.Values))
    {
      got := groupCtl.portManager.Acquire(name, remotePort, avail, now);
      assert groupCtl.States() == old(groupCtl.States());
    }

    method Release(port: int, now: int)
      requires Valid()
      modifies groupCtl.portManager, groupCtl.portManager.usedPorts.Values
      ensures Valid() && groupCtl.States() == old(groupCtl.States())
      ensures groupCtl.portManager.View() == Released(old(groupCtl.portManager.View()), port, now)
    {
      groupCtl.portManager.Release(port, now);
      assert groupCtl.States() == old(groupCtl.States());
    }

    /** Opens the socket on an acquired port, which is released if that fails. */
    method Open(got: Result<int, PortError>, now: int, bound: bool) returns (r: Result<int, ListenError>)
      requires Valid()
      modifies this, groupCtl.portManager, groupCtl.portManager.usedPorts.Values
      ensures Valid() && groupCtl.States() == old(groupCtl.States())
      ensures Opened(old(groupCtl.portManager.View()), groupCtl.portManager.View(), now, bound, got, r)
      ensures r.Err? ==> listeners == old(listeners)
      ensures r.Ok? ==> realBindPort == remotePort == r.value && listeners == old(listeners) + [Socket(r.value)]
    {
      if got.Err? {
        return Err(PortFailed(got.error));
      }
      if !bound {
        Release(got.value, now);
        return Err(BindFailed);
      }
      Remember(got.value, Socket(got.value));
      r := Ok(got.value);
    }

    method Remember(port: int, l: Listener)
      requires Valid()
      modifies this
      ensures Valid() && groupCtl.States() == old(groupCtl.States())
      ensures groupCtl.portManager.View() == old(groupCtl.portManager.View())
      ensures realBindPort == remotePort == port && listeners == old(listeners) + [l]
    {
      realBindPort := port;
      listeners := listeners + [l];
      remotePort := realBindPort;
      assert groupCtl.States() == old(groupCtl.States());
      assert groupCtl.portManager.View() == old(groupCtl.portManager.View());
    }

    /** Closes what a successful run opened: the socket and its port, or the place in the group. */
    method Close(now: int)
      requires Valid() && |listeners| == 1
      requires if group == "" then listeners[0].Socket?
               else listeners[0].Member? && group in groupCtl.groups && listeners[0].ln in groupCtl.groups[group].lns
      modifies groupCtl, groupCtl.groups.Values, groupCtl.portManager, groupCtl.portManager.usedPorts.Values
      ensures Valid()
      ensures group == "" ==> groupCtl.States() == old(groupCtl.States())
      ensures group == "" ==> groupCtl.portManager.View() == Released(old(groupCtl.portManager.View()), realBindPort, now)
      ensures group != "" ==> (groupCtl.States(), groupCtl.portManager.View()) ==
                              Closed(old(groupCtl.States()), old(groupCtl.portManager.View()), group, listeners[0].ln, now)
    {
      if listeners[0].Member? {
        groupCtl.CloseListener(group, listeners[0].ln, now);
      }
      if group == "" {
        Release(realBindPort, now);
      }
    }
  }
}
