/**
 * Load-balancing groups of TCP proxies (server/group/tcp.go): the first listener of a group acquires
 * the port, later ones share it, and the last one to close releases it.
 */
module TcpGroups {
  import opened Prelude
  import opened Ports

  datatype ListenError = PortFailed(reason: PortError) | BindFailed | ParamsInvalid | DifferentPort | AuthFailed

  /** The fields of a group as a value, with its listeners in order. */
  datatype TcpGroup<M> = TcpGroup(group: string, groupKey: string, addr: string, port: int, realPort: int, members: seq<M>)

  function Blank<M>(): TcpGroup<M> { TcpGroup("", "", "", 0, 0, []) }

  /** A listener joins a group that has listeners already: everything must agree with the first one. */
  function Join<M>(g: TcpGroup<M>, group: string, groupKey: string, addr: string, port: int, m: M): Result<TcpGroup<M>, ListenError> {
    if g.group != group || g.addr != addr then Err(ParamsInvalid)
    else if g.port != port then Err(DifferentPort)
    else if g.groupKey != groupKey then Err(AuthFailed)
    else Ok(g.(members := g.members + [m]))
  }

  /** A listener is accepted exactly if group, address, port and key are those of the group; the errors come in this order. */
  lemma JoinAnswers<M>(g: TcpGroup<M>, group: string, groupKey: string, addr: string, port: int, m: M)
    ensures var r := Join(g, group, groupKey, addr, port, m);
            var here := g.group == group && g.addr == addr;
            && (r == Err(ParamsInvalid) <==> !here)
            && (r == Err(DifferentPort) <==> here && g.port != port)
            && (r == Err(AuthFailed) <==> here && g.port == port && g.groupKey != groupKey)
            && (r.Ok? <==> here && g.port == port && g.groupKey == groupKey)
            && (r.Ok? ==> r.value == TcpGroup(g.group, g.groupKey, g.addr, g.port, g.realPort, g.members + [m]))
  {
  }

  function Remove<M(==)>(members: seq<M>, m: M): seq<M> {
    if members == [] then []
    else if members[0] == m then members[1..]
    else [members[0]] + Remove(members[1..], m)
  }

  lemma {:induction false} RemoveElements<M>(members: seq<M>, m: M)
    requires forall i, j :: 0 <= i < j < |members| ==> members[i] != members[j]
    ensures forall x :: x in Remove(members, m) <==> x in members && x != m
    ensures var left := Remove(members, m); forall i, j :: 0 <= i < j < |left| ==> left[i] != left[j]
    ensures m in members ==> |Remove(members, m)| == |members| - 1
  {
    if members != [] {
      RemoveElements(members[1..], m);
      assert members == [members[0]] + members[1..];
      assert members[0] !in members[1..];
      assert members[0] !in Remove(members[1..], m);
    }
  }

  /** Cutting a listener out leaves the others in their order. */
  lemma {:induction false} RemoveCuts<M>(before: seq<M>, m: M, behind: seq<M>)
    requires m !in before
    ensures Remove(before + [m] + behind, m) == before + behind
  {
    var all := before + [m] + behind;
    if before != [] {
      assert all[1..] == before[1..] + [m] + behind;
      RemoveCuts(before[1..], m, behind);
      assert before + behind == [before[0]] + (before[1..] + behind);
    } else {
      assert all[1..] == behind;
    }
  }

  /**
   * What `Listen` does with a group and the ports. `acquired` is the answer of the allocator, asked only
   * by the first listener, and `bound` says whether the socket could be opened. When it could not, the
   * acquired port is not given back.
   */
  ghost predicate Listens<M>(g: TcpGroup<M>, g2: TcpGroup<M>, s: PortState, s2: PortState, proxyName: string, group: string,
                             groupKey: string, addr: string, port: int, avail: Oracle, now: int, bound: bool,
                             acquired: Result<int, PortError>, m: M, r: Result<int, ListenError>)
  {
    if g.members == [] then
      && Acquires(s, s2, proxyName, port, avail, now, acquired)
      && match acquired
         case Err(e) => g2 == g && r == Err(PortFailed(e))
         case Ok(p) =>
           if !bound then g2 == g && r == Err(BindFailed)
           else g2 == TcpGroup(group, groupKey, addr, port, p, [m]) && r == Ok(p)
    else
      && s2 == s
      && match Join(g, group, groupKey, addr, port, m)
         case Err(e) => g2 == g && r == Err(e)
         case Ok(joined) => g2 == joined && r == Ok(g.realPort)
  }

  /** Stands for one proxy's place in a group. */
  class TCPGroupListener {
    const groupName: string
    constructor (groupName: string)
      ensures this.groupName == groupName
    {
      this.groupName := groupName;
    }
  }

  class TCPGroup {
    var group: string
    var groupKey: string
    var addr: string
    var port: int
    var realPort: int
    var lns: seq<TCPGroupListener>

    /** The name under which the controller keeps this group. */
    ghost const slot: string

    ghost function State(): TcpGroup<TCPGroupListener>
      reads this
    {
      TcpGroup(group, groupKey, addr, port, realPort, lns)
    }

    constructor (ghost slot: string)
      ensures State() == Blank() && this.slot == slot
    {
      group, groupKey, addr, port, realPort, lns := "", "", "", 0, 0, [];
      this.slot := slot;
    }

    method Listen(portManager: Manager, proxyName: string, group: string, groupKey: string, addr: string, port: int,
                  avail: Oracle, now: int, bound: bool)
      returns (ln: TCPGroupListener, r: Result<int, ListenError>, ghost acquired: Result<int, PortError>)
      requires portManager.Valid()
      modifies this, portManager
      ensures portManager.Valid() && fresh(ln) && (r.Ok? ==> ln in lns)
      ensures Listens(old(State()), State(), old(portManager.View()), portManager.View(), proxyName, group, groupKey,
                      addr, port, avail, now, bound, acquired, ln, r)
    {
      ln := new TCPGroupListener(group);
      acquired := Err(NoAvailablePort);
      if |lns| == 0 {
        // Whoever comes first acquires the port for the group.
        var got := portManager.Acquire(proxyName, port, avail, now);
        acquired := got;
        r := Open(got, group, groupKey, addr, port, bound, ln);
      } else {
        r := Append(group, groupKey, addr, port, ln);
      }
    }

    method Open(got: Result<int, PortError>, group: string, groupKey: string, addr: string, port: int, bound: bool, ln: TCPGroupListener)
      returns (r: Result<int, ListenError>)
      requires lns == []
      modifies this
      ensures match got
              case Err(e) => State() == old(State()) && r == Err(PortFailed(e))
              case Ok(p) =>
                if !bound then State() == old(State()) && r == Err(BindFailed)
                else State() == TcpGroup(group, groupKey, addr, port, p, [ln]) && r == Ok(p)
    {
      if got.Err? {
        return Err(PortFailed(got.error));
      }
      if !bound {
        return Err(BindFailed);
      }
      this.group := group;
      this.groupKey := groupKey;
      this.addr := addr;
      this.port := port;
      this.realPort := got.value;
      lns := lns + [ln];
      r := Ok(realPort);
    }

    method Append(group: string, groupKey: string, addr: string, port: int, ln: TCPGroupListener) returns (r: Result<int, ListenError>)
      modifies this
      ensures match Join(old(State()), group, groupKey, addr, port, ln)
              case Err(e) => State() == old(State()) && r == Err(e)
              case Ok(joined) => State() == joined && r == Ok(old(realPort))
    {
      // Later listeners must agree with the first.
      if this.group != group || this.addr != addr {
        return Err(ParamsInvalid);
      }
      if this.port != port {
        return Err(DifferentPort);
      }
      if this.groupKey != groupKey {
        return Err(AuthFailed);
      }
      lns := lns + [ln];
      r := Ok(realPort);
    }

    /** The scan that cuts a listener out of the list. */
    static method Cut(all: seq<TCPGroupListener>, ln: TCPGroupListener) returns (left: seq<TCPGroupListener>)
      ensures left == Remove(all, ln)
    {
      for i := 0 to |all|
        invariant Remove(all, ln) == all[..i] + Remove(all[i..], ln)
      {
        assert all[i..][1..] == all[i + 1..];
        if all[i] == ln {
          return all[..i] + all[i + 1..];
        }
        assert all[..i] + [all[i]] == all[..i + 1];
      }
      left := all;
    }

    method Detach(ln: TCPGroupListener)
      modifies this
      ensures State() == old(State()).(members := Remove(old(lns), ln))
    {
      lns := Cut(lns, ln);
    }
  }

  /** Groups by name; a name without a group counts as a blank group. */
  function GroupAt<M>(groups: map<string, TcpGroup<M>>, group: string): TcpGroup<M> {
    if group in groups then groups[group] else Blank()
  }

  /** Closing a listener: the group, and with its last listener the port and the group itself, go away. */
  function Closed<M(==)>(groups: map<string, TcpGroup<M>>, s: PortState, group: string, m: M, now: int)
    : (map<string, TcpGroup<M>>, PortState)
    requires group in groups
  {
    var left := groups[group].(members := Remove(groups[group].members, m));
    if left.members == [] then (groups - {left.group}, Released(s, left.realPort, now))
    else (groups[group := left], s)
  }

  /**
   * What listening answers. The first listener of a group succeeds exactly if it gets a port and can open
   * its socket, and then the group is the one it describes, on that port. A later one shares that port,
   * changes no port, and succeeds exactly if everything agrees.
   */
  lemma ListenAnswers<M>(g: TcpGroup<M>, g2: TcpGroup<M>, s: PortState, s2: PortState, proxyName: string, group: string,
                         groupKey: string, addr: string, port: int, avail: Oracle, now: int, bound: bool,
                         acquired: Result<int, PortError>, m: M, r: Result<int, ListenError>)
    requires Listens(g, g2, s, s2, proxyName, group, groupKey, addr, port, avail, now, bound, acquired, m, r)
    ensures r.Err? ==> g2 == g
    ensures g.members == [] ==>
              && (r.Ok? <==> acquired.Ok? && bound)
              && (r.Ok? ==> r == Ok(acquired.value) && avail(acquired.value))
              && (r.Ok? ==> g2 == TcpGroup(group, groupKey, addr, port, acquired.value, [m]))
    ensures g.members != [] ==>
              && s2 == s
              && (r.Ok? <==> g.group == group && g.addr == addr && g.port == port && g.groupKey == groupKey)
              && (r.Ok? ==> r == Ok(g.realPort) && g2.members == g.members + [m] && g2.realPort == g.realPort)
  {
  }

  /** An acquired port that is released again leaves the used and the free ports as they were exactly when it was not in use. */
  lemma AcquireThenRelease(s: PortState, t: PortState, name: string, port: int, avail: Oracle, now: int, p: int, allowed: set<int>, later: int)
    requires Acquires(s, t, name, port, avail, now, Ok(p)) && Partition(s, allowed)
    ensures Released(t, p, later).used == s.used && Released(t, p, later).free == s.free <==> p !in s.used
  {
    assert t == Grant(s, name, p, now);
    assert p in allowed && p !in Released(t, p, later).used;
    if p !in s.used { assert s.used[p := name] - {p} == s.used; }
  }

  /**
   * Listening through a group and closing the listener again leaves the other groups and the other
   * listeners of the group as they were; a group without other listeners is gone. The ports are as they
   * were exactly when the port acquired for a new group was not in use.
   */
  lemma ListenThenClose<M>(groups: map<string, TcpGroup<M>>, after: TcpGroup<M>, s: PortState, s2: PortState, proxyName: string,
                           group: string, groupKey: string, addr: string, port: int, avail: Oracle, now: int, bound: bool,
                           acquired: Result<int, PortError>, m: M, r: Result<int, ListenError>, allowed: set<int>, later: int)
    requires Listens(GroupAt(groups, group), after, s, s2, proxyName, group, groupKey, addr, port, avail, now, bound, acquired, m, r)
    requires r.Ok? && m !in GroupAt(groups, group).members && Partition(s, allowed)
    ensures var (rest, t) := Closed(groups[group := after], s2, group, m, later);
            && rest == (if GroupAt(groups, group).members == [] then groups - {group} else groups)
            && (t.used == s.used && t.free == s.free <==> GroupAt(groups, group).members != [] || r.value !in s.used)
  {
    var g := GroupAt(groups, group);
    RemoveCuts(g.members, m, []);
    assert g.members + [m] + [] == g.members + [m] && g.members + [] == g.members;
    if g.members == [] {
      AcquireThenRelease(s, s2, proxyName, port, avail, now, r.value, allowed, later);
      assert [] + [m] == [m];
      assert groups[group := after] - {group} == groups - {group};
    } else {
      assert groups[group := after][group := g] == groups;
    }
  }

  class TCPGroupCtl {
    var groups: map<string, TCPGroup>
    const portManager: Manager

    ghost function States(): map<string, TcpGroup<TCPGroupListener>>
      reads this, groups.Values
    {
      map g | g in groups :: groups[g].State()
    }

    /** A group with listeners is kept under its own name. */
    ghost predicate Holds(name: string, g: TCPGroup)
      reads g
    {
      g.slot == name && (g.lns != [] ==> g.group == name)
    }

    ghost predicate Valid()
      reads this, groups.Values
    {
      forall g :: g in groups ==> Holds(g, groups[g])
    }

    constructor (portManager: Manager)
      ensures Valid() && States() == map[] && this.portManager == portManager && groups == map[]
    {
      groups := map[];
      this.portManager := portManager;
    }

    /** Changing one group object changes the state of that group alone. */
    twostate lemma OthersUnchanged(group: string)
      requires old(Valid()) && groups == old(groups) && group in groups
      requires forall o: TCPGroup :: o in groups.Values && o != groups[group] ==> unchanged(o)
      requires Holds(group, groups[group])
      ensures Valid()
      ensures States() == old(States())[group := groups[group].State()]
    {
      forall h | h in groups && h != group ensures groups[h].State() == old(groups[h].State()) && Holds(h, groups[h]) {
        assert groups[h] in groups.Values && Holds(group, groups[group]);
      }
    }

    method Install(group: string, g: TCPGroup)
      requires Valid() && group !in groups && Holds(group, g)
      modifies this
      ensures Valid() && groups == old(groups)[group := g]
      ensures States() == old(States())[group := old(g.State())]
    {
      groups := groups[group := g];
      assert forall h :: h in old(groups) ==> groups[h] == old(groups)[h];
    }

    method FindOrCreate(group: string) returns (g: TCPGroup)
      requires Valid() && portManager.Valid()
      modifies this
      ensures portManager.Valid() && portManager.View() == old(portManager.View())
      ensures Valid() && fresh(groups.Values - old(groups.Values))
      ensures group in groups && groups[group] == g && g.State() == GroupAt(old(States()), group)
      ensures States() == old(States())[group := GroupAt(old(States()), group)]
    {
      if group !in groups {
        var created := new TCPGroup(group);
        Install(group, created);
      }
      g := groups[group];
    }

    method ListenAt(g: TCPGroup, proxyName: string, group: string, groupKey: string, addr: string, port: int,
                    avail: Oracle, now: int, bound: bool)
      returns (ln: TCPGroupListener, r: Result<int, ListenError>, ghost acquired: Result<int, PortError>)
      requires Valid() && portManager.Valid() && group in groups && groups[group] == g
      modifies g, portManager
      ensures Valid() && portManager.Valid() && fresh(ln) && (r.Ok? ==> ln in g.lns)
      ensures States() == old(States())[group := g.State()]
      ensures Listens(old(g.State()), g.State(), old(portManager.View()), portManager.View(), proxyName, group, groupKey,
                      addr, port, avail, now, bound, acquired, ln, r)
    {
      ln, r, acquired := g.Listen(portManager, proxyName, group, groupKey, addr, port, avail, now, bound);
      OthersUnchanged(group);
    }

    /** Listening through the controller changes the named group, to `after`, and the ports, and nothing else. */
    method Listen(proxyName: string, group: string, groupKey: string, addr: string, port: int,
                  avail: Oracle, now: int, bound: bool)
      returns (ln: TCPGroupListener, r: Result<int, ListenError>, ghost acquired: Result<int, PortError>,
               ghost after: TcpGroup<TCPGroupListener>)
      requires Valid() && portManager.Valid()
      modifies this, groups.Values, portManager
      ensures Valid() && portManager.Valid() && fresh(ln) && fresh(groups.Values - old(groups.Values))
      ensures group in groups && (r.Ok? ==> ln in groups[group].lns)
      ensures States() == old(States())[group := after]
      ensures Listens(GroupAt(old(States()), group), after, old(portManager.View()), portManager.View(), proxyName,
                      group, groupKey, addr, port, avail, now, bound, acquired, ln, r)
    {
      ghost var before := States();
      var g := FindOrCreate(group);
      ghost var blank := g.State();
      ln, r, acquired := ListenAt(g, proxyName, group, groupKey, addr, port, avail, now, bound);
      after := g.State();
      Overwrite(before, group, blank, after);
    }

    method DetachAt(g: TCPGroup, group: string, ln: TCPGroupListener)
      requires Valid() && group in groups && groups[group] == g
      modifies g
      ensures Valid()
      ensures g.State() == old(g.State()).(members := Remove(old(g.lns), ln))
      ensures States() == old(States())[group := g.State()]
    {
      assert Holds(group, g);
      g.Detach(ln);
      OthersUnchanged(group);
    }

    method RemoveGroup(group: string)
      requires Valid()
      modifies this
      ensures Valid() && groups.Values <= old(groups.Values)
      ensures States() == old(States()) - {group}
    {
      groups := groups - {group};
    }

    /** With the last listener the port is released and the group forgotten. */
    method Shut(g: TCPGroup, group: string, now: int)
      requires Valid() && portManager.Valid() && group in groups && groups[group] == g
      modifies this, portManager, portManager.usedPorts.Values
      ensures Valid() && portManager.Valid() && groups.Values <= old(groups.Values)
      ensures States() == old(States()) - {old(g.group)}
      ensures portManager.View() == Released(old(portManager.View()), old(g.realPort), now)
    {
      ghost var states := States();
      portManager.Release(g.realPort, now);
      assert States() == states;
      RemoveGroup(g.group);
    }

    /** Closing a listener of a group. */
    method CloseListener(group: string, ln: TCPGroupListener, now: int)
      requires Valid() && portManager.Valid() && group in groups && ln in groups[group].lns
      modifies this, groups.Values, portManager, portManager.usedPorts.Values
      ensures Valid() && portManager.Valid() && groups.Values <= old(groups.Values)
      ensures (States(), portManager.View()) == Closed(old(States()), old(portManager.View()), group, ln, now)
    {
      ghost var before, ports := States(), portManager.View();
      var g := groups[group];
      assert Holds(group, g);
      DetachAt(g, group, ln);
      assert portManager.View() == ports;
      if |g.lns| == 0 {
        ghost var left := g.State();
        Shut(g, group, now);
        assert before[group := left] - {group} == before - {group};
      }
    }
  }
}
