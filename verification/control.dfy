/**
 * One client session on the server (server/control.go) and the name registry it shares with the other
 * sessions (server/proxy/proxy.go). Between two locked sections the registry may have been changed by
 * other sessions.
 */
module Controls {
  import opened Prelude
  import opened ServerLedgers
  import opened ServerRuns

  datatype RegisterError = NotPrepared | TooManyPorts | NameExists | RunFailed | NameTaken

  // ----- the objects below take the steps of the server's runs -----

  /** The sections of a registration up to the proxy's run, as `RegisterProxy` leaves the session. */
  lemma RegisterUntilRun(v: Server, s: nat, conf: Conf, id: nat, grant: Grant, works: bool, socket: Option<int>)
    requires s in v.sessions && v.sessions[s].stage.Idle? && id !in v.ids
    requires CanStart(v.ledger, conf, Proxy(id, s, conf.name, conf.ports), grant)
    requires var (mid, progress) := StartRun(v.ledger, conf, Proxy(id, s, conf.name, conf.ports), grant, works);
             progress.AtPort? ==> Possible(mid, conf, Proxy(id, s, conf.name, conf.ports), socket)
    ensures var x := Proxy(id, s, conf.name, conf.ports);
            var progress := StartRun(v.ledger, conf, x, grant, works).1;
            var ran := progress.Done? || (progress.AtPort? && socket.Some?);
            var next := Step(Step(Step(Step(v, Begin(s, conf)), CheckName(s)), Run(s, id, grant, works)), Open(s, socket));
            && next.registry == v.registry && s in next.sessions
            && next.sessions[s] ==
               if (v.max > 0 && v.sessions[s].portsUsed + conf.ports > v.max) || conf.name in v.registry || !ran then v.sessions[s]
               else Reserve(v.max, v.sessions[s], conf.ports, Ran(x))
  {
    var x := Proxy(id, s, conf.name, conf.ports);
    var v1 := Step(v, Begin(s, conf));
    var v2 := Step(v1, CheckName(s));
    assert v2.ledger == v.ledger && v2.ids == v.ids && v2.registry == v.registry && v2.max == v.max;
    assert v2.sessions[s].stage in {Idle, Checked(conf)};
    if v2.sessions[s].stage == Checked(conf) {
      assert v2.sessions[s] == Reserve(v.max, v.sessions[s], conf.ports, Checked(conf));
      RunAndOpen(v2, s, conf, id, grant, works, socket);
    }
  }

  lemma RunAndOpen(v: Server, s: nat, conf: Conf, id: nat, grant: Grant, works: bool, socket: Option<int>)
    requires s in v.sessions && v.sessions[s].stage == Checked(conf) && id !in v.ids
    requires CanStart(v.ledger, conf, Proxy(id, s, conf.name, conf.ports), grant)
    requires var (mid, progress) := StartRun(v.ledger, conf, Proxy(id, s, conf.name, conf.ports), grant, works);
             progress.AtPort? ==> Possible(mid, conf, Proxy(id, s, conf.name, conf.ports), socket)
    ensures var x := Proxy(id, s, conf.name, conf.ports);
            var progress := StartRun(v.ledger, conf, x, grant, works).1;
            var ran := progress.Done? || (progress.AtPort? && socket.Some?);
            var next := Step(Step(v, Run(s, id, grant, works)), Open(s, socket));
            && next.registry == v.registry && s in next.sessions
            && next.sessions[s] == if ran then v.sessions[s].(stage := Ran(x)) else GiveBack(v.max, v.sessions[s], conf.ports, Idle)
  {
    var x := Proxy(id, s, conf.name, conf.ports);
    var v1 := Step(v, Run(s, id, grant, works));
    assert v1 == RunStep(v, s, conf, id, grant, works);
    if v1.sessions[s].stage.Listening? {
      assert Step(v1, Open(s, socket)) == OpenStep(v1, s, conf, x, socket);
    }
  }

  /** The sections after the run: the name is added and the proxy published, or the proxy of a lost race closed. */
  lemma RegisterAfterRun(v: Server, s: nat, sess: Session, x: Proxy)
    requires s in v.sessions && v.sessions[s] == Reserve(v.max, sess, x.ports, Ran(x)) && sess.stage.Idle?
    requires x in v.ledger.holds && !v.ledger.holds[x].Opening? && !v.ledger.holds[x].Releasing?
    ensures x.name in v.registry ==>
              var next := Step(Step(v, AddName(s)), Release(s));
              s in next.sessions && next.registry == v.registry && next.sessions[s] == sess && x !in next.ledger.holds
    ensures x.name !in v.registry ==>
              var next := Step(Step(v, AddName(s)), Publish(s));
              && s in next.sessions && next.registry == v.registry[x.name := x] && next.ledger == v.ledger
              && next.sessions[s] == Reserve(v.max, sess, x.ports, Idle).(proxies := sess.proxies[x.name := x])
  {
    assert Step(v, AddName(s)) == AddNameStep(v, s, x);
    CloseHolds(v.ledger, x, x);
  }

  /** The sections of closing a proxy, as `CloseProxy` leaves the session and the registry. */
  lemma CloseAndUnregister(v: Server, s: nat, name: string)
    requires s in v.sessions && v.sessions[s].stage.Idle? && name in v.sessions[s].proxies
    requires var x := v.sessions[s].proxies[name];
             x in v.ledger.holds && !v.ledger.holds[x].Opening? && !v.ledger.holds[x].Releasing?
    ensures var x := v.sessions[s].proxies[name];
            var sess := v.sessions[s].(proxies := v.sessions[s].proxies - {name});
            var next := Step(Step(Step(v, Close(s, name)), Release(s)), Unregister(s));
            && next.registry == v.registry - {x.name} && x !in next.ledger.holds
            && s in next.sessions && next.sessions[s] == GiveBack(v.max, sess, x.ports, Idle)
  {
    var x := v.sessions[s].proxies[name];
    assert Step(v, Close(s, name)) == CloseStep(v, s, x, name);
    CloseHolds(v.ledger, x, x);
  }

  /** `proxy.Manager`: the global registry of proxy names. */
  class ProxyManager {
    var pxys: map<string, Proxy>

    constructor ()
      ensures pxys == map[]
    {
      pxys := map[];
    }

    method Add(name: string, pxy: Proxy) returns (added: bool)
      modifies this
      ensures added <==> name !in old(pxys)
      ensures pxys == if added then old(pxys)[name := pxy] else old(pxys)
    {
      if name in pxys {
        return false;
      }
      pxys := pxys[name := pxy];
      return true;
    }

    method Exist(name: string) returns (known: bool)
      ensures known <==> name in pxys
    {
      known := name in pxys;
    }

    method Del(name: string)
      modifies this
      ensures pxys == old(pxys) - {name}
    {
      pxys := pxys - {name};
    }

    /** What other sessions made of the registry while this one was between two sections. */
    method Interfere(others: map<string, Proxy>)
      modifies this
      ensures pxys == others
    {
      pxys := others;
    }
  }

  class Control {
    const session: nat
    const maxPortsPerClient: int
    const pxyManager: ProxyManager
    var portsUsedNum: int
    var proxies: map<string, Proxy>
    var runID: string
    /** The shutdown of the whole session has begun. */
    var closing: bool

    /** The section the session is in. */
    ghost var stage: Stage

    ghost function State(): Session
      reads this
    {
      Session(portsUsedNum, proxies, stage)
    }

    constructor (session: nat, runID: string, maxPortsPerClient: int, pxyManager: ProxyManager)
      ensures State() == Session(0, map[], Idle) && this.session == session && this.runID == runID && !closing
      ensures this.maxPortsPerClient == maxPortsPerClient && this.pxyManager == pxyManager
    {
      this.runID, closing := runID, false;
      this.session, this.maxPortsPerClient, this.pxyManager := session, maxPortsPerClient, pxyManager;
      portsUsedNum, proxies, stage := 0, map[], Idle;
    }

    /** Another connection of the same client took over: this one forgets its run id and shuts down. */
    method Replaced()
      modifies this`runID, this`closing
      ensures runID == "" && closing
    {
      runID := "";
      closing := true;
    }

    /** The quota section: counts the ports, unless that exceeds the limit. */
    method ReservePorts(conf: Conf) returns (ok: bool)
      requires stage.Idle?
      modifies this
      ensures ok <==> !(maxPortsPerClient > 0 && old(portsUsedNum) + conf.ports > maxPortsPerClient)
      ensures State() == if ok then Reserve(maxPortsPerClient, old(State()), conf.ports, Reserved(conf)) else old(State())
    {
      if maxPortsPerClient > 0 {
        if portsUsedNum + conf.ports > maxPortsPerClient {
          return false;
        }
        portsUsedNum := portsUsedNum + conf.ports;
      }
      stage := Reserved(conf);
      return true;
    }

    /** The deferred section after an error. */
    method ReturnPorts(ports: nat)
      modifies this
      ensures State() == GiveBack(maxPortsPerClient, old(State()), ports, Idle)
    {
      if maxPortsPerClient > 0 {
        portsUsedNum := portsUsedNum - ports;
      }
      stage := Idle;
    }

    /**
     * `RegisterProxy`. `prepared` says whether the remote check, the parsing of the message and the making
     * of the proxy succeed, `ran` whether its `Run` does; `between` is the registry as the other sessions
     * left it when this session comes to add the name. When the answer is `NameTaken`, the proxy is to be
     * closed.
     */
    method RegisterProxy(conf: Conf, pxy: Proxy, prepared: bool, ran: bool, between: map<string, Proxy>) returns (r: Result<Proxy, RegisterError>)
      requires stage.Idle? && pxy.name == conf.name && pxy.ports == conf.ports
      modifies this, pxyManager
      ensures r == (if !prepared then Err(NotPrepared)
                    else if maxPortsPerClient > 0 && old(portsUsedNum) + conf.ports > maxPortsPerClient then Err(TooManyPorts)
                    else if conf.name in old(pxyManager.pxys) then Err(NameExists)
                    else if !ran then Err(RunFailed)
                    else if conf.name in between then Err(NameTaken)
                    else Ok(pxy))
      // An error leaves the session as it was; success counts the ports and publishes the proxy.
      ensures r.Err? ==> State() == old(State())
      ensures r.Ok? ==> State() == Reserve(maxPortsPerClient, old(State()), conf.ports, Idle).(proxies := old(proxies)[conf.name := pxy])
      ensures pxyManager.pxys == (match r case Ok(_) => between[conf.name := pxy]
                                  case Err(e) => if e.NameTaken? then between else old(pxyManager.pxys))
    {
      if !prepared {
        return Err(NotPrepared);
      }
      var ok := ReservePorts(conf);
      if !ok {
        return Err(TooManyPorts);
      }
      var known := pxyManager.Exist(conf.name);
      if known {
        ReturnPorts(conf.ports);
        return Err(NameExists);
      }
      stage := Checked(conf);
      if !ran {
        ReturnPorts(conf.ports);
        return Err(RunFailed);
      }
      stage := Ran(pxy);
      pxyManager.Interfere(between);
      var added := pxyManager.Add(conf.name, pxy);
      if !added {
        ReturnPorts(conf.ports);
        return Err(NameTaken);
      }
      stage := Added(pxy);
      proxies := proxies[pxy.name := pxy];
      stage := Idle;
      return Ok(pxy);
    }

    /** The first part of `CloseProxy`: the proxy to close, taken out of the session and its ports out of the count. */
    method TakeOut(name: string) returns (pxy: Option<Proxy>)
      requires stage.Idle?
      modifies this
      ensures pxy == if name in old(proxies) then Some(old(proxies)[name]) else None
      ensures State() == if name in old(proxies)
                         then GiveBack(maxPortsPerClient, old(State()).(proxies := old(proxies) - {name}),
                                       old(proxies)[name].ports, Closing(old(proxies)[name]))
                         else old(State())
    {
      if name !in proxies {
        return None;
      }
      var p := proxies[name];
      if maxPortsPerClient > 0 {
        portsUsedNum := portsUsedNum - p.ports;
      }
      proxies := proxies - {name};
      stage := Closing(p);
      return Some(p);
    }

    /** `CloseProxy`, with the registry as other sessions left it when the name is deleted. */
    method CloseProxy(name: string, between: map<string, Proxy>) returns (pxy: Option<Proxy>)
      requires stage.Idle?
      modifies this, pxyManager
      ensures pxy == if name in old(proxies) then Some(old(proxies)[name]) else None
      ensures proxies == old(proxies) - {name} && stage.Idle?
      ensures portsUsedNum == if maxPortsPerClient > 0 && pxy.Some? then old(portsUsedNum) - pxy.value.ports else old(portsUsedNum)
      ensures pxyManager.pxys == if pxy.Some? then between - {pxy.value.name} else old(pxyManager.pxys)
    {
      pxy := TakeOut(name);
      if pxy.Some? {
        pxyManager.Interfere(between);
        pxyManager.Del(pxy.value.name);
        stage := Idle;
      }
    }
  }

  // ----- sessions by run id -----

  /** What happens to the sessions of the clients; a session deletes itself when it has shut down. */
  datatype ClientEvent<C> = Add(runID: string, ctl: C) | Del(runID: string, ctl: C)

  function Registered<C(==)>(ctls: map<string, C>, e: ClientEvent<C>): map<string, C> {
    match e
    case Add(runID, ctl) => ctls[runID := ctl]
    case Del(runID, ctl) => if runID in ctls && ctls[runID] == ctl then ctls - {runID} else ctls
  }

  function RegisteredAfter<C(==)>(ctls: map<string, C>, events: seq<ClientEvent<C>>): map<string, C>
    decreases |events|
  {
    if events == [] then ctls else RegisteredAfter(Registered(ctls, events[0]), events[1..])
  }

  /**
   * A client that comes back replaces its session, and the late clean-up of the old session does not
   * remove the new one: the session added last for a run id is the registered one, until it deletes
   * itself.
   */
  lemma {:induction false} LastAddedStays<C>(ctls: map<string, C>, events: seq<ClientEvent<C>>, i: nat)
    requires i < |events| && events[i].Add?
    requires forall j :: i < j < |events| ==> !(events[j].Add? && events[j].runID == events[i].runID)
    ensures var m, id := RegisteredAfter(ctls, events), events[i].runID;
            id in m && m[id] == events[i].ctl <==> Del(id, events[i].ctl) !in events[i + 1..]
    decreases |events|
  {
    var rest := events[1..];
    var next := Registered(ctls, events[0]);
    if i > 0 {
      LastAddedStays(next, rest, i - 1);
      assert rest[i..] == events[i + 1..];
    } else {
      StaysUntilDeleted(next, rest, events[0].runID, events[0].ctl);
    }
  }

  lemma {:induction false} StaysUntilDeleted<C>(ctls: map<string, C>, events: seq<ClientEvent<C>>, id: string, ctl: C)
    requires forall j :: 0 <= j < |events| ==> !(events[j].Add? && events[j].runID == id)
    ensures var m := RegisteredAfter(ctls, events);
            id in m && m[id] == ctl <==> id in ctls && ctls[id] == ctl && Del(id, ctl) !in events
    decreases |events|
  {
    if events != [] {
      StaysUntilDeleted(Registered(ctls, events[0]), events[1..], id, ctl);
      assert events == [events[0]] + events[1..];
    }
  }

  class ControlManager {
    var ctlsByRunID: map<string, Control>

    constructor ()
      ensures ctlsByRunID == map[]
    {
      ctlsByRunID := map[];
    }

    /** Registers a session, and tells the one it replaces. */
    method Add(runID: string, ctl: Control) returns (replaced: Option<Control>)
      modifies this, ctlsByRunID.Values
      ensures ctlsByRunID == Registered(old(ctlsByRunID), ClientEvent.Add(runID, ctl))
      ensures replaced == if runID in old(ctlsByRunID) then Some(old(ctlsByRunID)[runID]) else None
      ensures forall c: Control :: c in old(ctlsByRunID.Values) ==>
                if replaced == Some(c) then c.runID == "" && c.closing else c.runID == old(c.runID) && c.closing == old(c.closing)
    {
      replaced := None;
      if runID in ctlsByRunID {
        replaced := Some(ctlsByRunID[runID]);
        ctlsByRunID[runID].Replaced();
      }
      ctlsByRunID := ctlsByRunID[runID := ctl];
    }

    /** Removes a session, unless another one has replaced it. */
    method Del(runID: string, ctl: Control)
      modifies this
      ensures ctlsByRunID == Registered(old(ctlsByRunID), ClientEvent.Del(runID, ctl))
    {
      if runID in ctlsByRunID && ctlsByRunID[runID] == ctl {
        ctlsByRunID := ctlsByRunID - {runID};
      }
    }
  }
}
