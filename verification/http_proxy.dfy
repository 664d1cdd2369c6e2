/**
 * HTTP proxies on the server (server/proxy/http.go): one proxy registers a route for every domain and
 * location, or joins a group, and gives everything back when it fails half-way or closes.
 */
module HttpProxies {
  import opened Prelude
  import opened Routing
  import opened HttpGroups

  /** The settings that `HTTPProxy.Run` reads, with the server's sub-domain host. */
  datatype HTTPConf = HTTPConf(name: string, customDomains: seq<string>, subDomain: string, locations: seq<string>,
                               group: string, groupKey: string, routeByHTTPUser: string, subDomainHost: string)
  {
    /** No location at all means the empty location, which matches every path. */
    function Locations(): seq<string> { if locations == [] then [""] else locations }
  }

  /** An entry of `closeFuncs`. */
  datatype CloseFn = UnRegisterRoute(rc: RouteConfig) | LeaveGroup(name: string, group: string)

  function LocationTargets(cfg: HTTPConf, owner: nat, domain: string, locations: seq<string>): seq<RouteConfig> {
    if locations == [] then []
    else [RouteConfig(domain, locations[0], cfg.routeByHTTPUser, owner)] + LocationTargets(cfg, owner, domain, locations[1..])
  }

  function DomainTargets(cfg: HTTPConf, owner: nat, domains: seq<string>): seq<RouteConfig> {
    if domains == [] then []
    else
      (if domains[0] == "" then [] else LocationTargets(cfg, owner, domains[0], cfg.Locations())) +
      DomainTargets(cfg, owner, domains[1..])
  }

  function SubDomainTargets(cfg: HTTPConf, owner: nat): seq<RouteConfig> {
    if cfg.subDomain == "" then []
    else LocationTargets(cfg, owner, cfg.subDomain + "." + cfg.subDomainHost, cfg.Locations())
  }

  /** Everything a proxy registers, in order. */
  function Targets(cfg: HTTPConf, owner: nat): seq<RouteConfig> {
    DomainTargets(cfg, owner, cfg.customDomains) + SubDomainTargets(cfg, owner)
  }

  lemma {:induction false} LocationTargetsAre(cfg: HTTPConf, owner: nat, domain: string, locations: seq<string>, rc: RouteConfig)
    ensures rc in LocationTargets(cfg, owner, domain, locations) <==>
            rc.location in locations && rc == RouteConfig(domain, rc.location, cfg.routeByHTTPUser, owner)
  {
    if locations != [] { LocationTargetsAre(cfg, owner, domain, locations[1..], rc); }
  }

  lemma {:induction false} DomainTargetsAre(cfg: HTTPConf, owner: nat, domains: seq<string>, rc: RouteConfig)
    ensures rc in DomainTargets(cfg, owner, domains) <==>
            && rc.domain != "" && rc.domain in domains && rc.location in cfg.Locations()
            && rc == RouteConfig(rc.domain, rc.location, cfg.routeByHTTPUser, owner)
  {
    if domains != [] {
      LocationTargetsAre(cfg, owner, domains[0], cfg.Locations(), rc);
      DomainTargetsAre(cfg, owner, domains[1..], rc);
    }
  }

  /**
   * What a proxy registers, by its settings: exactly the routes for its user and its connection function,
   * on every custom domain that is not empty, and on the sub-domain if there is one, each with every
   * location, or with the empty one if there is none.
   */
  lemma TargetsExact(cfg: HTTPConf, owner: nat, rc: RouteConfig)
    ensures rc in Targets(cfg, owner) <==>
            && rc.routeByHTTPUser == cfg.routeByHTTPUser && rc.createConn == owner
            && ((rc.domain != "" && rc.domain in cfg.customDomains) ||
                (cfg.subDomain != "" && rc.domain == cfg.subDomain + "." + cfg.subDomainHost))
            && (if cfg.locations == [] then rc.location == "" else rc.location in cfg.locations)
  {
    DomainTargetsAre(cfg, owner, cfg.customDomains, rc);
    LocationTargetsAre(cfg, owner, cfg.subDomain + "." + cfg.subDomainHost, cfg.Locations(), rc);
  }

  /** `HTTPReverseProxy.Register` on values. */
  function RouteRegister(w: World, rc: RouteConfig): (World, Option<GroupError>) {
    if rc.Key() in w.routes then (w, Some(RouteConflict))
    else (w.(routes := w.routes[rc.Key() := Direct(rc.createConn)]), None)
  }

  function RegisterOne(w: World, cfg: HTTPConf, rc: RouteConfig): (World, Option<GroupError>) {
    if cfg.group != "" then GroupRegister(w, cfg.name, cfg.group, cfg.groupKey, rc) else RouteRegister(w, rc)
  }

  function CloseFnFor(cfg: HTTPConf, rc: RouteConfig): CloseFn {
    if cfg.group != "" then LeaveGroup(cfg.name, cfg.group) else UnRegisterRoute(rc)
  }

  function Undo(w: World, fn: CloseFn): World {
    match fn
    case UnRegisterRoute(rc) => w.(routes := w.routes - {rc.Key()})
    case LeaveGroup(name, group) => GroupUnRegister(w, name, group)
  }

  /** `HTTPProxy.Close` on values: the close functions run in the order they were added. */
  function UndoAll(w: World, fns: seq<CloseFn>): World
    decreases |fns|
  {
    if fns == [] then w else UndoAll(Undo(w, fns[0]), fns[1..])
  }

  /** The rest of `HTTPProxy.Run` on values: the new world, the close functions and the error, if any. */
  function RunFrom(w: World, cfg: HTTPConf, targets: seq<RouteConfig>, fns: seq<CloseFn>)
    : (World, seq<CloseFn>, Option<GroupError>)
    decreases |targets|
  {
    if targets == [] then (w, fns, None)
    else
      var (next, err) := RegisterOne(w, cfg, targets[0]);
      if err.Some? then (UndoAll(next, fns), fns, err)
      else RunFrom(next, cfg, targets[1..], fns + [CloseFnFor(cfg, targets[0])])
  }

  // ----- all or nothing -----

  /** The state of a group with members; a group without members counts as absent. */
  function LiveGroup(w: World, group: string): Option<GroupState> {
    if group in w.groups && w.groups[group].fns != map[] then Some(w.groups[group]) else None
  }

  /** Two worlds with the same routes and the same groups, up to groups without members. */
  ghost predicate SameLive(w1: World, w2: World) {
    w1.routes == w2.routes && forall g :: LiveGroup(w1, g) == LiveGroup(w2, g)
  }

  ghost predicate Claims(fns: seq<CloseFn>, k: RouteKey) {
    exists i :: 0 <= i < |fns| && fns[i].UnRegisterRoute? && fns[i].rc.Key() == k
  }

  lemma ClaimsAppend(fns: seq<CloseFn>, rc: RouteConfig, k: RouteKey)
    ensures Claims(fns + [UnRegisterRoute(rc)], k) <==> Claims(fns, k) || k == rc.Key()
  {
    var more := fns + [UnRegisterRoute(rc)];
    assert more[|fns|] == UnRegisterRoute(rc);
    if Claims(fns, k) {
      var i :| 0 <= i < |fns| && fns[i].UnRegisterRoute? && fns[i].rc.Key() == k;
      assert more[i] == fns[i];
    }
  }

  ghost predicate DirectOnly(fns: seq<CloseFn>, owner: nat) {
    forall i :: 0 <= i < |fns| ==> fns[i].UnRegisterRoute? && fns[i].rc.createConn == owner
  }

  /** The routes are the earlier ones plus one direct route of the owner for every claim. */
  ghost predicate Extends(before: Table<RoutePayload>, after: Table<RoutePayload>, fns: seq<CloseFn>, owner: nat) {
    && DirectOnly(fns, owner)
    && (forall k :: k in after <==> k in before || Claims(fns, k))
    && (forall k :: k in before ==> !Claims(fns, k) && after[k] == before[k])
    && (forall k :: k in after && Claims(fns, k) ==> after[k] == Direct(owner))
  }

  lemma {:induction false} UndoDirect(w: World, fns: seq<CloseFn>, owner: nat)
    requires DirectOnly(fns, owner)
    ensures UndoAll(w, fns).groups == w.groups
    ensures forall k :: k in UndoAll(w, fns).routes <==> k in w.routes && !Claims(fns, k)
    ensures forall k :: k in UndoAll(w, fns).routes ==> UndoAll(w, fns).routes[k] == w.routes[k]
    decreases |fns|
  {
    if fns != [] {
      var next := Undo(w, fns[0]);
      UndoDirect(next, fns[1..], owner);
      forall k ensures Claims(fns, k) <==> k == fns[0].rc.Key() || Claims(fns[1..], k) {
        if Claims(fns[1..], k) {
          var i :| 0 <= i < |fns[1..]| && fns[1..][i].UnRegisterRoute? && fns[1..][i].rc.Key() == k;
          assert fns[i + 1] == fns[1..][i];
        }
        if Claims(fns, k) && k != fns[0].rc.Key() {
          var i :| 0 <= i < |fns| && fns[i].UnRegisterRoute? && fns[i].rc.Key() == k;
          assert fns[1..][i - 1] == fns[i];
        }
      }
    }
  }

  lemma UndoExtends(before: Table<RoutePayload>, w: World, fns: seq<CloseFn>, owner: nat)
    requires Extends(before, w.routes, fns, owner)
    ensures UndoAll(w, fns) == World(before, w.groups)
  {
    UndoDirect(w, fns, owner);
    var after := UndoAll(w, fns).routes;
    assert forall k :: k in after <==> k in before;
    assert after == before;
  }

  /** Without a group, a run either leaves the world alone or extends its routes by exactly its claims. */
  lemma {:induction false} RunUngrouped(before: Table<RoutePayload>, w: World, cfg: HTTPConf, targets: seq<RouteConfig>, fns: seq<CloseFn>, owner: nat)
    requires cfg.group == ""
    requires forall i :: 0 <= i < |targets| ==> targets[i].createConn == owner
    requires Extends(before, w.routes, fns, owner)
    ensures var (after, more, err) := RunFrom(w, cfg, targets, fns);
            && after.groups == w.groups
            && (err.Some? ==> after.routes == before)
            && (err == None ==> Extends(before, after.routes, more, owner))
    decreases |targets|
  {
    if targets != [] {
      var rc := targets[0];
      if rc.Key() in w.routes {
        UndoExtends(before, w, fns, owner);
      } else {
        var next := RouteRegister(w, rc).0;
        forall k ensures Claims(fns + [UnRegisterRoute(rc)], k) <==> Claims(fns, k) || k == rc.Key() {
          ClaimsAppend(fns, rc, k);
        }
        RunUngrouped(before, next, cfg, targets[1..], fns + [UnRegisterRoute(rc)], owner);
      }
    }
  }

  /** A member cannot join the same group twice, whatever the route. */
  lemma SecondJoinFails(w: World, name: string, group: string, groupKey: string, rc: RouteConfig, key2: string, rc2: RouteConfig)
    requires GroupRegister(w, name, group, groupKey, rc).1 == None
    ensures GroupRegister(GroupRegister(w, name, group, groupKey, rc).0, name, group, key2, rc2).1.Some?
  {
    var w1 := GroupRegister(w, name, group, groupKey, rc).0;
    assert name in w1.groups[group].fns;
  }

  lemma {:induction false} RemoveLast(names: seq<string>, name: string)
    requires name !in names
    ensures RemoveFirst(names + [name], name) == names
  {
    if names != [] {
      assert (names + [name])[1..] == names[1..] + [name];
      RemoveLast(names[1..], name);
    }
  }

  /** Joining a group and leaving it again restores the world, up to an empty group. */
  lemma JoinThenLeave(w: World, name: string, group: string, groupKey: string, rc: RouteConfig)
    requires Coherent(w)
    requires GroupRegister(w, name, group, groupKey, rc).1 == None
    ensures SameLive(GroupUnRegister(GroupRegister(w, name, group, groupKey, rc).0, name, group), w)
  {
    var g := GroupAt(w, group);
    assert g.Consistent() && (g.fns == map[] ==> g == EmptyGroup) by { if group in w.groups { assert GroupFits(w, group); } }
    assert name !in g.fns && name !in g.names;
    var w1 := GroupRegister(w, name, group, groupKey, rc).0;
    LeaveUndoesEnter(w.routes, g, name, group, groupKey, rc);
    assert w1.groups[group := g] == w.groups[group := g];
  }

  /** On one group: leaving right after joining gives back the routes, and the group if it had members. */
  lemma LeaveUndoesEnter(routes: Table<RoutePayload>, g: GroupState, name: string, group: string, groupKey: string, rc: RouteConfig)
    requires name !in g.fns && name !in g.names
    requires Enter(routes, g, name, group, groupKey, rc).Ok?
    ensures var (routes1, g1) := Enter(routes, g, name, group, groupKey, rc).value;
            var (routes2, g2) := Leave(routes1, g1, name);
            routes2 == routes && (if g.fns == map[] then g2.fns == map[] else g2 == g)
  {
    RemoveLast(g.names, name);
    if g.fns == map[] {
      assert map[name := rc.createConn] - {name} == map[];
      assert routes[rc.Key() := Shared(group)] - {rc.Key()} == routes;
    } else {
      assert g.fns[name := rc.createConn] - {name} == g.fns;
    }
  }

  /** What a run with a group does: nothing, a failure without trace, or one join of the group. */
  ghost predicate GroupRun(w: World, cfg: HTTPConf, targets: seq<RouteConfig>, after: World, fns: seq<CloseFn>, err: Option<GroupError>) {
    && Coherent(after)
    && (err.Some? ==> SameLive(after, w))
    && (err == None ==> |targets| <= 1 && |fns| == |targets|)
    && (err == None && targets == [] ==> after == w)
    && (err == None && targets != [] ==>
          && fns == [LeaveGroup(cfg.name, cfg.group)]
          && (after, None) == GroupRegister(w, cfg.name, cfg.group, cfg.groupKey, targets[0]))
  }

  lemma RunGrouped(w: World, cfg: HTTPConf, targets: seq<RouteConfig>)
    requires cfg.group != "" && Coherent(w)
    ensures var (after, fns, err) := RunFrom(w, cfg, targets, []);
            GroupRun(w, cfg, targets, after, fns, err)
  {
    if targets != [] {
      var (w1, e1) := RegisterOne(w, cfg, targets[0]);
      RegisterCoherent(w, cfg.name, cfg.group, cfg.groupKey, targets[0]);
      if e1 == None {
        RunAfterJoin(w, cfg, targets);
      } else {
        assert UndoAll(w1, []) == w1;
      }
    }
  }

  lemma RunAfterJoin(w: World, cfg: HTTPConf, targets: seq<RouteConfig>)
    requires cfg.group != "" && Coherent(w)
    requires targets != [] && RegisterOne(w, cfg, targets[0]).1 == None
    ensures var (after, fns, err) := RunFrom(w, cfg, targets, []);
            GroupRun(w, cfg, targets, after, fns, err)
  {
    var w1 := RegisterOne(w, cfg, targets[0]).0;
    var fns := [LeaveGroup(cfg.name, cfg.group)];
    assert RunFrom(w, cfg, targets, []) == RunFrom(w1, cfg, targets[1..], fns) by { assert [] + fns == fns; }
    if |targets| > 1 {
      FailAfterJoin(w, cfg, targets[0], targets[1]);
      assert RunFrom(w1, cfg, targets[1..], fns) == (Undo(w1, fns[0]), fns, RegisterOne(w1, cfg, targets[1]).1) by {
        assert UndoAll(w1, fns) == UndoAll(Undo(w1, fns[0]), []);
      }
    } else {
      RegisterCoherent(w, cfg.name, cfg.group, cfg.groupKey, targets[0]);
    }
  }

  /** After the first join any further registration fails without a change, and leaving takes the join back. */
  lemma FailAfterJoin(w: World, cfg: HTTPConf, first: RouteConfig, second: RouteConfig)
    requires cfg.group != "" && Coherent(w) && RegisterOne(w, cfg, first).1 == None
    ensures var w1 := RegisterOne(w, cfg, first).0;
            && RegisterOne(w1, cfg, second).0 == w1 && RegisterOne(w1, cfg, second).1.Some?
            && Coherent(Undo(w1, LeaveGroup(cfg.name, cfg.group)))
            && SameLive(Undo(w1, LeaveGroup(cfg.name, cfg.group)), w)
  {
    var w1 := RegisterOne(w, cfg, first).0;
    RegisterCoherent(w, cfg.name, cfg.group, cfg.groupKey, first);
    SecondJoinFails(w, cfg.name, cfg.group, cfg.groupKey, first, cfg.groupKey, second);
    assert cfg.name in w1.groups[cfg.group].fns;
    assert w1.groups[cfg.group := w1.groups[cfg.group]] == w1.groups;
    JoinThenLeave(w, cfg.name, cfg.group, cfg.groupKey, first);
    UnRegisterCoherent(w1, cfg.name, cfg.group);
  }

  lemma {:induction false} LocationTargetsOwned(cfg: HTTPConf, owner: nat, domain: string, locations: seq<string>)
    ensures forall i :: 0 <= i < |LocationTargets(cfg, owner, domain, locations)| ==>
                          LocationTargets(cfg, owner, domain, locations)[i].createConn == owner
  {
    if locations != [] { LocationTargetsOwned(cfg, owner, domain, locations[1..]); }
  }

  lemma {:induction false} DomainTargetsOwned(cfg: HTTPConf, owner: nat, domains: seq<string>)
    ensures forall i :: 0 <= i < |DomainTargets(cfg, owner, domains)| ==>
                          DomainTargets(cfg, owner, domains)[i].createConn == owner
  {
    if domains != [] {
      DomainTargetsOwned(cfg, owner, domains[1..]);
      LocationTargetsOwned(cfg, owner, domains[0], cfg.Locations());
    }
  }

  lemma TargetsOwned(cfg: HTTPConf, owner: nat)
    ensures forall i :: 0 <= i < |Targets(cfg, owner)| ==> Targets(cfg, owner)[i].createConn == owner
  {
    DomainTargetsOwned(cfg, owner, cfg.customDomains);
    LocationTargetsOwned(cfg, owner, cfg.subDomain + "." + cfg.subDomainHost, cfg.Locations());
  }

  function RunAll(w: World, cfg: HTTPConf, owner: nat): (World, seq<CloseFn>, Option<GroupError>) {
    RunFrom(w, cfg, Targets(cfg, owner), [])
  }

  /**
   * Registration is all or nothing. A run that fails after any number of registrations leaves routes
   * and groups as they were; one that succeeds is taken back exactly by closing the proxy.
   */
  lemma RunIsAtomic(w: World, cfg: HTTPConf, owner: nat)
    requires Coherent(w)
    ensures var (after, fns, err) := RunAll(w, cfg, owner);
            && (err.Some? ==> SameLive(after, w))
            && (err == None ==> SameLive(UndoAll(after, fns), w))
  {
    var targets := Targets(cfg, owner);
    TargetsOwned(cfg, owner);
    var (after, fns, err) := RunAll(w, cfg, owner);
    if cfg.group == "" {
      RunUngrouped(w.routes, w, cfg, targets, [], owner);
      if err == None { UndoExtends(w.routes, after, fns, owner); }
    } else {
      RunGrouped(w, cfg, targets);
      if err == None && targets != [] {
        JoinThenLeave(w, cfg.name, cfg.group, cfg.groupKey, targets[0]);
        assert UndoAll(after, fns) == UndoAll(Undo(after, fns[0]), []);
      }
    }
  }

  // ----- the proxy object -----

  /** One registration of a run, whatever comes after it. */
  lemma RunStep(w: World, cfg: HTTPConf, rc: RouteConfig, rest: seq<RouteConfig>, fns: seq<CloseFn>)
    ensures var (next, err) := RegisterOne(w, cfg, rc);
            RunFrom(w, cfg, [rc] + rest, fns) ==
            if err.Some? then (UndoAll(next, fns), fns, err) else RunFrom(next, cfg, rest, fns + [CloseFnFor(cfg, rc)])
  {
    assert ([rc] + rest)[1..] == rest;
  }

  lemma NextLocation(cfg: HTTPConf, owner: nat, domain: string, locations: seq<string>, j: nat, rest: seq<RouteConfig>)
    requires j < |locations|
    ensures LocationTargets(cfg, owner, domain, locations[j..]) + rest ==
            [RouteConfig(domain, locations[j], cfg.routeByHTTPUser, owner)] +
            (LocationTargets(cfg, owner, domain, locations[j + 1..]) + rest)
  {
    assert locations[j..][1..] == locations[j + 1..];
  }

  lemma NextDomain(cfg: HTTPConf, owner: nat, i: nat)
    requires i < |cfg.customDomains|
    ensures var domain := cfg.customDomains[i];
            TargetsAfter(cfg, owner, i) ==
            (if domain == "" then [] else LocationTargets(cfg, owner, domain, cfg.Locations())) + TargetsAfter(cfg, owner, i + 1)
  {
    assert cfg.customDomains[i..][1..] == cfg.customDomains[i + 1..];
  }

  /** What is left to register when the first i domains are done. */
  function TargetsAfter(cfg: HTTPConf, owner: nat, i: nat): seq<RouteConfig>
    requires i <= |cfg.customDomains|
  {
    DomainTargets(cfg, owner, cfg.customDomains[i..]) + SubDomainTargets(cfg, owner)
  }

  lemma AllDomains(cfg: HTTPConf, owner: nat)
    ensures TargetsAfter(cfg, owner, 0) == Targets(cfg, owner)
    ensures TargetsAfter(cfg, owner, |cfg.customDomains|) == SubDomainTargets(cfg, owner)
  {
    assert cfg.customDomains[0..] == cfg.customDomains;
    assert cfg.customDomains[|cfg.customDomains|..] == [];
  }

  class HTTPProxy {
    const cfg: HTTPConf
    const owner: nat
    const groupCtl: HTTPGroupController
    var closeFuncs: seq<CloseFn>

    constructor (cfg: HTTPConf, owner: nat, groupCtl: HTTPGroupController)
      ensures this.cfg == cfg && this.owner == owner && this.groupCtl == groupCtl && closeFuncs == []
    {
      this.cfg, this.owner, this.groupCtl := cfg, owner, groupCtl;
      closeFuncs := [];
    }

    /** Registers one domain and location and remembers how to take it back. */
    method RegisterTarget(routeConfig: RouteConfig) returns (err: Option<GroupError>)
      requires groupCtl.Valid()
      modifies this, groupCtl, groupCtl.groups.Values, groupCtl.vhostRouter
      ensures groupCtl.Valid() && fresh(groupCtl.groups.Values - old(groupCtl.groups.Values))
      ensures (groupCtl.View(), err) == RegisterOne(old(groupCtl.View()), cfg, routeConfig)
      ensures closeFuncs == if err == None then old(closeFuncs) + [CloseFnFor(cfg, routeConfig)] else old(closeFuncs)
    {
      if cfg.group != "" {
        err := groupCtl.Register(cfg.name, cfg.group, cfg.groupKey, routeConfig);
        if err.Some? {
          return;
        }
        closeFuncs := closeFuncs + [LeaveGroup(cfg.name, cfg.group)];
      } else {
        var added := AddRoute(routeConfig);
        if !added {
          return Some(RouteConflict);
        }
        err := None;
        closeFuncs := closeFuncs + [UnRegisterRoute(routeConfig)];
      }
    }

    /** `HTTPReverseProxy.Register`. */
    method AddRoute(rc: RouteConfig) returns (added: bool)
      requires groupCtl.Valid()
      modifies groupCtl.vhostRouter
      ensures groupCtl.Valid()
      ensures (groupCtl.View(), if added then None else Some(RouteConflict)) == RouteRegister(old(groupCtl.View()), rc)
    {
      added := groupCtl.vhostRouter.Add(rc.domain, rc.location, rc.routeByHTTPUser, Direct(rc.createConn));
      assert groupCtl.States() == old(groupCtl.States());
    }

    /** `HTTPReverseProxy.UnRegister`. */
    method DelRoute(rc: RouteConfig)
      requires groupCtl.Valid()
      modifies groupCtl.vhostRouter
      ensures groupCtl.Valid()
      ensures groupCtl.View() == Undo(old(groupCtl.View()), UnRegisterRoute(rc))
    {
      groupCtl.vhostRouter.Del(rc.domain, rc.location, rc.routeByHTTPUser);
      assert groupCtl.States() == old(groupCtl.States());
    }

    /** What registering these targets from here on comes to. */
    ghost function Outcome(targets: seq<RouteConfig>): (World, seq<CloseFn>, Option<GroupError>)
      reads this, groupCtl, groupCtl.groups.Values, groupCtl.vhostRouter
    {
      RunFrom(groupCtl.View(), cfg, targets, closeFuncs)
    }

    /** Registers every domain and location; on the first error everything registered so far is taken back. */
    method Run() returns (err: Option<GroupError>)
      requires groupCtl.Valid()
      modifies this, groupCtl, groupCtl.groups.Values, groupCtl.vhostRouter
      ensures groupCtl.Valid() && fresh(groupCtl.groups.Values - old(groupCtl.groups.Values))
      ensures (groupCtl.View(), closeFuncs, err) ==
              RunFrom(old(groupCtl.View()), cfg, Targets(cfg, owner), old(closeFuncs))
    {
      var locations := cfg.locations;
      if |locations| == 0 {
        locations := [""];
      }

      err := RunCustomDomains(locations);
      if err.Some? {
        return;
      }
      if cfg.subDomain != "" {
        var domain := cfg.subDomain + "." + cfg.subDomainHost;
        assert LocationTargets(cfg, owner, domain, locations) + [] == SubDomainTargets(cfg, owner);
        err := RunDomain(domain, locations, []);
      }
    }

    method RunCustomDomains(locations: seq<string>) returns (err: Option<GroupError>)
      requires groupCtl.Valid() && locations == cfg.Locations()
      modifies this, groupCtl, groupCtl.groups.Values, groupCtl.vhostRouter
      ensures groupCtl.Valid() && fresh(groupCtl.groups.Values - old(groupCtl.groups.Values))
      ensures old(Outcome(Targets(cfg, owner))) ==
              if err == None then Outcome(SubDomainTargets(cfg, owner)) else (groupCtl.View(), closeFuncs, err)
    {
      AllDomains(cfg, owner);
      ghost var whole := Outcome(Targets(cfg, owner));
      for i := 0 to |cfg.customDomains|
        invariant groupCtl.Valid() && fresh(groupCtl.groups.Values - old(groupCtl.groups.Values))
        invariant whole == Outcome(TargetsAfter(cfg, owner, i))
      {
        err := RunCustomDomain(i, locations);
        if err.Some? {
          return;
        }
      }
      err := None;
    }

    /** One custom domain; an empty one is passed over. */
    method RunCustomDomain(i: nat, locations: seq<string>) returns (err: Option<GroupError>)
      requires groupCtl.Valid() && locations == cfg.Locations() && i < |cfg.customDomains|
      modifies this, groupCtl, groupCtl.groups.Values, groupCtl.vhostRouter
      ensures groupCtl.Valid() && fresh(groupCtl.groups.Values - old(groupCtl.groups.Values))
      ensures old(Outcome(TargetsAfter(cfg, owner, i))) ==
              if err == None then Outcome(TargetsAfter(cfg, owner, i + 1)) else (groupCtl.View(), closeFuncs, err)
    {
      var domain := cfg.customDomains[i];
      NextDomain(cfg, owner, i);
      if domain == "" {
        assert [] + TargetsAfter(cfg, owner, i + 1) == TargetsAfter(cfg, owner, i + 1);
        return None;
      }
      err := RunDomain(domain, locations, TargetsAfter(cfg, owner, i + 1));
    }

    /** One registration, with the deferred clean-up on an error. */
    method RegisterOrClose(routeConfig: RouteConfig, ghost rest: seq<RouteConfig>) returns (err: Option<GroupError>)
      requires groupCtl.Valid()
      modifies this, groupCtl, groupCtl.groups.Values, groupCtl.vhostRouter
      ensures groupCtl.Valid() && fresh(groupCtl.groups.Values - old(groupCtl.groups.Values))
      ensures old(Outcome([routeConfig] + rest)) == if err == None then Outcome(rest) else (groupCtl.View(), closeFuncs, err)
    {
      RunStep(groupCtl.View(), cfg, routeConfig, rest, closeFuncs);
      err := RegisterTarget(routeConfig);
      if err.Some? {
        Close();
      }
    }

    /** The inner loop over the locations of one domain. */
    method RunDomain(domain: string, locations: seq<string>, ghost rest: seq<RouteConfig>) returns (err: Option<GroupError>)
      requires groupCtl.Valid()
      modifies this, groupCtl, groupCtl.groups.Values, groupCtl.vhostRouter
      ensures groupCtl.Valid() && fresh(groupCtl.groups.Values - old(groupCtl.groups.Values))
      ensures old(Outcome(LocationTargets(cfg, owner, domain, locations) + rest)) ==
              if err == None then Outcome(rest) else (groupCtl.View(), closeFuncs, err)
    {
      ghost var whole := Outcome(LocationTargets(cfg, owner, domain, locations) + rest);
      assert locations[0..] == locations;
      for j := 0 to |locations|
        invariant groupCtl.Valid() && fresh(groupCtl.groups.Values - old(groupCtl.groups.Values))
        invariant whole == Outcome(LocationTargets(cfg, owner, domain, locations[j..]) + rest)
      {
        var routeConfig := RouteConfig(domain, locations[j], cfg.routeByHTTPUser, owner);
        NextLocation(cfg, owner, domain, locations, j, rest);
        err := RegisterOrClose(routeConfig, LocationTargets(cfg, owner, domain, locations[j + 1..]) + rest);
        if err.Some? {
          return;
        }
      }
      assert LocationTargets(cfg, owner, domain, locations[|locations|..]) + rest == rest;
      err := None;
    }

    /** Runs the close functions in order. */
    method Close()
      requires groupCtl.Valid()
      modifies groupCtl, groupCtl.groups.Values, groupCtl.vhostRouter
      ensures groupCtl.Valid() && fresh(groupCtl.groups.Values - old(groupCtl.groups.Values))
      ensures groupCtl.View() == UndoAll(old(groupCtl.View()), closeFuncs)
    {
      ghost var whole := UndoAll(groupCtl.View(), closeFuncs);
      for i := 0 to |closeFuncs|
        invariant groupCtl.Valid() && fresh(groupCtl.groups.Values - old(groupCtl.groups.Values))
        invariant whole == UndoAll(groupCtl.View(), closeFuncs[i..])
      {
        assert closeFuncs[i..][1..] == closeFuncs[i + 1..];
        match closeFuncs[i] {
          case UnRegisterRoute(rc) => DelRoute(rc);
          case LeaveGroup(name, group) => groupCtl.UnRegister(name, group);
        }
      }
    }
  }
}
