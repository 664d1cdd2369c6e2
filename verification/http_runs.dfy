/**
 * Any number of HTTP proxies that register, fail and close at the same time (server/proxy/http.go). The
 * router and the groups are locked for one registration or removal at a time, so that those of
 * different proxies interleave.
 */
module HttpRuns {
  import opened Prelude
  import opened Routing
  import opened HttpGroups
  import opened HttpProxies

  /** How far a proxy has come: registrations still to do, running, or close functions still to run. */
  datatype Phase = Adding(todo: seq<RouteConfig>) | Up | Undoing

  datatype Running = Running(cfg: HTTPConf, phase: Phase, fns: seq<CloseFn>)

  /** The shared routes and groups, and the proxies that are registering, running or closing. */
  datatype Hub = Hub(w: World, live: map<nat, Running>)

  /** A proxy starts under a new id, does its next registration, is told to close, or runs its next close function. */
  datatype Event = Start(id: nat, cfg: HTTPConf) | Register(id: nat) | Close(id: nat) | RunCloseFn(id: nat)

  function RegisterStep(h: Hub, id: nat): Hub
    requires id in h.live && h.live[id].phase.Adding?
  {
    var r := h.live[id];
    var todo := r.phase.todo;
    if todo == [] then Hub(h.w, h.live[id := r.(phase := Up)])
    else
      var (next, err) := RegisterOne(h.w, r.cfg, todo[0]);
      Hub(next, h.live[id := if err.Some? then r.(phase := Undoing)
                             else Running(r.cfg, Adding(todo[1..]), r.fns + [CloseFnFor(r.cfg, todo[0])])])
  }

  function UndoStep(h: Hub, id: nat): Hub
    requires id in h.live && h.live[id].phase.Undoing?
  {
    var r := h.live[id];
    if r.fns == [] then Hub(h.w, h.live - {id})
    else Hub(Undo(h.w, r.fns[0]), h.live[id := r.(fns := r.fns[1..])])
  }

  /** Events that do not apply change nothing. */
  function Step(h: Hub, e: Event): Hub {
    match e
    case Start(id, cfg) =>
      if id in h.live then h else Hub(h.w, h.live[id := Running(cfg, Adding(Targets(cfg, id)), [])])
    case Register(id) =>
      if id in h.live && h.live[id].phase.Adding? then RegisterStep(h, id) else h
    case Close(id) =>
      if id in h.live && h.live[id].phase.Up? then Hub(h.w, h.live[id := h.live[id].(phase := Undoing)]) else h
    case RunCloseFn(id) =>
      if id in h.live && h.live[id].phase.Undoing? then UndoStep(h, id) else h
  }

  function Replay(h: Hub, events: seq<Event>): Hub
    decreases |events|
  {
    if events == [] then h else Replay(Step(h, events[0]), events[1..])
  }

  const Empty := Hub(World(map[], map[]), map[])

  // ----- who owns what -----

  /** The proxy that is a member of a group under this name. */
  function MemberOf(w: World, group: string, name: string): Option<nat> {
    if group in w.groups && name in w.groups[group].fns then Some(w.groups[group].fns[name]) else None
  }

  ghost predicate DistinctClaims(fns: seq<CloseFn>) {
    forall i, j :: 0 <= i < j < |fns| && fns[i].UnRegisterRoute? && fns[j].UnRegisterRoute? ==> fns[i].rc.Key() != fns[j].rc.Key()
  }

  ghost predicate HoldsRoutes(w: World, fns: seq<CloseFn>, id: nat) {
    && DirectOnly(fns, id) && DistinctClaims(fns)
    && forall k :: Claims(fns, k) ==> k in w.routes && w.routes[k] == Direct(id)
  }

  /** The proxy is a member of its group, and the group's route is that of its first target. */
  ghost predicate IsMember(w: World, cfg: HTTPConf, id: nat) {
    && MemberOf(w, cfg.group, cfg.name) == Some(id)
    && Targets(cfg, id) != [] && w.groups[cfg.group].Key() == Targets(cfg, id)[0].Key()
  }

  /** What a proxy holds: direct routes of its own, or the membership of its group, one for each close function. */
  ghost predicate Holds(w: World, r: Running, id: nat) {
    if r.cfg.group == "" then HoldsRoutes(w, r.fns, id)
    else r.fns == [] || (r.fns == [LeaveGroup(r.cfg.name, r.cfg.group)] && IsMember(w, r.cfg, id))
  }

  /** The close functions are those of the targets that are not still to do. */
  ghost predicate InOrder(r: Running, id: nat) {
    var targets := Targets(r.cfg, id);
    !r.phase.Undoing? ==>
      && |r.fns| <= |targets|
      && targets[|r.fns|..] == (if r.phase.Adding? then r.phase.todo else [])
      && forall i :: 0 <= i < |r.fns| ==> r.fns[i] == CloseFnFor(r.cfg, targets[i])
  }

  ghost predicate RouteKnown(h: Hub, k: RouteKey)
    requires k in h.w.routes
  {
    h.w.routes[k].Direct? ==> h.w.routes[k].owner in h.live && Claims(h.live[h.w.routes[k].owner].fns, k)
  }

  ghost predicate MemberKnown(h: Hub, group: string, name: string) {
    var id := MemberOf(h.w, group, name);
    id.Some? ==> id.value in h.live && h.live[id.value].fns == [LeaveGroup(name, group)]
  }

  /** Every direct route and every membership is held by the live proxy it belongs to, and only by it. */
  ghost predicate Accounted(h: Hub) {
    && Coherent(h.w)
    && (forall id :: id in h.live ==> Holds(h.w, h.live[id], id) && InOrder(h.live[id], id))
    && (forall k :: k in h.w.routes ==> RouteKnown(h, k))
    && (forall g, n :: MemberKnown(h, g, n))
  }

  /** The route is this proxy's own, or shared by a group with no other member. */
  ghost predicate GoesWith(w: World, k: RouteKey, id: nat)
    requires k in w.routes
  {
    match w.routes[k]
    case Direct(owner) => owner == id
    case Shared(g) => g in w.groups && forall n :: n in w.groups[g].fns ==> w.groups[g].fns[n] == id
  }

  /** Between the two worlds only routes and memberships of this proxy come or go. */
  ghost predicate TouchesOnly(w: World, after: World, id: nat) {
    && (forall k :: k in w.routes && !GoesWith(w, k, id) ==> k in after.routes)
    && (forall k :: k in w.routes && k in after.routes ==> after.routes[k] == w.routes[k])
    && (forall k :: k in after.routes && k !in w.routes ==> GoesWith(after, k, id))
    && (forall g, n :: MemberOf(w, g, n) != MemberOf(after, g, n) ==>
          MemberOf(w, g, n) in {None, Some(id)} && MemberOf(after, g, n) in {None, Some(id)})
  }

  // ----- one registration -----

  lemma SameLiveMembers(w1: World, w2: World, group: string, name: string)
    requires SameLive(w1, w2)
    ensures MemberOf(w1, group, name) == MemberOf(w2, group, name)
  {
    assert LiveGroup(w1, group) == LiveGroup(w2, group);
  }

  /** Groups and their members are untouched by direct routes coming and going. */
  lemma DirectChangeCoherent(w: World, after: World)
    requires Coherent(w) && after.groups == w.groups
    requires forall k :: k in w.routes && w.routes[k].Shared? ==> k in after.routes && after.routes[k] == w.routes[k]
    requires forall k :: k in after.routes && after.routes[k].Shared? ==> k in w.routes && after.routes[k] == w.routes[k]
    ensures Coherent(after)
  {
    forall g | g in after.groups ensures GroupFits(after, g) { assert GroupFits(w, g); }
    forall k | k in after.routes ensures SharedFits(after, k) { if k in w.routes { assert SharedFits(w, k); } }
  }

  lemma TargetIsOwned(h: Hub, id: nat)
    requires id in h.live && InOrder(h.live[id], id) && h.live[id].phase.Adding? && h.live[id].phase.todo != []
    ensures h.live[id].phase.todo[0].createConn == id
    ensures h.live[id].phase.todo[0] == Targets(h.live[id].cfg, id)[|h.live[id].fns|]
  {
    TargetsOwned(h.live[id].cfg, id);
    assert Targets(h.live[id].cfg, id)[|h.live[id].fns|..][0] == Targets(h.live[id].cfg, id)[|h.live[id].fns|];
  }

  lemma NextInOrder(r: Running, id: nat)
    requires InOrder(r, id) && r.phase.Adding? && r.phase.todo != []
    ensures InOrder(Running(r.cfg, Adding(r.phase.todo[1..]), r.fns + [CloseFnFor(r.cfg, r.phase.todo[0])]), id)
  {
    var targets, n := Targets(r.cfg, id), |r.fns|;
    assert targets[n..][0] == targets[n] && targets[n..][1..] == targets[n + 1..];
  }

  lemma SameLiveHolds(w: World, after: World, r: Running, p: nat)
    requires SameLive(after, w) && Holds(w, r, p)
    ensures Holds(after, r, p)
  {
    if r.cfg.group != "" { assert LiveGroup(after, r.cfg.group) == LiveGroup(w, r.cfg.group); }
  }

  /** Nothing of routes and memberships changes; one proxy moves on with the same close functions. */
  lemma QuietStep(h: Hub, id: nat, r: Running, after: World)
    requires Accounted(h) && id in h.live && SameLive(after, h.w) && Coherent(after)
    requires r.fns == h.live[id].fns && r.cfg == h.live[id].cfg && InOrder(r, id)
    ensures Accounted(Hub(after, h.live[id := r])) && TouchesOnly(h.w, after, id)
  {
    var next := Hub(after, h.live[id := r]);
    forall p | p in next.live ensures Holds(after, next.live[p], p) && InOrder(next.live[p], p) {
      assert Holds(h.w, h.live[p], p) && InOrder(h.live[p], p);
      SameLiveHolds(h.w, after, h.live[p], p);
    }
    forall k | k in after.routes ensures RouteKnown(next, k) { assert RouteKnown(h, k); }
    forall g, n ensures MemberKnown(next, g, n) && MemberOf(after, g, n) == MemberOf(h.w, g, n) {
      SameLiveMembers(after, h.w, g, n);
      assert MemberKnown(h, g, n);
    }
  }

  /** A proxy still holds what it did when its own routes and all groups are as before. */
  lemma StillHolds(w: World, after: World, r: Running, p: nat)
    requires Holds(w, r, p) && after.groups == w.groups
    requires forall k :: k in w.routes && w.routes[k] == Direct(p) ==> k in after.routes && after.routes[k] == Direct(p)
    ensures Holds(after, r, p)
  {
  }

  lemma DirectIsNoMember(h: Hub, id: nat, g: string, n: string)
    requires Accounted(h) && id in h.live && h.live[id].cfg.group == ""
    ensures MemberOf(h.w, g, n) != Some(id)
  {
    assert MemberKnown(h, g, n) && Holds(h.w, h.live[id], id);
    assert h.live[id].fns != [] ==> h.live[id].fns[0].UnRegisterRoute?;
  }

  lemma RouteAdded(h: Hub, id: nat, rc: RouteConfig, r: Running)
    requires Accounted(h) && id in h.live && h.live[id].cfg.group == "" && rc.createConn == id && rc.Key() !in h.w.routes
    requires r.cfg == h.live[id].cfg && r.fns == h.live[id].fns + [UnRegisterRoute(rc)] && InOrder(r, id)
    ensures Accounted(Hub(RouteRegister(h.w, rc).0, h.live[id := r]))
  {
    var after := RouteRegister(h.w, rc).0;
    var next := Hub(after, h.live[id := r]);
    assert Holds(h.w, h.live[id], id);
    DirectChangeCoherent(h.w, after);
    OwnRouteAdded(h.w, h.live[id].fns, rc, id);
    forall p | p in next.live ensures Holds(after, next.live[p], p) && InOrder(next.live[p], p) {
      if p != id {
        assert Holds(h.w, h.live[p], p) && InOrder(h.live[p], p);
        StillHolds(h.w, after, h.live[p], p);
      }
    }
    forall k | k in after.routes ensures RouteKnown(next, k) {
      ClaimsAppend(h.live[id].fns, rc, k);
      if k in h.w.routes { assert RouteKnown(h, k); }
    }
    forall g, n ensures MemberKnown(next, g, n) {
      assert MemberKnown(h, g, n);
      DirectIsNoMember(h, id, g, n);
    }
  }

  lemma AddTouchesOnly(w: World, rc: RouteConfig, id: nat)
    requires rc.Key() !in w.routes && rc.createConn == id
    ensures TouchesOnly(w, RouteRegister(w, rc).0, id)
  {
  }

  lemma OwnRouteAdded(w: World, fns: seq<CloseFn>, rc: RouteConfig, id: nat)
    requires HoldsRoutes(w, fns, id) && rc.Key() !in w.routes && rc.createConn == id
    ensures HoldsRoutes(RouteRegister(w, rc).0, fns + [UnRegisterRoute(rc)], id)
  {
    ClaimedOnce(w, fns, rc, id);
    forall k ensures Claims(fns + [UnRegisterRoute(rc)], k) <==> Claims(fns, k) || k == rc.Key() { ClaimsAppend(fns, rc, k); }
  }

  lemma ClaimedOnce(w: World, fns: seq<CloseFn>, rc: RouteConfig, id: nat)
    requires HoldsRoutes(w, fns, id) && rc.Key() !in w.routes && rc.createConn == id
    ensures DistinctClaims(fns + [UnRegisterRoute(rc)]) && DirectOnly(fns + [UnRegisterRoute(rc)], id)
  {
    forall i | 0 <= i < |fns| ensures fns[i].UnRegisterRoute? ==> fns[i].rc.Key() != rc.Key() {
      assert fns[i].UnRegisterRoute? ==> Claims(fns, fns[i].rc.Key());
    }
  }

  lemma MembersAfterJoin(w: World, name: string, group: string, groupKey: string, rc: RouteConfig, g: string, n: string)
    requires Coherent(w) && GroupRegister(w, name, group, groupKey, rc).1 == None
    ensures MemberOf(GroupRegister(w, name, group, groupKey, rc).0, g, n) ==
            if g == group && n == name then Some(rc.createConn) else MemberOf(w, g, n)
    ensures MemberOf(w, group, name) == None
  {
    if group in w.groups { assert GroupFits(w, group); }
  }

  lemma RoutesAfterJoin(w: World, name: string, group: string, groupKey: string, rc: RouteConfig)
    requires GroupRegister(w, name, group, groupKey, rc).1 == None
    ensures var after := GroupRegister(w, name, group, groupKey, rc).0;
            && (forall k :: k in w.routes ==> k in after.routes && after.routes[k] == w.routes[k])
            && (forall k :: k in after.routes && k !in w.routes ==> after.routes[k] == Shared(group) && after.groups[group].fns == map[name := rc.createConn])
  {
  }

  /** A group with members keeps its route when another one joins; a new one gets the route of the first member. */
  lemma KeysAfterJoin(w: World, name: string, group: string, groupKey: string, rc: RouteConfig, g: string)
    requires GroupRegister(w, name, group, groupKey, rc).1 == None
    ensures var after := GroupRegister(w, name, group, groupKey, rc).0;
            && group in after.groups && after.groups[group].Key() == rc.Key()
            && (g in w.groups && w.groups[g].fns != map[] ==> g in after.groups && after.groups[g].Key() == w.groups[g].Key())
  {
  }

  lemma StillMember(w: World, after: World, r: Running, p: nat)
    requires r.cfg.group != "" && Holds(w, r, p)
    requires MemberOf(w, r.cfg.group, r.cfg.name) == Some(p) ==>
               && MemberOf(after, r.cfg.group, r.cfg.name) == Some(p)
               && after.groups[r.cfg.group].Key() == w.groups[r.cfg.group].Key()
    ensures Holds(after, r, p)
  {
  }

  lemma Joined(h: Hub, id: nat, rc: RouteConfig, r: Running)
    requires Accounted(h) && id in h.live && h.live[id].fns == [] && rc.createConn == id && r.cfg == h.live[id].cfg && r.cfg.group != ""
    requires GroupRegister(h.w, r.cfg.name, r.cfg.group, r.cfg.groupKey, rc).1 == None
    requires r.fns == [LeaveGroup(r.cfg.name, r.cfg.group)] && InOrder(r, id)
    requires Targets(r.cfg, id) != [] && Targets(r.cfg, id)[0] == rc
    ensures Accounted(Hub(GroupRegister(h.w, r.cfg.name, r.cfg.group, r.cfg.groupKey, rc).0, h.live[id := r]))
  {
    var name, group, key := r.cfg.name, r.cfg.group, r.cfg.groupKey;
    var after := GroupRegister(h.w, name, group, key, rc).0;
    var next := Hub(after, h.live[id := r]);
    RegisterCoherent(h.w, name, group, key, rc);
    RoutesAfterJoin(h.w, name, group, key, rc);
    forall g, n ensures MemberOf(after, g, n) == if g == group && n == name then Some(id) else MemberOf(h.w, g, n) {
      MembersAfterJoin(h.w, name, group, key, rc, g, n);
    }
    MembersAfterJoin(h.w, name, group, key, rc, group, name);
    KeysAfterJoin(h.w, name, group, key, rc, group);
    forall p | p in next.live ensures Holds(after, next.live[p], p) && InOrder(next.live[p], p) {
      if p != id {
        assert Holds(h.w, h.live[p], p) && InOrder(h.live[p], p);
        HoldsAfterJoin(h.w, name, group, key, rc, h.live[p], p);
      }
    }
    forall k | k in after.routes ensures RouteKnown(next, k) { if k in h.w.routes { assert RouteKnown(h, k); } }
    forall g, n ensures MemberKnown(next, g, n) { assert MemberKnown(h, g, n); }
  }

  lemma HoldsAfterJoin(w: World, name: string, group: string, groupKey: string, rc: RouteConfig, r: Running, p: nat)
    requires Coherent(w) && GroupRegister(w, name, group, groupKey, rc).1 == None && Holds(w, r, p)
    ensures Holds(GroupRegister(w, name, group, groupKey, rc).0, r, p)
  {
    var after := GroupRegister(w, name, group, groupKey, rc).0;
    RoutesAfterJoin(w, name, group, groupKey, rc);
    if r.cfg.group != "" {
      MembersAfterJoin(w, name, group, groupKey, rc, r.cfg.group, r.cfg.name);
      KeysAfterJoin(w, name, group, groupKey, rc, r.cfg.group);
      StillMember(w, after, r, p);
    }
  }

  lemma JoinTouchesOnly(w: World, name: string, group: string, groupKey: string, rc: RouteConfig, id: nat)
    requires Coherent(w) && GroupRegister(w, name, group, groupKey, rc).1 == None && rc.createConn == id
    ensures TouchesOnly(w, GroupRegister(w, name, group, groupKey, rc).0, id)
  {
    var after := GroupRegister(w, name, group, groupKey, rc).0;
    RoutesAfterJoin(w, name, group, groupKey, rc);
    forall g, n ensures MemberOf(after, g, n) == if g == group && n == name then Some(id) else MemberOf(w, g, n) {
      MembersAfterJoin(w, name, group, groupKey, rc, g, n);
    }
    MembersAfterJoin(w, name, group, groupKey, rc, group, name);
  }

  /** A registration with a group that fails leaves at most an empty group behind. */
  lemma RefusedJoin(w: World, name: string, group: string, groupKey: string, rc: RouteConfig)
    requires Coherent(w) && GroupRegister(w, name, group, groupKey, rc).1.Some?
    ensures var after := GroupRegister(w, name, group, groupKey, rc).0; Coherent(after) && SameLive(after, w)
  {
    RegisterCoherent(w, name, group, groupKey, rc);
  }

  lemma RegisterAccounted(h: Hub, id: nat)
    requires Accounted(h) && id in h.live && h.live[id].phase.Adding?
    ensures Accounted(RegisterStep(h, id)) && TouchesOnly(h.w, RegisterStep(h, id).w, id)
  {
    var r := h.live[id];
    var todo := r.phase.todo;
    assert Holds(h.w, r, id) && InOrder(r, id);
    if todo == [] {
      QuietStep(h, id, r.(phase := Up), h.w);
    } else {
      TargetIsOwned(h, id);
      NextInOrder(r, id);
      var (after, err) := RegisterOne(h.w, r.cfg, todo[0]);
      if err.Some? {
        if r.cfg.group != "" { RefusedJoin(h.w, r.cfg.name, r.cfg.group, r.cfg.groupKey, todo[0]); }
        QuietStep(h, id, r.(phase := Undoing), after);
      } else if r.cfg.group == "" {
        AddTouchesOnly(h.w, todo[0], id);
        RouteAdded(h, id, todo[0], Running(r.cfg, Adding(todo[1..]), r.fns + [UnRegisterRoute(todo[0])]));
      } else {
        MembersAfterJoin(h.w, r.cfg.name, r.cfg.group, r.cfg.groupKey, todo[0], r.cfg.group, r.cfg.name);
        assert r.fns == [];
        JoinTouchesOnly(h.w, r.cfg.name, r.cfg.group, r.cfg.groupKey, todo[0], id);
        Joined(h, id, todo[0], Running(r.cfg, Adding(todo[1..]), r.fns + [LeaveGroup(r.cfg.name, r.cfg.group)]));
      }
    }
  }

  // ----- one close function -----

  lemma ClaimsTail(fns: seq<CloseFn>, k: RouteKey)
    requires fns != [] && fns[0].UnRegisterRoute? && DistinctClaims(fns)
    ensures Claims(fns[1..], k) <==> Claims(fns, k) && k != fns[0].rc.Key()
  {
    if Claims(fns[1..], k) {
      var i :| 0 <= i < |fns[1..]| && fns[1..][i].UnRegisterRoute? && fns[1..][i].rc.Key() == k;
      assert fns[i + 1] == fns[1..][i];
    }
    if Claims(fns, k) && k != fns[0].rc.Key() {
      var i :| 0 <= i < |fns| && fns[i].UnRegisterRoute? && fns[i].rc.Key() == k;
      assert fns[1..][i - 1] == fns[i];
    }
  }

  lemma OwnRouteRemoved(w: World, fns: seq<CloseFn>, id: nat)
    requires HoldsRoutes(w, fns, id) && fns != []
    ensures fns[0].UnRegisterRoute? && fns[0].rc.Key() in w.routes && w.routes[fns[0].rc.Key()] == Direct(id)
    ensures HoldsRoutes(Undo(w, fns[0]), fns[1..], id)
  {
    assert fns[0].UnRegisterRoute? && Claims(fns, fns[0].rc.Key());
    forall k ensures Claims(fns[1..], k) <==> Claims(fns, k) && k != fns[0].rc.Key() { ClaimsTail(fns, k); }
  }

  lemma RouteRemoved(h: Hub, id: nat)
    requires Accounted(h) && id in h.live && h.live[id].phase.Undoing? && h.live[id].fns != [] && h.live[id].cfg.group == ""
    ensures Accounted(UndoStep(h, id)) && TouchesOnly(h.w, UndoStep(h, id).w, id)
  {
    var r, next := h.live[id], UndoStep(h, id);
    assert Holds(h.w, r, id);
    OwnRouteRemoved(h.w, r.fns, id);
    DirectChangeCoherent(h.w, next.w);
    forall p | p in next.live ensures Holds(next.w, next.live[p], p) && InOrder(next.live[p], p) {
      if p != id {
        assert Holds(h.w, h.live[p], p) && InOrder(h.live[p], p);
        StillHolds(h.w, next.w, h.live[p], p);
      }
    }
    forall k | k in next.w.routes ensures RouteKnown(next, k) {
      assert RouteKnown(h, k);
      ClaimsTail(r.fns, k);
    }
    forall g, n ensures MemberKnown(next, g, n) {
      assert MemberKnown(h, g, n);
      DirectIsNoMember(h, id, g, n);
    }
  }

  lemma MembersAfterLeave(w: World, name: string, group: string, g: string, n: string)
    requires group in w.groups
    ensures MemberOf(GroupUnRegister(w, name, group), g, n) ==
            if g == group && n == name then None else MemberOf(w, g, n)
  {
    var left := w.groups[group].fns - {name};
    assert n in w.groups[group].fns && n != name ==> n in left;
  }

  /** A group that is left loses its route exactly when no other proxy is a member. */
  lemma RoutesAfterLeave(w: World, id: nat, name: string, group: string)
    requires Coherent(w) && MemberOf(w, group, name) == Some(id)
    ensures var after := GroupUnRegister(w, name, group);
            && (forall k :: k in after.routes ==> k in w.routes && after.routes[k] == w.routes[k])
            && (forall k :: k in w.routes && k !in after.routes ==> w.routes[k].Shared? && GoesWith(w, k, id))
  {
    var g := w.groups[group];
    assert GroupFits(w, group);
    assert forall n :: n in g.fns && n != name ==> n in g.fns - {name};
  }

  lemma HoldsAfterLeave(w: World, id: nat, name: string, group: string, r: Running, p: nat)
    requires Coherent(w) && MemberOf(w, group, name) == Some(id) && p != id && Holds(w, r, p)
    ensures Holds(GroupUnRegister(w, name, group), r, p)
  {
    RoutesAfterLeave(w, id, name, group);
    if r.cfg.group != "" {
      MembersAfterLeave(w, name, group, r.cfg.group, r.cfg.name);
      StillMember(w, GroupUnRegister(w, name, group), r, p);
    }
  }

  lemma LeaveTouchesOnly(w: World, id: nat, name: string, group: string)
    requires Coherent(w) && MemberOf(w, group, name) == Some(id)
    ensures TouchesOnly(w, GroupUnRegister(w, name, group), id)
  {
    RoutesAfterLeave(w, id, name, group);
    forall g, n ensures MemberOf(GroupUnRegister(w, name, group), g, n) == if g == group && n == name then None else MemberOf(w, g, n) {
      MembersAfterLeave(w, name, group, g, n);
    }
  }

  lemma MemberLeft(h: Hub, id: nat)
    requires Accounted(h) && id in h.live && h.live[id].phase.Undoing? && h.live[id].fns != [] && h.live[id].cfg.group != ""
    ensures Accounted(UndoStep(h, id)) && TouchesOnly(h.w, UndoStep(h, id).w, id)
  {
    var r, next := h.live[id], UndoStep(h, id);
    var name, group := r.cfg.name, r.cfg.group;
    assert Holds(h.w, r, id) && r.fns[1..] == [];
    assert next.w == GroupUnRegister(h.w, name, group);
    LeaveTouchesOnly(h.w, id, name, group);
    UnRegisterCoherent(h.w, name, group);
    RoutesAfterLeave(h.w, id, name, group);
    forall p | p in next.live ensures Holds(next.w, next.live[p], p) && InOrder(next.live[p], p) {
      assert Holds(h.w, h.live[p], p) && InOrder(h.live[p], p);
      if p != id { HoldsAfterLeave(h.w, id, name, group, h.live[p], p); }
    }
    forall k | k in next.w.routes ensures RouteKnown(next, k) { assert RouteKnown(h, k); }
    forall g, n ensures MemberKnown(next, g, n) {
      MembersAfterLeave(h.w, name, group, g, n);
      assert MemberKnown(h, g, n);
    }
  }

  /** A proxy without close functions left holds nothing, so that it can go. */
  lemma Gone(h: Hub, id: nat)
    requires Accounted(h) && id in h.live && h.live[id].phase.Undoing? && h.live[id].fns == []
    ensures Accounted(UndoStep(h, id))
  {
    var next := UndoStep(h, id);
    forall p | p in next.live ensures Holds(next.w, next.live[p], p) && InOrder(next.live[p], p) {
      assert Holds(h.w, h.live[p], p) && InOrder(h.live[p], p);
    }
    forall k | k in next.w.routes ensures RouteKnown(next, k) { assert RouteKnown(h, k); }
    forall g, n ensures MemberKnown(next, g, n) { assert MemberKnown(h, g, n); }
  }

  // ----- every run -----

  lemma StartAccounted(h: Hub, id: nat, cfg: HTTPConf)
    requires Accounted(h) && id !in h.live
    ensures Accounted(Step(h, Start(id, cfg)))
  {
    var next := Step(h, Start(id, cfg));
    assert Targets(cfg, id)[0..] == Targets(cfg, id);
    forall p | p in next.live ensures Holds(next.w, next.live[p], p) && InOrder(next.live[p], p) {
      if p != id { assert Holds(h.w, h.live[p], p) && InOrder(h.live[p], p); }
    }
    forall k | k in next.w.routes ensures RouteKnown(next, k) { assert RouteKnown(h, k); }
    forall g, n ensures MemberKnown(next, g, n) { assert MemberKnown(h, g, n); }
  }

  /** Each step of a proxy keeps the accounts, and touches no route and no membership of another one. */
  lemma StepTouchesOnlyItsOwn(h: Hub, e: Event)
    requires Accounted(h)
    ensures Accounted(Step(h, e)) && TouchesOnly(h.w, Step(h, e).w, e.id)
  {
    var id := e.id;
    match e
    case Start(_, cfg) => if id !in h.live { StartAccounted(h, id, cfg); }
    case Register(_) => if id in h.live && h.live[id].phase.Adding? { RegisterAccounted(h, id); }
    case Close(_) =>
      if id in h.live && h.live[id].phase.Up? { QuietStep(h, id, h.live[id].(phase := Undoing), h.w); }
    case RunCloseFn(_) =>
      if id in h.live && h.live[id].phase.Undoing? {
        if h.live[id].fns == [] {
          Gone(h, id);
        } else if h.live[id].cfg.group == "" {
          RouteRemoved(h, id);
        } else {
          MemberLeft(h, id);
        }
      }
  }

  /**
   * In every run of proxies starting, failing and closing, however their registrations interleave, each
   * direct route and each group membership belongs to exactly one live proxy.
   */
  lemma {:induction false} EveryRunIsAccounted(h: Hub, events: seq<Event>)
    requires Accounted(h)
    ensures Accounted(Replay(h, events))
    decreases |events|
  {
    if events != [] {
      StepTouchesOnlyItsOwn(h, events[0]);
      EveryRunIsAccounted(Step(h, events[0]), events[1..]);
    }
  }

  /**
   * All or nothing, at every moment of every run: a proxy that is up has, for every domain and location
   * of its settings, its own route there, or its group's route there and its place in the group.
   */
  lemma UpServesItsSettings(events: seq<Event>, id: nat, d: string, l: string)
    requires var h := Replay(Empty, events); id in h.live && h.live[id].phase.Up?
    requires var cfg := Replay(Empty, events).live[id].cfg;
             && ((d != "" && d in cfg.customDomains) || (cfg.subDomain != "" && d == cfg.subDomain + "." + cfg.subDomainHost))
             && (if cfg.locations == [] then l == "" else l in cfg.locations)
    ensures var h := Replay(Empty, events);
            var cfg := h.live[id].cfg;
            var k := RouteKey(d, cfg.routeByHTTPUser, l);
            && k in h.w.routes && h.w.routes[k] == (if cfg.group == "" then Direct(id) else Shared(cfg.group))
            && (cfg.group != "" ==>
                  cfg.group in h.w.groups && cfg.name in h.w.groups[cfg.group].fns && h.w.groups[cfg.group].fns[cfg.name] == id)
  {
    EveryRunIsAccounted(Empty, events);
    var h := Replay(Empty, events);
    var cfg := h.live[id].cfg;
    var rc := RouteConfig(d, l, cfg.routeByHTTPUser, id);
    TargetsExact(cfg, id, rc);
    UpIsRegistered(h, id, rc);
  }

  /** A proxy that is not live, because it never started, failed or closed, has no route and no membership. */
  lemma OthersHaveNothing(events: seq<Event>, id: nat)
    requires id !in Replay(Empty, events).live
    ensures var w := Replay(Empty, events).w;
            && (forall k :: k in w.routes ==> w.routes[k] != Direct(id))
            && (forall g, n :: g in w.groups && n in w.groups[g].fns ==> w.groups[g].fns[n] != id)
  {
    EveryRunIsAccounted(Empty, events);
    var h := Replay(Empty, events);
    forall k | k in h.w.routes ensures h.w.routes[k] != Direct(id) { assert RouteKnown(h, k); }
    forall g, n | g in h.w.groups && n in h.w.groups[g].fns ensures h.w.groups[g].fns[n] != id { assert MemberKnown(h, g, n); }
  }

  /** The key is registered for this proxy: by its own route, or by its group's route and its membership. */
  ghost predicate RegisteredAs(w: World, cfg: HTTPConf, id: nat, k: RouteKey) {
    && k in w.routes && w.routes[k] == (if cfg.group == "" then Direct(id) else Shared(cfg.group))
    && (cfg.group != "" ==> MemberOf(w, cfg.group, cfg.name) == Some(id))
  }

  lemma UpIsRegistered(h: Hub, id: nat, rc: RouteConfig)
    requires Accounted(h) && id in h.live && h.live[id].phase.Up?
    ensures rc in Targets(h.live[id].cfg, id) ==> RegisteredAs(h.w, h.live[id].cfg, id, rc.Key())
  {
    var r := h.live[id];
    var targets := Targets(r.cfg, id);
    assert Holds(h.w, r, id) && InOrder(r, id);
    assert |targets[|r.fns|..]| == |targets| - |r.fns|;
    if i :| 0 <= i < |targets| && targets[i] == rc {
      assert r.fns[i] == CloseFnFor(r.cfg, rc);
      if r.cfg.group == "" {
        assert Claims(r.fns, rc.Key());
      } else {
        assert i == 0 && GroupFits(h.w, r.cfg.group);
      }
    }
  }

  /** When no proxy is live any more, no route is left. */
  lemma NothingLeaks(events: seq<Event>)
    requires Replay(Empty, events).live == map[]
    ensures Replay(Empty, events).w.routes == map[]
  {
    EveryRunIsAccounted(Empty, events);
    var h := Replay(Empty, events);
    assert forall k :: k in h.w.routes ==> RouteKnown(h, k) && SharedFits(h.w, k);
    forall g | g in h.w.groups ensures h.w.groups[g].fns == map[] {
      forall n ensures MemberOf(h.w, g, n) == None { assert MemberKnown(h, g, n); }
      assert forall n :: n in h.w.groups[g].fns ==> MemberOf(h.w, g, n).Some?;
    }
    assert forall k :: k !in h.w.routes;
  }

  // ----- a run that nobody interrupts is the run of the proxy object -----

  lemma {:induction false} ReplayAppend(h: Hub, a: seq<Event>, b: seq<Event>)
    ensures Replay(h, a + b) == Replay(Replay(h, a), b)
    decreases |a|
  {
    if a == [] {
      assert a + b == b;
    } else {
      assert (a + b)[1..] == a[1..] + b;
      ReplayAppend(Step(h, a[0]), a[1..], b);
    }
  }

  /** Running all close functions without interruption is `UndoAll`. */
  lemma {:induction false} CloseIsSteps(h: Hub, id: nat) returns (events: seq<Event>)
    requires id in h.live && h.live[id].phase.Undoing?
    ensures Replay(h, events) == Hub(UndoAll(h.w, h.live[id].fns), h.live - {id})
    decreases |h.live[id].fns|
  {
    var e := RunCloseFn(id);
    var next := Step(h, e);
    var rest: seq<Event> := [];
    if h.live[id].fns != [] {
      rest := CloseIsSteps(next, id);
      assert next.live - {id} == h.live - {id};
    }
    events := [e] + rest;
    assert events[1..] == rest;
  }

  /** Telling a proxy that is up to close, and then nobody interrupting it, is `UndoAll`. */
  lemma ClosingIsSteps(h: Hub, id: nat) returns (events: seq<Event>)
    requires id in h.live && h.live[id].phase.Up?
    ensures Replay(h, [Close(id)] + events) == Hub(UndoAll(h.w, h.live[id].fns), h.live - {id})
  {
    var next := Step(h, Close(id));
    events := CloseIsSteps(next, id);
    assert ([Close(id)] + events)[1..] == events;
    assert next.live - {id} == h.live - {id};
  }

  /** The registrations of a proxy without interruption, and its close functions if one fails, are `RunFrom`. */
  lemma {:induction false} RunIsSteps(h: Hub, id: nat) returns (events: seq<Event>)
    requires id in h.live && h.live[id].phase.Adding?
    ensures var r := h.live[id];
            var (after, fns, err) := RunFrom(h.w, r.cfg, r.phase.todo, r.fns);
            Replay(h, events) == Hub(after, if err.Some? then h.live - {id} else h.live[id := Running(r.cfg, Up, fns)])
    decreases |h.live[id].phase.todo|
  {
    var r := h.live[id];
    var e := Register(id);
    var next := Step(h, e);
    var rest: seq<Event> := [];
    if r.phase.todo != [] {
      if next.live[id].phase.Undoing? {
        rest := CloseIsSteps(next, id);
        assert next.live - {id} == h.live - {id};
      } else {
        rest := RunIsSteps(next, id);
        assert next.live - {id} == h.live - {id};
        forall v { Overwrite(h.live, id, next.live[id], v); }
      }
    }
    events := [e] + rest;
    assert events[1..] == rest;
  }
}
