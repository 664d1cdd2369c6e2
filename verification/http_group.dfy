/**
 * Load-balancing groups of HTTP proxies (server/group/http.go): members share one route, and requests
 * are dealt to them in turn.
 */
module HttpGroups {
  import opened Prelude
  import opened Routing

  /** What a route leads to: the connection function of one proxy, or the dealer of a group. */
  datatype RoutePayload = Direct(owner: nat) | Shared(group: string)

  /** The part of `vhost.RouteConfig` that registration uses; `createConn` stands for the proxy's connection function. */
  datatype RouteConfig = RouteConfig(domain: string, location: string, routeByHTTPUser: string, createConn: nat) {
    function Key(): RouteKey { RouteKey(domain, routeByHTTPUser, location) }
  }

  datatype GroupError = RouteConflict | ParamsInvalid | AuthFailed | ProxyRepeated

  /** The fields of a group, as a value. */
  datatype GroupState = GroupState(group: string, groupKey: string, domain: string, location: string, user: string,
                                   names: seq<string>, fns: map<string, nat>)
  {
    function Key(): RouteKey { RouteKey(domain, user, location) }

    /** The dealing list has no duplicates and names exactly the registered connection functions. */
    ghost predicate Consistent() {
      && (forall i, j :: 0 <= i < j < |names| ==> names[i] != names[j])
      && (forall n :: n in names <==> n in fns)
    }
  }

  const EmptyGroup := GroupState("", "", "", "", "", [], map[])

  /** The routes and the groups by name, as a value. */
  datatype World = World(routes: Table<RoutePayload>, groups: map<string, GroupState>)

  /** A proxy joins a group: the first member registers the shared route, later ones must agree with it. */
  function Enter(routes: Table<RoutePayload>, g: GroupState, name: string, group: string, groupKey: string, rc: RouteConfig)
    : Result<(Table<RoutePayload>, GroupState), GroupError>
  {
    if g.fns == map[] && rc.Key() in routes then Err(RouteConflict)
    else if g.fns == map[] then
      Ok((routes[rc.Key() := Shared(group)],
          GroupState(group, groupKey, rc.domain, rc.location, rc.routeByHTTPUser, g.names + [name], map[name := rc.createConn])))
    else if g.group != group || g.Key() != rc.Key() then Err(ParamsInvalid)
    else if g.groupKey != groupKey then Err(AuthFailed)
    else if name in g.fns then Err(ProxyRepeated)
    else Ok((routes, g.(names := g.names + [name], fns := g.fns[name := rc.createConn])))
  }

  function RemoveFirst(names: seq<string>, name: string): seq<string> {
    if names == [] then []
    else if names[0] == name then names[1..]
    else [names[0]] + RemoveFirst(names[1..], name)
  }

  /** A proxy leaves a group; an empty group takes its route along. */
  function Leave(routes: Table<RoutePayload>, g: GroupState, name: string): (Table<RoutePayload>, GroupState) {
    var left := g.(names := RemoveFirst(g.names, name), fns := g.fns - {name});
    (if left.fns == map[] then routes - {g.Key()} else routes, left)
  }

  function GroupAt(w: World, group: string): GroupState {
    if group in w.groups then w.groups[group] else EmptyGroup
  }

  /** `HTTPGroupController.Register` on values; a failed first registration leaves an empty group behind. */
  function GroupRegister(w: World, name: string, group: string, groupKey: string, rc: RouteConfig): (World, Option<GroupError>) {
    match Enter(w.routes, GroupAt(w, group), name, group, groupKey, rc)
    case Ok((routes, g)) => (World(routes, w.groups[group := g]), None)
    case Err(e) => (World(w.routes, w.groups[group := GroupAt(w, group)]), Some(e))
  }

  /** `HTTPGroupController.UnRegister` on values. */
  function GroupUnRegister(w: World, name: string, group: string): World {
    if group !in w.groups then w
    else
      var (routes, g) := Leave(w.routes, w.groups[group], name);
      World(routes, if g.fns == map[] then w.groups - {group} else w.groups[group := g])
  }

  lemma {:induction false} RemoveFirstElements(names: seq<string>, name: string)
    requires forall i, j :: 0 <= i < j < |names| ==> names[i] != names[j]
    ensures forall n :: n in RemoveFirst(names, name) <==> n in names && n != name
    ensures forall i, j :: 0 <= i < j < |RemoveFirst(names, name)| ==> RemoveFirst(names, name)[i] != RemoveFirst(names, name)[j]
  {
    if names != [] {
      RemoveFirstElements(names[1..], name);
      assert names == [names[0]] + names[1..];
      assert names[0] !in names[1..];
    }
  }

  /**
   * What joining answers. An empty group is joined exactly if its route is free. One with members is
   * joined exactly if group name, route and key are those of the group and the proxy's name is new; the
   * errors come in this order.
   */
  lemma EnterAnswers(routes: Table<RoutePayload>, g: GroupState, name: string, group: string, groupKey: string, rc: RouteConfig)
    ensures var r := Enter(routes, g, name, group, groupKey, rc);
            var free := RouteKey(rc.domain, rc.routeByHTTPUser, rc.location) !in routes;
            var agrees := g.group == group && g.domain == rc.domain && g.location == rc.location && g.user == rc.routeByHTTPUser;
            && (g.fns == map[] ==> (r.Ok? <==> free) && (r == Err(RouteConflict) <==> !free))
            && (g.fns != map[] ==>
                  && (r == Err(ParamsInvalid) <==> !agrees)
                  && (r == Err(AuthFailed) <==> agrees && g.groupKey != groupKey)
                  && (r == Err(ProxyRepeated) <==> agrees && g.groupKey == groupKey && name in g.fns)
                  && (r.Ok? <==> agrees && g.groupKey == groupKey && name !in g.fns))
  {
  }

  /** What joining changes: the member comes last with its function; the first one sets the group's data and its route. */
  lemma EnterChanges(routes: Table<RoutePayload>, g: GroupState, name: string, group: string, groupKey: string, rc: RouteConfig)
    requires Enter(routes, g, name, group, groupKey, rc).Ok?
    ensures var (after, joined) := Enter(routes, g, name, group, groupKey, rc).value;
            && joined.names == g.names + [name] && joined.fns == g.fns[name := rc.createConn]
            && joined.group == group && joined.groupKey == groupKey
            && joined.domain == rc.domain && joined.location == rc.location && joined.user == rc.routeByHTTPUser
            && after == if g.fns == map[] then routes[RouteKey(rc.domain, rc.routeByHTTPUser, rc.location) := Shared(group)] else routes
  {
  }

  /** Cutting a name out leaves the others in their order. */
  lemma {:induction false} RemoveFirstCuts(before: seq<string>, name: string, behind: seq<string>)
    requires name !in before
    ensures RemoveFirst(before + [name] + behind, name) == before + behind
  {
    var all := before + [name] + behind;
    if before != [] {
      assert all[1..] == before[1..] + [name] + behind;
      RemoveFirstCuts(before[1..], name, behind);
      assert before + behind == [before[0]] + (before[1..] + behind);
    } else {
      assert all[1..] == behind;
    }
  }

  /** Between operations every group is either empty and blank, or agrees with its name and holds the shared route. */
  ghost predicate GroupFits(w: World, group: string)
    requires group in w.groups
  {
    var g := w.groups[group];
    && g.Consistent()
    && (g.fns == map[] ==> g == EmptyGroup)
    && (g.fns != map[] ==> g.group == group && g.Key() in w.routes && w.routes[g.Key()] == Shared(group))
  }

  /** A shared route belongs to a group that has members and registered it. */
  ghost predicate SharedFits(w: World, k: RouteKey)
    requires k in w.routes
  {
    w.routes[k].Shared? ==>
      && w.routes[k].group in w.groups
      && w.groups[w.routes[k].group].fns != map[]
      && w.groups[w.routes[k].group].Key() == k
  }

  /** The group invariant: a group's route is in the router exactly while the group has members. */
  ghost predicate Coherent(w: World) {
    && (forall g :: g in w.groups ==> GroupFits(w, g))
    && (forall k :: k in w.routes ==> SharedFits(w, k))
  }

  lemma EnterConsistent(routes: Table<RoutePayload>, g: GroupState, name: string, group: string, groupKey: string, rc: RouteConfig)
    requires g.Consistent()
    requires Enter(routes, g, name, group, groupKey, rc).Ok?
    ensures Enter(routes, g, name, group, groupKey, rc).value.1.Consistent()
  {
    if g.fns == map[] {
      assert forall i :: 0 <= i < |g.names| ==> g.names[i] in g.fns;
    }
  }

  lemma LeaveConsistent(routes: Table<RoutePayload>, g: GroupState, name: string)
    requires g.Consistent()
    ensures Leave(routes, g, name).1.Consistent()
  {
    RemoveFirstElements(g.names, name);
  }

  /** Registering keeps the group invariant, whether it succeeds or fails. */
  lemma RegisterCoherent(w: World, name: string, group: string, groupKey: string, rc: RouteConfig)
    requires Coherent(w)
    ensures Coherent(GroupRegister(w, name, group, groupKey, rc).0)
  {
    var (next, err) := GroupRegister(w, name, group, groupKey, rc);
    assert GroupAt(w, group).Consistent() by { if group in w.groups { assert GroupFits(w, group); } }
    if err == None {
      EnterConsistent(w.routes, GroupAt(w, group), name, group, groupKey, rc);
      assert name in next.groups[group].fns;
    }
    forall g | g in next.groups ensures GroupFits(next, g) {
      if g in w.groups { assert GroupFits(w, g); }
    }
    forall k | k in next.routes ensures SharedFits(next, k) {
      if k in w.routes { assert SharedFits(w, k); }
    }
  }

  /** Unregistering a member keeps the group invariant. */
  lemma UnRegisterCoherent(w: World, name: string, group: string)
    requires Coherent(w)
    requires group in w.groups ==> name in w.groups[group].fns
    ensures Coherent(GroupUnRegister(w, name, group))
  {
    if group in w.groups {
      var next := GroupUnRegister(w, name, group);
      assert GroupFits(w, group);
      var (routes, left) := Leave(w.routes, w.groups[group], name);
      LeaveConsistent(w.routes, w.groups[group], name);
      forall g | g in next.groups ensures GroupFits(next, g) { assert GroupFits(w, g); }
      forall k | k in next.routes ensures SharedFits(next, k) {
        assert SharedFits(w, k) && next.routes[k] == w.routes[k];
        assert left.fns == map[] ==> k != w.groups[group].Key();
        assert forall g :: g in w.groups && g != group ==> g in next.groups && next.groups[g] == w.groups[g];
      }
    }
  }

  // ----- dealing requests to the members -----

  const TwoTo64 := 0x1_0000_0000_0000_0000

  /** The size of the machine's `int`. */
  datatype IntSize = Bits32 | Bits64 {
    /** The first number that does not fit. */
    function Half(): int { if Bits32? then 0x8000_0000 else 0x8000_0000_0000_0000 }
  }

  /** The conversion of the counter to an `int`. */
  function ToInt(size: IntSize, x: int): int {
    var low := x % (2 * size.Half());
    if low < size.Half() then low else low - 2 * size.Half()
  }

  /** Remainder that truncates toward zero. */
  function Rem(a: int, n: nat): int
    requires n > 0
  {
    if a >= 0 then a % n else -((-a) % n)
  }

  datatype Draw = Chosen(name: string) | NoMember | OutOfRange

  /** The member dealt at a counter value; a negative remainder is an index out of range. */
  function DrawAt(size: IntSize, names: seq<string>, index: int): Draw {
    if names == [] then NoMember
    else
      var at := Rem(ToInt(size, index), |names|);
      if 0 <= at < |names| then Chosen(names[at]) else OutOfRange
  }

  lemma SmallMultiple(n: int, d: int)
    requires 0 < n && 0 - n < n * d < n
    ensures d == 0
  {
    assert d >= 1 ==> n * d >= n;
    assert d <= -1 ==> n * d <= 0 - n;
  }

  lemma RemainderIsUnique(a: int, b: int, n: nat)
    requires 0 < n && a <= b < a + n && a % n == b % n
    ensures a == b
  {
    var qa, qb := a / n, b / n;
    assert a == n * qa + a % n && b == n * qb + b % n;
    assert b - a == n * (qb - qa);
    SmallMultiple(n, qb - qa);
  }

  lemma RemainderIsHit(low: nat, n: nat, j: nat) returns (k: nat)
    requires j < n
    ensures k < n && (low + k) % n == j
  {
    var r, q := low % n, low / n;
    assert low == n * q + r;
    k := if r <= j then j - r else j + n - r;
    if r <= j {
      ModOfSum(q, n, j);
    } else {
      assert low + k == n * (q + 1) + j;
      ModOfSum(q + 1, n, j);
    }
  }

  lemma ModOfSum(q: int, n: nat, j: nat)
    requires j < n
    ensures (n * q + j) % n == j
  {
    var m := (n * q + j) % n;
    var p := (n * q + j) / n;
    assert n * p + m == n * q + j;
    assert n * (p - q) == j - m;
    SmallMultiple(n, p - q);
  }

  lemma AddMultiple(n: nat, q: int, r: nat)
    requires n > 0
    ensures (n * q + r) % n == r % n
  {
    assert r == n * (r / n) + r % n;
    assert n * q + r == n * (q + r / n) + r % n;
    ModOfSum(q + r / n, n, r % n);
  }

  /** The counter wraps at 2^64; the draw is the same as if it did not. */
  lemma DrawIgnoresWrap(size: IntSize, names: seq<string>, counter: nat)
    ensures DrawAt(size, names, counter % TwoTo64) == DrawAt(size, names, counter)
  {
    var q, r, turn: nat := counter / TwoTo64, counter % TwoTo64, 2 * size.Half();
    var times := if size.Bits32? then 0x1_0000_0000 else 1;
    assert turn * (times * q) == TwoTo64 * q;
    AddMultiple(turn, times * q, r);
    assert r % turn == counter % turn;
    SameDraw(size, names, r, counter);
  }

  lemma SameDraw(size: IntSize, names: seq<string>, x: nat, y: nat)
    requires x % (2 * size.Half()) == y % (2 * size.Half())
    ensures DrawAt(size, names, x) == DrawAt(size, names, y)
  {
    assert ToInt(size, x) == ToInt(size, y);
  }

  // ----- when a window of draws is fair -----

  /** Draw c of the window behind `start` chooses this member. */
  predicate Hits(size: IntSize, names: seq<string>, start: nat, c: int, name: string) {
    start < c <= start + |names| && DrawAt(size, names, c) == Chosen(name)
  }

  /** As many consecutive draws as there are members choose every member exactly once. */
  ghost predicate Fair(size: IntSize, names: seq<string>, start: nat) {
    forall name :: name in names ==>
      && (exists c :: Hits(size, names, start, c, name))
      && (forall c, d :: Hits(size, names, start, c, name) && Hits(size, names, start, d, name) ==> c == d)
  }

  ghost predicate Distinct(names: seq<string>) {
    forall i, j :: 0 <= i < j < |names| ==> names[i] != names[j]
  }

  /** The first counter value of the window, as far as an `int` sees it. */
  function Low(size: IntSize, start: nat): nat { (start + 1) % (2 * size.Half()) }

  /**
   * Fairness, exactly: with n members fixed, n consecutive draws choose every member once if and only if
   * there is one member, or the counter stays below the first number that does not fit into an `int`,
   * or just reaches it and the group size divides it.
   */
  lemma RoundRobin(size: IntSize, names: seq<string>, start: nat)
    requires Distinct(names)
    ensures Fair(size, names, start) <==>
            || |names| <= 1
            || Low(size, start) + |names| <= size.Half()
            || (Low(size, start) + |names| == size.Half() + 1 && size.Half() % |names| == 0)
  {
    var n, half, low := |names|, size.Half(), Low(size, start);
    if n == 1 {
      OneMember(size, names, start);
    } else if n > 1 {
      if low + n <= half || (low + n == half + 1 && half % n == 0) {
        FairWindow(size, names, start);
      } else {
        var bad := BadDraw(size, names, start);
        BadDrawIsUnfair(size, names, start, bad);
      }
    }
  }

  /** While the counter fits, the member dealt is the one at the counter modulo the size of the group. */
  lemma DrawIs(size: IntSize, names: seq<string>, index: nat)
    requires names != [] && index < (if size.Bits32? then 0x8000_0000 else 0x8000_0000_0000_0000)
    ensures DrawAt(size, names, index) == Chosen(names[index % |names|])
  {
  }

  lemma OneMember(size: IntSize, names: seq<string>, start: nat)
    requires |names| == 1
    ensures Fair(size, names, start)
  {
    assert DrawAt(size, names, start + 1) == Chosen(names[0]);
    assert Hits(size, names, start, start + 1, names[0]);
  }

  /** What an `int` sees of draw k of the window. */
  lemma IntInWindow(size: IntSize, start: nat, k: nat)
    requires Low(size, start) + k < 2 * size.Half()
    ensures ToInt(size, start + 1 + k) ==
            if Low(size, start) + k < size.Half() then Low(size, start) + k else Low(size, start) + k - 2 * size.Half()
  {
    var turn := 2 * size.Half();
    var q := (start + 1) / turn;
    assert start + 1 + k == turn * q + (Low(size, start) + k);
    ModOfSum(q, turn, Low(size, start) + k);
  }

  lemma DrawInWindow(size: IntSize, names: seq<string>, start: nat, k: nat)
    requires k < |names|
    requires Low(size, start) + k < size.Half() || (Low(size, start) + k == size.Half() && size.Half() % |names| == 0)
    ensures DrawAt(size, names, start + 1 + k) == Chosen(names[(Low(size, start) + k) % |names|])
  {
    IntInWindow(size, start, k);
  }

  /** Draw k of the window chooses the member at this place of the rotation. */
  predicate Dealt(size: IntSize, names: seq<string>, start: nat, k: int)
    requires names != []
  {
    DrawAt(size, names, start + 1 + k) == Chosen(names[(Low(size, start) + k) % |names|])
  }

  lemma FairWindow(size: IntSize, names: seq<string>, start: nat)
    requires Distinct(names) && names != []
    requires || Low(size, start) + |names| <= size.Half()
             || (Low(size, start) + |names| == size.Half() + 1 && size.Half() % |names| == 0)
    ensures Fair(size, names, start)
  {
    forall k: nat | k < |names| ensures Dealt(size, names, start, k) { DrawInWindow(size, names, start, k); }
    forall name | name in names ensures exists c :: Hits(size, names, start, c, name) {
      var j :| 0 <= j < |names| && names[j] == name;
      var k := RemainderIsHit(Low(size, start), |names|, j);
      assert Dealt(size, names, start, k);
      assert Hits(size, names, start, start + 1 + k, name);
    }
    forall name, c, d | Hits(size, names, start, c, name) && Hits(size, names, start, d, name) ensures c == d {
      var k, l := c - start - 1, d - start - 1;
      assert Dealt(size, names, start, k) && Dealt(size, names, start, l);
      SameMember(names, Low(size, start) + Min(k, l), Low(size, start) + Max(k, l));
    }
  }

  lemma SameMember(names: seq<string>, a: nat, b: nat)
    requires Distinct(names) && names != [] && a <= b < a + |names|
    requires names[a % |names|] == names[b % |names|]
    ensures a == b
  {
    RemainderIsUnique(a, b, |names|);
  }

  lemma BeforeMultiple(m: nat, n: nat)
    requires n >= 2 && m >= 1 && m % n == 0
    ensures m >= 2 && (m - 1) % n == n - 1
  {
    assert m == n * (m / n);
    assert m - 1 == n * (m / n - 1) + (n - 1);
    ModOfSum(m / n - 1, n, n - 1);
  }

  /** Past the range of an `int` one of two consecutive draws is out of range. */
  lemma NegativeDraws(size: IntSize, names: seq<string>, start: nat, k: nat) returns (bad: int)
    requires |names| >= 2 && size.Half() <= Low(size, start) + k < 2 * size.Half()
    ensures bad == start + 1 + k || bad == start + 2 + k
    ensures DrawAt(size, names, bad) == OutOfRange
    ensures (2 * size.Half() - (Low(size, start) + k)) % |names| != 0 ==> bad == start + 1 + k
  {
    var m: nat := 2 * size.Half() - (Low(size, start) + k);
    IntInWindow(size, start, k);
    bad := start + 1 + k;
    if m % |names| == 0 {
      BeforeMultiple(m, |names|);
      IntInWindow(size, start, k + 1);
      bad := start + 2 + k;
    }
  }

  /** A window that is not fair has a draw that is out of range. */
  lemma BadDraw(size: IntSize, names: seq<string>, start: nat) returns (bad: int)
    requires |names| >= 2
    requires Low(size, start) + |names| > size.Half()
    requires !(Low(size, start) + |names| == size.Half() + 1 && size.Half() % |names| == 0)
    ensures start < bad <= start + |names| && DrawAt(size, names, bad) == OutOfRange
  {
    var low, half := Low(size, start), size.Half();
    bad := NegativeDraws(size, names, start, if low >= half then 0 else half - low);
  }

  /** The counter values of a window. */
  function Window(start: nat, n: nat): set<int> {
    if n == 0 then {} else Window(start, n - 1) + {start + n}
  }

  lemma {:induction false} WindowIs(start: nat, n: nat)
    ensures |Window(start, n)| == n && forall c :: c in Window(start, n) <==> start < c <= start + n
  {
    if n > 0 { WindowIs(start, n - 1); }
  }

  lemma {:induction false} DistinctFit(draws: seq<int>, room: set<int>)
    requires forall i :: 0 <= i < |draws| ==> draws[i] in room
    requires forall i, j :: 0 <= i < j < |draws| ==> draws[i] != draws[j]
    ensures |draws| <= |room|
  {
    if draws != [] {
      var last := |draws| - 1;
      DistinctFit(draws[..last], room - {draws[last]});
    }
  }

  ghost function HitOf(size: IntSize, names: seq<string>, start: nat, name: string): (c: int)
    requires exists c :: Hits(size, names, start, c, name)
    ensures Hits(size, names, start, c, name)
  {
    var c :| Hits(size, names, start, c, name);
    c
  }

  /** With one draw out of range there are too few left to choose every member. */
  lemma BadDrawIsUnfair(size: IntSize, names: seq<string>, start: nat, bad: int)
    requires Distinct(names)
    requires start < bad <= start + |names| && DrawAt(size, names, bad) == OutOfRange
    ensures !Fair(size, names, start)
  {
    if Fair(size, names, start) {
      assert forall i :: 0 <= i < |names| ==> names[i] in names;
      var draws := seq(|names|, i requires 0 <= i < |names| => HitOf(size, names, start, names[i]));
      WindowIs(start, |names|);
      DistinctFit(draws, Window(start, |names|) - {bad});
      assert false;
    }
  }

  /** A single draw stops working exactly when the counter does not fit and the group size does not divide what an `int` makes of it. */
  lemma LateDraws(size: IntSize, names: seq<string>, index: nat)
    requires names != []
    ensures DrawAt(size, names, index) == OutOfRange <==>
            var low := index % (2 * size.Half()); low >= size.Half() && (2 * size.Half() - low) % |names| != 0
  {
  }

  /** Two members at the last counter values that fit, and at the first that do not, on a machine with 64 bits. */
  lemma FirstUnfairWindow(names: seq<string>)
    requires Distinct(names) && |names| == 2
    ensures Fair(Bits64, names, 0x7fff_ffff_ffff_fffe) && !Fair(Bits64, names, 0x7fff_ffff_ffff_ffff)
  {
    RoundRobin(Bits64, names, 0x7fff_ffff_ffff_fffe);
    RoundRobin(Bits64, names, 0x7fff_ffff_ffff_ffff);
  }

  class HTTPGroup {
    var group: string
    var groupKey: string
    var domain: string
    var location: string
    var routeByHTTPUser: string
    var createFuncs: map<string, nat>
    var pxyNames: seq<string>
    var index: int
    const vhostRouter: Routers<RoutePayload>
    const size: IntSize

    /** The name under which the controller keeps this group. */
    ghost const slot: string

    ghost function State(): GroupState
      reads this
    {
      GroupState(group, groupKey, domain, location, routeByHTTPUser, pxyNames, createFuncs)
    }

    ghost predicate Valid()
      reads this
    {
      State().Consistent() && 0 <= index < TwoTo64
    }

    constructor (vhostRouter: Routers<RoutePayload>, size: IntSize, ghost slot: string)
      ensures Valid() && State() == EmptyGroup && this.vhostRouter == vhostRouter && this.slot == slot && this.size == size
    {
      this.slot, this.size := slot, size;
      this.vhostRouter := vhostRouter;
      group, groupKey, domain, location, routeByHTTPUser := "", "", "", "", "";
      createFuncs, pxyNames, index := map[], [], 0;
    }

    method Register(proxyName: string, group: string, groupKey: string, routeConfig: RouteConfig)
      returns (err: Option<GroupError>)
      requires Valid() && vhostRouter.Valid()
      modifies this, vhostRouter
      ensures Valid() && vhostRouter.Valid()
      ensures match Enter(old(vhostRouter.table), old(State()), proxyName, group, groupKey, routeConfig)
              case Ok((routes, g)) => err == None && vhostRouter.table == routes && State() == g
              case Err(e) => err == Some(e) && vhostRouter.table == old(vhostRouter.table) && State() == old(State())
      ensures index == old(index)
    {
      ghost var routes, before := vhostRouter.table, State();
      if createFuncs == map[] {
        // Whoever joins an empty group registers its route.
        var added := vhostRouter.Add(routeConfig.domain, routeConfig.location, routeConfig.routeByHTTPUser, Shared(group));
        if !added {
          return Some(RouteConflict);
        }
        this.group := group;
        this.groupKey := groupKey;
        this.domain := routeConfig.domain;
        this.location := routeConfig.location;
        this.routeByHTTPUser := routeConfig.routeByHTTPUser;
      } else {
        if this.group != group || this.domain != routeConfig.domain ||
           this.location != routeConfig.location || this.routeByHTTPUser != routeConfig.routeByHTTPUser {
          return Some(ParamsInvalid);
        }
        if this.groupKey != groupKey {
          return Some(AuthFailed);
        }
      }
      if proxyName in createFuncs {
        return Some(ProxyRepeated);
      }
      createFuncs := createFuncs[proxyName := routeConfig.createConn];
      pxyNames := pxyNames + [proxyName];
      EnterConsistent(routes, before, proxyName, group, groupKey, routeConfig);
      return None;
    }

    /** The scan that cuts a name out of the dealing list. */
    static method Removed(names: seq<string>, proxyName: string) returns (left: seq<string>)
      ensures left == RemoveFirst(names, proxyName)
    {
      for i := 0 to |names|
        invariant RemoveFirst(names, proxyName) == names[..i] + RemoveFirst(names[i..], proxyName)
      {
        assert names[i..][1..] == names[i + 1..];
        if names[i] == proxyName {
          return names[..i] + names[i + 1..];
        }
        assert names[..i] + [names[i]] == names[..i + 1];
      }
      left := names;
    }

    method UnRegister(proxyName: string) returns (isEmpty: bool)
      requires Valid() && vhostRouter.Valid()
      modifies this, vhostRouter
      ensures Valid() && vhostRouter.Valid()
      ensures (vhostRouter.table, State()) == Leave(old(vhostRouter.table), old(State()), proxyName)
      ensures isEmpty <==> createFuncs == map[]
      ensures index == old(index)
    {
      LeaveConsistent(vhostRouter.table, State(), proxyName);
      createFuncs := createFuncs - {proxyName};
      pxyNames := Removed(pxyNames, proxyName);
      isEmpty := false;
      if createFuncs == map[] {
        isEmpty := true;
        vhostRouter.Del(domain, location, routeByHTTPUser);
      }
    }

    /** Deals the next member's name; the counter wraps at 2^64. */
    method ChooseEndpoint() returns (d: Draw)
      requires Valid()
      modifies this`index
      ensures Valid() && State() == old(State())
      ensures index == (old(index) + 1) % TwoTo64
      ensures d == DrawAt(size, pxyNames, index) || (DrawAt(size, pxyNames, index) == Chosen("") && d == NoMember)
    {
      index := (index + 1) % TwoTo64;
      var name := "";
      if |pxyNames| > 0 {
        var at := Rem(ToInt(size, index), |pxyNames|);
        if !(0 <= at < |pxyNames|) {
          return OutOfRange;
        }
        name := pxyNames[at];
      }
      if name == "" {
        return NoMember;
      }
      return Chosen(name);
    }

    /** Deals the next member's connection function, with the same counter. */
    method CreateConn() returns (d: Draw, f: Option<nat>)
      requires Valid()
      modifies this`index
      ensures Valid() && State() == old(State())
      ensures index == (old(index) + 1) % TwoTo64
      ensures d == DrawAt(size, pxyNames, index)
      ensures f == if d.Chosen? then Some(createFuncs[d.name]) else None
    {
      index := (index + 1) % TwoTo64;
      if |pxyNames| == 0 {
        return NoMember, None;
      }
      var at := Rem(ToInt(size, index), |pxyNames|);
      if !(0 <= at < |pxyNames|) {
        return OutOfRange, None;
      }
      var name := pxyNames[at];
      assert name in pxyNames;
      return Chosen(name), Some(createFuncs[name]);
    }

    method CreateConnByEndpoint(endpoint: string) returns (f: Option<nat>)
      requires Valid()
      ensures f.Some? <==> endpoint in pxyNames
      ensures f.Some? ==> f.value == createFuncs[endpoint]
    {
      f := if endpoint in createFuncs then Some(createFuncs[endpoint]) else None;
    }
  }

  class HTTPGroupController {
    var groups: map<string, HTTPGroup>
    const vhostRouter: Routers<RoutePayload>
    const size: IntSize

    ghost predicate Valid()
      reads this, groups.Values, vhostRouter
    {
      && vhostRouter.Valid()
      && (forall g :: g in groups ==> Holds(g, groups[g]))
    }

    /** The object kept under a name is a sound group on the shared router. */
    ghost predicate Holds(name: string, g: HTTPGroup)
      reads g
    {
      g.slot == name && g.vhostRouter == vhostRouter && g.Valid()
    }

    ghost function View(): World
      reads this, groups.Values, vhostRouter
    {
      World(vhostRouter.table, States())
    }

    constructor (vhostRouter: Routers<RoutePayload>, size: IntSize)
      requires vhostRouter.Valid()
      ensures Valid() && View() == World(vhostRouter.table, map[]) && this.vhostRouter == vhostRouter && groups == map[]
    {
      this.vhostRouter, this.size := vhostRouter, size;
      groups := map[];
    }

    /** The groups, as values. */
    ghost function States(): map<string, GroupState>
      reads this, groups.Values
    {
      map g | g in groups :: groups[g].State()
    }

    /** Changing one group object changes the state of that group alone. */
    twostate lemma OthersUnchanged(group: string)
      requires old(Valid()) && groups == old(groups) && group in groups
      requires forall o: HTTPGroup :: o in groups.Values && o != groups[group] ==> unchanged(o)
      requires Holds(group, groups[group]) && vhostRouter.Valid()
      ensures Valid()
      ensures States() == old(States())[group := groups[group].State()]
    {
      forall h | h in groups && h != group ensures groups[h].State() == old(groups[h].State()) && Holds(h, groups[h]) {
        assert groups[h] in groups.Values && Holds(group, groups[group]);
      }
    }

    method Create(group: string)
      requires Valid() && group !in groups
      modifies this
      ensures Valid() && fresh(groups.Values - old(groups.Values))
      ensures group in groups && States() == old(States())[group := EmptyGroup]
    {
      var g := new HTTPGroup(vhostRouter, size, group);
      Install(group, g);
    }

    method Install(group: string, g: HTTPGroup)
      requires Valid() && group !in groups && Holds(group, g)
      modifies this
      ensures Valid() && groups == old(groups)[group := g]
      ensures States() == old(States())[group := old(g.State())]
    {
      groups := groups[group := g];
      assert forall h :: h in old(groups) ==> groups[h] == old(groups)[h];
    }

    /** The group of this name, created on first use. */
    method FindOrCreate(group: string) returns (g: HTTPGroup)
      requires Valid()
      modifies this
      ensures Valid() && fresh(groups.Values - old(groups.Values))
      ensures group in groups && groups[group] == g
      ensures States() == old(States())[group := GroupAt(old(View()), group)]
    {
      if group !in groups {
        Create(group);
      }
      g := groups[group];
    }

    method Drop(group: string)
      requires Valid()
      modifies this
      ensures Valid() && groups.Values <= old(groups.Values)
      ensures States() == old(States()) - {group}
    {
      groups := groups - {group};
    }

    /** Registration through one group object, seen from the controller. */
    method RegisterAt(g: HTTPGroup, proxyName: string, group: string, groupKey: string, routeConfig: RouteConfig)
      returns (err: Option<GroupError>)
      requires Valid() && group in groups && groups[group] == g
      modifies g, vhostRouter
      ensures Valid()
      ensures match Enter(old(vhostRouter.table), old(g.State()), proxyName, group, groupKey, routeConfig)
              case Ok((routes, s)) => err == None && vhostRouter.table == routes && States() == old(States())[group := s]
              case Err(e) => err == Some(e) && vhostRouter.table == old(vhostRouter.table) && States() == old(States())
    {
      err := g.Register(proxyName, group, groupKey, routeConfig);
      OthersUnchanged(group);
    }

    method Register(proxyName: string, group: string, groupKey: string, routeConfig: RouteConfig)
      returns (err: Option<GroupError>)
      requires Valid()
      modifies this, groups.Values, vhostRouter
      ensures Valid() && fresh(groups.Values - old(groups.Values))
      ensures (View(), err) == GroupRegister(old(View()), proxyName, group, groupKey, routeConfig)
    {
      ghost var w := View();
      var g := FindOrCreate(group);
      ghost var states := States();
      assert g.State() == states[group];
      assert states == w.groups[group := GroupAt(w, group)];
      err := RegisterAt(g, proxyName, group, groupKey, routeConfig);
      assert err == None ==> States() == w.groups[group := States()[group]];
    }

    method UnRegisterAt(g: HTTPGroup, proxyName: string, group: string) returns (isEmpty: bool)
      requires Valid() && group in groups && groups[group] == g
      modifies g, vhostRouter
      ensures Valid()
      ensures (vhostRouter.table, g.State()) == Leave(old(vhostRouter.table), old(g.State()), proxyName)
      ensures States() == old(States())[group := g.State()]
      ensures isEmpty <==> g.State().fns == map[]
    {
      isEmpty := g.UnRegister(proxyName);
      OthersUnchanged(group);
    }

    method UnRegister(proxyName: string, group: string)
      requires Valid()
      modifies this, groups.Values, vhostRouter
      ensures Valid() && groups.Values <= old(groups.Values)
      ensures View() == GroupUnRegister(old(View()), proxyName, group)
    {
      if group !in groups {
        return;
      }
      ghost var w := States();
      var g := groups[group];
      var isEmpty := UnRegisterAt(g, proxyName, group);
      ghost var left := g.State();
      if isEmpty {
        assert w[group := left] - {group} == w - {group};
        Drop(group);
      }
    }
  }
}
