/**
 * The port allocator (server/ports/ports.go): allowed ports are used or free, and a proxy name gets
 * the port back that it had before, through reservations shared with the table of used ports.
 * Whether the operating system would let a port be bound is an oracle given with each call.
 */
module Ports {
  import opened Prelude

  const MinPort := 1
  const MaxPort := 65535
  /** `MaxPortReservedDuration`, 24 hours, in seconds. */
  const MaxReserved := 24 * 60 * 60
  const MaxTryTimes := 5

  predicate IsPort(p: int) { MinPort <= p <= MaxPort }

  function PortsBelow(n: int): set<int> { set p: int | MinPort <= p < n && IsPort(p) }

  datatype PortError = PortAlreadyUsed | PortNotAllowed | PortUnavailable | NoAvailablePort

  datatype Reservation = Reservation(port: int, closed: bool, time: int)

  /** The manager as a value: reservations by name, the name using each used port, and the free ports. */
  datatype PortState = PortState(reserved: map<string, Reservation>, used: map<int, string>, free: set<int>)

  type Oracle = int -> bool

  function Grant(s: PortState, name: string, port: int, now: int): PortState {
    PortState(s.reserved[name := Reservation(port, false, now)], s.used[port := name], s.free - {port})
  }

  /** The random search gave up: as many free ports as it may try, or all of them, were refused. */
  ghost predicate SearchFails(free: set<int>, avail: Oracle) {
    exists tried: set<int> :: tried <= free && |tried| == Min(MaxTryTimes, |free|) && forall p :: p in tried ==> !avail(p)
  }

  /** What `Acquire` may do; the random search makes it a relation. */
  ghost predicate Acquires(s: PortState, t: PortState, name: string, port: int, avail: Oracle, now: int, r: Result<int, PortError>) {
    if port == 0 && name in s.reserved && avail(s.reserved[name].port) then
      r == Ok(s.reserved[name].port) && t == Grant(s, name, s.reserved[name].port, now)
    else if port == 0 then
      match r
      case Ok(p) => p != 0 && p in s.free && avail(p) && t == Grant(s, name, p, now)
      case Err(e) =>
        && e == NoAvailablePort
        // A free port 0 is marked as used although the caller gets an error.
        && ((t == s && SearchFails(s.free, avail)) || (0 in s.free && avail(0) && t == Grant(s, name, 0, now)))
    else if port in s.free && avail(port) then
      r == Ok(port) && t == Grant(s, name, port, now)
    else
      t == s && r == Err(if port in s.free then PortUnavailable else if port in s.used then PortAlreadyUsed else PortNotAllowed)
  }

  /** `Release`: the port becomes free, and the reservation made with it counts as closed from now on. */
  function Released(s: PortState, port: int, now: int): PortState {
    if port !in s.used then s
    else
      var n := s.used[port];
      PortState(if n in s.reserved && s.reserved[n].port == port && !s.reserved[n].closed
                then s.reserved[n := Reservation(port, true, now)] else s.reserved,
                s.used - {port}, s.free + {port})
  }

  function Expired(r: Reservation, now: int): bool { r.closed && now - r.time > MaxReserved }

  /** One round of `cleanReservedPortsWorker`. */
  function Cleaned(s: PortState, now: int): PortState {
    s.(reserved := map n | n in s.reserved && !Expired(s.reserved[n], now) :: s.reserved[n])
  }

  // ----- invariants of every run -----

  datatype Event =
    | Acquire(name: string, port: int, avail: Oracle, now: int, result: Result<int, PortError>)
    | Release(port: int, now: int)
    | Clean(now: int)

  ghost predicate Next(s: PortState, t: PortState, e: Event) {
    match e
    case Acquire(name, port, avail, now, result) => Acquires(s, t, name, port, avail, now, result)
    case Release(port, now) => t == Released(s, port, now)
    case Clean(now) => t == Cleaned(s, now)
  }

  /** A run: a state before and after each event. */
  ghost predicate Run(states: seq<PortState>, events: seq<Event>) {
    |states| == |events| + 1 && forall i :: 0 <= i < |events| ==> Next(states[i], states[i + 1], events[i])
  }

  /** Every allowed port is either used or free, and reservations are for allowed ports. */
  ghost predicate Partition(s: PortState, allowed: set<int>) {
    && s.used.Keys !! s.free
    && s.used.Keys + s.free == allowed
    && forall n :: n in s.reserved ==> s.reserved[n].port in allowed
  }

  lemma StepKeepsPartition(s: PortState, t: PortState, e: Event, allowed: set<int>)
    requires Partition(s, allowed) && Next(s, t, e)
    ensures Partition(t, allowed)
  {
    if e.Release? && e.port in s.used {
      assert t.used.Keys == s.used.Keys - {e.port};
    } else if e.Acquire? && t != s {
      var p := t.reserved[e.name].port;
      assert t == Grant(s, e.name, p, e.now);
      assert t.used.Keys == s.used.Keys + {p};
    }
  }

  /** Ports are conserved in every run, whatever the operating system answers. */
  lemma {:induction false} PortsAreConserved(states: seq<PortState>, events: seq<Event>, allowed: set<int>, n: nat)
    requires Run(states, events) && n < |states| && Partition(states[0], allowed)
    ensures Partition(states[n], allowed)
  {
    if n > 0 {
      PortsAreConserved(states, events, allowed, n - 1);
      assert Next(states[n - 1], states[n - 1 + 1], events[n - 1]);
      StepKeepsPartition(states[n - 1], states[n], events[n - 1], allowed);
    }
  }

  /** A reservation that is not closed is for a port in use, by that name. */
  ghost predicate Linked(s: PortState) {
    forall n :: n in s.reserved && !s.reserved[n].closed ==> s.reserved[n].port in s.used && s.used[s.reserved[n].port] == n
  }

  /** The step takes a used port away from another name whose reservation for it is open. */
  ghost predicate Displaces(s: PortState, e: Event) {
    && e.Acquire? && e.port == 0 && e.name in s.reserved
    && var p := s.reserved[e.name].port;
    && e.avail(p) && p in s.used && s.used[p] != e.name
    && s.used[p] in s.reserved && s.reserved[s.used[p]].port == p && !s.reserved[s.used[p]].closed
  }

  /** A step keeps open reservations linked exactly when it does not displace another name. */
  lemma LinkedUnlessDisplaced(s: PortState, t: PortState, e: Event, allowed: set<int>)
    requires Partition(s, allowed) && Linked(s) && Next(s, t, e)
    ensures Linked(t) <==> !Displaces(s, e)
  {
    if e.Acquire? && t != s {
      var p := t.reserved[e.name].port;
      assert t == Grant(s, e.name, p, e.now);
      if Displaces(s, e) {
        var other := s.used[p];
        assert t.reserved[other] == s.reserved[other] && t.used[p] == e.name;
      } else {
        forall n | n in t.reserved && !t.reserved[n].closed
          ensures t.reserved[n].port in t.used && t.used[t.reserved[n].port] == n
        {
          if n != e.name { assert s.used[s.reserved[n].port] == n; }
        }
      }
    }
  }

  /** Over a whole run: open reservations are linked at every moment exactly when no step displaces another name. */
  lemma LinkedThroughout(states: seq<PortState>, events: seq<Event>, allowed: set<int>)
    requires Run(states, events) && Partition(states[0], allowed) && Linked(states[0])
    ensures (forall n :: 0 <= n < |states| ==> Linked(states[n])) <==> forall i :: 0 <= i < |events| ==> !Displaces(states[i], events[i])
  {
    if forall n :: 0 <= n < |states| ==> Linked(states[n]) {
      forall i | 0 <= i < |events| ensures !Displaces(states[i], events[i]) {
        PortsAreConserved(states, events, allowed, i);
        assert Next(states[i], states[i + 1], events[i]);
        LinkedUnlessDisplaced(states[i], states[i + 1], events[i], allowed);
      }
    } else {
      var n :| 0 <= n < |states| && !Linked(states[n]);
      if forall i :: 0 <= i < |events| ==> !Displaces(states[i], events[i]) { LinkedUntil(states, events, allowed, n); }
    }
  }

  lemma {:induction false} LinkedUntil(states: seq<PortState>, events: seq<Event>, allowed: set<int>, n: nat)
    requires Run(states, events) && n < |states| && Partition(states[0], allowed) && Linked(states[0])
    requires forall i :: 0 <= i < |events| ==> !Displaces(states[i], events[i])
    ensures Linked(states[n])
  {
    if n > 0 {
      LinkedUntil(states, events, allowed, n - 1);
      PortsAreConserved(states, events, allowed, n - 1);
      assert Next(states[n - 1], states[n - 1 + 1], events[n - 1]);
      LinkedUnlessDisplaced(states[n - 1], states[n], events[n - 1], allowed);
    }
  }

  /** The operating system refuses every port that is in use. */
  ghost predicate Honest(s: PortState, e: Event) {
    e.Acquire? ==> forall p :: p in s.used ==> !e.avail(p)
  }

  lemma ReservationsStayLinked(states: seq<PortState>, events: seq<Event>, allowed: set<int>, n: nat)
    requires Run(states, events) && n < |states|
    requires Partition(states[0], allowed) && Linked(states[0])
    requires forall i :: 0 <= i < |events| ==> Honest(states[i], events[i])
    ensures Linked(states[n])
  {
    forall i | 0 <= i < |events| ensures !Displaces(states[i], events[i]) { assert Honest(states[i], events[i]); }
    LinkedUntil(states, events, allowed, n);
  }

  /** The name that uses a port has not closed its reservation, if that is for this port. */
  ghost predicate UsersOpen(s: PortState) {
    forall p :: p in s.used && s.used[p] in s.reserved && s.reserved[s.used[p]].port == p ==> !s.reserved[s.used[p]].closed
  }

  lemma {:induction false} UsersStayOpen(states: seq<PortState>, events: seq<Event>, n: nat)
    requires Run(states, events) && n < |states| && UsersOpen(states[0])
    ensures UsersOpen(states[n])
  {
    if n > 0 {
      UsersStayOpen(states, events, n - 1);
      var s, t, e := states[n - 1], states[n], events[n - 1];
      assert Next(states[n - 1], states[n - 1 + 1], e);
      if e.Acquire? && t != s { assert t == Grant(s, e.name, t.reserved[e.name].port, e.now); }
    }
  }

  /**
   * In every run of a new manager, whatever the operating system answers, cleaning spares the
   * reservation that a name has for a port it is using.
   */
  lemma CleaningSparesUsedPorts(states: seq<PortState>, events: seq<Event>, n: nat, now: int, name: string)
    requires Run(states, events) && n < |states| && states[0].used == map[]
    requires name in states[n].reserved
    requires var p := states[n].reserved[name].port; p in states[n].used && states[n].used[p] == name
    ensures name in Cleaned(states[n], now).reserved
  {
    UsersStayOpen(states, events, n);
  }

  /**
   * A reservation lasts a day: after a name's port was released, and until the name is given a port
   * again, no cleaning in the next 24 hours drops it.
   */
  lemma {:induction false} ReservationLastsADay(states: seq<PortState>, events: seq<Event>, i: nat, n: nat, name: string, p: int, at: int)
    requires Run(states, events) && i < n < |states| && events[i] == Release(p, at)
    requires p in states[i].used && states[i].used[p] == name
    requires name in states[i].reserved && states[i].reserved[name].port == p && !states[i].reserved[name].closed
    requires forall j :: i < j < n ==> !Gives(states[j], states[j + 1], events[j], name)
    requires forall j :: i < j < n && events[j].Clean? ==> events[j].now - at <= 24 * 60 * 60
    ensures name in states[n].reserved && states[n].reserved[name] == Reservation(p, true, at)
  {
    assert Next(states[n - 1], states[n - 1 + 1], events[n - 1]);
    if n > i + 1 {
      ReservationLastsADay(states, events, i, n - 1, name, p, at);
      assert !Gives(states[n - 1], states[n - 1 + 1], events[n - 1], name);
    }
  }

  /** The first cleaning after that day drops it. */
  lemma ReservationExpires(states: seq<PortState>, events: seq<Event>, i: nat, n: nat, name: string, p: int, at: int)
    requires Run(states, events) && i < n < |events| && events[i] == Release(p, at)
    requires p in states[i].used && states[i].used[p] == name
    requires name in states[i].reserved && states[i].reserved[name].port == p && !states[i].reserved[name].closed
    requires forall j :: i < j < n ==> !Gives(states[j], states[j + 1], events[j], name)
    requires forall j :: i < j < n && events[j].Clean? ==> events[j].now - at <= 24 * 60 * 60
    requires events[n].Clean? && events[n].now - at > 24 * 60 * 60
    ensures name !in states[n + 1].reserved
  {
    ReservationLastsADay(states, events, i, n, name, p, at);
    assert Next(states[n], states[n + 1], events[n]);
  }

  // ----- a name gets its port back -----

  /** The event gives the name a port: it is an acquisition by this name that changes something. */
  ghost predicate Gives(s: PortState, t: PortState, e: Event, name: string) {
    e.Acquire? && e.name == name && t != s
  }

  /**
   * Port affinity: after a name acquired port p, and as long as it has been given no other and its
   * reservation has not been cleaned, asking for any port yields p again whenever the operating system
   * grants p, whatever other names did in between.
   */
  lemma {:induction false} PortAffinity(states: seq<PortState>, events: seq<Event>, i: nat, n: nat, p: int)
    requires Run(states, events) && i < n < |events|
    requires events[i].Acquire? && events[i].result == Ok(p)
    requires forall j :: i < j < n ==> !Gives(states[j], states[j + 1], events[j], events[i].name)
    requires forall j :: i < j <= n ==> events[i].name in states[j].reserved
    requires events[n].Acquire? && events[n].name == events[i].name && events[n].port == 0 && events[n].avail(p)
    ensures events[n].result == Ok(p)
  {
    assert Next(states[i], states[i + 1], events[i]);
    PortKept(states, events, i, n, p);
    assert Next(states[n], states[n + 1], events[n]);
  }

  lemma {:induction false} PortKept(states: seq<PortState>, events: seq<Event>, i: nat, n: nat, p: int)
    requires Run(states, events) && i < n < |states|
    requires events[i].Acquire? && events[i].result == Ok(p)
    requires forall j :: i < j < n ==> !Gives(states[j], states[j + 1], events[j], events[i].name)
    requires forall j :: i < j <= n ==> events[i].name in states[j].reserved
    ensures states[n].reserved[events[i].name].port == p
  {
    assert Next(states[n - 1], states[n - 1 + 1], events[n - 1]);
    if n > i + 1 {
      PortKept(states, events, i, n - 1, p);
      assert !Gives(states[n - 1], states[n - 1 + 1], events[n - 1], events[i].name);
    }
  }

  /** The event gives another name this port. */
  ghost predicate GivenAway(s: PortState, t: PortState, e: Event, name: string, p: int) {
    e.Acquire? && e.name != name && t != s && t == Grant(s, e.name, p, e.now)
  }

  /**
   * While the port acquired by a name has not been released or given to another name, its reservation
   * survives every cleaning, so the name still owns the port, however long the run and whatever other
   * names do.
   */
  lemma {:induction false} UsedPortKeepsItsReservation(states: seq<PortState>, events: seq<Event>, i: nat, n: nat, p: int)
    requires Run(states, events) && i < n < |states|
    requires events[i].Acquire? && events[i].result == Ok(p)
    requires forall j :: i < j < n ==> !Gives(states[j], states[j + 1], events[j], events[i].name)
    requires forall j :: i < j < n ==> !GivenAway(states[j], states[j + 1], events[j], events[i].name, p)
    requires forall j :: i < j < n ==> events[j].Release? ==> events[j].port != p
    ensures events[i].name in states[n].reserved
    ensures states[n].reserved[events[i].name].port == p && !states[n].reserved[events[i].name].closed
    ensures p in states[n].used && states[n].used[p] == events[i].name
  {
    var s, t, e := states[n - 1], states[n], events[n - 1];
    assert Next(states[n - 1], states[n - 1 + 1], events[n - 1]);
    if n > i + 1 {
      UsedPortKeepsItsReservation(states, events, i, n - 1, p);
      assert !Gives(states[n - 1], states[n - 1 + 1], e, events[i].name);
      assert !GivenAway(states[n - 1], states[n - 1 + 1], e, events[i].name, p);
      if e.Acquire? && t != s {
        var q := t.reserved[e.name].port;
        assert t == Grant(s, e.name, q, e.now);
      }
    }
  }

  /**
   * What an acquisition takes: a success takes an allowed port, and one in use exactly when the name's
   * reservation is for such a port and the operating system grants it; a failure takes nothing, or port 0.
   */
  lemma AcquireTakes(s: PortState, t: PortState, name: string, port: int, avail: Oracle, now: int, r: Result<int, PortError>, allowed: set<int>)
    requires Acquires(s, t, name, port, avail, now, r) && Partition(s, allowed)
    ensures r.Ok? ==> r.value in allowed && t == Grant(s, name, r.value, now)
    ensures r.Ok? ==> (r.value in s.used <==> port == 0 && name in s.reserved && avail(s.reserved[name].port) && s.reserved[name].port in s.used)
    ensures r.Err? ==> t == s || (TakesZero(s, name, port, avail) && 0 !in s.used && t == Grant(s, name, 0, now))
  {
  }

  // ----- what an acquisition answers -----

  /** No port is granted that the operating system refuses. */
  lemma GrantedOnlyIfAvailable(s: PortState, t: PortState, name: string, port: int, avail: Oracle, now: int, p: int)
    requires Acquires(s, t, name, port, avail, now, Ok(p))
    ensures avail(p) && (port == 0 || p == port)
  {
  }

  /** A port asked for by number is granted exactly if it is free and available; otherwise the error says why not. */
  lemma SpecifiedPort(s: PortState, t: PortState, name: string, port: int, avail: Oracle, now: int, r: Result<int, PortError>)
    requires Acquires(s, t, name, port, avail, now, r) && port != 0
    ensures r == Ok(port) <==> port in s.free && avail(port)
    ensures r == Err(PortUnavailable) <==> port in s.free && !avail(port)
    ensures r == Err(PortAlreadyUsed) <==> port !in s.free && port in s.used
    ensures r == Err(PortNotAllowed) <==> port !in s.free && port !in s.used
    ensures r.Err? ==> t == s
  {
  }

  /** What a success records: the name as the user of the port, and an open reservation of this moment. */
  lemma SuccessRecords(s: PortState, t: PortState, name: string, port: int, avail: Oracle, now: int, p: int)
    requires Acquires(s, t, name, port, avail, now, Ok(p))
    ensures t.used == s.used[p := name] && t.free == s.free - {p}
    ensures t.reserved == s.reserved[name := Reservation(p, false, now)]
  {
  }

  lemma {:induction false} SubsetSize<T>(a: set<T>, b: set<T>)
    requires a <= b
    ensures |a| <= |b|
  {
    assert b == a + (b - a);
  }

  /**
   * Asking for any port succeeds if the operating system refuses fewer than five of the free ports, and
   * not all of them. (Port 0 must not be among them.)
   */
  lemma AnyPortIsFound(s: PortState, t: PortState, name: string, avail: Oracle, now: int, r: Result<int, PortError>)
    requires Acquires(s, t, name, 0, avail, now, r) && 0 !in s.free
    requires var refused := set p | p in s.free && !avail(p); |refused| < 5 && |refused| < |s.free|
    ensures r.Ok?
  {
    var refused := set p | p in s.free && !avail(p);
    if tried: set<int> :| tried <= s.free && |tried| == Min(MaxTryTimes, |s.free|) && forall p :: p in tried ==> !avail(p) {
      SubsetSize(tried, refused);
    }
  }

  // ----- a failing acquisition -----

  /** The random search runs and can come to port 0, which the code takes for "nothing found". */
  predicate TakesZero(s: PortState, name: string, port: int, avail: Oracle) {
    port == 0 && !(name in s.reserved && avail(s.reserved[name].port)) && 0 in s.free && avail(0)
  }

  /** A failing acquisition can change something exactly when the random search can come to port 0. */
  lemma FailureCanChange(s: PortState, name: string, port: int, avail: Oracle, now: int)
    ensures (exists t, r :: Acquires(s, t, name, port, avail, now, r) && r.Err? && t != s) <==> TakesZero(s, name, port, avail)
  {
    var t := Grant(s, name, 0, now);
    if TakesZero(s, name, port, avail) {
      assert 0 !in t.free;
      assert Acquires(s, t, name, port, avail, now, Err(NoAvailablePort));
    }
  }

  /** One who may use the ports 0 to 1 asks for any port, and is refused although port 0 is now in use. */
  lemma FailureThatChanges()
    ensures var s := PortState(map[], map[], {0, 1});
            var t := PortState(map["ssh" := Reservation(0, false, 9)], map[0 := "ssh"], {1});
            Acquires(s, t, "ssh", 0, p => p == 0, 9, Err(NoAvailablePort))
  {
    var s := PortState(map[], map[], {0, 1});
    assert {0, 1} - {0} == {1};
    assert Grant(s, "ssh", 0, 9) == PortState(map["ssh" := Reservation(0, false, 9)], map[0 := "ssh"], {1});
  }

  // ----- an open reservation can lose its port -----

  const AnyPort: Oracle := p => true

  const TwiceGranted: seq<Event> := [
    Acquire("b", 7, AnyPort, 1, Ok(7)),
    Release(7, 2),
    Acquire("a", 7, AnyPort, 3, Ok(7)),
    Acquire("b", 0, AnyPort, 4, Ok(7))
  ]

  /**
   * A run in which a port is granted twice. The name "b" had port 7 and released it; "a" acquires it
   * next, and before "a" has opened its socket, "b" asks for any port and gets 7 as well.
   */
  lemma PortGrantedTwice() returns (states: seq<PortState>)
    ensures Run(states, TwiceGranted) && states[0] == PortState(map[], map[], {7})
    ensures Linked(states[3]) && !Linked(states[4])
  {
    var s := PortState(map[], map[], {7});
    var s1 := Grant(s, "b", 7, 1);
    var s2 := Released(s1, 7, 2);
    var s3 := Grant(s2, "a", 7, 3);
    var s4 := Grant(s3, "b", 7, 4);
    states := [s, s1, s2, s3, s4];
    assert s4.reserved["a"] == Reservation(7, false, 3) && s4.used[7] == "b";
  }

  // ----- the manager object -----

  /** Shared between the reservations and the table of used ports. */
  class PortCtx {
    const proxyName: string
    var port: int
    var closed: bool
    var updateTime: int

    constructor (proxyName: string, now: int)
      ensures this.proxyName == proxyName && port == 0 && !closed && updateTime == now
    {
      this.proxyName := proxyName;
      port, closed, updateTime := 0, false, now;
    }

    ghost function State(): Reservation
      reads this
    {
      Reservation(port, closed, updateTime)
    }
  }

  class Manager {
    var reservedPorts: map<string, PortCtx>
    var usedPorts: map<int, PortCtx>
    var freePorts: set<int>

    ghost function View(): PortState
      reads this, reservedPorts.Values, usedPorts.Values
    {
      PortState(map n | n in reservedPorts :: reservedPorts[n].State(), map p | p in usedPorts :: usedPorts[p].proxyName, freePorts)
    }

    /**
     * Contexts know their name and port, a used port has an open context, and an open reservation that
     * agrees with a used port in name and number is the very context in use.
     */
    ghost predicate Valid()
      reads this, reservedPorts.Values, usedPorts.Values
    {
      && (forall n :: n in reservedPorts ==> reservedPorts[n].proxyName == n)
      && (forall p :: p in usedPorts ==> usedPorts[p].port == p && !usedPorts[p].closed)
      && (forall p :: p in usedPorts ==> Shared(p, usedPorts[p].proxyName))
    }

    ghost predicate Shared(p: int, n: string)
      requires p in usedPorts
      reads this, reservedPorts.Values
    {
      n in reservedPorts && reservedPorts[n].port == p && !reservedPorts[n].closed ==> reservedPorts[n] == usedPorts[p]
    }

    /** Under an honest oracle, an open reservation is the very context in the table of used ports. */
    lemma OpenReservationIsInUse(n: string)
      requires Valid() && Linked(View()) && n in reservedPorts && !reservedPorts[n].closed
      ensures reservedPorts[n].port in usedPorts && usedPorts[reservedPorts[n].port] == reservedPorts[n]
    {
      assert View().reserved[n] == reservedPorts[n].State();
      assert Shared(reservedPorts[n].port, n);
    }

    constructor (allowPorts: set<int>)
      ensures Valid()
      ensures View() == PortState(map[], map[], if allowPorts != {} then allowPorts else PortsBelow(MaxPort + 1))
      ensures Linked(View()) && Partition(View(), freePorts)
      ensures forall p :: p in View().free <==> if allowPorts != {} then p in allowPorts else 1 <= p <= 65535
    {
      reservedPorts, usedPorts, freePorts := map[], map[], {};
      new;
      if allowPorts != {} {
        freePorts := allowPorts;
      } else {
        for i := MinPort to MaxPort + 1
          invariant usedPorts == map[] && reservedPorts == map[]
          invariant freePorts == PortsBelow(i)
        {
          assert IsPort(i);
          assert PortsBelow(i + 1) == PortsBelow(i) + {i};
          freePorts := freePorts + {i};
        }
      }
    }

    /** A context that is in neither table yet. */
    ghost predicate Unused(ctx: PortCtx, name: string, now: int)
      reads this, ctx
    {
      && ctx !in reservedPorts.Values && ctx !in usedPorts.Values
      && ctx.proxyName == name && !ctx.closed && ctx.updateTime == now
    }

    /** Puts a new context for a port into both tables. */
    method Take(portCtx: PortCtx, name: string, realPort: int, ghost now: int)
      requires Valid() && Unused(portCtx, name, now)
      modifies this, portCtx
      ensures Valid() && View() == Grant(old(View()), name, realPort, now)
      ensures usedPorts.Values <= old(usedPorts.Values) + {portCtx}
    {
      Number(portCtx, name, realPort, now);
      Put(portCtx, name, realPort);
    }

    /** The port number of a context is filled in last. */
    method Number(portCtx: PortCtx, name: string, realPort: int, ghost now: int)
      requires Valid() && Unused(portCtx, name, now)
      modifies portCtx
      ensures Valid() && Unused(portCtx, name, now) && portCtx.port == realPort
      ensures View() == old(View())
    {
      portCtx.port := realPort;
      assert View().reserved == old(View().reserved);
    }

    method Put(portCtx: PortCtx, name: string, realPort: int)
      requires Valid() && Unused(portCtx, name, portCtx.updateTime) && portCtx.port == realPort
      modifies this
      ensures Valid() && View() == Grant(old(View()), name, realPort, portCtx.updateTime)
      ensures usedPorts == old(usedPorts)[realPort := portCtx]
    {
      ghost var before := View();
      usedPorts := usedPorts[realPort := portCtx];
      reservedPorts := reservedPorts[name := portCtx];
      freePorts := freePorts - {realPort};
      ghost var after := View();
      assert after.used == before.used[realPort := name];
      assert after.reserved == before.reserved[name := Reservation(realPort, false, portCtx.updateTime)];
      forall p | p in usedPorts ensures Shared(p, usedPorts[p].proxyName) {
        assert p != realPort ==> old(Shared(p, usedPorts[p].proxyName));
      }
    }

    method Acquire(name: string, port: int, avail: Oracle, now: int) returns (r: Result<int, PortError>)
      requires Valid()
      modifies this
      ensures Valid() && Acquires(old(View()), View(), name, port, avail, now, r)
      ensures fresh(usedPorts.Values - old(usedPorts.Values))
    {
      var portCtx := new PortCtx(name, now);

      // A port that the name had before is preferred.
      if port == 0 && name in reservedPorts {
        var ctx := reservedPorts[name];
        if avail(ctx.port) {
          var realPort := ctx.port;
          assert realPort == View().reserved[name].port;
          Take(portCtx, name, realPort, now);
          return Ok(realPort);
        }
      }

      if port == 0 {
        r := AcquireAny(portCtx, name, avail, now);
      } else {
        r := AcquireSpecified(portCtx, name, port, avail, now);
      }
    }

    method AcquireAny(portCtx: PortCtx, name: string, avail: Oracle, ghost now: int) returns (r: Result<int, PortError>)
      requires Valid() && Unused(portCtx, name, now)
      modifies this, portCtx
      ensures Valid() && usedPorts.Values <= old(usedPorts.Values) + {portCtx}
      ensures match r
              case Ok(p) => p != 0 && p in old(freePorts) && avail(p) && View() == Grant(old(View()), name, p, now)
              case Err(e) =>
                && e == NoAvailablePort
                && ((View() == old(View()) && SearchFails(old(freePorts), avail)) ||
                    (0 in old(freePorts) && avail(0) && View() == Grant(old(View()), name, 0, now)))
    {
      var found := Search(avail);
      if found == None {
        return Err(NoAvailablePort);
      }
      Take(portCtx, name, found.value, now);
      r := if found.value == 0 then Err(NoAvailablePort) else Ok(found.value);
    }

    method AcquireSpecified(portCtx: PortCtx, name: string, port: int, avail: Oracle, ghost now: int)
      returns (r: Result<int, PortError>)
      requires Valid() && Unused(portCtx, name, now) && port != 0
      modifies this, portCtx
      ensures Valid() && Acquires(old(View()), View(), name, port, avail, now, r)
      ensures usedPorts.Values <= old(usedPorts.Values) + {portCtx}
    {
      if port in freePorts {
        if avail(port) {
          Take(portCtx, name, port, now);
          return Ok(port);
        }
        return Err(PortUnavailable);
      }
      if port in usedPorts {
        return Err(PortAlreadyUsed);
      }
      return Err(PortNotAllowed);
    }

    lemma GaveUp(free: set<int>, tried: set<int>, avail: Oracle)
      requires tried <= free && (forall p :: p in tried ==> !avail(p))
      requires |tried| == MaxTryTimes || (tried == free && |tried| <= MaxTryTimes)
      ensures SearchFails(free, avail)
    {
      assert free == tried + (free - tried);
      assert |free| == |tried| + |free - tried|;
    }

    /** Tries free ports in no particular order, at most five of them. */
    method Search(avail: Oracle) returns (found: Option<int>)
      ensures match found
              case Some(k) => k in freePorts && avail(k)
              case None => SearchFails(freePorts, avail)
    {
      var count := 0;
      var rest := freePorts;
      while rest != {}
        invariant rest <= freePorts && count <= MaxTryTimes
        invariant forall p :: p in freePorts - rest ==> !avail(p)
        invariant |freePorts - rest| == count
        decreases rest
      {
        var k := AnyOf(rest);
        count := count + 1;
        if count > MaxTryTimes {
          GaveUp(freePorts, freePorts - rest, avail);
          return None;
        }
        if avail(k) {
          return Some(k);
        }
        assert freePorts - (rest - {k}) == (freePorts - rest) + {k};
        rest := rest - {k};
      }
      GaveUp(freePorts, freePorts - rest, avail);
      return None;
    }

    /** Which reservation is the context of a used port: the one that agrees with it, if any. */
    lemma SharedReservation(port: int)
      requires Valid() && port in usedPorts
      ensures var ctx, n := usedPorts[port], usedPorts[port].proxyName;
              && (forall m :: m in reservedPorts && reservedPorts[m] == ctx ==> m == n)
              && (n in reservedPorts && reservedPorts[n].port == port && !reservedPorts[n].closed
                  <==> n in reservedPorts && reservedPorts[n] == ctx)
              && (forall p :: p in usedPorts && p != port ==> usedPorts[p] != ctx)
    {
      assert Shared(port, usedPorts[port].proxyName);
    }

    /** Marks a context that is no longer in use as closed; its reservation, if it has one, shows it. */
    method Close(ctx: PortCtx, now: int)
      requires Valid() && (forall p :: p in usedPorts ==> usedPorts[p] != ctx)
      requires forall m :: m in reservedPorts && reservedPorts[m] == ctx ==> m == ctx.proxyName
      modifies ctx
      ensures Valid()
      ensures View() == old(View()).(reserved :=
                if ctx.proxyName in reservedPorts && reservedPorts[ctx.proxyName] == ctx
                then old(View()).reserved[ctx.proxyName := Reservation(old(ctx.port), true, now)] else old(View()).reserved)
    {
      ctx.closed := true;
      ctx.updateTime := now;
      assert View().used == old(View()).used;
      assert forall m :: m in reservedPorts && m != ctx.proxyName ==> reservedPorts[m].State() == old(reservedPorts[m].State());
    }

    /** Moves a port from the used to the free ones. */
    method Unlist(port: int)
      requires Valid() && port in usedPorts
      modifies this
      ensures Valid() && usedPorts == old(usedPorts) - {port} && reservedPorts == old(reservedPorts)
      ensures View() == PortState(old(View()).reserved, old(View()).used - {port}, old(View()).free + {port})
    {
      freePorts := freePorts + {port};
      usedPorts := usedPorts - {port};
      assert View().used == old(View()).used - {port};
      assert View().reserved == old(View()).reserved;
    }

    method Release(port: int, now: int)
      requires Valid()
      modifies this, usedPorts.Values
      ensures Valid() && View() == Released(old(View()), port, now)
    {
      if port in usedPorts {
        var ctx := usedPorts[port];
        SharedReservation(port);
        Unlist(port);
        Close(ctx, now);
      }
    }

    method CleanReservedPorts(now: int)
      requires Valid()
      modifies this
      ensures Valid() && View() == Cleaned(old(View()), now)
    {
      var names := reservedPorts.Keys;
      ghost var all := reservedPorts;
      while names != {}
        invariant names <= all.Keys && reservedPorts.Keys <= all.Keys && usedPorts == old(usedPorts) && freePorts == old(freePorts)
        invariant forall n :: n in reservedPorts ==> reservedPorts[n] == all[n]
        invariant forall n :: n in all ==> (n in reservedPorts <==> n in names || !Expired(all[n].State(), now))
        decreases names
      {
        var name :| name in names;
        names := names - {name};
        var ctx := reservedPorts[name];
        if ctx.closed && now - ctx.updateTime > MaxReserved {
          reservedPorts := reservedPorts - {name};
        }
      }
    }
  }
}
