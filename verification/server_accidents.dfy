/** Runs of the server and its allocator in which the TCP ports are not conserved. */
module ServerAccidents {
  import opened Prelude
  import Ports
  import opened ServerLedgers
  import opened ServerRuns
  import opened ServerPorts

  ghost predicate AllHonest(y: System, moves: seq<Move>)
    decreases |moves|
  {
    moves != [] ==> Honest(y, moves[0]) && AllHonest(Next(y, moves[0]), moves[1..])
  }

  /** A new server that may use port 7 only, and has no quota. */
  const Fresh := New(0, {7})

  /** A run with an honest operating system, and where it leads. */
  ghost predicate Leads(moves: seq<Move>, y: System) {
    Moves(Fresh, moves) == y && AllHonest(Fresh, moves)
  }

  lemma {:induction false} MovesMore(y: System, moves: seq<Move>, m: Move)
    ensures Moves(y, moves + [m]) == Next(Moves(y, moves), m)
    ensures AllHonest(y, moves + [m]) <==> AllHonest(y, moves) && Honest(Moves(y, moves), m)
    decreases |moves|
  {
    if moves == [] {
      assert moves + [m] == [m] && [m][1..] == [];
    } else {
      assert (moves + [m])[1..] == moves[1..] + [m];
      MovesMore(Next(y, moves[0]), moves[1..], m);
    }
  }

  lemma {:induction false} LastIsAccounted(y: System, moves: seq<Move>)
    requires PortsAccounted(y, moves)
    ensures Conserved(Moves(y, moves).v.ledger)
    decreases |moves|
  {
    if moves != [] { LastIsAccounted(Next(y, moves[0]), moves[1..]); }
  }

  lemma More(moves: seq<Move>, y: System, m: Move) returns (more: seq<Move>, next: System)
    requires Leads(moves, y) && Honest(y, m)
    ensures Leads(more, next) && next == Next(y, m)
  {
    MovesMore(Fresh, moves, m);
    more, next := moves + [m], Next(y, m);
  }

  /** A session that has nothing and is at this point. */
  function At(stage: Stage): Session { Session(0, map[], stage) }

  lemma LogsIn(moves: seq<Move>, y: System, s: nat) returns (more: seq<Move>, next: System)
    requires Leads(moves, y) && s !in y.v.sessions
    ensures Leads(more, next) && next == System(With(y.v, s, At(Idle)), y.ports)
  {
    more, next := More(moves, y, Section(Login(s), 0));
  }

  /** An idle session asks for a proxy, and the allocator gives it a port. */
  lemma Acquires(moves: seq<Move>, y: System, s: nat, conf: Conf, id: nat, now: int, p: int, after: Ports.PortState)
    returns (more: seq<Move>, next: System)
    requires Leads(moves, y) && y.v.max == 0 && s in y.v.sessions && y.v.sessions[s] == At(Idle)
    requires conf.name !in y.v.registry && id !in y.v.ids && AsksForPort(y.v.ledger, conf)
    requires CanStart(y.v.ledger, conf, Proxy(id, s, conf.name, conf.ports), Got(p)) && y.v.ledger.bound == map[]
    requires Ports.Acquires(y.ports, after, conf.name, conf.port, Ports.AnyPort, now, Ok(p))
    ensures var x := Proxy(id, s, conf.name, conf.ports);
            && Leads(more, next) && next.ports == after
            && next.v == Server(0, StartRun(y.v.ledger, conf, x, Got(p), true).0, y.v.registry,
                                y.v.sessions[s := At(Listening(conf, x))], y.v.ids + {id})
  {
    var m1, y1 := More(moves, y, Section(Begin(s, conf), 0));
    assert y1.v.sessions[s] == At(Reserved(conf));
    var m2, y2 := More(m1, y1, Section(CheckName(s), 0));
    assert y2.v == y.v.(sessions := y.v.sessions[s := At(Reserved(conf))][s := At(Checked(conf))]);
    Overwrite(y.v.sessions, s, At(Reserved(conf)), At(Checked(conf)));
    var m := Move.Acquire(s, id, Ports.AnyPort, now, Ok(p), after, true);
    assert GetsAnswer(y2, m);
    more, next := More(m2, y2, m);
    Overwrite(y.v.sessions, s, At(Checked(conf)), At(Listening(conf, Proxy(id, s, conf.name, conf.ports))));
  }

  const WebOn7 := Conf("web", "", "", "0.0.0.0", 7, true, 1)
  const WebAnywhere := Conf("web", "", "", "0.0.0.0", 0, true, 1)
  const SshOn7 := Conf("ssh", "", "", "0.0.0.0", 7, true, 1)
  const Grouped := Conf("ssh", "g", "key", "0.0.0.0", 7, true, 1)

  const Web := Proxy(0, 2, "web", 1)
  const Ssh := Proxy(1, 1, "ssh", 1)
  const WebAgain := Proxy(2, 2, "web", 1)

  // ----- a group keeps a port that it cannot open -----

  /** The first listener of a group cannot open its socket: port 7 stays in use, and nobody has it. */
  lemma GroupLeaksPort() returns (moves: seq<Move>)
    ensures AllHonest(Fresh, moves) && !PortsAccounted(Fresh, moves)
    ensures var y := Moves(Fresh, moves); 7 in y.ports.used && forall h :: PortOf(y.v.ledger, h) == None
  {
    var m1, y1 := LogsIn([], Fresh, 1);
    var after := Ports.Grant(y1.ports, "ssh", 7, 1);
    var m2, y2 := Acquires(m1, y1, 1, Grouped, 0, 1, 7, after);
    var x := Proxy(0, 1, "ssh", 1);
    var y: System;
    moves, y := More(m2, y2, Section(Open(1, None), 2));
    assert y.v == OpenStep(y2.v, 1, Grouped, x, None);
    forall h ensures PortOf(y.v.ledger, h) == None {}
    assert 7 in y.v.ledger.used;
    if PortsAccounted(Fresh, moves) { LastIsAccounted(Fresh, moves); }
  }

  // ----- a port is freed while a proxy listens on it -----

  const NoLedger := Ledger({}, map[], map[], map[])

  /** What "web" leaves behind in the allocator when it has had port 7: a closed reservation. */
  const Reserved7 := Ports.PortState(map["web" := Ports.Reservation(7, true, 2)], map[], {7})

  /** Session 2 logs in and runs "web" on port 7. */
  lemma WebRuns() returns (moves: seq<Move>, y: System)
    ensures Leads(moves, y) && y.ports == Ports.Grant(Fresh.ports, "web", 7, 1)
    ensures y.v == Server(0, Ledger({7}, map[ByProxy(Web) := 7], map[], map[Web := Port(7)]), map[], map[2 := At(Ran(Web))], {0})
  {
    var m1, y1 := LogsIn([], Fresh, 2);
    var m2, y2 := Acquires(m1, y1, 2, WebOn7, 0, 1, 7, Ports.Grant(Fresh.ports, "web", 7, 1));
    assert y2.v.ledger == Ledger({7}, map[], map[], map[Web := Opening(7, "")]);
    moves, y := More(m2, y2, Section(Open(2, Some(7)), 1));
    assert y.v == OpenStep(y2.v, 2, WebOn7, Web, Some(7));
    assert y.v.ledger.holds == map[Web := Port(7)];
    assert y.v.sessions == map[2 := At(Ran(Web))];
  }

  /** It publishes "web". */
  lemma WebStarts() returns (moves: seq<Move>, y: System)
    ensures Leads(moves, y) && y.ports == Ports.Grant(Fresh.ports, "web", 7, 1)
    ensures y.v == Server(0, Ledger({7}, map[ByProxy(Web) := 7], map[], map[Web := Port(7)]), map["web" := Web],
                          map[2 := Session(0, map["web" := Web], Idle)], {0})
  {
    var m1, y1 := WebRuns();
    var m2, y2 := More(m1, y1, Section(AddName(2), 1));
    assert y2.v == AddNameStep(y1.v, 2, Web);
    moves, y := More(m2, y2, Section(Publish(2), 1));
    assert y.v.sessions == map[2 := Session(0, map["web" := Web], Idle)];
  }

  /** It closes the socket of "web". */
  lemma WebCloses() returns (moves: seq<Move>, y: System)
    ensures Leads(moves, y) && y.ports == Ports.Grant(Fresh.ports, "web", 7, 1)
    ensures y.v == Server(0, Ledger({7}, map[], map[], map[Web := Releasing(7, "")]), map["web" := Web], map[2 := At(Leaving(Web))], {0})
  {
    var m1, y1 := WebStarts();
    moves, y := More(m1, y1, Section(Close(2, "web"), 2));
    assert y.v == CloseStep(y1.v, 2, Web, "web");
    assert y.v.ledger == Ledger({7}, map[], map[], map[Web := Releasing(7, "")]);
    assert y.v.sessions == map[2 := At(Leaving(Web))];
  }

  /** It releases the port, and "web" keeps its reservation. */
  lemma WebComesAndGoes() returns (moves: seq<Move>, y: System)
    ensures Leads(moves, y) && y == System(Server(0, NoLedger, map[], map[2 := At(Idle)], {0}), Reserved7)
  {
    var m1, y1 := WebCloses();
    var m2, y2 := More(m1, y1, Section(Release(2), 2));
    assert PortGivenBack(y1.v, Release(2)) == Some(7);
    moves, y := More(m2, y2, Section(Unregister(2), 2));
    assert y.v.ledger == NoLedger && y.v.registry == map[];
    assert y.v.sessions == map[2 := At(Idle)];
    assert y.ports == Reserved7;
  }

  /** Session 1 acquires port 7 for "ssh", and before it opens the socket, "web" asks for any port and gets 7 again. */
  lemma BothAcquire() returns (moves: seq<Move>, y: System)
    ensures Leads(moves, y) && y.ports == Ports.Grant(Ports.Grant(Reserved7, "ssh", 7, 3), "web", 7, 4)
    ensures y.v == Server(0, Ledger({7}, map[], map[], map[Ssh := Opening(7, ""), WebAgain := Opening(7, "")]), map[],
                          map[1 := At(Listening(SshOn7, Ssh)), 2 := At(Listening(WebAnywhere, WebAgain))], {0, 1, 2})
  {
    var m0, y0 := WebComesAndGoes();
    var m1, y1 := LogsIn(m0, y0, 1);
    var first := Ports.Grant(Reserved7, "ssh", 7, 3);
    var m2, y2 := Acquires(m1, y1, 1, SshOn7, 1, 3, 7, first);
    assert y2.v.ledger == Ledger({7}, map[], map[], map[Ssh := Opening(7, "")]);
    moves, y := Acquires(m2, y2, 2, WebAnywhere, 2, 4, 7, Ports.Grant(first, "web", 7, 4));
    assert y.v.ledger == Ledger({7}, map[], map[], map[Ssh := Opening(7, ""), WebAgain := Opening(7, "")]);
    assert y.v.ids == {0, 1, 2};
  }

  /**
   * An honest operating system lets a port be granted twice while its socket is not open. "web" comes
   * second, cannot open the port, and releases it; then the allocator has port 7 as free while "ssh"
   * listens on it.
   */
  lemma PortFreedWhileInUse() returns (moves: seq<Move>)
    ensures AllHonest(Fresh, moves) && !PortsAccounted(Fresh, moves)
    ensures var y := Moves(Fresh, moves);
            7 in y.ports.free && PortOf(y.v.ledger, ByProxy(Ssh)) == Some(7) && y.v.ledger.bound == map[ByProxy(Ssh) := 7]
  {
    var m1, y1 := BothAcquire();
    var m2, y2 := More(m1, y1, Section(Open(1, Some(7)), 5));
    assert y2.v == OpenStep(y1.v, 1, SshOn7, Ssh, Some(7));
    var y: System;
    moves, y := More(m2, y2, Section(Open(2, None), 6));
    assert y.v == OpenStep(y2.v, 2, WebAnywhere, WebAgain, None);
    assert PortGivenBack(y2.v, Open(2, None)) == Some(7);
    assert 7 !in y.v.ledger.used && PortOf(y.v.ledger, ByProxy(Ssh)) == Some(7);
    if PortsAccounted(Fresh, moves) { LastIsAccounted(Fresh, moves); }
  }
}
