/**
 * The server's runs together with the port allocator (server/ports/ports.go): every answer of the
 * allocator is one that `Acquire` can give in the state the allocator is in.
 */
module ServerPorts {
  import opened Prelude
  import Ports
  import opened ServerLedgers
  import opened ServerRuns

  datatype System = System(v: Server, ports: Ports.PortState)

  /**
   * A step of the whole: a session runs a proxy, asking the allocator if the proxy needs a port; another
   * section of a session; or a round of cleaning in the allocator.
   */
  datatype Move =
    | Acquire(session: nat, id: nat, avail: Ports.Oracle, now: int, acquired: Result<int, Ports.PortError>,
              after: Ports.PortState, works: bool)
    | Section(e: Event, now: int)
    | Clean(now: int)

  /** The settings of the proxy that a session is about to run. */
  function ConfAt(v: Server, s: nat): Option<Conf> {
    if s in v.sessions && v.sessions[s].stage.Checked? then Some(v.sessions[s].stage.conf) else None
  }

  predicate Asks(v: Server, s: nat) {
    ConfAt(v, s).Some? && AsksForPort(v.ledger, ConfAt(v, s).value)
  }

  /** The section of the session that the move is. */
  function EventOf(y: System, m: Move): Event
    requires m.Acquire?
  {
    Run(m.session, m.id, if Asks(y.v, m.session) then Answer(y.ports, m.after, m.acquired) else Refused, m.works)
  }

  /** The move asks the allocator for a port and gets an answer. */
  ghost predicate GetsAnswer(y: System, m: Move) {
    && m.Acquire? && Runs(y.v, EventOf(y, m))
    && var conf := y.v.sessions[m.session].stage.conf;
       Ports.Acquires(y.ports, m.after, conf.name, conf.port, m.avail, m.now, m.acquired)
  }

  /** The port that a section gives back to the allocator. */
  function PortGivenBack(v: Server, e: Event): Option<int> {
    if e.session !in v.sessions then None
    else
      match (e, v.sessions[e.session].stage)
      case (Open(_, socket), Listening(_, x)) =>
        if socket == None && x in v.ledger.holds && v.ledger.holds[x].Opening? && v.ledger.holds[x].group == ""
        then Some(v.ledger.holds[x].port) else None
      case (Release(_), Dropping(x)) =>
        if x in v.ledger.holds && v.ledger.holds[x].Releasing? then Some(v.ledger.holds[x].port) else None
      case (Release(_), Leaving(x)) =>
        if x in v.ledger.holds && v.ledger.holds[x].Releasing? then Some(v.ledger.holds[x].port) else None
      case _ => None
  }

  /** Moves that do not apply change nothing. */
  ghost function Next(y: System, m: Move): System {
    match m
    case Acquire(s, _, _, _, _, after, _) =>
      if GetsAnswer(y, m) then System(Step(y.v, EventOf(y, m)), after)
      else if Asks(y.v, s) then y
      else System(Step(y.v, EventOf(y, m)), y.ports)
    case Section(e, now) =>
      if e.Run? then y
      else
        System(Step(y.v, e),
               match PortGivenBack(y.v, e) case Some(p) => Ports.Released(y.ports, p, now) case None => y.ports)
    case Clean(now) => System(y.v, Ports.Cleaned(y.ports, now))
  }

  ghost function Moves(y: System, moves: seq<Move>): System
    decreases |moves|
  {
    if moves == [] then y else Moves(Next(y, moves[0]), moves[1..])
  }

  /** A new server, with a limit on the ports of a client and the ports it may use. */
  function New(max: int, allowed: set<int>): System { System(Start(max), Ports.PortState(map[], map[], allowed)) }

  // ----- the ledger is that of the allocator -----

  ghost predicate Matches(y: System, allowed: set<int>) {
    Good(y.v) && y.ports.used.Keys == y.v.ledger.used && Ports.Partition(y.ports, allowed)
  }

  /** What a section other than a run does to the used ports. */
  lemma UsedAfterSection(v: Server, e: Event)
    requires Good(v) && !e.Run?
    ensures Step(v, e).ledger.used == (match PortGivenBack(v, e) case Some(p) => v.ledger.used - {p} case None => v.ledger.used)
  {
  }

  lemma UsedAfterRun(v: Server, e: Event)
    requires e.Run?
    ensures Runs(v, e) ==>
              var conf := v.sessions[e.session].stage.conf;
              var x := Proxy(e.id, e.session, conf.name, conf.ports);
              Step(v, e).ledger == StartRun(v.ledger, conf, x, e.grant, e.works).0
    ensures !Asks(v, e.session) ==> Step(v, e).ledger.used == v.ledger.used
  {
  }

  lemma ReleasedPorts(s: Ports.PortState, p: int, now: int, allowed: set<int>)
    requires Ports.Partition(s, allowed)
    ensures Ports.Released(s, p, now).used.Keys == s.used.Keys - {p} && Ports.Partition(Ports.Released(s, p, now), allowed)
  {
    Ports.StepKeepsPartition(s, Ports.Released(s, p, now), Ports.Release(p, now), allowed);
    assert (s.used - {p}).Keys == s.used.Keys - {p};
  }

  lemma AnswerMatches(y: System, m: Move, allowed: set<int>)
    requires Matches(y, allowed) && GetsAnswer(y, m)
    ensures Matches(Next(y, m), allowed)
  {
    var e, conf := EventOf(y, m), y.v.sessions[m.session].stage.conf;
    var x := Proxy(m.id, m.session, conf.name, conf.ports);
    StepGood(y.v, e);
    UsedAfterRun(y.v, e);
    AcquireIsStart(y.v.ledger, conf, x, y.ports, m.after, m.avail, m.now, m.acquired, allowed);
    StartIgnoresWorks(y.v.ledger, conf, x, e.grant, m.works);
    Ports.StepKeepsPartition(y.ports, m.after, Ports.Acquire(conf.name, conf.port, m.avail, m.now, m.acquired), allowed);
  }

  lemma StartIgnoresWorks(l: Ledger, conf: Conf, x: Proxy, grant: Grant, works: bool)
    requires conf.tcp
    ensures StartRun(l, conf, x, grant, works) == StartRun(l, conf, x, grant, true)
  {
  }

  /** In every step the allocator's used ports stay those of the ledger. */
  lemma NextMatches(y: System, m: Move, allowed: set<int>)
    requires Matches(y, allowed)
    ensures Matches(Next(y, m), allowed)
  {
    match m
    case Acquire(_, _, _, _, _, _, _) =>
      if GetsAnswer(y, m) {
        AnswerMatches(y, m, allowed);
      } else {
        StepGood(y.v, EventOf(y, m));
        UsedAfterRun(y.v, EventOf(y, m));
      }
    case Section(e, now) =>
      if !e.Run? {
        StepGood(y.v, e);
        UsedAfterSection(y.v, e);
        if PortGivenBack(y.v, e).Some? { ReleasedPorts(y.ports, PortGivenBack(y.v, e).value, now, allowed); }
      }
    case Clean(now) => Ports.StepKeepsPartition(y.ports, Ports.Cleaned(y.ports, now), Ports.Clean(now), allowed);
  }

  // ----- the accidents -----

  /**
   * The guard under which a port in use is granted again: the proxy asks for any port, its name has a
   * reservation for a port in use, and the operating system reports that port as available.
   */
  predicate TakesUsedPort(s: Ports.PortState, conf: Conf, avail: Ports.Oracle) {
    && conf.port == 0 && conf.name in s.reserved
    && avail(s.reserved[conf.name].port) && s.reserved[conf.name].port in s.used
  }

  /**
   * The three accidents: a port in use is granted again, a failing acquisition marks port 0, and the
   * first listener of a group cannot open its socket.
   */
  ghost predicate Accident(y: System, m: Move) {
    match m
    case Acquire(s, _, avail, _, acquired, after, _) =>
      GetsAnswer(y, m) && (TakesUsedPort(y.ports, y.v.sessions[s].stage.conf, avail) || (acquired.Err? && after != y.ports))
    case Section(e, _) => FailsToOpen(y.v, e)
    case Clean(_) => false
  }

  lemma AnswerConservesPorts(y: System, m: Move, allowed: set<int>)
    requires Matches(y, allowed) && Conserved(y.v.ledger) && GetsAnswer(y, m)
    ensures Conserved(Next(y, m).v.ledger) <==> !Accident(y, m)
  {
    var e, conf := EventOf(y, m), y.v.sessions[m.session].stage.conf;
    StepConservesPorts(y.v, e);
    Ports.AcquireTakes(y.ports, m.after, conf.name, conf.port, m.avail, m.now, m.acquired, allowed);
    if m.acquired.Err? && m.after != y.ports { assert 0 in m.after.used && 0 !in y.ports.used; }
  }

  lemma NextConservesPorts(y: System, m: Move, allowed: set<int>)
    requires Matches(y, allowed) && Conserved(y.v.ledger)
    ensures Conserved(Next(y, m).v.ledger) <==> !Accident(y, m)
  {
    match m
    case Acquire(_, _, _, _, _, _, _) =>
      if GetsAnswer(y, m) { AnswerConservesPorts(y, m, allowed); } else { StepConservesPorts(y.v, EventOf(y, m)); }
    case Section(e, _) => if !e.Run? { StepConservesPorts(y.v, e); }
    case Clean(_) =>
  }

  ghost predicate NoAccidents(y: System, moves: seq<Move>)
    decreases |moves|
  {
    moves != [] ==> !Accident(y, moves[0]) && NoAccidents(Next(y, moves[0]), moves[1..])
  }

  /** At every moment the allocator's used ports are the disjoint union of the ports of proxies and groups. */
  ghost predicate PortsAccounted(y: System, moves: seq<Move>)
    decreases |moves|
  {
    && y.ports.used.Keys == y.v.ledger.used && Conserved(y.v.ledger)
    && (moves != [] ==> PortsAccounted(Next(y, moves[0]), moves[1..]))
  }

  lemma {:induction false} AccountedUntilAccident(y: System, moves: seq<Move>, allowed: set<int>)
    requires Matches(y, allowed) && Conserved(y.v.ledger)
    ensures PortsAccounted(y, moves) <==> NoAccidents(y, moves)
    decreases |moves|
  {
    if moves != [] {
      NextMatches(y, moves[0], allowed);
      NextConservesPorts(y, moves[0], allowed);
      if !Accident(y, moves[0]) { AccountedUntilAccident(Next(y, moves[0]), moves[1..], allowed); }
    }
  }

  /**
   * From a new server with any allowed ports, whatever the operating system answers and however the
   * sections of any number of sessions interleave, `usedPorts` is at every moment the disjoint union of
   * the ports of proxies and groups if and only if none of the three accidents happens.
   */
  lemma EveryRunAccountsForPorts(max: int, allowed: set<int>, moves: seq<Move>)
    ensures PortsAccounted(New(max, allowed), moves) <==> NoAccidents(New(max, allowed), moves)
  {
    StartGood(max);
    AccountedUntilAccident(New(max, allowed), moves, allowed);
  }

  // ----- with an honest operating system -----

  /** The operating system reports no port as available that a socket of the server is bound to. */
  predicate Honest(y: System, m: Move) {
    m.Acquire? ==> forall h :: h in y.v.ledger.bound ==> !m.avail(y.v.ledger.bound[h])
  }

  /**
   * With an honest operating system a port in use is granted again exactly when its owner has no socket
   * on it: it is opening or closing it, or is a group that asked for port 0.
   */
  lemma HonestlyTakenTwice(y: System, m: Move, allowed: set<int>)
    requires Matches(y, allowed) && Conserved(y.v.ledger) && GetsAnswer(y, m) && Honest(y, m)
    ensures var conf := y.v.sessions[m.session].stage.conf;
            TakesUsedPort(y.ports, conf, m.avail) <==>
              && conf.port == 0 && conf.name in y.ports.reserved && m.avail(y.ports.reserved[conf.name].port)
              && Unwatched(y.v.ledger, y.ports.reserved[conf.name].port)
  {
    var conf := y.v.sessions[m.session].stage.conf;
    if conf.name in y.ports.reserved && m.avail(y.ports.reserved[conf.name].port) {
      HonestGrantIsBenign(y.v.ledger, y.ports.reserved[conf.name].port);
    }
  }
}
