/**
 * Runs of many client sessions against one server: proxy registration and closing (server/control.go),
 * the global name registry (server/proxy/proxy.go) and the TCP ports (server/proxy/tcp.go), with the
 * sections of different sessions interleaved.
 */
module ServerRuns {
  import opened Prelude
  import opened ServerLedgers

  /**
   * How far the registration or closing that a session is working on has come. A session is dropping a
   * proxy whose name another session took in the meantime, and leaving the port of one that it closes.
   */
  datatype Stage =
    | Idle
    | Reserved(conf: Conf)
    | Checked(conf: Conf)
    | Listening(conf: Conf, pxy: Proxy)
    | Ran(pxy: Proxy)
    | Added(pxy: Proxy)
    | Dropping(pxy: Proxy)
    | Leaving(pxy: Proxy)
    | Closing(pxy: Proxy)

  datatype Session = Session(portsUsed: int, proxies: map<string, Proxy>, stage: Stage)

  /** The server: `max` is `MaxPortsPerClient`, `ids` the identities of proxy objects created so far. */
  datatype Server = Server(max: int, ledger: Ledger, registry: map<string, Proxy>, sessions: map<nat, Session>, ids: set<nat>)

  /** One section of one session; the answers of allocator and operating system come with the event. */
  datatype Event =
    | Login(session: nat)
    | Begin(session: nat, conf: Conf)
    | CheckName(session: nat)
    | Run(session: nat, id: nat, grant: Grant, works: bool)
    | Open(session: nat, socket: Option<int>)
    | AddName(session: nat)
    | Publish(session: nat)
    | Close(session: nat, name: string)
    | Release(session: nat)
    | Unregister(session: nat)

  function Reserve(max: int, sess: Session, ports: nat, stage: Stage): Session {
    sess.(portsUsed := if max > 0 then sess.portsUsed + ports else sess.portsUsed, stage := stage)
  }

  function GiveBack(max: int, sess: Session, ports: nat, stage: Stage): Session {
    sess.(portsUsed := if max > 0 then sess.portsUsed - ports else sess.portsUsed, stage := stage)
  }

  function With(v: Server, s: nat, sess: Session): Server { v.(sessions := v.sessions[s := sess]) }

  function RunStep(v: Server, s: nat, conf: Conf, id: nat, grant: Grant, works: bool): Server
    requires s in v.sessions
  {
    var sess, x := v.sessions[s], Proxy(id, s, conf.name, conf.ports);
    var (ledger, progress) := StartRun(v.ledger, conf, x, grant, works);
    With(v.(ledger := ledger, ids := v.ids + {id}), s,
         match progress
         case Failed => GiveBack(v.max, sess, conf.ports, Idle)
         case AtPort => sess.(stage := Listening(conf, x))
         case Done => sess.(stage := Ran(x)))
  }

  function OpenStep(v: Server, s: nat, conf: Conf, x: Proxy, socket: Option<int>): Server
    requires s in v.sessions && x in v.ledger.holds && v.ledger.holds[x].Opening?
  {
    var sess := v.sessions[s];
    var (ledger, ok) := OpenSocket(v.ledger, conf, x, socket);
    With(v.(ledger := ledger), s, if ok then sess.(stage := Ran(x)) else GiveBack(v.max, sess, x.ports, Idle))
  }

  /** The name is registered; or it is taken, and the proxy is closed again. */
  function AddNameStep(v: Server, s: nat, x: Proxy): Server
    requires s in v.sessions && x in v.ledger.holds
  {
    var sess := v.sessions[s];
    if x.name in v.registry then
      var ledger := CloseSocket(v.ledger, x);
      With(v.(ledger := ledger), s,
           if x in ledger.holds then sess.(stage := Dropping(x)) else GiveBack(v.max, sess, x.ports, Idle))
    else With(v.(registry := v.registry[x.name := x]), s, sess.(stage := Added(x)))
  }

  function CloseStep(v: Server, s: nat, x: Proxy, name: string): Server
    requires s in v.sessions && x in v.ledger.holds
  {
    var sess, ledger := v.sessions[s], CloseSocket(v.ledger, x);
    With(v.(ledger := ledger), s,
         GiveBack(v.max, sess.(proxies := sess.proxies - {name}), x.ports,
                  if x in ledger.holds then Leaving(x) else Closing(x)))
  }

  /** Events that do not apply, because the session is not at that point or a group's lock is taken, change nothing. */
  function Step(v: Server, e: Event): Server {
    if e.Login? then
      if e.session in v.sessions then v else With(v, e.session, Session(0, map[], Idle))
    else if e.session !in v.sessions then v
    else
      var s, sess := e.session, v.sessions[e.session];
      match (e, sess.stage)
      case (Begin(_, conf), Idle) =>
        if v.max > 0 && sess.portsUsed + conf.ports > v.max then v
        else With(v, s, Reserve(v.max, sess, conf.ports, Reserved(conf)))
      case (CheckName(_), Reserved(conf)) =>
        if conf.name in v.registry then With(v, s, GiveBack(v.max, sess, conf.ports, Idle))
        else With(v, s, sess.(stage := Checked(conf)))
      case (Run(_, id, grant, works), Checked(conf)) =>
        if id !in v.ids && CanStart(v.ledger, conf, Proxy(id, s, conf.name, conf.ports), grant)
        then RunStep(v, s, conf, id, grant, works) else v
      case (Open(_, socket), Listening(conf, x)) =>
        if x in v.ledger.holds && v.ledger.holds[x].Opening? && Possible(v.ledger, conf, x, socket)
        then OpenStep(v, s, conf, x, socket) else v
      case (AddName(_), Ran(x)) =>
        if x in v.ledger.holds then AddNameStep(v, s, x) else v
      case (Publish(_), Added(x)) =>
        With(v, s, sess.(proxies := sess.proxies[x.name := x], stage := Idle))
      case (Close(_, name), Idle) =>
        if name in sess.proxies && sess.proxies[name] in v.ledger.holds then CloseStep(v, s, sess.proxies[name], name) else v
      case (Release(_), Dropping(x)) =>
        if x in v.ledger.holds && v.ledger.holds[x].Releasing?
        then With(v.(ledger := ReleasePort(v.ledger, x)), s, GiveBack(v.max, sess, x.ports, Idle)) else v
      case (Release(_), Leaving(x)) =>
        if x in v.ledger.holds && v.ledger.holds[x].Releasing?
        then With(v.(ledger := ReleasePort(v.ledger, x)), s, sess.(stage := Closing(x))) else v
      case (Unregister(_), Closing(x)) =>
        With(v.(registry := v.registry - {x.name}), s, sess.(stage := Idle))
      case _ => v
  }

  function Replay(v: Server, events: seq<Event>): Server
    decreases |events|
  {
    if events == [] then v else Replay(Step(v, events[0]), events[1..])
  }

  // ----- what every run keeps -----

  ghost predicate Published(sess: Session, x: Proxy) {
    x.name in sess.proxies && sess.proxies[x.name] == x
  }

  /** The session is somewhere between the run of the proxy and its publication, or dropping or leaving it. */
  ghost predicate AtWork(stage: Stage, x: Proxy) {
    (stage.Listening? || stage.Ran? || stage.Added? || stage.Dropping? || stage.Leaving?) && stage.pxy == x
  }

  /** A proxy holds something exactly while its session has it published or at work. */
  ghost predicate WorkKnown(v: Server, x: Proxy) {
    x in v.ledger.holds <==>
      x.session in v.sessions && (Published(v.sessions[x.session], x) || AtWork(v.sessions[x.session].stage, x))
  }

  /** What is held fits the stage: a port is being opened or released exactly while the session says so. */
  ghost predicate KindKnown(v: Server, x: Proxy) {
    x in v.ledger.holds && x.session in v.sessions ==>
      var stage := v.sessions[x.session].stage;
      && (v.ledger.holds[x].Opening? <==> stage.Listening? && stage.pxy == x)
      && (v.ledger.holds[x].Releasing? <==> (stage.Dropping? || stage.Leaving?) && stage.pxy == x)
  }

  /** The session keeps the proxy's name in the registry. */
  ghost predicate Names(sess: Session, x: Proxy) {
    Published(sess, x) || ((sess.stage.Added? || sess.stage.Leaving? || sess.stage.Closing?) && sess.stage.pxy == x)
  }

  /** A name is registered for a proxy exactly while the proxy's session says so. */
  ghost predicate NameKnown(v: Server, x: Proxy) {
    x.name in v.registry && v.registry[x.name] == x <==> x.session in v.sessions && Names(v.sessions[x.session], x)
  }

  ghost predicate IdsKnown(v: Server, x: Proxy) {
    x in v.ledger.holds || (x.name in v.registry && v.registry[x.name] == x) ==> x.id in v.ids
  }

  ghost predicate Known(v: Server, x: Proxy) {
    WorkKnown(v, x) && KindKnown(v, x) && NameKnown(v, x) && IdsKnown(v, x)
  }

  predicate HasProxy(stage: Stage) {
    !stage.Idle? && !stage.Reserved? && !stage.Checked?
  }

  ghost predicate SessionSound(v: Server, s: nat)
    requires s in v.sessions
  {
    var sess := v.sessions[s];
    && (forall n :: n in sess.proxies ==> sess.proxies[n].name == n && sess.proxies[n].session == s)
    && (HasProxy(sess.stage) ==> sess.stage.pxy.session == s && !Published(sess, sess.stage.pxy))
  }

  ghost predicate Good(v: Server) {
    && Sound(v.ledger)
    && (forall s :: s in v.sessions ==> SessionSound(v, s))
    && (forall x :: Known(v, x))
    && (forall n :: n in v.registry ==> v.registry[n].name == n)
  }

  // ----- each section keeps the state good -----

  /** A change of one session that leaves works and names of all proxies as they were. */
  lemma QuietStep(v: Server, s: nat, sess: Session)
    requires Good(v) && s in v.sessions
    requires sess.proxies == v.sessions[s].proxies && !HasProxy(v.sessions[s].stage) && !HasProxy(sess.stage)
    ensures Good(With(v, s, sess))
  {
    var next := With(v, s, sess);
    forall t | t in next.sessions ensures SessionSound(next, t) { assert SessionSound(v, t); }
    forall x ensures Known(next, x) { assert Known(v, x); }
  }

  lemma LoginGood(v: Server, s: nat)
    requires Good(v) && s !in v.sessions
    ensures Good(With(v, s, Session(0, map[], Idle)))
  {
    var next := With(v, s, Session(0, map[], Idle));
    forall t | t in next.sessions ensures SessionSound(next, t) { if t != s { assert SessionSound(v, t); } }
    forall x ensures Known(next, x) { assert Known(v, x); }
  }

  lemma StartHolds(l: Ledger, conf: Conf, x: Proxy, grant: Grant, works: bool, y: Proxy)
    requires x !in l.holds
    ensures var (next, progress) := StartRun(l, conf, x, grant, works);
            && (y in next.holds <==> y in l.holds || (y == x && !progress.Failed?))
            && (y in l.holds ==> next.holds[y] == l.holds[y])
            && (!progress.Failed? ==> (next.holds[x].Opening? <==> progress.AtPort?) && !next.holds[x].Releasing?)
  {
  }

  lemma RunGood(v: Server, s: nat, conf: Conf, id: nat, grant: Grant, works: bool)
    requires Good(v) && s in v.sessions && v.sessions[s].stage == Checked(conf) && id !in v.ids
    requires CanStart(v.ledger, conf, Proxy(id, s, conf.name, conf.ports), grant)
    ensures Good(RunStep(v, s, conf, id, grant, works))
  {
    var x := Proxy(id, s, conf.name, conf.ports);
    var next := RunStep(v, s, conf, id, grant, works);
    assert Known(v, x);
    StartIsSound(v.ledger, conf, x, grant, works);
    forall t | t in next.sessions ensures SessionSound(next, t) { assert SessionSound(v, t); }
    forall y ensures Known(next, y) {
      assert Known(v, y);
      StartHolds(v.ledger, conf, x, grant, works, y);
    }
  }

  lemma OpenGood(v: Server, s: nat, conf: Conf, x: Proxy, socket: Option<int>)
    requires Good(v) && s in v.sessions && v.sessions[s].stage == Listening(conf, x)
    requires x in v.ledger.holds && v.ledger.holds[x].Opening? && Possible(v.ledger, conf, x, socket)
    ensures Good(OpenStep(v, s, conf, x, socket))
  {
    var next := OpenStep(v, s, conf, x, socket);
    assert SessionSound(v, s) && Known(v, x);
    OpenIsSound(v.ledger, conf, x, socket);
    forall t | t in next.sessions ensures SessionSound(next, t) { assert SessionSound(v, t); }
    forall y ensures Known(next, y) { assert Known(v, y); }
  }

  /** Closing the socket of a running proxy leaves the proxy without anything, or with a port to release. */
  lemma CloseHolds(l: Ledger, x: Proxy, y: Proxy)
    requires x in l.holds && !l.holds[x].Opening? && !l.holds[x].Releasing?
    ensures var next := CloseSocket(l, x);
            && (y != x ==> (y in next.holds <==> y in l.holds) && (y in l.holds ==> next.holds[y] == l.holds[y]))
            && (x in next.holds ==> next.holds[x].Releasing?)
  {
  }

  lemma AddNameGood(v: Server, s: nat, x: Proxy)
    requires Good(v) && s in v.sessions && v.sessions[s].stage == Ran(x) && x in v.ledger.holds
    ensures Good(AddNameStep(v, s, x))
  {
    var next := AddNameStep(v, s, x);
    assert SessionSound(v, s) && Known(v, x);
    if x.name in v.registry { CloseIsSound(v.ledger, x); }
    forall t | t in next.sessions ensures SessionSound(next, t) { assert SessionSound(v, t); }
    forall y ensures Known(next, y) {
      assert Known(v, y);
      if x.name in v.registry { CloseHolds(v.ledger, x, y); }
    }
  }

  /** A proxy that is being published is not published yet, and its name is free in the session. */
  lemma PublishedOnce(v: Server, s: nat)
    requires Good(v) && s in v.sessions && v.sessions[s].stage.Added?
    ensures v.sessions[s].stage.pxy.name !in v.sessions[s].proxies
  {
    var x := v.sessions[s].stage.pxy;
    var sess := v.sessions[s];
    assert SessionSound(v, s);
    forall y: Proxy | y.session == s && y.name == x.name && Names(sess, y) ensures y == x {
      assert Known(v, x) && Known(v, y);
    }
    assert x.name in sess.proxies ==> Names(sess, sess.proxies[x.name]);
  }

  lemma PublishGood(v: Server, s: nat)
    requires Good(v) && s in v.sessions && v.sessions[s].stage.Added?
    ensures Good(Step(v, Publish(s)))
  {
    var next := Step(v, Publish(s));
    PublishedOnce(v, s);
    assert SessionSound(v, s);
    forall t | t in next.sessions ensures SessionSound(next, t) { assert SessionSound(v, t); }
    forall y ensures Known(next, y) { assert Known(v, y); }
  }

  lemma CloseGood(v: Server, s: nat, name: string)
    requires Good(v) && s in v.sessions && v.sessions[s].stage.Idle?
    requires name in v.sessions[s].proxies && v.sessions[s].proxies[name] in v.ledger.holds
    ensures Good(CloseStep(v, s, v.sessions[s].proxies[name], name))
  {
    var x := v.sessions[s].proxies[name];
    var next := CloseStep(v, s, x, name);
    assert SessionSound(v, s) && Known(v, x);
    CloseIsSound(v.ledger, x);
    forall t | t in next.sessions ensures SessionSound(next, t) { assert SessionSound(v, t); }
    forall y ensures Known(next, y) {
      assert Known(v, y);
      CloseHolds(v.ledger, x, y);
    }
  }

  lemma ReleaseGood(v: Server, s: nat)
    requires Good(v) && s in v.sessions && (v.sessions[s].stage.Dropping? || v.sessions[s].stage.Leaving?)
    ensures Good(Step(v, Release(s)))
  {
    var x := v.sessions[s].stage.pxy;
    var next := Step(v, Release(s));
    assert SessionSound(v, s) && Known(v, x);
    if x in v.ledger.holds && v.ledger.holds[x].Releasing? { ReleaseIsSound(v.ledger, x); }
    forall t | t in next.sessions ensures SessionSound(next, t) { assert SessionSound(v, t); }
    forall y ensures Known(next, y) { assert Known(v, y); }
  }

  lemma UnregisterGood(v: Server, s: nat)
    requires Good(v) && s in v.sessions && v.sessions[s].stage.Closing?
    ensures Good(Step(v, Unregister(s)))
  {
    var x := v.sessions[s].stage.pxy;
    var next := Step(v, Unregister(s));
    assert SessionSound(v, s) && Known(v, x);
    forall t | t in next.sessions ensures SessionSound(next, t) { assert SessionSound(v, t); }
    forall y ensures Known(next, y) { assert Known(v, y); }
  }

  lemma StepGood(v: Server, e: Event)
    requires Good(v)
    ensures Good(Step(v, e))
  {
    var s := e.session;
    if s !in v.sessions {
      LoginGood(v, s);
    } else if Step(v, e) != v {
      var sess := v.sessions[s];
      match (e, sess.stage)
      case (Begin(_, conf), Idle) => QuietStep(v, s, Reserve(v.max, sess, conf.ports, Reserved(conf)));
      case (CheckName(_), Reserved(conf)) =>
        QuietStep(v, s, GiveBack(v.max, sess, conf.ports, Idle));
        QuietStep(v, s, sess.(stage := Checked(conf)));
      case (Run(_, id, grant, works), Checked(conf)) => RunGood(v, s, conf, id, grant, works);
      case (Open(_, socket), Listening(conf, x)) => OpenGood(v, s, conf, x, socket);
      case (AddName(_), Ran(x)) => AddNameGood(v, s, x);
      case (Publish(_), Added(_)) => PublishGood(v, s);
      case (Close(_, name), Idle) => CloseGood(v, s, name);
      case (Release(_), _) => ReleaseGood(v, s);
      case (Unregister(_), Closing(_)) => UnregisterGood(v, s);
      case _ =>
    }
  }

  /** No section is stuck: what a session holds is always what its next section works on. */
  lemma NextSectionApplies(v: Server, s: nat)
    requires Good(v) && s in v.sessions
    ensures var stage := v.sessions[s].stage;
            && (stage.Ran? ==> stage.pxy in v.ledger.holds)
            && (stage.Listening? ==> stage.pxy in v.ledger.holds && v.ledger.holds[stage.pxy].Opening?)
            && (stage.Dropping? || stage.Leaving? ==> stage.pxy in v.ledger.holds && v.ledger.holds[stage.pxy].Releasing?)
    ensures forall n :: n in v.sessions[s].proxies ==> v.sessions[s].proxies[n] in v.ledger.holds
  {
    assert SessionSound(v, s);
    if HasProxy(v.sessions[s].stage) { assert Known(v, v.sessions[s].stage.pxy); }
    forall n | n in v.sessions[s].proxies ensures v.sessions[s].proxies[n] in v.ledger.holds {
      assert Known(v, v.sessions[s].proxies[n]);
    }
  }

  // ----- ports over whole runs -----

  /** The event applies to a session that is about to run a proxy. */
  predicate Runs(v: Server, e: Event) {
    && e.Run? && e.session in v.sessions && v.sessions[e.session].stage.Checked? && e.id !in v.ids
    && var conf := v.sessions[e.session].stage.conf;
    && CanStart(v.ledger, conf, Proxy(e.id, e.session, conf.name, conf.ports), e.grant)
    && AsksForPort(v.ledger, conf)
  }

  /** The event is the failure of a group's first listener to open its socket. */
  predicate FailsToOpen(v: Server, e: Event) {
    && e.Open? && e.session in v.sessions && v.sessions[e.session].stage.Listening?
    && var x := v.sessions[e.session].stage.pxy;
    && x in v.ledger.holds && v.ledger.holds[x].Opening? && v.ledger.holds[x].group != "" && e.socket == None
  }

  /** The event, at this point, neither shares a port nor loses one. */
  predicate Benign(v: Server, e: Event) {
    && (Runs(v, e) ==> BenignGrant(v.ledger, v.sessions[e.session].stage.conf, e.grant))
    && !FailsToOpen(v, e)
  }

  /** One section of one session conserves the TCP ports exactly when it is benign. */
  lemma StepConservesPorts(v: Server, e: Event)
    requires Good(v) && Conserved(v.ledger)
    ensures Conserved(Step(v, e).ledger) <==> Benign(v, e)
  {
    if e.session in v.sessions {
      var s, sess := e.session, v.sessions[e.session];
      match (e, sess.stage)
      case (Run(_, id, grant, works), Checked(conf)) =>
        var x := Proxy(id, s, conf.name, conf.ports);
        if id !in v.ids && CanStart(v.ledger, conf, x, grant) { StartConservesPorts(v.ledger, conf, x, grant, works); }
      case (Open(_, socket), Listening(conf, x)) =>
        NextSectionApplies(v, s);
        OpenConservesPorts(v.ledger, conf, x, socket);
      case (AddName(_), Ran(x)) =>
        NextSectionApplies(v, s);
        CloseConservesPorts(v.ledger, x);
      case (Close(_, name), Idle) =>
        if name in sess.proxies && sess.proxies[name] in v.ledger.holds { CloseConservesPorts(v.ledger, sess.proxies[name]); }
      case (Release(_), Dropping(x)) =>
        NextSectionApplies(v, s);
        ReleaseConservesPorts(v.ledger, x);
      case (Release(_), Leaving(x)) =>
        NextSectionApplies(v, s);
        ReleaseConservesPorts(v.ledger, x);
      case _ =>
    }
  }

  ghost predicate AllBenign(v: Server, events: seq<Event>)
    decreases |events|
  {
    events != [] ==> Benign(v, events[0]) && AllBenign(Step(v, events[0]), events[1..])
  }

  /** The TCP ports are conserved at every moment of the run. */
  ghost predicate AlwaysConserved(v: Server, events: seq<Event>)
    decreases |events|
  {
    Conserved(v.ledger) && (events != [] ==> AlwaysConserved(Step(v, events[0]), events[1..]))
  }

  function Start(max: int): Server {
    Server(max, Ledger({}, map[], map[], map[]), map[], map[], {})
  }

  lemma StartGood(max: int)
    ensures Good(Start(max)) && Conserved(Start(max).ledger)
  {
  }

  lemma {:induction false} RunsStayGood(v: Server, events: seq<Event>)
    requires Good(v)
    ensures Good(Replay(v, events))
    decreases |events|
  {
    if events != [] {
      StepGood(v, events[0]);
      RunsStayGood(Step(v, events[0]), events[1..]);
    }
  }

  lemma {:induction false} ConservedWhileBenign(v: Server, events: seq<Event>)
    requires Good(v) && Conserved(v.ledger)
    ensures AlwaysConserved(v, events) <==> AllBenign(v, events)
    decreases |events|
  {
    if events != [] {
      StepGood(v, events[0]);
      StepConservesPorts(v, events[0]);
      if Benign(v, events[0]) { ConservedWhileBenign(Step(v, events[0]), events[1..]); }
    }
  }

  /**
   * From an empty server, however the sections of any number of sessions interleave, the used TCP ports
   * are at every moment the disjoint union of the ports of proxies and groups if and only if every
   * section is benign.
   */
  lemma EveryRunConservesPorts(max: int, events: seq<Event>)
    ensures AlwaysConserved(Start(max), events) <==> AllBenign(Start(max), events)
  {
    StartGood(max);
    ConservedWhileBenign(Start(max), events);
  }

  // ----- the shared name registry -----

  ghost predicate AllIdle(v: Server) {
    forall s :: s in v.sessions ==> v.sessions[s].stage.Idle?
  }

  /**
   * In every run, whenever no session is in the middle of something, its proxies are exactly its share of
   * the registry, and exactly these hold something.
   */
  lemma RegistryIsShared(max: int, events: seq<Event>, x: Proxy)
    requires AllIdle(Replay(Start(max), events))
    ensures var v := Replay(Start(max), events);
            && (x.name in v.registry && v.registry[x.name] == x <==>
                  x.session in v.sessions && x.name in v.sessions[x.session].proxies && v.sessions[x.session].proxies[x.name] == x)
            && (x in v.ledger.holds <==> x.name in v.registry && v.registry[x.name] == x)
  {
    StartGood(max);
    RunsStayGood(Start(max), events);
    assert Known(Replay(Start(max), events), x);
  }

  /** At every moment of every run a name is published by at most one session. */
  lemma OneOwnerPerName(max: int, events: seq<Event>, s: nat, t: nat, name: string)
    ensures var v := Replay(Start(max), events);
            s in v.sessions && t in v.sessions && name in v.sessions[s].proxies && name in v.sessions[t].proxies ==> s == t
  {
    StartGood(max);
    RunsStayGood(Start(max), events);
    var v := Replay(Start(max), events);
    if s in v.sessions && t in v.sessions && name in v.sessions[s].proxies && name in v.sessions[t].proxies {
      assert SessionSound(v, s) && SessionSound(v, t);
      assert Known(v, v.sessions[s].proxies[name]) && Known(v, v.sessions[t].proxies[name]);
    }
  }

  // ----- the port quota of a session -----

  ghost function Sum(proxies: map<string, Proxy>): nat
    decreases |proxies|
  {
    if proxies == map[] then 0
    else
      var n :| n in proxies;
      proxies[n].ports + Sum(proxies - {n})
  }

  lemma {:induction false} SumWithout(proxies: map<string, Proxy>, name: string)
    requires name in proxies
    ensures Sum(proxies) == proxies[name].ports + Sum(proxies - {name})
    decreases |proxies|
  {
    var n :| n in proxies && Sum(proxies) == proxies[n].ports + Sum(proxies - {n});
    if n != name {
      SumWithout(proxies - {n}, name);
      SumWithout(proxies - {name}, n);
      assert proxies - {n} - {name} == proxies - {name} - {n};
    }
  }

  /** The ports that are counted for the registration at work. */
  function Pending(stage: Stage): nat {
    match stage
    case Idle => 0
    case Reserved(conf) => conf.ports
    case Checked(conf) => conf.ports
    case Listening(conf, _) => conf.ports
    case Ran(x) => x.ports
    case Added(x) => x.ports
    case Dropping(x) => x.ports
    case Leaving(_) => 0
    case Closing(_) => 0
  }

  /** With a limit, the count is the ports of the session's proxies plus those of the registration at work, and within the limit. */
  ghost predicate QuotaSound(v: Server, s: nat)
    requires s in v.sessions
  {
    var sess := v.sessions[s];
    && (v.max > 0 ==> sess.portsUsed == Sum(sess.proxies) + Pending(sess.stage) && sess.portsUsed <= v.max)
    && (sess.stage.Listening? ==> sess.stage.conf.ports == sess.stage.pxy.ports)
  }

  lemma PublishKeepsQuota(v: Server, s: nat)
    requires Good(v) && s in v.sessions && v.sessions[s].stage.Added? && QuotaSound(v, s)
    ensures QuotaSound(Step(v, Publish(s)), s)
  {
    var proxies, x := v.sessions[s].proxies, v.sessions[s].stage.pxy;
    PublishedOnce(v, s);
    SumWithout(proxies[x.name := x], x.name);
    assert proxies[x.name := x] - {x.name} == proxies;
  }

  lemma CloseKeepsQuota(v: Server, s: nat, name: string)
    requires s in v.sessions && v.sessions[s].stage.Idle? && QuotaSound(v, s) && name in v.sessions[s].proxies
    requires v.sessions[s].proxies[name] in v.ledger.holds
    ensures QuotaSound(CloseStep(v, s, v.sessions[s].proxies[name], name), s)
  {
    SumWithout(v.sessions[s].proxies, name);
  }

  /** The sections of a registration that are about its proxy. */
  lemma ProxyKeepsQuota(v: Server, e: Event)
    requires (e.Open? || e.AddName? || e.Release? || e.Unregister?) && e.session in v.sessions && QuotaSound(v, e.session)
    ensures QuotaSound(Step(v, e), e.session)
  {
  }

  lemma RunKeepsQuota(v: Server, s: nat, conf: Conf, id: nat, grant: Grant, works: bool)
    requires s in v.sessions && v.sessions[s].stage == Checked(conf) && QuotaSound(v, s)
    ensures QuotaSound(RunStep(v, s, conf, id, grant, works), s)
  {
  }

  lemma StepKeepsQuota(v: Server, e: Event, s: nat)
    requires Good(v) && s in Step(v, e).sessions
    requires s in v.sessions ==> QuotaSound(v, s)
    ensures QuotaSound(Step(v, e), s)
  {
    if e.session == s && s in v.sessions {
      if e.Open? || e.AddName? || e.Release? || e.Unregister? {
        ProxyKeepsQuota(v, e);
      } else if Step(v, e) != v {
        match (e, v.sessions[s].stage)
        case (Run(_, id, grant, works), Checked(conf)) => RunKeepsQuota(v, s, conf, id, grant, works);
        case (Publish(_), Added(_)) => PublishKeepsQuota(v, s);
        case (Close(_, name), Idle) => CloseKeepsQuota(v, s, name);
        case _ =>
      }
    } else {
      OthersKeepQuota(v, e, s);
    }
  }

  lemma OthersKeepQuota(v: Server, e: Event, s: nat)
    requires s in Step(v, e).sessions && (s in v.sessions ==> e.session != s && QuotaSound(v, s))
    ensures QuotaSound(Step(v, e), s)
  {
  }

  lemma {:induction false} RunsKeepQuota(v: Server, events: seq<Event>, s: nat)
    requires Good(v) && (forall t :: t in v.sessions ==> QuotaSound(v, t))
    ensures s in Replay(v, events).sessions ==> QuotaSound(Replay(v, events), s)
    decreases |events|
  {
    if events != [] {
      var next := Step(v, events[0]);
      StepGood(v, events[0]);
      forall t | t in next.sessions ensures QuotaSound(next, t) { StepKeepsQuota(v, events[0], t); }
      RunsKeepQuota(next, events[1..], s);
    }
  }

  /**
   * In every run from an empty server, through duplicate names, failed runs, lost races for a name and
   * closing, each session's port count is right and within the limit.
   */
  lemma EveryRunKeepsQuota(max: int, events: seq<Event>, s: nat)
    ensures s in Replay(Start(max), events).sessions ==> QuotaSound(Replay(Start(max), events), s)
  {
    StartGood(max);
    RunsKeepQuota(Start(max), events, s);
  }
}
