/**
 * Starting proxies, from the clients' phase machines (client/proxy/proxy_wrapper.go) over one FIFO link
 * each way per session (client/control.go, server/control.go) to the registry that all sessions share
 * (server/proxy/proxy.go). Timeouts, resends, local failures, refusals, ignored answers, health checks,
 * reloads and lost sessions come as events in any order.
 */
module StartProtocol {
  import opened Prelude
  import opened ClientProxies

  /** The server's answer to one request. */
  datatype Answer = Answer(name: string, ok: bool)

  datatype Session = Session(wrappers: map<string, WrapperState>, toServer: seq<Message>, toClient: seq<Answer>)

  /** All live sessions, the session holding each proxy name, and the session ids used so far. */
  datatype System = System(sessions: map<nat, Session>, owner: map<string, nat>, ids: set<nat>)

  datatype Event =
    | Login(session: nat, confs: map<string, ProxyConf>)
    | Logout(session: nat, cleanup: bool)
    | Health(session: nat, name: string, failing: bool)
    | Check(session: nat, name: string, now: int)
    | Receive(session: nat, ran: Option<string>, now: int)
    | Serve(session: nat, accept: bool)
    | Reload(session: nat, name: string, conf: Option<ProxyConf>)

  function With(y: System, s: nat, sess: Session): System { y.(sessions := y.sessions[s := sess]) }

  /** One turn of a wrapper's check worker. */
  function CheckStep(sess: Session, name: string, now: int): Session
    requires name in sess.wrappers
  {
    var (w, action) := Turn(sess.wrappers[name], now);
    sess.(wrappers := sess.wrappers[name := w],
          toServer := match action
                      case Nothing => sess.toServer
                      case Ask => sess.toServer + [NewProxy(name)]
                      case TakeBack => sess.toServer + [CloseProxy(name)])
  }

  /** The client handles the oldest answer. */
  function ReceiveStep(sess: Session, ran: Option<string>, now: int): Session
    requires sess.toClient != []
  {
    var a := sess.toClient[0];
    var rest := sess.(toClient := sess.toClient[1..]);
    if a.name !in sess.wrappers then rest
    else
      var (w, close) := Answered(sess.wrappers[a.name], "", if a.ok then "" else "refused", ran, now);
      rest.(wrappers := sess.wrappers[a.name := w],
            toServer := if close then sess.toServer + [CloseProxy(a.name)] else sess.toServer)
  }

  /** The name has a wrapper, and a reload with these settings, or without any, stops it. */
  predicate Stops(sess: Session, name: string, conf: Option<ProxyConf>) {
    name in sess.wrappers && conf != Some(sess.wrappers[name].cfg)
  }

  /**
   * A wrapper whose settings are the same stays; any other one is stopped, and a new one takes its place
   * if the name still has settings.
   */
  function ReloadStep(sess: Session, name: string, conf: Option<ProxyConf>): Session {
    if name in sess.wrappers && !Stops(sess, name, conf) then sess
    else
      Session(if conf.Some? then sess.wrappers[name := Initial(conf.value)] else sess.wrappers - {name},
              if name in sess.wrappers then sess.toServer + [CloseProxy(name)] else sess.toServer,
              sess.toClient)
  }

  /** The server handles the oldest message of a session. */
  function ServeStep(y: System, s: nat, accept: bool): System
    requires s in y.sessions && y.sessions[s].toServer != []
  {
    var sess := y.sessions[s];
    var rest := sess.(toServer := sess.toServer[1..]);
    match sess.toServer[0]
    case NewProxy(n) =>
      var ok := n !in y.owner && accept;
      With(if ok then y.(owner := y.owner[n := s]) else y, s, rest.(toClient := sess.toClient + [Answer(n, ok)]))
    case CloseProxy(n) =>
      With(if n in y.owner && y.owner[n] == s then y.(owner := y.owner - {n}) else y, s, rest)
  }

  /** Events that do not apply change nothing. */
  function Step(y: System, e: Event): System {
    if e.Login? then
      if e.session in y.ids then y
      else System(y.sessions[e.session := Session(map n | n in e.confs :: Initial(e.confs[n]), [], [])], y.owner, y.ids + {e.session})
    else if e.session !in y.sessions then y
    else
      var sess := y.sessions[e.session];
      match e
      case Login(_, _) => y
      case Logout(s, cleanup) =>
        System(y.sessions - {s}, if cleanup then map n | n in y.owner && y.owner[n] != s :: y.owner[n] else y.owner, y.ids)
      case Health(s, n, failing) =>
        if n !in sess.wrappers then y
        else With(y, s, sess.(wrappers := sess.wrappers[n := sess.wrappers[n].(failing := failing)]))
      case Check(s, n, now) => if n !in sess.wrappers then y else With(y, s, CheckStep(sess, n, now))
      case Receive(s, ran, now) => if sess.toClient == [] then y else With(y, s, ReceiveStep(sess, ran, now))
      case Serve(s, accept) => if sess.toServer == [] then y else ServeStep(y, s, accept)
      case Reload(s, n, conf) => With(y, s, ReloadStep(sess, n, conf))
  }

  function Replay(y: System, events: seq<Event>): System
    decreases |events|
  {
    if events == [] then y else Replay(Step(y, events[0]), events[1..])
  }

  // ----- what is under way for one name in one session -----

  /** The messages about one name, in order. */
  function About(q: seq<Message>, name: string): seq<Message> {
    if q == [] then [] else (if q[0].name == name then [q[0]] else []) + About(q[1..], name)
  }

  /** The number of acceptances of one name that the client has not seen yet. */
  function Oks(q: seq<Answer>, name: string): nat {
    if q == [] then 0 else (if q[0] == Answer(name, true) then 1 else 0) + Oks(q[1..], name)
  }

  predicate NoClose(q: seq<Message>) { q != [] ==> q[0].NewProxy? && NoClose(q[1..]) }

  /** No close comes behind a request. */
  predicate ClosesFirst(q: seq<Message>) { q != [] ==> if q[0].NewProxy? then NoClose(q) else ClosesFirst(q[1..]) }

  /** The messages do not close behind a request, except that requests made while the name is held do not count. */
  predicate Tidy(held: bool, q: seq<Message>) {
    if held && q != [] && q[0].NewProxy? then Tidy(held, q[1..]) else ClosesFirst(q)
  }

  predicate Held(y: System, s: nat, name: string) { name in y.owner && y.owner[name] == s }

  predicate IsRunning(sess: Session, name: string) { name in sess.wrappers && sess.wrappers[name].phase == Running }

  /**
   * The invariant for one name in one session: at most one acceptance is unseen or acted on; while there
   * is one, the server holds the name for the session and no close is under way; and the requests and
   * closes under way are in tidy order.
   */
  predicate Settled(held: bool, running: bool, oks: nat, q: seq<Message>) {
    && oks + (if running then 1 else 0) <= 1
    && (oks > 0 || running ==> held && NoClose(q))
    && Tidy(held, q)
  }

  predicate SettledAt(y: System, s: nat, name: string)
    requires s in y.sessions
  {
    var sess := y.sessions[s];
    Settled(Held(y, s, name), IsRunning(sess, name), Oks(sess.toClient, name), About(sess.toServer, name))
  }

  /** Wrappers in a session's map have not been stopped. */
  predicate NotStopped(y: System, s: nat, name: string) {
    s in y.sessions && name in y.sessions[s].wrappers ==> y.sessions[s].wrappers[name].phase != Closed
  }

  /** What every run keeps for one name in one session. */
  ghost predicate Inv(y: System, s: nat, name: string) {
    && (s in y.sessions ==> SettledAt(y, s, name) && NotStopped(y, s, name))
    && (forall t :: t in y.sessions ==> t in y.ids)
    && (name in y.owner ==> y.owner[name] in y.ids)
  }

  /** A close can be sent now without a request or an acceptance under way that it would overtake or follow. */
  predicate MayClose(y: System, s: nat, name: string)
    requires s in y.sessions
  {
    var sess := y.sessions[s];
    || IsRunning(sess, name)
    || (Oks(sess.toClient, name) == 0 && Tidy(Held(y, s, name), About(sess.toServer, name) + [CloseProxy(name)]))
  }

  /** The event makes a health failure or a reload close the proxy of this name in this session. */
  predicate Interrupts(y: System, e: Event, s: nat, name: string) {
    s in y.sessions && e.session == s &&
      var sess := y.sessions[s];
      match e
      case Check(_, n, now) => n == name && n in sess.wrappers && Turn(sess.wrappers[n], now).1 == TakeBack
      case Reload(_, n, conf) => n == name && Stops(sess, n, conf)
      case _ => false
  }

  /** Whenever a health failure or a reload closes this proxy in the run, its start is not under way. */
  ghost predicate AllSafe(y: System, events: seq<Event>, s: nat, name: string)
    decreases |events|
  {
    events != [] ==>
      && (Interrupts(y, events[0], s, name) ==> MayClose(y, s, name))
      && AllSafe(Step(y, events[0]), events[1..], s, name)
  }

  /** No health failure and no reload closes this proxy in the run. */
  ghost predicate AllCalm(y: System, events: seq<Event>, s: nat, name: string)
    decreases |events|
  {
    events != [] ==> !Interrupts(y, events[0], s, name) && AllCalm(Step(y, events[0]), events[1..], s, name)
  }

  lemma {:induction false} CalmIsSafe(y: System, events: seq<Event>, s: nat, name: string)
    requires AllCalm(y, events, s, name)
    ensures AllSafe(y, events, s, name)
    decreases |events|
  {
    if events != [] { CalmIsSafe(Step(y, events[0]), events[1..], s, name); }
  }

  // ----- lemmas about the queues -----

  lemma {:induction false} AboutAppend(q: seq<Message>, m: Message, name: string)
    ensures About(q + [m], name) == About(q, name) + if m.name == name then [m] else []
  {
    if q == [] {
      assert q + [m] == [m];
    } else {
      var head := if q[0].name == name then [q[0]] else [];
      assert (q + [m])[1..] == q[1..] + [m];
      AboutAppend(q[1..], m, name);
      assert About(q + [m], name) == head + About(q[1..] + [m], name);
      assert About(q, name) == head + About(q[1..], name);
    }
  }

  lemma {:induction false} OksAppend(q: seq<Answer>, a: Answer, name: string)
    ensures Oks(q + [a], name) == Oks(q, name) + if a == Answer(name, true) then 1 else 0
  {
    if q == [] {
      assert q + [a] == [a];
    } else {
      assert (q + [a])[1..] == q[1..] + [a];
      OksAppend(q[1..], a, name);
    }
  }

  lemma {:induction false} NoCloseAppend(q: seq<Message>, m: Message)
    ensures NoClose(q + [m]) <==> NoClose(q) && m.NewProxy?
  {
    if q != [] {
      assert (q + [m])[1..] == q[1..] + [m];
      NoCloseAppend(q[1..], m);
    }
  }

  lemma {:induction false} NoCloseIsTidy(q: seq<Message>, held: bool)
    requires NoClose(q)
    ensures Tidy(held, q) && ClosesFirst(q)
  {
    if q != [] { NoCloseIsTidy(q[1..], held); }
  }

  /** A request can always be appended. */
  lemma {:induction false} RequestKeepsTidy(held: bool, q: seq<Message>, m: Message)
    requires Tidy(held, q) && m.NewProxy?
    ensures Tidy(held, q + [m])
  {
    if q != [] {
      assert (q + [m])[1..] == q[1..] + [m];
      if held && q[0].NewProxy? {
        RequestKeepsTidy(held, q[1..], m);
      } else if q[0].NewProxy? {
        NoCloseAppend(q, m);
      } else {
        RequestKeepsTidy(false, q[1..], m);
      }
    }
  }

  /** A close can be appended when the name is held and there are only requests. */
  lemma {:induction false} CloseBehindRequests(q: seq<Message>, m: Message)
    requires NoClose(q)
    ensures Tidy(true, q + [m])
  {
    if q != [] {
      assert (q + [m])[1..] == q[1..] + [m];
      CloseBehindRequests(q[1..], m);
    }
  }

  lemma AboutHead(q: seq<Message>, name: string)
    requires q != []
    ensures q[0].name == name ==> About(q, name) != [] && About(q, name)[0] == q[0] && About(q, name)[1..] == About(q[1..], name)
    ensures q[0].name != name ==> About(q, name) == About(q[1..], name)
  {
    assert About(q, name) == (if q[0].name == name then [q[0]] else []) + About(q[1..], name);
  }

  // ----- each kind of step keeps the invariant -----

  /** The server's step, seen for the name and session it is about. */
  lemma ServeSettles(held: bool, taken: bool, accept: bool, running: bool, oks: nat, q: seq<Message>)
    requires Settled(held, running, oks, q) && q != [] && (held ==> taken)
    ensures q[0].NewProxy? ==> var ok := !taken && accept; Settled(held || ok, running, oks + (if ok then 1 else 0), q[1..])
    ensures q[0].CloseProxy? ==> Settled(false, running, oks, q[1..])
  {
    if q[0].NewProxy? && !held { NoCloseIsTidy(q[1..], true); }
  }

  lemma ServeKeepsInv(y: System, s: nat, name: string, accept: bool)
    requires Inv(y, s, name) && s in y.sessions && y.sessions[s].toServer != []
    ensures Inv(ServeStep(y, s, accept), s, name)
  {
    var next, sess := ServeStep(y, s, accept), y.sessions[s];
    var m := sess.toServer[0];
    if m.NewProxy? { OksAppend(sess.toClient, Answer(m.name, m.name !in y.owner && accept), name); }
    AboutHead(sess.toServer, name);
    if m.name == name {
      ServeSettles(Held(y, s, name), name in y.owner, accept, IsRunning(sess, name), Oks(sess.toClient, name), About(sess.toServer, name));
    }
  }

  /** A session's own step on a name, and a step on another name. */
  lemma OwnStepKeepsInv(y: System, s: nat, sess: Session, name: string)
    requires Inv(y, s, name) && s in y.sessions
    requires name in sess.wrappers ==> sess.wrappers[name].phase != Closed
    requires Settled(Held(y, s, name), IsRunning(sess, name), Oks(sess.toClient, name), About(sess.toServer, name))
    ensures Inv(With(y, s, sess), s, name)
  {
  }

  lemma OtherNameKeepsInv(y: System, s: nat, sess: Session, name: string)
    requires Inv(y, s, name) && s in y.sessions
    requires name in sess.wrappers <==> name in y.sessions[s].wrappers
    requires name in sess.wrappers ==>
               sess.wrappers[name].phase == y.sessions[s].wrappers[name].phase
    requires Oks(sess.toClient, name) == Oks(y.sessions[s].toClient, name)
    requires About(sess.toServer, name) == About(y.sessions[s].toServer, name)
    ensures Inv(With(y, s, sess), s, name)
  {
  }

  /** Sending a close that may be sent, and no longer running, is settled. */
  lemma CloseSettles(held: bool, running: bool, oks: nat, q: seq<Message>, m: Message)
    requires Settled(held, running, oks, q) && m.CloseProxy?
    requires running || (oks == 0 && Tidy(held, q + [m]))
    ensures Settled(held, false, 0, q + [m]) && oks == 0
  {
    if running { CloseBehindRequests(q, m); }
  }

  lemma CheckKeepsInv(y: System, s: nat, name: string, n: string, now: int)
    requires Inv(y, s, name) && s in y.sessions && n in y.sessions[s].wrappers
    requires Interrupts(y, Check(s, n, now), s, name) ==> MayClose(y, s, name)
    ensures Inv(With(y, s, CheckStep(y.sessions[s], n, now)), s, name)
  {
    var sess := y.sessions[s];
    var after := CheckStep(sess, n, now);
    var (w, action) := Turn(sess.wrappers[n], now);
    var held, q := Held(y, s, name), About(sess.toServer, name);
    AboutAppend(sess.toServer, NewProxy(n), name);
    AboutAppend(sess.toServer, CloseProxy(n), name);
    if n != name {
      OtherNameKeepsInv(y, s, after, name);
    } else {
      match action {
        case Nothing =>
        case Ask => RequestKeepsTidy(held, q, NewProxy(name)); NoCloseAppend(q, NewProxy(name));
        case TakeBack => CloseSettles(held, IsRunning(sess, name), Oks(sess.toClient, name), q, CloseProxy(name));
      }
      OwnStepKeepsInv(y, s, after, name);
    }
  }

  lemma ReceiveKeepsInv(y: System, s: nat, name: string, ran: Option<string>, now: int)
    requires Inv(y, s, name) && s in y.sessions && y.sessions[s].toClient != []
    ensures Inv(With(y, s, ReceiveStep(y.sessions[s], ran, now)), s, name)
  {
    var sess := y.sessions[s];
    var n, q := sess.toClient[0].name, About(sess.toServer, name);
    AboutAppend(sess.toServer, CloseProxy(n), name);
    if n != name {
      OtherNameKeepsInv(y, s, ReceiveStep(sess, ran, now), name);
    } else {
      if NoClose(q) { CloseBehindRequests(q, CloseProxy(name)); }
      OwnStepKeepsInv(y, s, ReceiveStep(sess, ran, now), name);
    }
  }

  lemma ReloadKeepsInv(y: System, s: nat, name: string, n: string, conf: Option<ProxyConf>)
    requires Inv(y, s, name) && s in y.sessions
    requires Interrupts(y, Reload(s, n, conf), s, name) ==> MayClose(y, s, name)
    ensures Inv(With(y, s, ReloadStep(y.sessions[s], n, conf)), s, name)
  {
    var sess := y.sessions[s];
    var after := ReloadStep(sess, n, conf);
    AboutAppend(sess.toServer, CloseProxy(n), name);
    if n != name {
      OtherNameKeepsInv(y, s, after, name);
    } else {
      if Stops(sess, name, conf) {
        CloseSettles(Held(y, s, name), IsRunning(sess, name), Oks(sess.toClient, name), About(sess.toServer, name), CloseProxy(name));
      }
      OwnStepKeepsInv(y, s, after, name);
    }
  }

  /** The steps of other sessions do not touch what this session holds and has under way. */
  lemma OtherSessionKeepsInv(y: System, e: Event, s: nat, name: string)
    requires Inv(y, s, name) && e.session != s
    ensures Inv(Step(y, e), s, name)
  {
  }

  lemma StepKeepsInv(y: System, e: Event, s: nat, name: string)
    requires Inv(y, s, name) && (Interrupts(y, e, s, name) ==> MayClose(y, s, name))
    ensures Inv(Step(y, e), s, name)
  {
    if e.session != s {
      OtherSessionKeepsInv(y, e, s, name);
    } else if s in y.sessions {
      var sess := y.sessions[s];
      match e
      case Health(_, n, failing) =>
        if n in sess.wrappers {
          OtherNameKeepsInv(y, s, sess.(wrappers := sess.wrappers[n := sess.wrappers[n].(failing := failing)]), name);
        }
      case Check(_, n, now) => if n in sess.wrappers { CheckKeepsInv(y, s, name, n, now); }
      case Receive(_, ran, now) => if sess.toClient != [] { ReceiveKeepsInv(y, s, name, ran, now); }
      case Serve(_, accept) => if sess.toServer != [] { ServeKeepsInv(y, s, name, accept); }
      case Reload(_, n, conf) => ReloadKeepsInv(y, s, name, n, conf);
      case _ =>
    }
  }

  const Nobody := System(map[], map[], {})

  lemma {:induction false} EveryRunKeepsInv(y: System, events: seq<Event>, s: nat, name: string)
    requires Inv(y, s, name) && AllSafe(y, events, s, name)
    ensures Inv(Replay(y, events), s, name)
    decreases |events|
  {
    if events != [] {
      StepKeepsInv(y, events[0], s, name);
      EveryRunKeepsInv(Step(y, events[0]), events[1..], s, name);
    }
  }

  /**
   * In every run of any number of sessions, a proxy that a live client takes to be running is held by
   * the server for that client's session, provided no health failure or reload closes this very proxy
   * of this session while its start is under way.
   */
  lemma RunningIsHeld(events: seq<Event>, s: nat, name: string)
    requires AllSafe(Nobody, events, s, name)
    ensures var y := Replay(Nobody, events); s in y.sessions && IsRunning(y.sessions[s], name) ==> Held(y, s, name)
  {
    EveryRunKeepsInv(Nobody, events, s, name);
  }

  /** At most one live session has a proxy of a given name running. */
  lemma OneRunningPerName(events: seq<Event>, s: nat, t: nat, name: string)
    requires AllSafe(Nobody, events, s, name) && AllSafe(Nobody, events, t, name)
    ensures var y := Replay(Nobody, events);
            s in y.sessions && t in y.sessions && IsRunning(y.sessions[s], name) && IsRunning(y.sessions[t], name) ==> s == t
  {
    RunningIsHeld(events, s, name);
    RunningIsHeld(events, t, name);
  }

  // ----- without a health check or a reload of this proxy -----

  /** In this session the name never gets settings with a health check, its health is not reported, and no reload is about it. */
  ghost predicate NoInterrupts(events: seq<Event>, s: nat, name: string) {
    forall i :: 0 <= i < |events| && events[i].session == s ==> Undisturbed(events[i], name)
  }

  predicate Undisturbed(e: Event, name: string) {
    match e
    case Login(_, confs) => name in confs ==> !confs[name].healthChecked
    case Health(_, n, _) => n != name
    case Reload(_, n, _) => n != name
    case _ => true
  }

  predicate Healthy(y: System, s: nat, name: string) {
    s in y.sessions && name in y.sessions[s].wrappers ==> !y.sessions[s].wrappers[name].failing
  }

  lemma {:induction false} UninterruptedIsCalm(y: System, events: seq<Event>, s: nat, name: string)
    requires Healthy(y, s, name) && NoInterrupts(events, s, name)
    ensures AllCalm(y, events, s, name)
    decreases |events|
  {
    if events != [] {
      var e, rest := events[0], events[1..];
      assert e.session == s ==> Undisturbed(e, name);
      assert forall i :: 0 <= i < |rest| ==> rest[i] == events[i + 1];
      assert Healthy(Step(y, e), s, name);
      UninterruptedIsCalm(Step(y, e), rest, s, name);
    }
  }

  /** A proxy without a health check that is not reloaded: the guarantee needs no proviso, whatever happens to all others. */
  lemma RunningIsHeldUninterrupted(events: seq<Event>, s: nat, name: string)
    requires NoInterrupts(events, s, name)
    ensures var y := Replay(Nobody, events); s in y.sessions && IsRunning(y.sessions[s], name) ==> Held(y, s, name)
  {
    UninterruptedIsCalm(Nobody, events, s, name);
    CalmIsSafe(Nobody, events, s, name);
    RunningIsHeld(events, s, name);
  }

  // ----- the proviso is exact -----

  lemma {:induction false} ReplayAppend(y: System, a: seq<Event>, b: seq<Event>, s: nat, name: string)
    ensures Replay(y, a + b) == Replay(Replay(y, a), b)
    ensures AllCalm(y, a + b, s, name) <==> AllCalm(y, a, s, name) && AllCalm(Replay(y, a), b, s, name)
    decreases |a|
  {
    if a == [] {
      assert a + b == b;
    } else {
      assert (a + b)[1..] == a[1..] + b;
      ReplayAppend(Step(y, a[0]), a[1..], b, s, name);
    }
  }

  /** The client takes the proxy to be running although the server does not hold the name for it. */
  predicate Violated(y: System, s: nat, name: string) {
    s in y.sessions && IsRunning(y.sessions[s], name) && !Held(y, s, name)
  }

  /** A live wrapper that does not run. */
  predicate Startable(sess: Session, name: string) {
    name in sess.wrappers && sess.wrappers[name].phase != Running && sess.wrappers[name].phase != Closed && !sess.wrappers[name].failing
  }

  /** An acceptance is under way while a close is, too. */
  predicate Crossed(y: System, s: nat, name: string) {
    s in y.sessions && Held(y, s, name) && !NoClose(About(y.sessions[s].toServer, name))
  }

  lemma {:induction false} AppendKeepsClose(q: seq<Message>, m: Message)
    requires !NoClose(q)
    ensures !NoClose(q + [m])
  {
    NoCloseAppend(q, m);
  }

  /** A running proxy with a close under way is released under the client's feet. */
  lemma {:induction false} ServeUntilReleased(y: System, s: nat, name: string) returns (events: seq<Event>)
    requires Crossed(y, s, name) && IsRunning(y.sessions[s], name)
    ensures AllCalm(y, events, s, name) && Violated(Replay(y, events), s, name)
    decreases |y.sessions[s].toServer|
  {
    var sess := y.sessions[s];
    assert sess.toServer != [];
    var e := Serve(s, false);
    var next := Step(y, e);
    assert next == ServeStep(y, s, false);
    var rest: seq<Event> := [];
    AboutHead(sess.toServer, name);
    if Held(next, s, name) {
      rest := ServeUntilReleased(next, s, name);
    }
    events := [e] + rest;
    assert events[1..] == rest;
  }

  /** With an acceptance on its way, a wrapper that is not running can be made to act on it. */
  lemma {:induction false} ReceiveUntilRunning(y: System, s: nat, name: string) returns (events: seq<Event>)
    requires Crossed(y, s, name) && Startable(y.sessions[s], name) && Oks(y.sessions[s].toClient, name) > 0
    ensures AllCalm(y, events, s, name)
    ensures Crossed(Replay(y, events), s, name) && IsRunning(Replay(y, events).sessions[s], name)
    decreases |y.sessions[s].toClient|
  {
    var sess := y.sessions[s];
    if sess.toClient[0] == Answer(name, true) {
      var w := sess.wrappers[name];
      var now := Max(w.lastSend, w.lastErr) + WaitResponseTimeout + StartErrTimeout + 1;
      var a, b := Check(s, name, now), Receive(s, None, now);
      var y1 := Step(y, a);
      AboutAppend(sess.toServer, NewProxy(name), name);
      AppendKeepsClose(About(sess.toServer, name), NewProxy(name));
      assert y1.sessions[s] == CheckStep(sess, name, now) && y1.sessions[s].wrappers[name].phase == WaitStart;
      var y2 := Step(y1, b);
      events := [a, b];
      assert events[1..] == [b] && [b][1..] == [];
      assert Replay(y1, [b]) == y2;
    } else {
      var e := Receive(s, None, 0);
      var next := Step(y, e);
      assert next.sessions[s] == ReceiveStep(sess, None, 0);
      var rest := ReceiveUntilRunning(next, s, name);
      events := [e] + rest;
      assert events[1..] == rest;
    }
  }

  /** With a request in front of a close the server can be made to accept it. */
  lemma {:induction false} ServeUntilCrossed(y: System, s: nat, name: string) returns (events: seq<Event>)
    requires s in y.sessions && Startable(y.sessions[s], name) && (name in y.owner ==> y.owner[name] in y.sessions)
    requires !Tidy(Held(y, s, name), About(y.sessions[s].toServer, name))
    ensures AllCalm(y, events, s, name)
    ensures Crossed(Replay(y, events), s, name) && Startable(Replay(y, events).sessions[s], name)
    ensures Oks(Replay(y, events).sessions[s].toClient, name) > 0
    decreases |y.sessions[s].toServer|, name in y.owner
  {
    var sess := y.sessions[s];
    var q := About(sess.toServer, name);
    assert sess.toServer != [];
    AboutHead(sess.toServer, name);
    var e, rest := Serve(s, true), [];
    if sess.toServer[0] == NewProxy(name) && name !in y.owner {
      var next := Step(y, e);
      assert next == ServeStep(y, s, true);
      OksAppend(sess.toClient, Answer(name, true), name);
    } else if sess.toServer[0] == NewProxy(name) && !Held(y, s, name) {
      e := Logout(y.owner[name], true);
      rest := ServeUntilCrossed(Step(y, e), s, name);
    } else {
      e := Serve(s, false);
      var next := Step(y, e);
      assert next == ServeStep(y, s, false);
      rest := ServeUntilCrossed(next, s, name);
    }
    events := [e] + rest;
    assert events[1..] == rest;
  }

  /** Gets a live, healthy wrapper for the name, without an interrupt. */
  lemma MakeStartable(y: System, s: nat, name: string) returns (events: seq<Event>)
    requires s in y.sessions && !IsRunning(y.sessions[s], name)
    requires name in y.sessions[s].wrappers ==> y.sessions[s].wrappers[name].phase != Closed
    ensures AllCalm(y, events, s, name)
    ensures var z := Replay(y, events);
            && s in z.sessions && Startable(z.sessions[s], name) && z.owner == y.owner && z.sessions.Keys == y.sessions.Keys
            && z.sessions[s].toServer == y.sessions[s].toServer && z.sessions[s].toClient == y.sessions[s].toClient
  {
    var e := if name in y.sessions[s].wrappers then Health(s, name, false) else Reload(s, name, Some(ProxyConf(name, false, "")));
    events := [e];
    assert events[1..] == [];
    assert Replay(y, events) == Step(y, e);
  }

  /** From a state that is not settled for a name, some run without interrupts violates the guarantee. */
  lemma UnsettledCanBreak(y: System, s: nat, name: string) returns (events: seq<Event>)
    requires s in y.sessions && !IsRunning(y.sessions[s], name)
    requires name in y.sessions[s].wrappers ==> y.sessions[s].wrappers[name].phase != Closed
    requires name in y.owner ==> y.owner[name] in y.sessions
    requires (Crossed(y, s, name) && Oks(y.sessions[s].toClient, name) > 0)
             || !Tidy(Held(y, s, name), About(y.sessions[s].toServer, name))
    ensures AllCalm(y, events, s, name) && Violated(Replay(y, events), s, name)
  {
    var a := MakeStartable(y, s, name);
    var y1 := Replay(y, a);
    var b: seq<Event> := [];
    if !(Crossed(y1, s, name) && Oks(y1.sessions[s].toClient, name) > 0) {
      b := ServeUntilCrossed(y1, s, name);
    }
    var y2 := Replay(y1, b);
    var c := ReceiveUntilRunning(y2, s, name);
    var y3 := Replay(y2, c);
    var d := ServeUntilReleased(y3, s, name);
    ReplayAppend(y, a, b, s, name);
    ReplayAppend(y, a + b, c, s, name);
    ReplayAppend(y, a + b + c, d, s, name);
    events := a + b + c + d;
  }

  /** No later run without interrupts of this proxy violates the guarantee. */
  ghost predicate Harmless(y: System, s: nat, name: string) {
    forall events :: AllCalm(y, events, s, name) ==> !Violated(Replay(y, events), s, name)
  }

  /** The name is held for a session that was lost without clean-up: nobody is ever served again under it. */
  predicate Stuck(y: System, name: string) { name in y.owner && y.owner[name] !in y.sessions }

  /** Under a stuck name the session does not run, and no acceptance is on its way to it. */
  ghost predicate StuckFor(y: System, s: nat, name: string) {
    && Stuck(y, name) && y.owner[name] in y.ids && s in y.ids
    && (s in y.sessions ==> !IsRunning(y.sessions[s], name) && Oks(y.sessions[s].toClient, name) == 0)
  }

  lemma StaysStuck(y: System, e: Event, s: nat, name: string)
    requires StuckFor(y, s, name)
    ensures StuckFor(Step(y, e), s, name)
  {
    if e.Serve? && s == e.session && s in y.sessions && y.sessions[s].toServer != [] {
      var m := y.sessions[s].toServer[0];
      OksAppend(y.sessions[s].toClient, Answer(m.name, m.name !in y.owner && e.accept), name);
    }
  }

  lemma {:induction false} StuckForEver(y: System, events: seq<Event>, s: nat, name: string)
    requires StuckFor(y, s, name)
    ensures !Violated(Replay(y, events), s, name)
    decreases |events|
  {
    if events != [] {
      StaysStuck(y, events[0], s, name);
      StuckForEver(Step(y, events[0]), events[1..], s, name);
    }
  }

  /**
   * The proviso is exact. Where the proxy of this name and session is settled, an interrupt closes it
   * without harm, that is, no later run without further interrupts of it shows it running while the
   * server does not hold it, if and only if the proxy was running, or the close neither overtakes an
   * acceptance nor follows a request under way, or the name is stuck.
   */
  lemma ProvisoIsExact(y: System, e: Event, s: nat, name: string)
    requires Inv(y, s, name) && Interrupts(y, e, s, name)
    ensures MayClose(y, s, name) || Stuck(y, name) <==> Harmless(Step(y, e), s, name)
  {
    if MayClose(y, s, name) || Stuck(y, name) {
      NoHarm(y, e, s, name);
    } else {
      Harm(y, e, s, name);
    }
  }

  lemma NoHarm(y: System, e: Event, s: nat, name: string)
    requires Inv(y, s, name) && Interrupts(y, e, s, name)
    requires MayClose(y, s, name) || Stuck(y, name)
    ensures Harmless(Step(y, e), s, name)
  {
    var next := Step(y, e);
    if Stuck(y, name) {
      assert StuckFor(y, s, name);
      StaysStuck(y, e, s, name);
      forall events | AllCalm(next, events, s, name) ensures !Violated(Replay(next, events), s, name) {
        StuckForEver(next, events, s, name);
      }
    } else {
      StepKeepsInv(y, e, s, name);
      forall events | AllCalm(next, events, s, name) ensures !Violated(Replay(next, events), s, name) {
        CalmIsSafe(next, events, s, name);
        EveryRunKeepsInv(next, events, s, name);
      }
    }
  }

  lemma Harm(y: System, e: Event, s: nat, name: string)
    requires Inv(y, s, name) && Interrupts(y, e, s, name)
    requires !MayClose(y, s, name) && !Stuck(y, name)
    ensures !Harmless(Step(y, e), s, name)
  {
    var next := Step(y, e);
    var q := About(y.sessions[s].toServer, name);
    AboutAppend(y.sessions[s].toServer, CloseProxy(name), name);
    NoCloseAppend(q, CloseProxy(name));
    var after := next.sessions[s];
    assert after.toServer == y.sessions[s].toServer + [CloseProxy(name)] && after.toClient == y.sessions[s].toClient;
    assert !IsRunning(after, name) && next.owner == y.owner && next.sessions.Keys == y.sessions.Keys;
    var events := UnsettledCanBreak(next, s, name);
    assert AllCalm(next, events, s, name) && Violated(Replay(next, events), s, name);
  }

  const OldConf := ProxyConf("p", false, "old")
  const NewConf := ProxyConf("p", false, "new")

  /**
   * The proviso cannot be dropped: after one client logs in and asks for its proxy, reloading the proxy
   * with other settings lets some later run without interrupts show it running while the server does
   * not hold it.
   */
  lemma ReloadWhileStarting()
    ensures var y := Replay(Nobody, [Login(1, map["p" := OldConf]), Check(1, "p", 0)]);
            !Harmless(Step(y, Reload(1, "p", Some(NewConf))), 1, "p")
  {
    var a, b := Login(1, map["p" := OldConf]), Check(1, "p", 0);
    UninterruptedIsCalm(Nobody, [a, b], 1, "p");
    CalmIsSafe(Nobody, [a, b], 1, "p");
    EveryRunKeepsInv(Nobody, [a, b], 1, "p");
    var y0 := Step(Nobody, a);
    var y := Step(y0, b);
    assert Replay(Nobody, [a, b]) == y by { assert [a, b][1..] == [b]; ReplayOne(y0, b); }
    assert y.sessions[1].toServer == [NewProxy("p")] && y.sessions[1].wrappers["p"].phase == WaitStart;
    assert y.sessions[1].wrappers["p"].cfg == OldConf;
    StartIsUnderWay(y);
    ProvisoIsExact(y, Reload(1, "p", Some(NewConf)), 1, "p");
  }

  lemma ReplayOne(y: System, e: Event)
    ensures Replay(y, [e]) == Step(y, e)
  {
    assert [e][1..] == [];
  }

  lemma StartIsUnderWay(y: System)
    requires 1 in y.sessions && "p" in y.sessions[1].wrappers && y.sessions[1].wrappers["p"].phase == WaitStart
    requires y.sessions[1].toServer == [NewProxy("p")] && "p" !in y.owner
    ensures !MayClose(y, 1, "p")
  {
    var ask, close := NewProxy("p"), CloseProxy("p");
    assert About([ask], "p") == [ask] by { assert [ask][1..] == []; }
    assert [ask] + [close] == [ask, close] && [ask, close][1..] == [close];
    assert !NoClose([close]) && !NoClose([ask, close]);
  }
}
