/**
 * The client's view of one proxy (client/proxy/proxy_wrapper.go): a phase machine that asks the server
 * to start the proxy, asks again on a timeout or an error, and takes it back when its health check fails
 * or it is stopped. Times are in seconds.
 */
module ClientProxies {
  import opened Prelude

  datatype Phase = New | WaitStart | StartErr | Running | CheckFailed | Closed

  const WaitResponseTimeout := 20
  const StartErrTimeout := 30

  /** The settings of a proxy; `rest` stands for everything that only matters for whether they changed. */
  datatype ProxyConf = ProxyConf(name: string, healthChecked: bool, rest: string)

  /** What a wrapper sends to the server. */
  datatype Message = NewProxy(name: string) | CloseProxy(name: string)

  datatype WrapperState = WrapperState(cfg: ProxyConf, phase: Phase, failing: bool, lastSend: int, lastErr: int, remoteAddr: string, err: string)

  function Initial(cfg: ProxyConf): WrapperState {
    WrapperState(cfg, New, cfg.healthChecked, 0, 0, "", "")
  }

  /** `SetRunningStatus` on values: the state and whether the start is taken back because `Run` failed. */
  function Answered(w: WrapperState, remoteAddr: string, respErr: string, ran: Option<string>, now: int): (WrapperState, bool) {
    if w.phase != WaitStart then (w, false)
    else if respErr != "" then (w.(phase := StartErr, remoteAddr := remoteAddr, err := respErr, lastErr := now), false)
    else
      match ran
      case Some(e) => (w.(phase := StartErr, remoteAddr := remoteAddr, err := e, lastErr := now), true)
      case None => (w.(phase := Running, remoteAddr := remoteAddr, err := ""), false)
  }

  /** It is time to ask the server, for the first time or again. */
  predicate Due(w: WrapperState, now: int) {
    || w.phase == New
    || w.phase == CheckFailed
    || (w.phase == WaitStart && now > w.lastSend + WaitResponseTimeout)
    || (w.phase == StartErr && now > w.lastErr + StartErrTimeout)
  }

  datatype Action = Nothing | Ask | TakeBack

  /** One turn of `checkWorker` on values: the state and what is sent. */
  function Turn(w: WrapperState, now: int): (WrapperState, Action) {
    if !w.failing then
      if Due(w, now) then (w.(phase := WaitStart, lastSend := now), Ask) else (w, Nothing)
    else if w.phase == Running || w.phase == WaitStart then (w.(phase := CheckFailed), TakeBack)
    else (w, Nothing)
  }

  /** Closed is terminal: a stopped wrapper sends nothing and accepts no answer, whatever happens. */
  lemma ClosedIsTerminal(w: WrapperState, now: int, remoteAddr: string, respErr: string, ran: Option<string>)
    ensures w.phase == Closed ==> Turn(w, now) == (w, Nothing) && Answered(w, remoteAddr, respErr, ran, now) == (w, false)
    ensures w.phase != Closed ==> Turn(w, now).0.phase != Closed && Answered(w, remoteAddr, respErr, ran, now).0.phase != Closed
  {
  }

  // ----- when a wrapper asks -----

  /** The state after the first n of these checks, with no answer and no change of health in between. */
  function AfterChecks(w: WrapperState, times: seq<int>, n: nat): WrapperState
    requires n <= |times|
  {
    if n == 0 then w else Turn(AfterChecks(w, times, n - 1), times[n - 1]).0
  }

  /** What check i of the sequence sends. */
  function Sends(w: WrapperState, times: seq<int>, i: nat): Action
    requires i < |times|
  {
    Turn(AfterChecks(w, times, i), times[i]).1
  }

  lemma {:induction false} ChecksKeepHealth(w: WrapperState, times: seq<int>, n: nat)
    requires n <= |times|
    ensures AfterChecks(w, times, n).failing == w.failing
  {
    if n > 0 { ChecksKeepHealth(w, times, n - 1); }
  }

  /** A wrapper that has not started, or is not healthy yet, asks at the first check at which it is healthy. */
  lemma FirstCheck(cfg: ProxyConf, now: int)
    ensures Turn(Initial(cfg), now).1 == if cfg.healthChecked then Nothing else Ask
    ensures Turn(Initial(cfg).(failing := false), now).1 == Ask
    ensures Turn(Initial(cfg).(failing := false), now).0.phase == WaitStart
  {
  }

  /**
   * No proxy is forgotten: a healthy wrapper that neither runs nor is closed asks the server by the first
   * check that comes more than 20 seconds after its last request and 30 after its last refusal.
   */
  lemma {:induction false} AsksAgain(w: WrapperState, times: seq<int>, k: nat)
    requires k < |times| && !w.failing && w.phase != Running && w.phase != Closed
    requires times[k] > w.lastSend + 20 && times[k] > w.lastErr + 30
    ensures exists i: nat :: i <= k && Sends(w, times, i) == Ask
  {
    if Sends(w, times, 0) == Ask {
    } else if k > 0 {
      assert w.phase == WaitStart || w.phase == StartErr;
      assert AfterChecks(w, times, 1) == Turn(AfterChecks(w, times, 0), times[0]).0 == w;
      AsksAgain(w, times[1..], k - 1);
      var i: nat :| i <= k - 1 && Sends(w, times[1..], i) == Ask;
      LaterChecks(w, times, i);
      assert Sends(w, times, i + 1) == Ask;
    }
  }

  /** After a check that changes nothing, the rest of the checks are those of the same wrapper. */
  lemma {:induction false} LaterChecks(w: WrapperState, times: seq<int>, n: nat)
    requires n + 1 <= |times| && Turn(w, times[0]).0 == w
    ensures AfterChecks(w, times, n + 1) == AfterChecks(w, times[1..], n)
  {
    if n > 0 {
      LaterChecks(w, times, n - 1);
    } else {
      assert AfterChecks(w, times, 1) == Turn(AfterChecks(w, times, 0), times[0]).0;
    }
  }

  /** A check that sends nothing changes nothing. */
  lemma NothingSentNothingChanged(w: WrapperState, now: int)
    ensures Turn(w, now).1 == Nothing ==> Turn(w, now).0 == w
    ensures Turn(w, now).1 == Ask ==> Turn(w, now).0 == w.(phase := WaitStart, lastSend := now)
    ensures Turn(w, now).1 == TakeBack ==> Turn(w, now).0 == w.(phase := CheckFailed)
  {
  }

  /** The wrapper waits for an answer to a request of this time, or of a later one. */
  ghost predicate AskedSince(w: WrapperState, time: int) {
    w.phase == WaitStart && w.lastSend >= time
  }

  lemma {:induction false} WaitsSince(w: WrapperState, times: seq<int>, i: nat, n: nat)
    requires i < n <= |times| && !w.failing && Sends(w, times, i) == Ask
    ensures AskedSince(AfterChecks(w, times, n), times[i])
    ensures n < |times| && Sends(w, times, n) == Ask ==> times[n] > times[i] + 20
  {
    var before := AfterChecks(w, times, n - 1);
    ChecksKeepHealth(w, times, n - 1);
    ChecksKeepHealth(w, times, n);
    NothingSentNothingChanged(before, times[n - 1]);
    if n - 1 > i { WaitsSince(w, times, i, n - 1); }
  }

  /** Without an answer in between, two requests of a healthy wrapper are more than 20 seconds apart. */
  lemma RequestsAreSpaced(w: WrapperState, times: seq<int>, i: nat, j: nat)
    requires i < j < |times| && !w.failing && Sends(w, times, i) == Ask && Sends(w, times, j) == Ask
    ensures times[j] > times[i] + 20
  {
    WaitsSince(w, times, i, j);
  }

  /** After a refusal, or a failure of the local start, every further request comes more than 30 seconds later. */
  lemma {:induction false} RefusalIsRespected(w: WrapperState, addr: string, respErr: string, ran: Option<string>, now: int, times: seq<int>, j: nat)
    requires w.phase == WaitStart && !w.failing && (respErr != "" || ran.Some?)
    requires j < |times| && Sends(Answered(w, addr, respErr, ran, now).0, times, j) == Ask
    ensures times[j] > now + 30
  {
    var refused := Answered(w, addr, respErr, ran, now).0;
    if i: nat :| i < j && Sends(refused, times, i) == Ask {
      RefusalIsRespected(w, addr, respErr, ran, now, times, i);
      RequestsAreSpaced(refused, times, i, j);
    } else {
      QuietChecks(refused, times, j);
    }
  }

  lemma {:induction false} QuietChecks(w: WrapperState, times: seq<int>, n: nat)
    requires n <= |times| && !w.failing && forall i: nat :: i < n ==> Sends(w, times, i) != Ask
    ensures AfterChecks(w, times, n) == w
  {
    if n > 0 {
      QuietChecks(w, times, n - 1);
      assert Sends(w, times, n - 1) != Ask;
      NothingSentNothingChanged(w, times[n - 1]);
    }
  }

  /** A request goes out to a waiting wrapper's server exactly when 20 seconds have passed, to a refused one's when 30 have. */
  lemma TimeoutsAreExact(w: WrapperState, now: int)
    requires !w.failing
    ensures w.phase == WaitStart ==> (Turn(w, now).1 == Ask <==> now - w.lastSend > 20)
    ensures w.phase == StartErr ==> (Turn(w, now).1 == Ask <==> now - w.lastErr > 30)
    ensures w.phase == Running ==> Turn(w, now).1 == Nothing
  {
  }

  // ----- health and answers -----

  /** While the health check fails nothing is asked, and a proxy that ran or waited is taken back, once, at the first check. */
  lemma {:induction false} FailureTakesBackOnce(w: WrapperState, times: seq<int>, i: nat)
    requires i < |times| && w.failing
    ensures Sends(w, times, i) == if i == 0 && (w.phase == Running || w.phase == WaitStart) then TakeBack else Nothing
    ensures AfterChecks(w, times, i + 1).phase == if w.phase == Running || w.phase == WaitStart then CheckFailed else w.phase
  {
    ChecksKeepHealth(w, times, i);
    if i > 0 { FailureTakesBackOnce(w, times, i - 1); }
  }

  /** When the health check succeeds again, the next check asks. */
  lemma HealthyAgainAsks(w: WrapperState, now: int, later: int)
    requires w.failing && (w.phase == Running || w.phase == WaitStart)
    ensures Turn(Turn(w, now).0.(failing := false), later).1 == Ask
  {
  }

  /**
   * What an answer does to a waiting wrapper: it runs exactly if the server accepted and the local start
   * succeeded; an acceptance it cannot use is given back; and nothing else is sent.
   */
  lemma AnswerOutcomes(w: WrapperState, addr: string, respErr: string, ran: Option<string>, now: int)
    requires w.phase == WaitStart
    ensures var (next, close) := Answered(w, addr, respErr, ran, now);
            && (next.phase == Running <==> respErr == "" && ran == None)
            && (next.phase != Running ==> next.phase == StartErr && next.lastErr == now)
            && (close <==> respErr == "" && next.phase != Running)
            && next.remoteAddr == addr && next.err == (if respErr != "" then respErr else if ran.Some? then ran.value else "")
            && next.cfg == w.cfg && next.failing == w.failing && next.lastSend == w.lastSend
  {
  }

  /** The messages sent to the server, in order. */
  class Outbox {
    var msgs: seq<Message>

    constructor ()
      ensures msgs == []
    {
      msgs := [];
    }

    method Send(m: Message)
      modifies this
      ensures msgs == old(msgs) + [m]
    {
      msgs := msgs + [m];
    }
  }

  class Wrapper {
    const cfg: ProxyConf
    const out: Outbox
    var phase: Phase
    var err: string
    var remoteAddr: string
    var health: int
    var lastSendStartMsg: int
    var lastStartErr: int

    /** The key under which the manager keeps this wrapper. */
    ghost const slot: string

    ghost function State(): WrapperState
      reads this
    {
      WrapperState(cfg, phase, health != 0, lastSendStartMsg, lastStartErr, remoteAddr, err)
    }

    constructor (cfg: ProxyConf, out: Outbox, ghost slot: string)
      ensures State() == Initial(cfg) && this.cfg == cfg && this.out == out && this.slot == slot
    {
      this.cfg, this.out, this.slot := cfg, out, slot;
      phase, err, remoteAddr := New, "", "";
      health := if cfg.healthChecked then 1 else 0;
      lastSendStartMsg, lastStartErr := 0, 0;
    }

    /** The server's answer arrives; `ran` is the error of the local `Run`, if it fails. */
    method SetRunningStatus(newAddr: string, respErr: string, ran: Option<string>, now: int) returns (ok: bool)
      modifies this, out
      ensures State() == Answered(old(State()), newAddr, respErr, ran, now).0
      ensures out.msgs == old(out.msgs) + if Answered(old(State()), newAddr, respErr, ran, now).1 then [CloseProxy(cfg.name)] else []
      ensures ok <==> old(phase) == WaitStart && phase == Running
    {
      if phase != WaitStart {
        return false;
      }
      remoteAddr := newAddr;
      if respErr != "" {
        phase := StartErr;
        err := respErr;
        lastStartErr := now;
        return false;
      }
      if ran.Some? {
        out.Send(CloseProxy(cfg.name));
        phase := StartErr;
        err := ran.value;
        lastStartErr := now;
        return false;
      }
      phase := Running;
      err := "";
      return true;
    }

    /** Stops the wrapper; stopping it again would close a closed channel. */
    method Stop()
      requires phase != Closed
      modifies this, out
      ensures State() == old(State()).(phase := Closed)
      ensures out.msgs == old(out.msgs) + [CloseProxy(cfg.name)]
    {
      phase := Closed;
      out.Send(CloseProxy(cfg.name));
    }

    /** One turn of the check worker. */
    method CheckOnce(now: int)
      modifies this, out
      ensures State() == Turn(old(State()), now).0
      ensures out.msgs == old(out.msgs) + match Turn(old(State()), now).1
                                          case Nothing => []
                                          case Ask => [NewProxy(cfg.name)]
                                          case TakeBack => [CloseProxy(cfg.name)]
    {
      if health == 0 {
        if phase == New || phase == CheckFailed ||
           (phase == WaitStart && now > lastSendStartMsg + WaitResponseTimeout) ||
           (phase == StartErr && now > lastStartErr + StartErrTimeout) {
          phase := WaitStart;
          lastSendStartMsg := now;
          out.Send(NewProxy(cfg.name));
        }
      } else if phase == Running || phase == WaitStart {
        out.Send(CloseProxy(cfg.name));
        phase := CheckFailed;
      }
    }

    method StatusNormal()
      modifies this
      ensures State() == old(State()).(failing := false)
    {
      health := 0;
    }

    method StatusFailed()
      modifies this
      ensures State() == old(State()).(failing := true)
    {
      health := 1;
    }
  }
}
