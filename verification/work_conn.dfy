/**
 * The pool of work connections of one session (server/control.go, client/control.go) and the retry loop
 * over it (server/proxy/proxy.go).
 */
module WorkConns {
  import opened Prelude

  /**
   * Everything that counts in the traffic of work connections: connections pooled, requests sent and not
   * answered, answers lost, start-up requests still to be sent, calls waiting for a connection, calls
   * that have one but have not asked for its replacement, calls that found the pool empty, and the
   * connections handed out so far.
   */
  datatype Traffic = Traffic(poolCount: int, pooled: seq<nat>, requests: nat, lost: nat, unsent: nat,
                             waiting: nat, owing: nat, misses: nat, given: seq<nat>, made: set<nat>)

  /** `NewControl` and `Start`: the channel holds ten more than the pool count. */
  function Start(poolCount: int): Traffic {
    Traffic(poolCount, [], 0, 0, Max(poolCount, 0), 0, 0, 0, [], {})
  }

  function Capacity(t: Traffic): int { t.poolCount + 10 }

  datatype Event =
    | StartRequest                 // one of the start-up requests is sent
    | Hit                          // GetWorkConn finds a pooled connection
    | Miss                         // GetWorkConn finds the pool empty, sends a request and waits
    | Obtain                       // a waiting call takes a pooled connection
    | HandOver(conn: nat)          // a new connection goes straight to a waiting call
    | Timeout                      // a waiting call gives up
    | Replace                      // a call that got a connection asks for its replacement
    | Register(conn: nat)          // the client answers a request with a new connection
    | Fail                         // the client cannot answer a request

  /** One step of anyone; a step that does not apply changes nothing. */
  function Step(t: Traffic, e: Event): Traffic {
    match e
    case StartRequest =>
      if t.unsent == 0 then t else t.(unsent := t.unsent - 1, requests := t.requests + 1)
    case Hit =>
      if t.pooled == [] then t
      else t.(pooled := t.pooled[1..], given := t.given + [t.pooled[0]], owing := t.owing + 1)
    case Miss =>
      if t.pooled != [] then t else t.(requests := t.requests + 1, misses := t.misses + 1, waiting := t.waiting + 1)
    case Obtain =>
      if t.waiting == 0 || t.pooled == [] then t
      else t.(pooled := t.pooled[1..], given := t.given + [t.pooled[0]], waiting := t.waiting - 1, owing := t.owing + 1)
    case HandOver(conn) =>
      if t.waiting == 0 || t.pooled != [] || t.requests == 0 || conn in t.made then t
      else t.(requests := t.requests - 1, waiting := t.waiting - 1, owing := t.owing + 1, given := t.given + [conn], made := t.made + {conn})
    case Timeout =>
      if t.waiting == 0 then t else t.(waiting := t.waiting - 1)
    case Replace =>
      if t.owing == 0 then t else t.(owing := t.owing - 1, requests := t.requests + 1)
    case Register(conn) =>
      if t.requests == 0 || conn in t.made then t
      else if |t.pooled| < Capacity(t) then
        t.(requests := t.requests - 1, pooled := t.pooled + [conn], made := t.made + {conn})
      else t.(requests := t.requests - 1, lost := t.lost + 1, made := t.made + {conn})
    case Fail =>
      if t.requests == 0 then t else t.(requests := t.requests - 1, lost := t.lost + 1)
  }

  function Replay(t: Traffic, events: seq<Event>): Traffic
    decreases |events|
  {
    if events == [] then t else Replay(Step(t, events[0]), events[1..])
  }

  /** The books balance, counting the calls and requests that are half-way. */
  predicate Balanced(t: Traffic) {
    |t.pooled| + t.requests + t.lost + t.owing + t.unsent == Max(t.poolCount, 0) + t.misses
  }

  /** No connection is pooled or handed out twice, or both; and the pool keeps within its capacity. */
  ghost predicate Sound(t: Traffic) {
    var all := t.given + t.pooled;
    && (forall i, j :: 0 <= i < j < |all| ==> all[i] != all[j])
    && (forall c :: c in all ==> c in t.made)
    && |t.pooled| <= Max(Capacity(t), 0)
  }

  lemma MoveKeepsSound(t: Traffic, next: Traffic)
    requires Sound(t) && t.pooled != [] && next.made == t.made && next.poolCount == t.poolCount
    requires next.pooled == t.pooled[1..] && next.given == t.given + [t.pooled[0]]
    ensures Sound(next)
  {
    assert next.given + next.pooled == t.given + t.pooled;
  }

  lemma NewKeepsSound(t: Traffic, next: Traffic, conn: nat)
    requires Sound(t) && conn !in t.made && next.made == t.made + {conn} && next.poolCount == t.poolCount
    requires next.given + next.pooled == t.given + t.pooled + [conn] && |next.pooled| <= Max(Capacity(next), 0)
    ensures Sound(next)
  {
    var all := t.given + t.pooled;
    forall i | 0 <= i < |all| ensures all[i] != conn { assert all[i] in all; }
  }

  lemma StepKeepsBooks(t: Traffic, e: Event)
    requires Balanced(t) && Sound(t)
    ensures Balanced(Step(t, e)) && Sound(Step(t, e))
  {
    var next := Step(t, e);
    match e
    case Hit => if t.pooled != [] { MoveKeepsSound(t, next); }
    case Obtain => if next != t { MoveKeepsSound(t, next); }
    case HandOver(conn) =>
      if next != t {
        assert next.given + next.pooled == t.given + t.pooled + [conn];
        NewKeepsSound(t, next, conn);
      }
    case Register(conn) =>
      if next != t && |t.pooled| < Capacity(t) {
        assert next.given + next.pooled == t.given + t.pooled + [conn];
        NewKeepsSound(t, next, conn);
      }
    case _ =>
  }

  lemma {:induction false} EveryRunKeepsBooks(t: Traffic, events: seq<Event>)
    requires Balanced(t) && Sound(t)
    ensures Balanced(Replay(t, events)) && Sound(Replay(t, events)) && Replay(t, events).poolCount == t.poolCount
    decreases |events|
  {
    if events != [] {
      StepKeepsBooks(t, events[0]);
      EveryRunKeepsBooks(Step(t, events[0]), events[1..]);
    }
  }

  /**
   * The ledger of work connections. In every run, whenever no call is half-way and the start-up requests
   * have been sent, the connections pooled, asked for and lost add up to the pool count plus the calls
   * that found the pool empty. The pool never holds more than ten above the pool count, and no
   * connection is handed out twice.
   */
  lemma WorkConnectionLedger(poolCount: int, events: seq<Event>)
    ensures var t := Replay(Start(poolCount), events);
            && (t.waiting == 0 && t.owing == 0 && t.unsent == 0 ==>
                  |t.pooled| + t.requests + t.lost == Max(poolCount, 0) + t.misses)
            && |t.pooled| <= Max(poolCount + 10, 0)
            && (forall i, j :: 0 <= i < j < |t.given| ==> t.given[i] != t.given[j])
            && (forall c :: c in t.given ==> c !in t.pooled)
  {
    EveryRunKeepsBooks(Start(poolCount), events);
    var t := Replay(Start(poolCount), events);
    var all := t.given + t.pooled;
    assert forall i :: 0 <= i < |t.given| ==> all[i] == t.given[i];
    assert forall i :: 0 <= i < |t.pooled| ==> all[|t.given| + i] == t.pooled[i];
  }

  /** So calls can find the pool empty only as often as answers are missing or lost, plus ten. */
  lemma MissesAreBounded(poolCount: nat, events: seq<Event>)
    ensures var t := Replay(Start(poolCount), events);
            t.waiting == 0 && t.owing == 0 && t.unsent == 0 ==> t.misses <= 10 + t.requests + t.lost
  {
    WorkConnectionLedger(poolCount, events);
  }

  // ----- the pool object takes the steps of the ledger -----

  /** What `GetWorkConn` answers for a pool, given what reaches the call while it waits. */
  function Obtained(pool: seq<nat>, arrival: Option<nat>): Option<nat> {
    if pool != [] then Some(pool[0]) else arrival
  }

  /** The requests that one `GetWorkConn` sends. */
  function Asked(pool: seq<nat>, arrival: Option<nat>): nat {
    (if pool == [] then 1 else 0) + if Obtained(pool, arrival).Some? then 1 else 0
  }

  /**
   * One call of `GetWorkConn` that nobody else interrupts, as steps: it takes the oldest pooled
   * connection or the one that arrives, and adds the requests it sends to the outstanding ones.
   */
  lemma GetIsSteps(t: Traffic, arrival: Option<nat>) returns (events: seq<Event>)
    requires arrival.Some? ==> arrival.value !in t.made
    ensures var next := Replay(t, events);
            && next.pooled == (if t.pooled != [] then t.pooled[1..] else [])
            && next.given == t.given + (match Obtained(t.pooled, arrival) case Some(c) => [c] case None => [])
            && next.requests == t.requests + Asked(t.pooled, arrival) - (if t.pooled == [] && arrival.Some? then 1 else 0)
            && next.misses == t.misses + (if t.pooled == [] then 1 else 0)
            && (next.waiting, next.owing, next.unsent, next.lost) == (t.waiting, t.owing, t.unsent, t.lost)
  {
    if t.pooled != [] {
      events := [Hit, Replace];
      assert events[1..] == [Replace] && [Replace][1..] == [];
      assert Replay(Step(t, Hit), [Replace]) == Replay(Step(Step(t, Hit), Replace), []);
    } else if arrival.Some? {
      var over := HandOver(arrival.value);
      events := [Miss, over, Replace];
      assert events[1..] == [over, Replace] && [over, Replace][1..] == [Replace] && [Replace][1..] == [];
      assert Replay(Step(Step(t, Miss), over), [Replace]) == Replay(Step(Step(Step(t, Miss), over), Replace), []);
    } else {
      events := [Miss, Timeout];
      assert events[1..] == [Timeout] && [Timeout][1..] == [];
      assert Replay(Step(t, Miss), [Timeout]) == Replay(Step(Step(t, Miss), Timeout), []);
    }
  }

  /** A connection that answers a request is pooled behind the others, unless the pool has ten more than the pool count; then it is lost. */
  lemma RegisterIsStep(t: Traffic, conn: nat)
    requires t.requests > 0 && conn !in t.made
    ensures var next := Replay(t, [Register(conn)]);
            && next.pooled == (if |t.pooled| < t.poolCount + 10 then t.pooled + [conn] else t.pooled)
            && next.lost == t.lost + (if |t.pooled| < t.poolCount + 10 then 0 else 1)
            && next.requests == t.requests - 1 && next.given == t.given
  {
    assert [Register(conn)][1..] == [];
  }

  class WorkConnPool {
    const poolCount: int
    var workConnCh: seq<nat>
    /** Requests put on the session's send channel. */
    var requested: nat

    ghost predicate Valid()
      reads this
    {
      |workConnCh| <= Max(poolCount + 10, 0)
    }

    constructor (poolCount: int)
      ensures Valid() && this.poolCount == poolCount && workConnCh == [] && requested == 0
    {
      this.poolCount := poolCount;
      workConnCh, requested := [], 0;
    }

    /** Pools a connection, or refuses it when the channel is full. */
    method RegisterWorkConn(conn: nat) returns (ok: bool)
      requires Valid()
      modifies this
      ensures Valid() && requested == old(requested)
      ensures ok <==> |old(workConnCh)| < poolCount + 10
      ensures workConnCh == if ok then old(workConnCh) + [conn] else old(workConnCh)
    {
      ok := |workConnCh| < poolCount + 10;
      if ok {
        workConnCh := workConnCh + [conn];
      }
    }

    /**
     * Takes the oldest pooled connection, or asks for one and waits; `arrival` is what reaches the
     * waiting call before its timeout, if anything does. A call that got a connection asks for another.
     */
    method GetWorkConn(arrival: Option<nat>) returns (conn: Option<nat>)
      requires Valid()
      modifies this
      ensures Valid()
      ensures conn == Obtained(old(workConnCh), arrival)
      ensures workConnCh == if old(workConnCh) != [] then old(workConnCh)[1..] else []
      ensures requested == old(requested) + Asked(old(workConnCh), arrival)
    {
      if |workConnCh| > 0 {
        conn := Some(workConnCh[0]);
        workConnCh := workConnCh[1..];
      } else {
        requested := requested + 1;
        conn := arrival;
        if conn == None {
          return None;
        }
      }
      requested := requested + 1;
    }
  }

  /** Try i is the first whose connection could be told to start; all before it got one that could not. */
  ghost predicate FirstUsable(got: seq<Option<nat>>, writable: nat -> bool, last: int, i: int) {
    0 <= i <= last < |got| && got[i].Some? && writable(got[i].value) && Unusable(got, writable, i)
  }

  /** Try i is the first that gets no connection; all before it got one that could not be told to start. */
  ghost predicate FirstFailure(got: seq<Option<nat>>, writable: nat -> bool, last: int, i: int) {
    0 <= i <= last < |got| && got[i] == None && Unusable(got, writable, i)
  }

  ghost predicate Unusable(got: seq<Option<nat>>, writable: nat -> bool, n: int) {
    n <= |got| && forall j :: 0 <= j < n ==> got[j].Some? && !writable(got[j].value)
  }

  /**
   * `GetWorkConnFromPool`: at most poolCount + 1 tries; `got` are the answers of `GetWorkConn`. When no
   * try succeeds in writing, the error of the last write is lost and a closed connection is returned as
   * a success.
   */
  method GetWorkConnFromPool(poolCount: int, got: seq<Option<nat>>, writable: nat -> bool)
    returns (workConn: Option<nat>, failed: bool)
    requires poolCount < |got|
    ensures failed <==> exists i :: FirstFailure(got, writable, poolCount, i)
    ensures forall i :: FirstUsable(got, writable, poolCount, i) ==> workConn == got[i]
    ensures !failed && workConn.Some? ==>
              (writable(workConn.value) <==> exists i :: FirstUsable(got, writable, poolCount, i))
    // A connection that cannot be written to is returned as a success exactly when no try did better.
    ensures !failed && workConn.Some? && !writable(workConn.value) <==> poolCount >= 0 && Unusable(got, writable, poolCount + 1)
    ensures Unusable(got, writable, poolCount + 1) ==> !failed && workConn == if poolCount >= 0 then got[poolCount] else None
  {
    workConn := None;
    var i := 0;
    while i < poolCount + 1
      invariant 0 <= i <= Max(poolCount + 1, 0) && Unusable(got, writable, i)
      invariant workConn == if i > 0 then got[i - 1] else None
    {
      workConn := got[i];
      if workConn == None {
        assert FirstFailure(got, writable, poolCount, i);
        return None, true;
      }
      if writable(workConn.value) {
        assert FirstUsable(got, writable, poolCount, i);
        return workConn, false;
      }
      i := i + 1;
    }
    return workConn, false;
  }

  /** One connection that cannot be told to start is tried, closed, and returned as a success. */
  method ClosedConnectionIsReturned() returns (workConn: Option<nat>, failed: bool)
    ensures workConn == Some(7) && !failed
  {
    var got, broken := [Some(7)], (conn: nat) => false;
    workConn, failed := GetWorkConnFromPool(0, got, broken);
    assert Unusable(got, broken, 1);
  }
}
