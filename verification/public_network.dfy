/**
 * For how many recommendations a side on a public network is the receiver (pkg/nathole/analysis.go):
 * the scores favour it at first, and only where a strategy of mode 0 can be chosen.
 */
module PublicNetworks {
  import opened Prelude
  import opened HoleStrategies

  /** The entry that recommendation m chooses, on records that these two sides started, without reports. */
  function Choice(c: NatFeature, v: NatFeature, m: nat): BehaviorScore {
    EveryCallChooses(c, v, m);
    var t := AfterCalls(InitialScores(c, v), m);
    t[Best(t)]
  }

  lemma EveryCallChooses(c: NatFeature, v: NatFeature, m: nat)
    ensures AfterCalls(InitialScores(c, v), m) != []
  {
    AfterCallsKeepsEntries(InitialScores(c, v), m, 0);
  }

  /** With this entry every side on a public network receives. */
  predicate PublicReceives(c: NatFeature, v: NatFeature, e: BehaviorScore) {
    var (a, b) := BehaviorAt(e.mode, e.index);
    var (cb, vb) := Assign(e.mode, c, a, b);
    (c.publicNetwork ==> cb.role == Receiver) && (v.publicNetwork ==> vb.role == Receiver)
  }

  /** The number of recommendations in which every public side receives, before one in which it does not; if there is one. */
  function Lasts(c: NatFeature, v: NatFeature): Option<nat> {
    var hard, regular := HardCount(c, v), RegularCount(c, v);
    var side := if c.publicNetwork then c else v;
    if !c.publicNetwork && !v.publicNetwork then None
    else if c.publicNetwork && v.publicNetwork then Some(0)
    else if hard == 0 then Some(if c.publicNetwork then 5 else 6)
    else if hard == 1 then Some(if (side.natType == HardNAT) == (regular == 1) then 5 else if regular == 1 then 11 else 8)
    else if regular == 2 then Some(if c.publicNetwork then 0 else 3)
    else if regular == 1 then if side.regular then Some(0) else None
    else Some(if c.publicNetwork then 0 else 1)
  }

  // ----- the order of the first recommendations -----

  lemma {:induction false} AfterCallsKeepsEntries(s: Scores, m: nat, i: nat)
    ensures |AfterCalls(s, m)| == |s|
    ensures i < |s| ==> AfterCalls(s, m)[i].mode == s[i].mode && AfterCalls(s, m)[i].index == s[i].index
  {
    if m > 0 { AfterCallsKeepsEntries(s, m - 1, i); }
  }

  ghost predicate Increasing(high: seq<nat>, n: nat) {
    && (forall k :: 0 <= k < |high| ==> high[k] < n)
    && (forall j, k :: 0 <= j < k < |high| ==> high[j] < high[k])
  }

  /** The entries at these positions are one point above the others. */
  ghost predicate Raised(s: Scores, level: int, high: seq<nat>) {
    forall i: nat :: i < |s| ==> s[i].score == if i in high then level + 1 else level
  }

  lemma {:induction false} RaisedFirst(s: Scores, level: int, high: seq<nat>, k: nat)
    requires s != [] && Increasing(high, |s|) && Raised(s, level, high) && k <= |high|
    ensures |AfterCalls(s, k)| == |s| && Raised(AfterCalls(s, k), level, high[k..])
    ensures k < |high| ==> Best(AfterCalls(s, k)) == high[k]
  {
    if k == 0 {
      assert high[0..] == high;
    } else {
      RaisedFirst(s, level, high, k - 1);
      assert high[k - 1..] == [high[k - 1]] + high[k..];
    }
    if k < |high| { NextRaised(AfterCalls(s, k), level, high, k); }
  }

  lemma NextRaised(t: Scores, level: int, high: seq<nat>, k: nat)
    requires t != [] && Increasing(high, |t|) && k < |high| && Raised(t, level, high[k..])
    ensures Best(t) == high[k]
  {
    assert high[k..][0] == high[k];
    BestIs(t, high[k]);
  }

  /** After the raised entries the strategies take turns in list order. */
  function Turn(n: nat, high: seq<nat>, m: nat): nat
    requires n > 0
  {
    if m < |high| then high[m] else (m - |high|) % n
  }

  lemma {:induction false} AfterMoreCalls(s: Scores, k: nat, m: nat)
    ensures AfterCalls(AfterCalls(s, k), m) == AfterCalls(s, k + m)
  {
    if m > 0 { AfterMoreCalls(s, k, m - 1); }
  }

  lemma LevelTurns(t: Scores, level: int, m: nat)
    requires t != [] && Raised(t, level, [])
    ensures |AfterCalls(t, m)| == |t| && Best(AfterCalls(t, m)) == m % |t|
  {
    EqualScoresTakeTurns(t, level, m);
  }

  lemma TurnsAfterRaised(s: Scores, level: int, high: seq<nat>, j: nat)
    requires s != [] && Increasing(high, |s|) && Raised(s, level, high)
    ensures |AfterCalls(s, |high| + j)| == |s| && Best(AfterCalls(s, |high| + j)) == j % |s|
  {
    RaisedFirst(s, level, high, |high|);
    assert high[|high|..] == [];
    LevelTurns(AfterCalls(s, |high|), level, j);
    AfterMoreCalls(s, |high|, j);
  }

  lemma TurnsOf(s: Scores, level: int, high: seq<nat>, m: nat)
    requires s != [] && Increasing(high, |s|) && Raised(s, level, high)
    ensures |AfterCalls(s, m)| == |s| && Best(AfterCalls(s, m)) == Turn(|s|, high, m)
  {
    if m < |high| {
      RaisedFirst(s, level, high, m);
    } else {
      var j := m - |high|;
      TurnsAfterRaised(s, level, high, j);
      assert |high| + j == m && Turn(|s|, high, m) == j % |s|;
    }
  }

  // ----- the two sides' scores -----

  /** The entries of mode 0 in which the first part sends, and those in which it receives. */
  const FirstSends: seq<nat> := [0, 2, 4, 6, 7]
  const FirstReceives: seq<nat> := [1, 3, 5, 8, 9]

  function Shifted(positions: seq<nat>, offset: nat): seq<nat> {
    seq(|positions|, i requires 0 <= i < |positions| => positions[i] + offset)
  }

  /** The positions with a head start of one point. */
  function HeadStart(c: NatFeature, v: NatFeature): seq<nat> {
    var offset := if HardCount(c, v) == 0 then 0 else 9;
    if HardCount(c, v) == 2 || !(c.publicNetwork || v.publicNetwork) then []
    else Shifted(if c.publicNetwork then FirstReceives else FirstSends, offset)
  }

  /** Mode and index of the entry at a position. */
  function EntryAt(c: NatFeature, v: NatFeature, i: nat): (int, int) {
    var hard, regular := HardCount(c, v), RegularCount(c, v);
    if hard == 0 then (0, i)
    else if hard == 1 && regular == 1 then if i < 6 then (1, i) else if i < 9 then (2, i - 6) else (0, i - 9)
    else if hard == 1 then if i < 3 then (2, i) else if i < 9 then (1, i - 3) else (0, i - 9)
    else if regular == 2 then if i < 6 then (3, i) else (4, i - 6)
    else if regular == 1 then (4, i)
    else if i < 10 then (0, i) else if i < 16 then (1, i - 10) else (3, i - 16)
  }

  function Size(c: NatFeature, v: NatFeature): nat {
    var hard, regular := HardCount(c, v), RegularCount(c, v);
    if hard == 0 then 10 else if hard == 1 then 19 else if regular == 2 then 9 else if regular == 1 then 3 else 22
  }

  function Level(c: NatFeature, v: NatFeature): int {
    if HardCount(c, v) == 2 && RegularCount(c, v) == 0 then 1 else 0
  }

  lemma EntriesAre(c: NatFeature, v: NatFeature, i: nat)
    ensures |InitialScores(c, v)| == Size(c, v)
    ensures i < Size(c, v) ==> (InitialScores(c, v)[i].mode, InitialScores(c, v)[i].index as int) == EntryAt(c, v, i)
  {
  }

  lemma ModeZeroScores(a: int, b: int, i: nat)
    requires i < 10
    ensures |ScoresByMode(0, a, b)| == 10 && ScoresByMode(0, a, b)[i].score == if i in FirstSends then a else b
    ensures i in FirstReceives <==> i !in FirstSends
  {
  }

  lemma InShifted(positions: seq<nat>, offset: nat, i: nat)
    ensures i in Shifted(positions, offset) <==> i >= offset && i - offset in positions
  {
    if i >= offset && i - offset in positions {
      var k :| 0 <= k < |positions| && positions[k] == i - offset;
      assert Shifted(positions, offset)[k] == i;
    }
  }

  /** The scores of mode 0 come last, behind nine entries of other modes if one side is hard. */
  lemma ScoreAt(c: NatFeature, v: NatFeature, i: nat)
    requires i < Size(c, v)
    ensures InitialScores(c, v)[i].score ==
            if HardCount(c, v) == 0 then Mode0Scores(c, v)[i].score
            else if HardCount(c, v) == 1 && i >= 9 then Mode0Scores(c, v)[i - 9].score
            else Level(c, v)
  {
  }

  lemma HeadStartIsRaised(c: NatFeature, v: NatFeature)
    ensures Increasing(HeadStart(c, v), Size(c, v)) && Raised(InitialScores(c, v), Level(c, v), HeadStart(c, v))
  {
    var offset := if HardCount(c, v) == 0 then 0 else 9;
    EntriesAre(c, v, 0);
    forall i: nat | i < |InitialScores(c, v)|
      ensures InitialScores(c, v)[i].score == if i in HeadStart(c, v) then Level(c, v) + 1 else Level(c, v)
    {
      ScoreAt(c, v, i);
      InShifted(FirstSends, offset, i);
      InShifted(FirstReceives, offset, i);
      if HardCount(c, v) < 2 && i >= offset {
        forall a, b { ModeZeroScores(a, b, i - offset); }
      }
    }
  }

  /** The client side sends with the entry at this position. */
  predicate ClientSends(c: NatFeature, v: NatFeature, i: nat) {
    var (mode, index) := EntryAt(c, v, i);
    if mode == 1 then c.natType == HardNAT
    else if mode == 2 then c.natType == EasyNAT
    else if mode == 3 then index < 3
    else if mode == 4 then c.regular
    else index in {0, 2, 4, 6, 7}
  }

  lemma RoleOfEntry(c: NatFeature, v: NatFeature, e: BehaviorScore, i: nat)
    requires i < Size(c, v) && (e.mode, e.index as int) == EntryAt(c, v, i)
    ensures PublicReceives(c, v, e) <==> (c.publicNetwork ==> !ClientSends(c, v, i)) && (v.publicNetwork ==> ClientSends(c, v, i))
  {
  }

  /** Whether the public sides receive in call m, from the position that has its turn. */
  lemma CallIs(c: NatFeature, v: NatFeature, m: nat, i: nat)
    requires i == Turn(Size(c, v), HeadStart(c, v), m)
    ensures i < Size(c, v)
    ensures PublicReceives(c, v, Choice(c, v, m)) <==>
            (c.publicNetwork ==> !ClientSends(c, v, i)) && (v.publicNetwork ==> ClientSends(c, v, i))
  {
    HeadStartIsRaised(c, v);
    EntriesAre(c, v, i);
    TurnsOf(InitialScores(c, v), Level(c, v), HeadStart(c, v), m);
    AfterCallsKeepsEntries(InitialScores(c, v), m, i);
    RoleOfEntry(c, v, Choice(c, v, m), i);
  }

  // ----- how long it lasts -----

  lemma TurnBefore(c: NatFeature, v: NatFeature, m: nat) returns (i: nat)
    requires Lasts(c, v).None? || m < Lasts(c, v).value
    ensures i == Turn(Size(c, v), HeadStart(c, v), m)
    ensures (c.publicNetwork ==> !ClientSends(c, v, i)) && (v.publicNetwork ==> ClientSends(c, v, i))
  {
    i := Turn(Size(c, v), HeadStart(c, v), m);
  }

  lemma TurnAfter(c: NatFeature, v: NatFeature) returns (i: nat)
    requires Lasts(c, v).Some?
    ensures i == Turn(Size(c, v), HeadStart(c, v), Lasts(c, v).value)
    ensures !((c.publicNetwork ==> !ClientSends(c, v, i)) && (v.publicNetwork ==> ClientSends(c, v, i)))
  {
    i := Turn(Size(c, v), HeadStart(c, v), Lasts(c, v).value);
  }

  /**
   * How long the promise holds, exactly: every public side receives in the recommendations 0 to m if
   * and only if m is below the number that `Lasts` reads off the features of the two sides.
   */
  lemma PublicSidesReceiveFor(c: NatFeature, v: NatFeature, m: nat)
    ensures (forall k: nat :: k <= m ==> PublicReceives(c, v, Choice(c, v, k))) <==>
            Lasts(c, v).None? || m < Lasts(c, v).value
  {
    if Lasts(c, v).None? || m < Lasts(c, v).value {
      forall k: nat | k <= m ensures PublicReceives(c, v, Choice(c, v, k)) {
        var i := TurnBefore(c, v, k);
        CallIs(c, v, k, i);
      }
    } else {
      var i := TurnAfter(c, v);
      CallIs(c, v, Lasts(c, v).value, i);
    }
  }

  predicate BothHard(c: NatFeature, v: NatFeature) { c.natType == HardNAT && v.natType == HardNAT }

  /** When the promise holds in the first recommendation. */
  lemma FirstRecommendation(c: NatFeature, v: NatFeature)
    ensures PublicReceives(c, v, Choice(c, v, 0)) <==>
            && !(c.publicNetwork && v.publicNetwork)
            && (c.publicNetwork ==> !BothHard(c, v) || (!c.regular && v.regular))
            && (v.publicNetwork ==> !(BothHard(c, v) && v.regular && !c.regular))
  {
    PublicSidesReceiveFor(c, v, 0);
  }

  const OnPublic := NatFeature(EasyNAT, NoChange, 0, false, true)
  const Private := NatFeature(EasyNAT, NoChange, 0, false, false)
  const HardOnPublic := NatFeature(HardNAT, BothChanged, 0, false, true)
  const HardPrivate := NatFeature(HardNAT, BothChanged, 0, false, false)

  /** Call m chooses a strategy of mode 0 in which a public side sends. */
  predicate SendsInModeZero(c: NatFeature, v: NatFeature, m: nat) {
    Choice(c, v, m).mode == 0 && !PublicReceives(c, v, Choice(c, v, m))
  }

  /**
   * Inputs that break the promise, in mode 0: two easy sides in the sixth call, and in the first call if
   * both are public; and two hard sides in the first call.
   */
  lemma PublicSideSends()
    ensures SendsInModeZero(OnPublic, Private, 5)
    ensures SendsInModeZero(OnPublic, OnPublic, 0)
    ensures SendsInModeZero(HardOnPublic, HardPrivate, 0)
  {
    SendsAt(OnPublic, Private, 5, 0);
    SendsAt(OnPublic, OnPublic, 0, 1);
    SendsAt(HardOnPublic, HardPrivate, 0, 0);
  }

  lemma SendsAt(c: NatFeature, v: NatFeature, m: nat, i: nat)
    requires i == Turn(Size(c, v), HeadStart(c, v), m) && EntryAt(c, v, i).0 == 0
    requires if ClientSends(c, v, i) then c.publicNetwork else v.publicNetwork
    ensures SendsInModeZero(c, v, m)
  {
    ModeOfChoice(c, v, m);
    CallIs(c, v, m, i);
  }

  lemma ModeOfChoice(c: NatFeature, v: NatFeature, m: nat)
    ensures Choice(c, v, m).mode == EntryAt(c, v, Turn(Size(c, v), HeadStart(c, v), m)).0
  {
    var i := Turn(Size(c, v), HeadStart(c, v), m);
    HeadStartIsRaised(c, v);
    EntriesAre(c, v, i);
    TurnsOf(InitialScores(c, v), Level(c, v), HeadStart(c, v), m);
    AfterCallsKeepsEntries(InitialScores(c, v), m, i);
  }

  // ----- with success reports in between -----

  lemma {:induction false} HistoryKeepsEntries(s: Scores, ops: seq<Op>, i: nat)
    ensures |ApplyAll(s, ops)| == |s|
    ensures i < |s| ==> ApplyAll(s, ops)[i].mode == s[i].mode && ApplyAll(s, ops)[i].index == s[i].index
    decreases |ops|
  {
    if ops != [] { HistoryKeepsEntries(Apply(s, ops[0]), ops[1..], i); }
  }

  lemma {:induction false} CallsAreHistory(s: Scores, m: nat) returns (ops: seq<Op>)
    ensures ApplyAll(s, ops) == AfterCalls(s, m)
  {
    if m == 0 {
      ops := [];
    } else {
      var front := CallsAreHistory(s, m - 1);
      ops := front + [Recommend];
      OneMore(s, front, Recommend);
    }
  }

  lemma {:induction false} OneMore(s: Scores, ops: seq<Op>, op: Op)
    ensures ApplyAll(s, ops + [op]) == Apply(ApplyAll(s, ops), op)
    decreases |ops|
  {
    if ops == [] {
      assert [] + [op] == [op] && [op][1..] == [];
      assert ApplyAll(s, [op]) == ApplyAll(Apply(s, op), []);
    } else {
      assert (ops + [op])[1..] == ops[1..] + [op];
      OneMore(Apply(s, ops[0]), ops[1..], op);
    }
  }

  /** After this history of the records the next recommendation lets every public side receive. */
  predicate ReceivesAfter(c: NatFeature, v: NatFeature, ops: seq<Op>) {
    var s := ApplyAll(InitialScores(c, v), ops);
    s != [] && PublicReceives(c, v, s[Best(s)])
  }

  /**
   * The promise holds in every history of recommendations and reports exactly when no side is public,
   * or one is, both NATs are hard, and of the two only the other side's ports change regularly.
   */
  lemma PublicSidesAlwaysReceive(c: NatFeature, v: NatFeature)
    ensures (forall ops :: ReceivesAfter(c, v, ops)) <==>
            || (!c.publicNetwork && !v.publicNetwork)
            || (c.publicNetwork && !v.publicNetwork && BothHard(c, v) && !c.regular && v.regular)
            || (v.publicNetwork && !c.publicNetwork && BothHard(c, v) && !v.regular && c.regular)
  {
    if Lasts(c, v).Some? {
      var i := TurnAfter(c, v);
      CallIs(c, v, Lasts(c, v).value, i);
      var ops := CallsAreHistory(InitialScores(c, v), Lasts(c, v).value);
      assert !ReceivesAfter(c, v, ops);
    } else {
      forall ops ensures ReceivesAfter(c, v, ops) { AlwaysReceives(c, v, ops); }
    }
  }

  lemma AlwaysReceives(c: NatFeature, v: NatFeature, ops: seq<Op>)
    requires Lasts(c, v).None?
    ensures ReceivesAfter(c, v, ops)
  {
    var s := InitialScores(c, v);
    EntriesAre(c, v, 0);
    HistoryKeepsEntries(s, ops, 0);
    var i := Best(ApplyAll(s, ops));
    EntriesAre(c, v, i);
    HistoryKeepsEntries(s, ops, i);
    RoleOfEntry(c, v, ApplyAll(s, ops)[i], i);
  }
}
