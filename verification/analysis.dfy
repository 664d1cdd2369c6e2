/**
 * The hole-punching strategies and the scores that choose among them (pkg/nathole/analysis.go).
 */
module HoleStrategies {
  import opened Prelude

  datatype Role = NoRole | Sender | Receiver

  datatype Behavior = Behavior(role: Role, ttl: int, sendDelayMs: int, portsRangeNumber: int, portsRandomNumber: int, listenRandomPorts: int)

  /** One strategy: what the first side does and what the second side does. */
  datatype Strategy = Strategy(a: Behavior, b: Behavior)

  datatype NatType = EasyNAT | HardNAT

  datatype Change = NoChange | IPChanged | PortChanged | BothChanged

  datatype NatFeature = NatFeature(natType: NatType, behavior: Change, portsDifference: int, regular: bool, publicNetwork: bool)

  const NoBehavior := Behavior(NoRole, 0, 0, 0, 0, 0)

  function Sends(delay: int, range: int, random: int): Behavior { Behavior(Sender, 0, delay, range, random, 0) }

  function Receives(ttl: int, range: int, listen: int): Behavior { Behavior(Receiver, ttl, 0, range, 0, listen) }

  const Mode0: seq<Strategy> := [
    Strategy(Sends(0, 0, 0), Receives(7, 0, 0)),
    Strategy(Receives(7, 0, 0), Sends(0, 0, 0)),
    Strategy(Sends(0, 0, 0), Receives(4, 0, 0)),
    Strategy(Receives(4, 0, 0), Sends(0, 0, 0)),
    Strategy(Sends(0, 0, 0), Receives(0, 0, 0)),
    Strategy(Receives(0, 0, 0), Sends(0, 0, 0)),
    Strategy(Sends(5000, 0, 0), Receives(0, 0, 0)),
    Strategy(Sends(10000, 0, 0), Receives(0, 0, 0)),
    Strategy(Receives(0, 0, 0), Sends(5000, 0, 0)),
    Strategy(Receives(0, 0, 0), Sends(10000, 0, 0))
  ]

  const Mode1: seq<Strategy> := [
    Strategy(Sends(0, 0, 0), Receives(7, 10, 0)),
    Strategy(Sends(2000, 0, 0), Receives(7, 10, 0)),
    Strategy(Sends(0, 0, 0), Receives(4, 10, 0)),
    Strategy(Sends(2000, 0, 0), Receives(4, 10, 0)),
    Strategy(Sends(0, 0, 0), Receives(0, 10, 0)),
    Strategy(Sends(2000, 0, 0), Receives(0, 10, 0))
  ]

  const Mode2: seq<Strategy> := [
    Strategy(Sends(3000, 0, 1000), Receives(7, 0, 256)),
    Strategy(Sends(3000, 0, 1000), Receives(4, 0, 256)),
    Strategy(Sends(3000, 0, 1000), Receives(0, 0, 256))
  ]

  const Mode3: seq<Strategy> := [
    Strategy(Sends(0, 10, 0), Receives(7, 10, 0)),
    Strategy(Sends(0, 10, 0), Receives(4, 10, 0)),
    Strategy(Sends(0, 10, 0), Receives(0, 10, 0)),
    Strategy(Receives(7, 10, 0), Sends(0, 10, 0)),
    Strategy(Receives(4, 10, 0), Sends(0, 10, 0)),
    Strategy(Receives(0, 10, 0), Sends(0, 10, 0))
  ]

  const Mode4: seq<Strategy> := [
    Strategy(Sends(3000, 0, 1000), Receives(7, 2, 256)),
    Strategy(Sends(3000, 0, 1000), Receives(4, 2, 256)),
    Strategy(Sends(3000, 0, 1000), Receives(0, 2, 256))
  ]

  /** `getBehaviorByMode`; an unknown mode counts as mode 0. */
  function Behaviors(mode: int): seq<Strategy> {
    if mode == 1 then Mode1 else if mode == 2 then Mode2 else if mode == 3 then Mode3 else if mode == 4 then Mode4 else Mode0
  }

  /** `getBehaviorByModeAndIndex`; an index past the end yields blank behaviours. */
  function BehaviorAt(mode: int, index: nat): (Behavior, Behavior) {
    if index >= |Behaviors(mode)| then (NoBehavior, NoBehavior)
    else (Behaviors(mode)[index].a, Behaviors(mode)[index].b)
  }

  /** The times to live that the receiver's packets are given. */
  predicate Ttl(ttl: int) { ttl == 7 || ttl == 4 || ttl == 0 }

  /** Mode 0 tries every time to live, and senders that wait five or ten seconds, with either part as the sender. */
  lemma StrategiesOfModeZero(st: Strategy)
    ensures st in Behaviors(0) <==>
              || (exists ttl :: Ttl(ttl) && st == Strategy(Behavior(Sender, 0, 0, 0, 0, 0), Behavior(Receiver, ttl, 0, 0, 0, 0)))
              || (exists ttl :: Ttl(ttl) && st == Strategy(Behavior(Receiver, ttl, 0, 0, 0, 0), Behavior(Sender, 0, 0, 0, 0, 0)))
              || (exists wait :: wait in {5000, 10000} && st == Strategy(Behavior(Sender, 0, wait, 0, 0, 0), Behavior(Receiver, 0, 0, 0, 0, 0)))
              || (exists wait :: wait in {5000, 10000} && st == Strategy(Behavior(Receiver, 0, 0, 0, 0, 0), Behavior(Sender, 0, wait, 0, 0, 0)))
  {
    assert Ttl(7) && Ttl(4) && Ttl(0);
  }

  /** In mode 1 the receiver guesses ten ports near the sender's, and the sender waits two seconds or not. */
  lemma StrategiesOfModeOne(st: Strategy)
    ensures st in Behaviors(1) <==>
              exists ttl, wait :: Ttl(ttl) && wait in {0, 2000} && st == Strategy(Behavior(Sender, 0, wait, 0, 0, 0), Behavior(Receiver, ttl, 0, 10, 0, 0))
  {
    assert Ttl(7) && Ttl(4) && Ttl(0);
  }

  /**
   * In modes 2 and 4 the sender tries a thousand random ports while the receiver listens on 256, in mode 4
   * guessing ports as well; in mode 3 both sides guess, with either part as the sender.
   */
  lemma StrategiesOfOtherModes(st: Strategy)
    ensures st in Behaviors(2) <==> exists ttl :: Ttl(ttl) && st == Strategy(Behavior(Sender, 0, 3000, 0, 1000, 0), Behavior(Receiver, ttl, 0, 0, 0, 256))
    ensures st in Behaviors(3) <==>
              || (exists ttl :: Ttl(ttl) && st == Strategy(Behavior(Sender, 0, 0, 10, 0, 0), Behavior(Receiver, ttl, 0, 10, 0, 0)))
              || (exists ttl :: Ttl(ttl) && st == Strategy(Behavior(Receiver, ttl, 0, 10, 0, 0), Behavior(Sender, 0, 0, 10, 0, 0)))
    ensures st in Behaviors(4) <==> exists ttl :: Ttl(ttl) && st == Strategy(Behavior(Sender, 0, 3000, 0, 1000, 0), Behavior(Receiver, ttl, 0, 2, 0, 256))
  {
    assert Ttl(7) && Ttl(4) && Ttl(0);
  }

  // ----- scores -----

  datatype BehaviorScore = BehaviorScore(mode: int, index: nat, score: int)

  type Scores = seq<BehaviorScore>

  /** `getBehaviorScoresByMode2`. */
  function ScoresByMode(mode: int, senderScore: int, receiverScore: int): Scores {
    seq(|Behaviors(mode)|, i requires 0 <= i < |Behaviors(mode)| =>
      BehaviorScore(mode, i, if Behaviors(mode)[i].a.role == Sender then senderScore else receiverScore))
  }

  function HardCount(c: NatFeature, v: NatFeature): nat {
    (if c.natType == HardNAT then 1 else 0) + (if v.natType == HardNAT then 1 else 0)
  }

  function RegularCount(c: NatFeature, v: NatFeature): nat {
    (if c.natType == HardNAT && c.regular then 1 else 0) + (if v.natType == HardNAT && v.regular then 1 else 0)
  }

  function Mode0Scores(c: NatFeature, v: NatFeature): Scores {
    if c.publicNetwork then ScoresByMode(0, 0, 1)
    else if v.publicNetwork then ScoresByMode(0, 1, 0)
    else ScoresByMode(0, 0, 0)
  }

  /** `NewMakeHoleRecords`. */
  function InitialScores(c: NatFeature, v: NatFeature): Scores {
    var hard, regular := HardCount(c, v), RegularCount(c, v);
    if hard == 0 then Mode0Scores(c, v)
    else if hard == 1 && regular == 1 then ScoresByMode(1, 0, 0) + ScoresByMode(2, 0, 0) + Mode0Scores(c, v)
    else if hard == 1 then ScoresByMode(2, 0, 0) + ScoresByMode(1, 0, 0) + Mode0Scores(c, v)
    else if regular == 2 then ScoresByMode(3, 0, 0) + ScoresByMode(4, 0, 0)
    else if regular == 1 then ScoresByMode(4, 0, 0)
    else ScoresByMode(0, 1, 1) + ScoresByMode(1, 1, 1) + ScoresByMode(3, 1, 1)
  }

  function EasySides(features: seq<NatFeature>): nat {
    if features == [] then 0
    else EasySides(features[..|features| - 1]) + if features[|features| - 1].natType == EasyNAT then 1 else 0
  }

  function RegularSides(features: seq<NatFeature>): nat {
    if features == [] then 0
    else
      var last := features[|features| - 1];
      RegularSides(features[..|features| - 1]) + if last.natType == HardNAT && last.regular then 1 else 0
  }

  /** `ClassifyFeatureCount` (pkg/nathole/classify.go): easy sides, hard sides, and hard sides with regular port changes. */
  method ClassifyFeatureCount(features: seq<NatFeature>) returns (easy: nat, hard: nat, regular: nat)
    ensures easy == EasySides(features) && hard == |features| - easy && regular == RegularSides(features)
  {
    easy, hard, regular := 0, 0, 0;
    for i := 0 to |features|
      invariant easy == EasySides(features[..i]) && hard == i - easy && regular == RegularSides(features[..i])
    {
      assert features[..i + 1][..i] == features[..i];
      if features[i].natType == EasyNAT {
        easy := easy + 1;
        continue;
      }
      hard := hard + 1;
      if features[i].regular {
        regular := regular + 1;
      }
    }
    assert features[..|features|] == features;
  }

  lemma CountsOfTwo(c: NatFeature, v: NatFeature)
    ensures EasySides([c, v]) == 2 - HardCount(c, v) && RegularSides([c, v]) == RegularCount(c, v)
  {
    assert [c, v][..1] == [c] && [c][..0] == [];
    assert EasySides([c]) == EasySides([c][..0]) + if c.natType == EasyNAT then 1 else 0;
    assert RegularSides([c]) == RegularSides([c][..0]) + if c.natType == HardNAT && c.regular then 1 else 0;
  }

  /** The choice of modes in `NewMakeHoleRecords`, from the counts. */
  method NewScores(c: NatFeature, v: NatFeature) returns (scores: Scores)
    ensures scores == InitialScores(c, v)
  {
    var easy, hard, regular := ClassifyFeatureCount([c, v]);
    CountsOfTwo(c, v);
    if easy == 2 {
      scores := Mode0Scores(c, v);
    } else if hard == 1 && regular == 1 {
      scores := ScoresByMode(1, 0, 0) + ScoresByMode(2, 0, 0) + Mode0Scores(c, v);
    } else if hard == 1 && regular == 0 {
      scores := ScoresByMode(2, 0, 0) + ScoresByMode(1, 0, 0) + Mode0Scores(c, v);
    } else if hard == 2 && regular == 2 {
      scores := ScoresByMode(3, 0, 0) + ScoresByMode(4, 0, 0);
    } else if hard == 2 && regular == 1 {
      scores := ScoresByMode(4, 0, 0);
    } else {
      // Two hard sides without any pattern: every mode that might do is tried.
      scores := ScoresByMode(0, 1, 1) + ScoresByMode(1, 1, 1) + ScoresByMode(3, 1, 1);
    }
  }

  /** The index chosen by `lo.MaxBy`: a later entry replaces the best so far only when it scores strictly more. */
  function Best(s: Scores): (b: nat)
    requires s != []
    ensures b < |s|
  {
    if |s| == 1 then 0
    else
      var last := |s| - 1;
      var b := Best(s[..last]);
      if s[last].score > s[b].score then last else b
  }

  /** The choice is the first entry with the highest score. */
  lemma {:induction false} BestIsFirstMaximum(s: Scores)
    requires s != []
    ensures forall i :: 0 <= i < |s| ==> s[i].score <= s[Best(s)].score
    ensures forall i :: 0 <= i < Best(s) ==> s[i].score < s[Best(s)].score
  {
    if |s| > 1 { BestIsFirstMaximum(s[..|s| - 1]); }
  }

  lemma BestIs(s: Scores, b: nat)
    requires b < |s|
    requires forall i :: 0 <= i < |s| ==> s[i].score <= s[b].score
    requires forall i :: 0 <= i < b ==> s[i].score < s[b].score
    ensures Best(s) == b
  {
    BestIsFirstMaximum(s);
  }

  /** Mode and index are those of the best entry. */
  predicate Picks(s: Scores, mode: int, index: int) {
    s != [] && mode == s[Best(s)].mode && index == s[Best(s)].index
  }

  function AddScore(s: Scores, i: nat, points: int): Scores
    requires i < |s|
  {
    s[i := s[i].(score := s[i].score + points)]
  }

  /** `Recommand`: the chosen entry loses a point. */
  function Recommended(s: Scores): Scores {
    if s == [] then s else AddScore(s, Best(s), -1)
  }

  /** The first entry for this mode and index, or the length. */
  function Find(s: Scores, mode: int, index: int): (i: nat)
    ensures i <= |s|
  {
    if s == [] || (s[0].mode == mode && s[0].index == index) then 0 else 1 + Find(s[1..], mode, index)
  }

  /** `ReportSuccess`: the reported entry gains two points, up to ten. */
  function Reported(s: Scores, mode: int, index: int): Scores {
    var i := Find(s, mode, index);
    if i == |s| then s else s[i := s[i].(score := Min(s[i].score + 2, 10))]
  }

  ghost predicate AtMostTen(s: Scores) {
    forall i :: 0 <= i < |s| ==> s[i].score <= 10
  }

  /** A success report gives two points, up to ten, to the first entry for this mode and index, and to no other. */
  lemma {:induction false} ReportRaises(s: Scores, mode: int, index: int, i: nat)
    requires i < |s| && s[i].mode == mode && s[i].index == index
    requires forall k :: 0 <= k < i ==> s[k].mode != mode || s[k].index != index
    ensures var t := Reported(s, mode, index);
            && |t| == |s| && t[i].mode == mode && t[i].index == index
            && t[i].score == (if s[i].score + 2 < 10 then s[i].score + 2 else 10)
            && forall k :: 0 <= k < |s| && k != i ==> t[k] == s[k]
  {
    FindFirst(s, mode, index, i);
  }

  lemma {:induction false} FindFirst(s: Scores, mode: int, index: int, i: nat)
    requires i < |s| && s[i].mode == mode && s[i].index == index
    requires forall k :: 0 <= k < i ==> s[k].mode != mode || s[k].index != index
    ensures Find(s, mode, index) == i
  {
    if i > 0 {
      assert s[1..][i - 1] == s[i];
      FindFirst(s[1..], mode, index, i - 1);
    }
  }

  /** A report of something that is not recorded changes nothing. */
  lemma {:induction false} ReportOfNothing(s: Scores, mode: int, index: int)
    requires forall k :: 0 <= k < |s| ==> s[k].mode != mode || s[k].index != index
    ensures Reported(s, mode, index) == s
  {
    FindNothing(s, mode, index);
  }

  lemma {:induction false} FindNothing(s: Scores, mode: int, index: int)
    requires forall k :: 0 <= k < |s| ==> s[k].mode != mode || s[k].index != index
    ensures Find(s, mode, index) == |s|
  {
    if s != [] {
      assert forall k :: 0 <= k < |s[1..]| ==> s[1..][k] == s[k + 1];
      FindNothing(s[1..], mode, index);
    }
  }

  /** The scores after the same success was reported n times. */
  function ReportedTimes(s: Scores, mode: int, index: int, n: nat): Scores {
    if n == 0 then s else Reported(ReportedTimes(s, mode, index, n - 1), mode, index)
  }

  lemma {:induction false} ReportsAddUp(s: Scores, mode: int, index: int, i: nat, n: nat)
    requires i < |s| && s[i].mode == mode && s[i].index == index && s[i].score <= 10
    requires forall k :: 0 <= k < i ==> s[k].mode != mode || s[k].index != index
    ensures var t := ReportedTimes(s, mode, index, n);
            && |t| == |s| && t[i].mode == mode && t[i].index == index
            && t[i].score == (if s[i].score + 2 * n < 10 then s[i].score + 2 * n else 10)
            && forall k :: 0 <= k < |s| && k != i ==> t[k] == s[k]
  {
    if n > 0 {
      ReportsAddUp(s, mode, index, i, n - 1);
      ReportRaises(ReportedTimes(s, mode, index, n - 1), mode, index, i);
    }
  }

  /** What works is recommended: a strategy is chosen once its reports have put it ahead of all others. */
  lemma SuccessIsRecommended(s: Scores, mode: int, index: int, i: nat, n: nat)
    requires i < |s| && s[i].mode == mode && s[i].index == index && s[i].score <= 10
    requires forall k :: 0 <= k < i ==> s[k].mode != mode || s[k].index != index
    requires forall k :: 0 <= k < |s| && k != i ==> s[k].score < s[i].score + 2 * n && s[k].score < 10
    ensures ReportedTimes(s, mode, index, n) != [] && Best(ReportedTimes(s, mode, index, n)) == i
  {
    ReportsAddUp(s, mode, index, i, n);
    BestIs(ReportedTimes(s, mode, index, n), i);
  }

  /** A recommendation takes exactly one point off the chosen entry, and touches no other. */
  lemma RecommendationCosts(s: Scores, i: nat)
    requires i < |s|
    requires forall k :: 0 <= k < |s| ==> s[k].score <= s[i].score
    requires forall k :: 0 <= k < i ==> s[k].score < s[i].score
    ensures var t := Recommended(s);
            && |t| == |s| && t[i] == BehaviorScore(s[i].mode, s[i].index, s[i].score - 1)
            && forall k :: 0 <= k < |s| && k != i ==> t[k] == s[k]
  {
    BestIs(s, i);
  }

  // ----- no strategy starves -----

  datatype Op = Recommend | Report(mode: int, index: int)

  function Apply(s: Scores, op: Op): Scores {
    match op
    case Recommend => Recommended(s)
    case Report(mode, index) => Reported(s, mode, index)
  }

  /** Some recommendation of the run chooses entry j. */
  predicate Chosen(s: Scores, ops: seq<Op>, j: nat)
    requires s != []
    decreases |ops|
  {
    ops != [] && ((ops[0].Recommend? && Best(s) == j) || Chosen(Apply(s, ops[0]), ops[1..], j))
  }

  function Recommends(ops: seq<Op>): nat {
    if ops == [] then 0 else (if ops[0].Recommend? then 1 else 0) + Recommends(ops[1..])
  }

  function Reports(ops: seq<Op>): nat {
    if ops == [] then 0 else (if ops[0].Report? then 1 else 0) + Reports(ops[1..])
  }

  /** How far the first n entries, other than j, are ahead of a score. */
  function Ahead(s: Scores, level: int, j: nat, n: nat): nat
    requires n <= |s|
  {
    if n == 0 then 0
    else Ahead(s, level, j, n - 1) + if n - 1 == j then 0 else Max(0, s[n - 1].score - level + 1)
  }

  /** The sum over all other entries of max(0, their score - the score of j + 1). */
  function Lead(s: Scores, j: nat): nat
    requires j < |s|
  {
    Ahead(s, s[j].score, j, |s|)
  }

  lemma {:induction false} AheadAfterUpdate(s: Scores, t: Scores, level: int, j: nat, i: nat, n: nat)
    requires |t| == |s| && n <= |s| && i < |s| && i != j
    requires forall k :: 0 <= k < |s| && k != i ==> t[k] == s[k]
    ensures Ahead(t, level, j, n) == Ahead(s, level, j, n) +
            if i < n then Max(0, t[i].score - level + 1) - Max(0, s[i].score - level + 1) else 0
  {
    if n > 0 { AheadAfterUpdate(s, t, level, j, i, n - 1); }
  }

  lemma {:induction false} AheadOfHigher(s: Scores, t: Scores, low: int, high: int, j: nat, n: nat)
    requires |t| == |s| && n <= |s| && low <= high
    requires forall k :: 0 <= k < |s| && k != j ==> t[k] == s[k]
    ensures Ahead(t, high, j, n) <= Ahead(s, low, j, n)
  {
    if n > 0 { AheadOfHigher(s, t, low, high, j, n - 1); }
  }

  lemma RecommendLowersLead(s: Scores, j: nat)
    requires j < |s| && Best(s) != j
    ensures Lead(Recommended(s), j) == Lead(s, j) - 1
  {
    BestIsFirstMaximum(s);
    AheadAfterUpdate(s, Recommended(s), s[j].score, j, Best(s), |s|);
  }

  lemma ReportRaisesLeadByTwo(s: Scores, mode: int, index: int, j: nat)
    requires j < |s| && AtMostTen(s)
    ensures Lead(Reported(s, mode, index), j) <= Lead(s, j) + 2
  {
    var t, i := Reported(s, mode, index), Find(s, mode, index);
    if i < |s| && i != j {
      AheadAfterUpdate(s, t, s[j].score, j, i, |s|);
    } else if i == j {
      AheadOfHigher(s, t, s[j].score, t[j].score, j, |s|);
    }
  }

  /**
   * No strategy starves: among any operations in which recommendations outnumber the lead of the others
   * over entry j plus twice the success reports, some recommendation chooses j.
   */
  lemma {:induction false} NoStarvation(s: Scores, ops: seq<Op>, j: nat)
    requires j < |s| && AtMostTen(s)
    requires Recommends(ops) >= 1 + Lead(s, j) + 2 * Reports(ops)
    ensures Chosen(s, ops, j)
    decreases |ops|
  {
    var op, rest := ops[0], ops[1..];
    if op.Recommend? && Best(s) == j {
    } else {
      if op.Recommend? { RecommendLowersLead(s, j); } else { ReportRaisesLeadByTwo(s, op.mode, op.index, j); }
      NoStarvation(Apply(s, op), rest, j);
    }
  }

  /** Scores never rise above ten. */
  lemma {:induction false} ScoresStayAtMostTen(s: Scores, ops: seq<Op>)
    requires AtMostTen(s)
    ensures AtMostTen(ApplyAll(s, ops)) && |ApplyAll(s, ops)| == |s|
    decreases |ops|
  {
    if ops != [] { ScoresStayAtMostTen(Apply(s, ops[0]), ops[1..]); }
  }

  function ApplyAll(s: Scores, ops: seq<Op>): Scores
    decreases |ops|
  {
    if ops == [] then s else ApplyAll(Apply(s, ops[0]), ops[1..])
  }

  /** The scores after m recommendations without any report. */
  function AfterCalls(s: Scores, m: nat): Scores {
    if m == 0 then s else Recommended(AfterCalls(s, m - 1))
  }

  /** The first r entries are one point below the others, which are at the given level. */
  ghost predicate Staggered(s: Scores, level: int, r: nat) {
    forall i :: 0 <= i < |s| ==> s[i].score == if i < r then level - 1 else level
  }

  lemma StaggeredStep(s: Scores, level: int, r: nat)
    requires r < |s| && Staggered(s, level, r)
    ensures Best(s) == r
    ensures if r + 1 < |s| then Staggered(Recommended(s), level, r + 1) else Staggered(Recommended(s), level - 1, 0)
  {
    BestIs(s, r);
  }

  lemma NextQuotient(m: nat, n: nat)
    requires n > 0
    ensures if m % n + 1 < n then (m + 1) / n == m / n && (m + 1) % n == m % n + 1
            else (m + 1) / n == m / n + 1 && (m + 1) % n == 0
  {
    var q, r := m / n, m % n;
    assert m == n * q + r;
    if r + 1 < n {
      QuotientIs(m + 1, n, q, r + 1);
    } else {
      assert m + 1 == n * (q + 1) + 0;
      QuotientIs(m + 1, n, q + 1, 0);
    }
  }

  lemma QuotientIs(m: nat, n: nat, q: int, r: int)
    requires n > 0 && 0 <= r < n && m == n * q + r
    ensures m / n == q && m % n == r
  {
    var d := m / n - q;
    assert n * d == r - m % n;
    assert d >= 1 ==> n * d >= n;
    assert d <= -1 ==> n * d <= 0 - n;
  }

  /**
   * From equal scores and without reports the strategies are recommended in turn, in list order, for
   * ever: call m chooses entry m modulo n, and the scores never differ by more than one point.
   */
  lemma {:induction false} EqualScoresTakeTurns(s: Scores, level: int, m: nat)
    requires s != [] && Staggered(s, level, 0)
    ensures var t := AfterCalls(s, m);
            |t| == |s| && Best(t) == m % |s| && Staggered(t, level - m / |s|, m % |s|)
  {
    if m == 0 {
      QuotientIs(0, |s|, 0, 0);
    } else {
      EqualScoresTakeTurns(s, level, m - 1);
      StaggeredStep(AfterCalls(s, m - 1), level - (m - 1) / |s|, (m - 1) % |s|);
      NextQuotient(m - 1, |s|);
    }
    StaggeredStep(AfterCalls(s, m), level - m / |s|, m % |s|);
  }

  // ----- roles -----

  /** The features of one side that the analysis key records. */
  datatype KeyFeature = KeyFeature(natType: NatType, behavior: Change, regular: bool)

  /** The analysis key as the tuple that is hashed: the first address and the features of either side. */
  datatype Key = Key(vIP: string, v: KeyFeature, cIP: string, c: KeyFeature)

  function FeatureOf(f: NatFeature): KeyFeature { KeyFeature(f.natType, f.behavior, f.regular) }

  /** The key was made from these features. */
  predicate Matches(key: Key, c: NatFeature, v: NatFeature) { key.c == FeatureOf(c) && key.v == FeatureOf(v) }

  /** The modes that can come up for two sides: mode 1 needs a hard side, 2 one hard and one easy, 4 a regular one among two hard. */
  predicate ModeFits(key: Key, mode: int) {
    var hardC, hardV := key.c.natType == HardNAT, key.v.natType == HardNAT;
    && (mode == 1 ==> hardC || hardV)
    && (mode == 2 ==> hardC != hardV)
    && (mode == 4 ==> hardC && hardV && (key.c.regular || key.v.regular))
    && 0 <= mode <= 4
  }

  /** Every stored entry is for an existing behaviour of a mode that fits the key. */
  ghost predicate Fits(s: Scores, key: Key) {
    s != [] && forall i :: 0 <= i < |s| ==> ModeFits(key, s[i].mode) && s[i].index < |Behaviors(s[i].mode)|
  }

  /** The entries of a mode that fits the key, with a start of at most one point. */
  lemma ModeScoresFit(key: Key, mode: int, a: int, b: int)
    requires ModeFits(key, mode) && a <= 1 && b <= 1
    ensures Fits(ScoresByMode(mode, a, b), key) && AtMostTen(ScoresByMode(mode, a, b))
  {
  }

  lemma FitsTogether(s: Scores, t: Scores, key: Key)
    requires Fits(s, key) && AtMostTen(s) && Fits(t, key) && AtMostTen(t)
    ensures Fits(s + t, key) && AtMostTen(s + t)
  {
  }

  lemma Mode0ScoresFit(key: Key, c: NatFeature, v: NatFeature)
    ensures Fits(Mode0Scores(c, v), key) && AtMostTen(Mode0Scores(c, v))
  {
    forall a: int, b: int | a <= 1 && b <= 1 { ModeScoresFit(key, 0, a, b); }
  }

  lemma InitialScoresFit(key: Key, c: NatFeature, v: NatFeature)
    requires Matches(key, c, v)
    ensures Fits(InitialScores(c, v), key) && AtMostTen(InitialScores(c, v))
  {
    var hard, regular := HardCount(c, v), RegularCount(c, v);
    Mode0ScoresFit(key, c, v);
    if hard == 1 {
      ModeScoresFit(key, 1, 0, 0);
      ModeScoresFit(key, 2, 0, 0);
      FitsTogether(ScoresByMode(1, 0, 0), ScoresByMode(2, 0, 0), key);
      FitsTogether(ScoresByMode(2, 0, 0), ScoresByMode(1, 0, 0), key);
      FitsTogether(ScoresByMode(1, 0, 0) + ScoresByMode(2, 0, 0), Mode0Scores(c, v), key);
      FitsTogether(ScoresByMode(2, 0, 0) + ScoresByMode(1, 0, 0), Mode0Scores(c, v), key);
    } else if hard == 2 && regular > 0 {
      ModeScoresFit(key, 3, 0, 0);
      ModeScoresFit(key, 4, 0, 0);
      FitsTogether(ScoresByMode(3, 0, 0), ScoresByMode(4, 0, 0), key);
    } else if hard == 2 {
      ModeScoresFit(key, 0, 1, 1);
      ModeScoresFit(key, 1, 1, 1);
      ModeScoresFit(key, 3, 1, 1);
      FitsTogether(ScoresByMode(0, 1, 1), ScoresByMode(1, 1, 1), key);
      FitsTogether(ScoresByMode(0, 1, 1) + ScoresByMode(1, 1, 1), ScoresByMode(3, 1, 1), key);
    }
  }

  /** The swap in `GetRecommandBehaviors`: who plays the first part of the strategy. */
  function Assign(mode: int, c: NatFeature, a: Behavior, b: Behavior): (Behavior, Behavior) {
    if mode == 1 && c.natType == EasyNAT then (b, a)
    else if mode == 2 && c.natType == HardNAT then (b, a)
    else if mode == 4 && !c.regular then (b, a)
    else (a, b)
  }

  /** One side sends and the other receives, as the mode demands of their NATs. */
  ghost predicate GoodRoles(mode: int, c: NatFeature, v: NatFeature, cb: Behavior, vb: Behavior) {
    && ((cb.role == Sender && vb.role == Receiver) || (cb.role == Receiver && vb.role == Sender))
    && (mode == 1 ==> (if cb.role == Sender then c else v).natType == HardNAT)
    && (mode == 2 ==> (if cb.role == Sender then c else v).natType == EasyNAT && (if cb.role == Sender then v else c).natType == HardNAT)
    && (mode == 4 ==> (if cb.role == Sender then c else v).regular)
  }

  /** In every strategy of every mode one part sends and the other receives; in modes 1, 2 and 4 the first part sends. */
  lemma StrategiesComplement(mode: int, index: nat)
    requires index < |Behaviors(mode)|
    ensures var (a, b) := BehaviorAt(mode, index);
            && ((a.role == Sender && b.role == Receiver) || (a.role == Receiver && b.role == Sender))
            && (mode == 1 || mode == 2 || mode == 4 ==> a.role == Sender)
  {
  }

  /** For every pair of features, a stored entry that fits their key yields good roles. */
  lemma RolesAreGood(key: Key, c: NatFeature, v: NatFeature, mode: int, index: nat)
    requires Matches(key, c, v) && ModeFits(key, mode) && index < |Behaviors(mode)|
    ensures var (a, b) := BehaviorAt(mode, index);
            var (cb, vb) := Assign(mode, c, a, b);
            GoodRoles(mode, c, v, cb, vb)
  {
    StrategiesComplement(mode, index);
  }

  lemma ApplyKeepsFit(s: Scores, op: Op, key: Key)
    requires Fits(s, key) && AtMostTen(s)
    ensures Fits(Apply(s, op), key) && AtMostTen(Apply(s, op))
  {
  }

  /**
   * For every pair of features and every history of recommendations and reports on records that an
   * earlier session with the same key started, perhaps with other features, the next recommendation
   * assigns good roles.
   */
  lemma EveryHistoryGivesGoodRoles(key: Key, c0: NatFeature, v0: NatFeature, c: NatFeature, v: NatFeature, ops: seq<Op>)
    requires Matches(key, c0, v0) && Matches(key, c, v)
    ensures var s := ApplyAll(InitialScores(c0, v0), ops);
            && s != []
            && var e := s[Best(s)];
               var (a, b) := BehaviorAt(e.mode, e.index);
               var (cb, vb) := Assign(e.mode, c, a, b);
               GoodRoles(e.mode, c, v, cb, vb)
  {
    InitialScoresFit(key, c0, v0);
    HistoryFits(InitialScores(c0, v0), key, ops);
    var s := ApplyAll(InitialScores(c0, v0), ops);
    RolesAreGood(key, c, v, s[Best(s)].mode, s[Best(s)].index);
  }

  lemma {:induction false} HistoryFits(s: Scores, key: Key, ops: seq<Op>)
    requires Fits(s, key) && AtMostTen(s)
    ensures Fits(ApplyAll(s, ops), key)
    decreases |ops|
  {
    if ops != [] {
      ApplyKeepsFit(s, ops[0], key);
      HistoryFits(Apply(s, ops[0]), key, ops[1..]);
    }
  }

  // ----- the stored records -----

  class MakeHoleRecords {
    var scores: Scores
    var lastUpdateTime: int

    /** The key under which the analyzer keeps these records. */
    ghost const slot: Key

    constructor (c: NatFeature, v: NatFeature, now: int, ghost slot: Key)
      ensures scores == InitialScores(c, v) && lastUpdateTime == now && this.slot == slot
    {
      var initial := NewScores(c, v);
      scores := initial;
      lastUpdateTime := now;
      this.slot := slot;
    }

    method ReportSuccess(mode: int, index: int, now: int)
      modifies this
      ensures scores == Reported(old(scores), mode, index) && lastUpdateTime == now
    {
      lastUpdateTime := now;
      var i := 0;
      while i < |scores|
        invariant i <= |scores| && scores == old(scores) && lastUpdateTime == now
        invariant Find(scores, mode, index) == i + Find(scores[i..], mode, index)
      {
        assert scores[i..][1..] == scores[i + 1..];
        if scores[i].mode == mode && scores[i].index == index {
          scores := scores[i := scores[i].(score := Min(scores[i].score + 2, 10))];
          return;
        }
        i := i + 1;
      }
    }

    /** Recommends the entry with the highest score and takes a point off it. */
    method Recommand(now: int) returns (mode: int, index: nat)
      modifies this
      ensures scores == Recommended(old(scores))
      ensures (mode, index) == if old(scores) == [] then (0, 0) else (old(scores)[Best(old(scores))].mode, old(scores)[Best(old(scores))].index)
      ensures lastUpdateTime == if old(scores) == [] then old(lastUpdateTime) else now
    {
      if |scores| == 0 {
        return 0, 0;
      }
      var max := 0;
      for i := 1 to |scores|
        invariant max < i && max == Best(scores[..i]) && scores == old(scores)
      {
        assert scores[..i + 1][..i] == scores[..i];
        if scores[i].score > scores[max].score {
          max := i;
        }
      }
      assert scores[..|scores|] == scores;
      mode, index := scores[max].mode, scores[max].index;
      scores := AddScore(scores, max, -1);
      lastUpdateTime := now;
    }
  }

  class Analyzer {
    var records: map<Key, MakeHoleRecords>
    const dataReserveDuration: int

    /** Every stored record fits its key, whatever happened to it since it was created. */
    ghost predicate Valid()
      reads this, records.Values
    {
      forall k :: k in records ==> Kept(k, records[k])
    }

    ghost predicate Kept(k: Key, r: MakeHoleRecords)
      reads r
    {
      r.slot == k && Fits(r.scores, k) && AtMostTen(r.scores)
    }

    constructor (dataReserveDuration: int)
      ensures Valid() && records == map[] && this.dataReserveDuration == dataReserveDuration
    {
      records := map[];
      this.dataReserveDuration := dataReserveDuration;
    }

    method GetRecommandBehaviors(key: Key, c: NatFeature, v: NatFeature, now: int)
      returns (mode: int, index: nat, cBehavior: Behavior, vBehavior: Behavior)
      requires Valid() && Matches(key, c, v)
      modifies this, records.Values
      ensures Valid() && fresh(records.Values - old(records.Values))
      ensures Chose(old(records), old(ScoresAt(key, c, v)), key, mode, index)
      ensures forall k :: k in old(records) && k != key ==> records[k].scores == old(records[k].scores)
      ensures var (a, b) := BehaviorAt(mode, index); (cBehavior, vBehavior) == Assign(mode, c, a, b)
      ensures GoodRoles(mode, c, v, cBehavior, vBehavior)
    {
      mode, index := Choose(key, c, v, now);
      RolesAreGood(key, c, v, mode, index);
      cBehavior, vBehavior := Swapped(mode, index, c);
    }

    /** The scores stored for a key, or those that new records would start with. */
    ghost function ScoresAt(key: Key, c: NatFeature, v: NatFeature): Scores
      reads this, records.Values
    {
      if key in records then records[key].scores else InitialScores(c, v)
    }

    /** The best entry of the scores was chosen and lost a point; the records have one more key at most. */
    ghost predicate Chose(before: map<Key, MakeHoleRecords>, s: Scores, key: Key, mode: int, index: nat)
      reads this, records.Values
    {
      && Picks(s, mode, index)
      && records.Keys == before.Keys + {key} && records[key].scores == Recommended(s)
      && forall k :: k in before ==> records[k] == before[k]
    }

    method Choose(key: Key, c: NatFeature, v: NatFeature, now: int) returns (mode: int, index: nat)
      requires Valid() && Matches(key, c, v)
      modifies this, records.Values
      ensures Valid() && fresh(records.Values - old(records.Values))
      ensures Chose(old(records), old(ScoresAt(key, c, v)), key, mode, index)
      ensures forall k :: k in old(records) && k != key ==> records[k].scores == old(records[k].scores)
      ensures ModeFits(key, mode) && index < |Behaviors(mode)|
    {
      var r := FindOrCreate(key, c, v, now);
      mode, index := RecommandAt(key, now);
    }

    /** Recommends from the records of one key. */
    method RecommandAt(key: Key, now: int) returns (mode: int, index: nat)
      requires Valid() && key in records
      modifies records[key]
      ensures Valid() && records[key].scores == Recommended(old(records[key].scores))
      ensures Picks(old(records[key].scores), mode, index)
      ensures ModeFits(key, mode) && index < |Behaviors(mode)|
      ensures forall k :: k in records && k != key ==> records[k].scores == old(records[k].scores)
    {
      var r := records[key];
      assert Kept(key, r);
      ApplyKeepsFit(r.scores, Recommend, key);
      mode, index := r.Recommand(now);
      forall k | k in records && k != key ensures Kept(k, records[k]) && records[k].scores == old(records[k].scores) {
        assert old(Kept(k, records[k]));
      }
    }

    /** The behaviours of a strategy, swapped as the mode demands. */
    method Swapped(mode: int, index: nat, c: NatFeature) returns (cBehavior: Behavior, vBehavior: Behavior)
      ensures var (a, b) := BehaviorAt(mode, index); (cBehavior, vBehavior) == Assign(mode, c, a, b)
    {
      var (a, b) := BehaviorAt(mode, index);
      cBehavior, vBehavior := a, b;
      if mode == 1 {
        // The first part, the sender's, goes to the hard side.
        if c.natType == EasyNAT {
          cBehavior, vBehavior := vBehavior, cBehavior;
        }
      } else if mode == 2 {
        // The first part, the sender's, goes to the easy side.
        if c.natType == HardNAT {
          cBehavior, vBehavior := vBehavior, cBehavior;
        }
      } else if mode == 4 {
        // The first part, the sender's, goes to a side whose ports change regularly.
        if !c.regular {
          cBehavior, vBehavior := vBehavior, cBehavior;
        }
      }
    }

    method FindOrCreate(key: Key, c: NatFeature, v: NatFeature, now: int) returns (r: MakeHoleRecords)
      requires Valid() && Matches(key, c, v)
      modifies this
      ensures Valid() && fresh(records.Values - old(records.Values))
      ensures records == old(records)[key := r]
      ensures r.scores == old(ScoresAt(key, c, v))
      ensures records.Keys == old(records.Keys) + {key}
      ensures forall k :: k in old(records) ==> records[k] == old(records)[k] && records[k].scores == old(records[k].scores)
      ensures key !in old(records) ==> fresh(r)
    {
      if key !in records {
        InitialScoresFit(key, c, v);
        r := new MakeHoleRecords(c, v, now, key);
        records := records[key := r];
      } else {
        r := records[key];
      }
    }

    method ReportSuccess(key: Key, mode: int, index: int, now: int)
      requires Valid()
      modifies records.Values
      ensures Valid()
      ensures forall k :: k in records ==>
                records[k].scores == if k == key then Reported(old(records[k].scores), mode, index) else old(records[k].scores)
    {
      if key !in records {
        return;
      }
      var r := records[key];
      assert Kept(key, r);
      ApplyKeepsFit(r.scores, Report(mode, index), key);
      r.ReportSuccess(mode, index, now);
      forall k | k in records && k != key ensures Kept(k, records[k]) && records[k].scores == old(records[k].scores) {
        assert old(Kept(k, records[k]));
      }
    }

    /** Forgets the records that have not been used for the reserve duration; returns how many, of how many. */
    method Clean(now: int) returns (count: nat, total: nat)
      requires Valid()
      modifies this
      ensures Valid() && total == |old(records)| && count == |old(records)| - |records|
      ensures forall k :: k in records <==> k in old(records) && now - old(records)[k].lastUpdateTime <= dataReserveDuration
      ensures forall k :: k in records ==> records[k] == old(records)[k]
    {
      total, count := |records|, 0;
      var keys := records.Keys;
      ghost var all := records;
      while keys != {}
        invariant keys <= all.Keys && records.Keys <= all.Keys && count == |all| - |records|
        invariant forall k :: k in records ==> records[k] == all[k]
        invariant forall k :: k in all ==> (k in records <==> k in keys || now - all[k].lastUpdateTime <= dataReserveDuration)
        decreases keys
      {
        var key := AnyOf(keys);
        keys := keys - {key};
        if now - records[key].lastUpdateTime > dataReserveDuration {
          ghost var before := records;
          records := records - {key};
          assert before.Keys == records.Keys + {key};
          count := count + 1;
        }
      }
    }
  }
}
