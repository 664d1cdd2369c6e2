/**
 * A counter per day for the last few days (pkg/util/metric/date_counter.go): a window that is shifted
 * when days have passed. Days are whole numbers.
 */
module DayCounters {
  import opened Prelude

  datatype Counter = Counter(counts: seq<int>, last: int)

  /** `rotate` on values: today's count moves back by the days that have passed. */
  function Rotated(counts: seq<int>, days: int): seq<int> {
    if days <= 0 then counts
    else seq(|counts|, i requires 0 <= i < |counts| => if i < days then 0 else counts[i - days])
  }

  const TwoTo63 := 0x8000_0000_0000_0000
  const TwoTo64 := 0x1_0000_0000_0000_0000

  /** What a 64-bit sum makes of a number. */
  function Wrap(n: int): int { (n + TwoTo63) % TwoTo64 - TwoTo63 }

  lemma WrapFits(n: int)
    ensures -TwoTo63 <= Wrap(n) < TwoTo63
    ensures Wrap(n) == n <==> -TwoTo63 <= n < TwoTo63
  {
  }

  /** Wrapping after every addition is wrapping once, so counts that went out of range come back right. */
  lemma WrapOfSum(a: int, b: int)
    ensures Wrap(Wrap(a) + b) == Wrap(a + b)
  {
    var q := (a + TwoTo63) / TwoTo64;
    assert Wrap(a) == a - TwoTo64 * q;
  }

  /** An amount counted on a day, negative for `Dec`, or a question asked on a day. */
  datatype Event = Count(day: int, amount: int) | Ask(day: int)

  /** The window as of a day. */
  function Shifted(c: Counter, today: int): Counter { Counter(Rotated(c.counts, today - c.last), today) }

  function Bumped(c: Counter, amount: int): Counter
    requires c.counts != []
  {
    c.(counts := c.counts[0 := Wrap(c.counts[0] + amount)])
  }

  /** `Inc`, `Dec` and questions on values. */
  function Record(c: Counter, e: Event): Counter
    requires c.counts != []
  {
    match e
    case Count(day, amount) => Bumped(Shifted(c, day), amount)
    case Ask(day) => Shifted(c, day)
  }

  function New(reserveDays: nat, day: int): Counter { Counter(seq(reserveDays, _ => 0), day) }

  /** The counter after the first n events. */
  function RecordAll(c: Counter, events: seq<Event>, n: nat): (r: Counter)
    requires c.counts != [] && n <= |events|
    ensures |r.counts| == |c.counts|
  {
    if n == 0 then c else Record(RecordAll(c, events, n - 1), events[n - 1])
  }

  /** The net amount that the first n events counted on a day: the simple map that the window stands for, up to wrapping. */
  function Net(events: seq<Event>, n: nat, day: int): int
    requires n <= |events|
  {
    if n == 0 then 0 else Net(events, n - 1, day) + if events[n - 1].Count? && events[n - 1].day == day then events[n - 1].amount else 0
  }

  /** The day of the counter after n events: that of the last one, or of the start. */
  function LastDay(start: int, events: seq<Event>, n: nat): int
    requires n <= |events|
  {
    if n == 0 then start else events[n - 1].day
  }

  /** The clock never goes back, from the start over the first n events. */
  predicate Forward(start: int, events: seq<Event>, n: nat)
    requires n <= |events|
  {
    n > 0 ==> events[n - 1].day >= LastDay(start, events, n - 1) && Forward(start, events, n - 1)
  }

  lemma {:induction false} LastDayIs(reserveDays: nat, start: int, events: seq<Event>, n: nat)
    requires n <= |events| && reserveDays > 0
    ensures RecordAll(New(reserveDays, start), events, n).last == LastDay(start, events, n)
  {
  }

  lemma {:induction false} NothingLater(start: int, events: seq<Event>, n: nat, day: int)
    requires n <= |events| && Forward(start, events, n) && day > LastDay(start, events, n)
    ensures Net(events, n, day) == 0
  {
    if n > 0 { NothingLater(start, events, n - 1, day); }
  }

  /** The window after the first n events, as of the day of the last one. */
  lemma {:induction false} WindowAfterEvents(reserveDays: nat, start: int, events: seq<Event>, n: nat, i: nat)
    requires n <= |events| && Forward(start, events, n) && i < reserveDays
    ensures RecordAll(New(reserveDays, start), events, n).counts[i] == Wrap(Net(events, n, LastDay(start, events, n) - i))
    decreases n, 0
  {
    if n > 0 {
      var e := events[n - 1];
      DayWindow(reserveDays, start, events, n - 1, e.day, i);
      if e.Count? { WrapOfSum(Net(events, n - 1, e.day), e.amount); }
    }
  }

  /**
   * The window refines the map of net amounts: for any amounts counted on days that never go back, entry
   * i of the window as of today is the net amount of the day i days ago, however many days passed in
   * between without a call.
   */
  lemma {:induction false} DayWindow(reserveDays: nat, start: int, events: seq<Event>, n: nat, today: int, i: nat)
    requires n <= |events| && Forward(start, events, n) && LastDay(start, events, n) <= today && i < reserveDays
    ensures var c := RecordAll(New(reserveDays, start), events, n);
            Rotated(c.counts, today - c.last)[i] == Wrap(Net(events, n, today - i))
    decreases n, 1
  {
    LastDayIs(reserveDays, start, events, n);
    var days := today - LastDay(start, events, n);
    if i < days {
      NothingLater(start, events, n, today - i);
    } else {
      WindowAfterEvents(reserveDays, start, events, n, i - days);
    }
  }

  /** One more event, in terms of the whole list. */
  lemma RecordMore(c: Counter, events: seq<Event>, e: Event)
    requires c.counts != []
    ensures RecordAll(c, events + [e], |events| + 1) == Record(RecordAll(c, events, |events|), e)
  {
    RecordPrefix(c, events, events + [e], |events|);
  }

  lemma {:induction false} RecordPrefix(c: Counter, a: seq<Event>, b: seq<Event>, n: nat)
    requires c.counts != [] && n <= |a| <= |b| && forall i :: 0 <= i < n ==> a[i] == b[i]
    ensures RecordAll(c, a, n) == RecordAll(c, b, n)
  {
    if n > 0 { RecordPrefix(c, a, b, n - 1); }
  }

  class StandardDateCounter {
    const reserveDays: nat
    var counts: array<int>
    var lastUpdateDate: int

    /** The day the counter was made or cleared, and everything counted and asked since. */
    ghost var start: int
    ghost var history: seq<Event>

    ghost predicate Valid()
      reads this, counts
    {
      && counts.Length == reserveDays >= 1
      && State() == RecordAll(New(reserveDays, start), history, |history|)
    }

    ghost function State(): Counter
      reads this, counts
    {
      Counter(counts[..], lastUpdateDate)
    }

    /** `NewDateCounter`: at least one day is kept. */
    constructor (reserveDays: int, today: int)
      ensures Valid() && fresh(counts) && this.reserveDays == Max(reserveDays, 1)
      ensures start == today && history == []
    {
      var days := if reserveDays <= 0 then 1 else reserveDays;
      this.reserveDays := days;
      counts := new int[days](_ => 0);
      lastUpdateDate := today;
      start, history := today, [];
    }

    /** Notes an event whose effect the window already shows. */
    ghost method Log(before: Counter, e: Event)
      requires counts.Length == reserveDays >= 1
      requires before == RecordAll(New(reserveDays, start), history, |history|) && State() == Record(before, e)
      modifies this`history
      ensures Valid() && history == old(history) + [e]
    {
      RecordMore(New(reserveDays, start), history, e);
      history := history + [e];
    }

    /** `rotate`, as a question does it. */
    method Rotate(today: int)
      requires Valid()
      modifies this
      ensures Valid() && (counts == old(counts) || fresh(counts))
      ensures start == old(start) && history == old(history) + [Ask(today)]
    {
      ghost var before := State();
      Shift(today);
      Log(before, Ask(today));
    }

    method Shift(today: int)
      requires counts.Length == reserveDays >= 1
      modifies this`counts, this`lastUpdateDate
      ensures counts.Length == reserveDays && (counts == old(counts) || fresh(counts))
      ensures State() == Shifted(old(State()), today)
    {
      ghost var before := counts[..];
      var days := today - lastUpdateDate;
      lastUpdateDate := today;
      if days <= 0 {
        assert counts[..] == before;
        return;
      }
      var newCounts := new int[reserveDays](_ => 0);
      if days >= reserveDays {
        assert newCounts[..] == Rotated(before, days);
        counts := newCounts;
        return;
      }
      for i := days to reserveDays
        invariant fresh(newCounts) && counts == old(counts) && newCounts != counts && counts[..] == before
        invariant lastUpdateDate == today
        invariant forall k :: 0 <= k < days ==> newCounts[k] == 0
        invariant forall k :: days <= k < i ==> newCounts[k] == counts[k - days]
      {
        newCounts[i] := counts[i - days];
      }
      assert newCounts[..] == Rotated(before, days);
      counts := newCounts;
    }

    method Inc(count: int, today: int)
      requires Valid()
      modifies this, counts
      ensures Valid() && (counts == old(counts) || fresh(counts))
      ensures start == old(start) && history == old(history) + [Count(today, count)]
    {
      ghost var before, e := State(), Count(today, count);
      Shift(today);
      ghost var shifted := State();
      counts[0] := Wrap(counts[0] + count);
      assert State() == Bumped(shifted, count);
      Log(before, e);
    }

    method Dec(count: int, today: int)
      requires Valid()
      modifies this, counts
      ensures Valid() && (counts == old(counts) || fresh(counts))
      ensures start == old(start) && history == old(history) + [Count(today, -count)]
    {
      ghost var before, e := State(), Count(today, -count);
      Shift(today);
      ghost var shifted := State();
      counts[0] := Wrap(counts[0] - count);
      assert State() == Bumped(shifted, -count);
      Log(before, e);
    }

    /** Today's count is the net amount of today, if the clock never went back. */
    method TodayCount(today: int) returns (count: int)
      requires Valid()
      modifies this
      ensures Valid() && (counts == old(counts) || fresh(counts))
      ensures start == old(start) && history == old(history) + [Ask(today)]
      ensures Forward(start, history, |history|) ==> count == Wrap(Net(history, |history|, today))
    {
      Rotate(today);
      count := counts[0];
      assert count == State().counts[0];
      if Forward(start, history, |history|) { WindowAfterEvents(reserveDays, start, history, |history|, 0); }
    }

    /**
     * The counts of the last days, today first: the net amount of each day, if the clock never went
     * back. Asking for more days than are kept yields those that are.
     */
    method GetLastDaysCount(lastdays: nat, today: int) returns (result: array<int>)
      requires Valid()
      modifies this
      ensures Valid() && (counts == old(counts) || fresh(counts)) && fresh(result)
      ensures start == old(start) && history == old(history) + [Ask(today)]
      ensures result.Length == Min(lastdays, reserveDays)
      ensures Forward(start, history, |history|) ==>
                forall i :: 0 <= i < result.Length ==> result[i] == Wrap(Net(history, |history|, today - i))
    {
      Rotate(today);
      result := Latest(if lastdays > reserveDays then reserveDays else lastdays);
      if Forward(start, history, |history|) {
        forall i | 0 <= i < result.Length ensures result[i] == Wrap(Net(history, |history|, today - i)) {
          WindowAfterEvents(reserveDays, start, history, |history|, i);
          assert State().counts[i] == counts[..result.Length][i] == result[..][i];
        }
      }
    }

    /** Copies the first entries of the window. */
    method Latest(days: nat) returns (result: array<int>)
      requires days <= counts.Length
      ensures fresh(result) && result.Length == days && result[..] == counts[..days]
    {
      result := new int[days](_ => 0);
      for i := 0 to days
        invariant result[..i] == counts[..i]
      {
        result[i] := counts[i];
      }
    }

    /** Sets all counts to zero; the day of the window stays. */
    method Clear()
      requires Valid()
      modifies this, counts
      ensures Valid() && counts == old(counts) && lastUpdateDate == old(lastUpdateDate)
      ensures start == lastUpdateDate && history == []
    {
      for i := 0 to reserveDays
        invariant counts == old(counts) && lastUpdateDate == old(lastUpdateDate)
        invariant forall k :: 0 <= k < i ==> counts[k] == 0
      {
        counts[i] := 0;
      }
      start, history := lastUpdateDate, [];
      assert counts[..] == New(reserveDays, start).counts;
    }
  }
}
