/**
 * A server's simulated clock, in nanoseconds: it drifts a little on every tick, notifies the
 * deadlines that it has passed and is set again by a resynchronisation.
 */
module Clock {
  import opened Wrappers

  const TICK: nat := 1_000_000
  const DEADLINE_DELAY: nat := 20 * TICK

  /** One end of a one-shot channel, by the channel's identity. */
  type Sender = nat

  datatype ClockState = ClockState(
    logicalTime: nat,
    counter: nat,
    uncertainty: nat,
    deadlines: multiset<nat>,
    database: map<nat, Sender>)

  /** How far one tick moves the clock: a drift larger than the tick does not turn it back. */
  function Advance(drift: nat, fast: bool): nat {
    if fast then TICK + drift else if drift <= TICK then TICK - drift else 0
  }

  /** `kept` are the deadlines that are not before `time`. */
  ghost predicate IsRemaining(deadlines: multiset<nat>, time: nat, kept: multiset<nat>) {
    forall d :: kept[d] == if d < time then 0 else deadlines[d]
  }

  lemma {:induction false} RemainingExists(deadlines: multiset<nat>, time: nat)
    ensures exists kept :: IsRemaining(deadlines, time, kept)
    decreases |deadlines|
  {
    if d :| d in deadlines && d < time {
      var fewer := deadlines[d := 0];
      assert deadlines == fewer + multiset{}[d := deadlines[d]];
      RemainingExists(fewer, time);
      var kept :| IsRemaining(fewer, time, kept);
      assert IsRemaining(deadlines, time, kept);
    } else {
      assert IsRemaining(deadlines, time, deadlines);
    }
  }

  ghost function Remaining(deadlines: multiset<nat>, time: nat): multiset<nat> {
    RemainingExists(deadlines, time);
    var kept :| IsRemaining(deadlines, time, kept);
    kept
  }

  function DueSenders(c: ClockState): map<nat, Sender> {
    map d | d in c.database && d in c.deadlines && d < c.logicalTime :: c.database[d]
  }

  /** The clock without the deadlines before its time, and without their senders. */
  ghost function Processed(c: ClockState): ClockState {
    c.(deadlines := Remaining(c.deadlines, c.logicalTime), database := c.database - DueSenders(c).Keys)
  }

  /** Exactly the deadlines before the time go, with their senders, which are the ones notified. */
  lemma {:induction false} ProcessingTakesDue(c: ClockState)
    ensures var (c', due) := (Processed(c), DueSenders(c));
            && c'.logicalTime == c.logicalTime && c'.counter == c.counter && c'.uncertainty == c.uncertainty
            && (forall d :: c'.deadlines[d] == if d < c.logicalTime then 0 else c.deadlines[d])
            && (forall d :: d in due <==> d in c.database && d in c.deadlines && d < c.logicalTime)
            && c'.database.Keys == c.database.Keys - due.Keys
            && forall d :: d in c.database ==> c.database[d] == if d in due then due[d] else c'.database[d]
  {
    assert IsRemaining(c.deadlines, c.logicalTime, Remaining(c.deadlines, c.logicalTime));
  }

  function Moved(c: ClockState, drift: nat, fast: bool): ClockState {
    c.(counter := c.counter + 1, logicalTime := c.logicalTime + Advance(drift, fast))
  }

  ghost function Ticked(c: ClockState, drift: nat, syncFreq: nat, fast: bool): ClockState {
    var processed := Processed(Moved(c, drift, fast));
    if processed.counter >= syncFreq then processed.(counter := 0) else processed
  }

  function Resynced(c: ClockState, realTime: nat): ClockState {
    c.(logicalTime := realTime, counter := 0, uncertainty := 0)
  }

  function WithDeadline(c: ClockState, deadline: nat, sender: Sender): ClockState {
    c.(deadlines := c.deadlines + multiset{deadline}, database := c.database[deadline := sender])
  }

  function NewDeadline(c: ClockState): nat {
    c.logicalTime + DEADLINE_DELAY
  }

  function Popped(c: ClockState, d: nat): ClockState {
    c.(deadlines := c.deadlines - multiset{d}, database := c.database - {d})
  }

  function SenderOf(c: ClockState, d: nat): map<nat, Sender> {
    if d in c.database then map[d := c.database[d]] else map[]
  }

  lemma PopDue(c: ClockState, d: nat)
    requires d in c.deadlines && d < c.logicalTime
    ensures Processed(Popped(c, d)) == Processed(c)
    ensures DueSenders(c) == SenderOf(c, d) + DueSenders(Popped(c, d))
  {
    var c' := Popped(c, d);
    assert Remaining(c'.deadlines, c.logicalTime) == Remaining(c.deadlines, c.logicalTime);
    assert DueSenders(c).Keys == DueSenders(c').Keys + (if d in c.database then {d} else {});
  }

  lemma MergeAssociates<K, V>(a: map<K, V>, b: map<K, V>, c: map<K, V>)
    ensures (a + b) + c == a + (b + c)
  {
  }

  lemma NothingDue(c: ClockState)
    requires forall d :: d in c.deadlines ==> c.logicalTime <= d
    ensures Processed(c) == c && DueSenders(c) == map[]
  {
    assert Remaining(c.deadlines, c.logicalTime) == c.deadlines;
  }

  class Clock {
    const drift: nat
    const syncFreq: nat
    var logicalTime: nat
    var counter: nat
    var uncertainty: nat
    var deadlines: multiset<nat>
    var database: map<nat, Sender>

    ghost function View(): ClockState
      reads this
    {
      ClockState(logicalTime, counter, uncertainty, deadlines, database)
    }

    constructor (now: nat, drift: nat, uncertainty: nat, syncFreq: nat)
      ensures View() == ClockState(now, 0, uncertainty, multiset{}, map[])
      ensures this.drift == drift && this.syncFreq == syncFreq
    {
      this.drift, this.syncFreq := drift, syncFreq;
      logicalTime, counter, this.uncertainty, deadlines, database := now, 0, uncertainty, multiset{}, map[];
    }

    /** The heap's root. */
    method Peek() returns (least: Option<nat>)
      ensures least.None? ==> deadlines == multiset{}
      ensures least.Some? ==> least.value in deadlines && forall d :: d in deadlines ==> least.value <= d
    {
      if deadlines == multiset{} {
        return None;
      }
      var some :| some in deadlines;
      LeastExists(deadlines, some);
      var d :| d in deadlines && forall e | e in deadlines :: d <= e;
      least := Some(d);
    }

    method PopDeadline(deadline: nat) returns (sender: map<nat, Sender>)
      modifies this
      ensures View() == Popped(old(View()), deadline) && sender == SenderOf(old(View()), deadline)
    {
      deadlines := deadlines - multiset{deadline};
      sender := map[];
      if deadline in database {
        sender := map[deadline := database[deadline]];
      }
      database := database - {deadline};
    }

    /** The senders that are notified, by the deadline they were waiting for. */
    method ProcessDeadlines() returns (notified: map<nat, Sender>)
      modifies this
      ensures View() == Processed(old(View())) && notified == DueSenders(old(View()))
    {
      notified := map[];
      ghost var c, was, due := View(), Processed(View()), DueSenders(View());
      var least := Peek();
      while least.Some? && least.value < logicalTime
        invariant least.None? ==> deadlines == multiset{}
        invariant least.Some? ==> least.value in deadlines && forall d :: d in deadlines ==> least.value <= d
        invariant c == View() && Processed(c) == was && notified + DueSenders(c) == due
        decreases |deadlines|
      {
        var deadline := least.value;
        PopDue(c, deadline);
        MergeAssociates(notified, SenderOf(c, deadline), DueSenders(Popped(c, deadline)));
        c := Popped(c, deadline);
        var sender := PopDeadline(deadline);
        notified := notified + sender;
        least := Peek();
      }
      NothingDue(c);
    }

    method Tick(fast: bool) returns (notified: map<nat, Sender>, doSync: bool)
      modifies this
      ensures View() == Ticked(old(View()), drift, syncFreq, fast)
      ensures notified == DueSenders(Moved(old(View()), drift, fast))
      ensures doSync == (old(counter) + 1 >= syncFreq) && counter == if doSync then 0 else old(counter) + 1
      ensures uncertainty == old(uncertainty)
    {
      counter := counter + 1;
      var step := TICK;
      if fast {
        step := step + drift;
      } else {
        step := if step >= drift then step - drift else 0;
      }
      logicalTime := logicalTime + step;
      notified := ProcessDeadlines();
      doSync := false;
      if counter >= syncFreq {
        counter := 0;
        doSync := true;
      }
    }

    method GetUncertainty() returns (bound: nat)
      ensures bound == Uncertainty(View(), drift)
    {
      bound := uncertainty + counter * drift;
    }

    method Resync(realTime: nat)
      modifies this
      ensures View() == Resynced(old(View()), realTime)
      ensures logicalTime == realTime && counter == uncertainty == 0
    {
      logicalTime := realTime;
      counter := 0;
      uncertainty := 0;
    }

    method AddDeadline(deadline: nat, sender: Sender)
      modifies this
      ensures View() == WithDeadline(old(View()), deadline, sender)
      ensures deadlines == old(deadlines)[deadline := old(deadlines)[deadline] + 1]
      ensures database == old(database)[deadline := sender]
    {
      deadlines := deadlines + multiset{deadline};
      database := database[deadline := sender];
    }
  }

  lemma {:induction false} LeastExists(m: multiset<nat>, some: nat)
    requires some in m
    ensures exists d | d in m :: forall e | e in m :: d <= e
    decreases some
  {
    if exists e :: e in m && e < some {
      var e :| e in m && e < some;
      LeastExists(m, e);
    }
  }

  // What the reported uncertainty covers.

  function Uncertainty(c: ClockState, drift: nat): nat {
    c.uncertainty + c.counter * drift
  }

  ghost function TickedAll(c: ClockState, drift: nat, syncFreq: nat, fast: seq<bool>): ClockState {
    if |fast| == 0 then c
    else Ticked(TickedAll(c, drift, syncFreq, fast[..|fast| - 1]), drift, syncFreq, fast[|fast| - 1])
  }

  lemma {:induction false} CounterCounts(c: ClockState, realTime: nat, drift: nat, syncFreq: nat, fast: seq<bool>)
    ensures var after := TickedAll(Resynced(c, realTime), drift, syncFreq, fast);
            && after.uncertainty == 0
            && (|fast| < syncFreq ==> after.counter == |fast|)
            && (syncFreq <= |fast| && |fast| > 0 ==> after.counter < |fast|)
    decreases |fast|
  {
    if |fast| > 0 {
      CounterCounts(c, realTime, drift, syncFreq, fast[..|fast| - 1]);
    }
  }

  lemma LastTick(c: ClockState, drift: nat, syncFreq: nat, fast: seq<bool>)
    requires |fast| > 0
    ensures TickedAll(c, drift, syncFreq, fast).logicalTime
            == TickedAll(c, drift, syncFreq, fast[..|fast| - 1]).logicalTime + Advance(drift, fast[|fast| - 1])
  {
  }

  lemma OneMore(n: nat, d: nat)
    requires n > 0
    ensures n * d == (n - 1) * d + d
  {
  }

  /** The clock moves away from a perfect one by at most the drift with every tick. */
  lemma {:induction false} DriftIsBounded(c: ClockState, drift: nat, syncFreq: nat, fast: seq<bool>)
    ensures var (t, perfect) := (TickedAll(c, drift, syncFreq, fast).logicalTime, c.logicalTime + |fast| * TICK);
            perfect - |fast| * drift <= t <= perfect + |fast| * drift
    decreases |fast|
  {
    if |fast| > 0 {
      DriftIsBounded(c, drift, syncFreq, fast[..|fast| - 1]);
      LastTick(c, drift, syncFreq, fast);
      OneMore(|fast|, TICK);
      OneMore(|fast|, drift);
    }
  }

  function AllFast(n: nat): (fast: seq<bool>)
    ensures |fast| == n
  {
    if n == 0 then [] else AllFast(n - 1) + [true]
  }

  lemma {:induction false} FastClock(c: ClockState, drift: nat, syncFreq: nat, n: nat)
    ensures TickedAll(c, drift, syncFreq, AllFast(n)).logicalTime == c.logicalTime + n * TICK + n * drift
  {
    if n > 0 {
      FastClock(c, drift, syncFreq, n - 1);
      assert AllFast(n)[..n - 1] == AllFast(n - 1);
      LastTick(c, drift, syncFreq, AllFast(n));
      OneMore(n, TICK);
      OneMore(n, drift);
    }
  }

  /** After these ticks the clock is no further from a perfect one than the uncertainty it reports. */
  ghost predicate Covered(c: ClockState, realTime: nat, drift: nat, syncFreq: nat, fast: seq<bool>) {
    var after, perfect := TickedAll(Resynced(c, realTime), drift, syncFreq, fast), realTime + |fast| * TICK;
    perfect - Uncertainty(after, drift) <= after.logicalTime <= perfect + Uncertainty(after, drift)
  }

  /**
   * Whichever way the clock drifts, the reported uncertainty covers its error after `n` ticks exactly
   * while it has not yet asked for a resynchronisation: the request itself resets the count.
   */
  lemma {:induction false} UncertaintyCovers(c: ClockState, realTime: nat, drift: nat, syncFreq: nat, n: nat)
    ensures (forall fast: seq<bool> | |fast| == n :: Covered(c, realTime, drift, syncFreq, fast))
            <==> n < syncFreq || n == 0 || drift == 0
  {
    if n < syncFreq || n == 0 || drift == 0 {
      forall fast: seq<bool> | |fast| == n ensures Covered(c, realTime, drift, syncFreq, fast) {
        DriftIsBounded(Resynced(c, realTime), drift, syncFreq, fast);
        CounterCounts(c, realTime, drift, syncFreq, fast);
      }
    } else {
      FastClock(Resynced(c, realTime), drift, syncFreq, n);
      CounterCounts(c, realTime, drift, syncFreq, AllFast(n));
      var counter := TickedAll(Resynced(c, realTime), drift, syncFreq, AllFast(n)).counter;
      MoreTicks(counter, n, drift);
      assert !Covered(c, realTime, drift, syncFreq, AllFast(n));
    }
  }

  lemma MoreTicks(counter: nat, n: nat, drift: nat)
    requires counter < n && drift > 0
    ensures counter * drift < n * drift
  {
  }
}
