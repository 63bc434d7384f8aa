/**
 * At-most-once confirmation when the proxy handles an acknowledgement as one step. Messages are lost
 * and reordered as they like, and servers take any role at any time.
 */
module FastPathOnce {
  import opened Wrappers
  import opened KvStore
  import opened FastPath
  import opened FastPathAgreement
  import opened FastPathInterleaving
  import opened FastPathTightness
  import Quorums

  datatype AtomicStep =
    | SendAck(server: nat, command: Command, speculation: Speculation)
    | LoseAck(ack: Ack)
    | HandleAck(task: nat, ack: Ack)

  predicate EntryConfirms(s: Cluster, entry: Entry) {
    entry.counter >= (s.n - s.f) && entry.speculation.Some?
  }

  /** The accesses of a handler that is not interleaved with others and whose sends succeed. */
  function HandlerSteps(s: Cluster, task: nat, ack: Ack): seq<Step> {
    var count := [Read(task, ack)] + [Store(task)];
    if EntryConfirms(s, Counted(s.table, ack)) then count + [Announce(task)] + [Remove(task)] else count + [Skip(task)]
  }

  function StepsOf(s: Cluster, step: AtomicStep): seq<Step> {
    match step
    case SendAck(server, command, speculation) => [Append(server, command, speculation)]
    case LoseAck(ack) => [Lose(ack)]
    case HandleAck(task, ack) => HandlerSteps(s, task, ack)
  }

  predicate AtomicEnabled(s: Cluster, step: AtomicStep) {
    match step
    case SendAck(server, _, _) => server < |s.logs|
    case LoseAck(ack) => ack in s.inFlight
    case HandleAck(task, ack) => ack in s.inFlight && TaskOf(s, task).Idle?
  }

  /** The whole effect of a step; that of a handler is stated on its own. */
  function PerformAtomic(s: Cluster, step: AtomicStep): Cluster
    requires AtomicEnabled(s, step)
  {
    match step
    case SendAck(server, command, speculation) => Perform(s, Append(server, command, speculation))
    case LoseAck(ack) => Perform(s, Lose(ack))
    case HandleAck(task, ack) =>
      var entry := Counted(s.table, ack);
      var s' := s.(inFlight := s.inFlight - {ack},
                   tasks := s.tasks[task := Idle],
                   counted := s.counted[ack.hash := CountedFor(s, ack.hash) + {ack.from}]);
      if EntryConfirms(s, entry)
      then s'.(table := s.table - {ack.hash},
               confirmed := s.confirmed + [Confirmation(ack.command, ack.hash, ack.lastIdx)])
      else s'.(table := s.table[ack.hash := entry])
  }

  function AtomicAfter(s: Cluster, steps: seq<AtomicStep>): Option<Cluster> {
    if |steps| == 0 then Some(s)
    else match AtomicAfter(s, steps[..|steps| - 1])
      case None => None
      case Some(m) =>
        if AtomicEnabled(m, steps[|steps| - 1]) then Some(PerformAtomic(m, steps[|steps| - 1])) else None
  }

  ghost predicate AtomicReachable(s: Cluster) {
    exists steps :: AtomicAfter(Start(s.n, s.f), steps) == Some(s)
  }

  // Every run of atomic handlers is a run of interleaved ones.

  lemma {:induction false} HandlerIsAtomic(s: Cluster, task: nat, ack: Ack)
    requires AtomicEnabled(s, HandleAck(task, ack))
    ensures After(s, HandlerSteps(s, task, ack)) == Some(PerformAtomic(s, HandleAck(task, ack)))
  {
    var count, entry := [Read(task, ack)] + [Store(task)], Counted(s.table, ack);
    CountingSteps(s, task, ack);
    var m := After(s, count).value;
    assert m.tasks[task := Idle] == s.tasks[task := Idle];
    if EntryConfirms(s, entry) {
      Extend(s, count, Announce(task));
      Extend(s, count + [Announce(task)], Remove(task));
      assert m.tasks[task := HasAnnounced(ack)][task := Idle] == s.tasks[task := Idle];
      assert m.table - {ack.hash} == s.table - {ack.hash};
    } else {
      Extend(s, count, Skip(task));
    }
  }

  lemma {:induction false} OneStep(s: Cluster, step: Step)
    requires Enabled(s, step)
    ensures After(s, [step]) == Some(Perform(s, step))
  {
    Extend(s, [], step);
    assert [] + [step] == [step];
  }

  lemma {:induction false} AtomicStepIsRun(s: Cluster, step: AtomicStep)
    requires AtomicEnabled(s, step)
    ensures After(s, StepsOf(s, step)) == Some(PerformAtomic(s, step))
  {
    match step
    case SendAck(server, command, speculation) => OneStep(s, Append(server, command, speculation));
    case LoseAck(ack) => OneStep(s, Lose(ack));
    case HandleAck(task, ack) => HandlerIsAtomic(s, task, ack);
  }

  lemma {:induction false} AtomicRunIsRun(n: nat, f: nat, steps: seq<AtomicStep>)
    ensures var s := AtomicAfter(Start(n, f), steps);
            s.Some? ==> s.value.n == n && s.value.f == f && Reachable(s.value)
  {
    if |steps| == 0 {
      assert After(Start(n, f), []) == Some(Start(n, f));
    } else {
      AtomicRunIsRun(n, f, steps[..|steps| - 1]);
      var m := AtomicAfter(Start(n, f), steps[..|steps| - 1]);
      if m.Some? && AtomicEnabled(m.value, steps[|steps| - 1]) {
        AtomicStepIsRun(m.value, steps[|steps| - 1]);
        ReachMore(m.value, StepsOf(m.value, steps[|steps| - 1]), PerformAtomic(m.value, steps[|steps| - 1]));
      }
    }
  }

  // Within the fault bound no hash is confirmed twice.

  predicate IsConfirmed(s: Cluster, h: Digest) {
    exists i :: 0 <= i < |s.confirmed| && s.confirmed[i].hash == h
  }

  function TableCount(s: Cluster, h: Digest): nat {
    if h in s.table then s.table[h].counter else 0
  }

  /** The table counts all servers counted for a hash, except that a confirmation took a quorum of them out. */
  predicate Tallied(s: Cluster, h: Digest) {
    if IsConfirmed(s, h) then |CountedFor(s, h)| >= (s.n - s.f) + TableCount(s, h)
    else |CountedFor(s, h)| == TableCount(s, h)
  }

  ghost predicate AllTallied(s: Cluster) {
    forall h {:trigger Tallied(s, h)} :: Tallied(s, h)
  }

  ghost predicate AtomicInv(s: Cluster) {
    Inv(s) && AllTallied(s) && ConfirmedOnce(s)
  }

  /** An acknowledgement in flight has not been counted, so not all servers have. */
  lemma {:induction false} RoomToCount(s: Cluster, ack: Ack)
    requires Inv(s) && ack in s.inFlight
    ensures ack.from !in CountedFor(s, ack.hash) && |CountedFor(s, ack.hash)| < s.n
  {
    var counted := CountedFor(s, ack.hash);
    assert HoldersOf(s, ack.hash);
    Quorums.SubsetCardinality(counted + {ack.from}, Quorums.Servers(s.n));
    assert |counted + {ack.from}| == |counted| + 1;
  }

  /** A hash that is confirmed now was not confirmed before: its restarted count is too short. */
  lemma {:induction false} ConfirmsFirst(s: Cluster, ack: Ack)
    requires AtomicInv(s) && s.n > 2 * s.f && ack in s.inFlight && EntryConfirms(s, Counted(s.table, ack))
    ensures !IsConfirmed(s, ack.hash)
  {
    RoomToCount(s, ack);
    assert Tallied(s, ack.hash);
  }

  /** Handling leaves the counts and confirmations of other hashes alone. */
  lemma {:induction false} OthersTallied(s: Cluster, task: nat, ack: Ack, h: Digest)
    requires AtomicEnabled(s, HandleAck(task, ack)) && h != ack.hash
    ensures Tallied(PerformAtomic(s, HandleAck(task, ack)), h) <==> Tallied(s, h)
  {
    var s' := PerformAtomic(s, HandleAck(task, ack));
    assert CountedFor(s', h) == CountedFor(s, h) && TableCount(s', h) == TableCount(s, h);
    assert forall i :: 0 <= i < |s.confirmed| ==> s'.confirmed[i] == s.confirmed[i];
  }

  lemma {:induction false} HandledTallied(s: Cluster, task: nat, ack: Ack)
    requires AtomicInv(s) && s.n > 2 * s.f && AtomicEnabled(s, HandleAck(task, ack))
    ensures Tallied(PerformAtomic(s, HandleAck(task, ack)), ack.hash)
  {
    var s', h := PerformAtomic(s, HandleAck(task, ack)), ack.hash;
    RoomToCount(s, ack);
    assert Tallied(s, h);
    assert CountedFor(s', h) == CountedFor(s, h) + {ack.from};
    assert |CountedFor(s', h)| == |CountedFor(s, h)| + 1;
    assert forall i :: 0 <= i < |s.confirmed| ==> s'.confirmed[i] == s.confirmed[i];
    if EntryConfirms(s, Counted(s.table, ack)) {
      ConfirmsFirst(s, ack);
      assert s'.confirmed[|s.confirmed|].hash == h;
    }
  }

  lemma {:induction false} HandleKeepsOnce(s: Cluster, task: nat, ack: Ack)
    requires AtomicInv(s) && s.n > 2 * s.f && AtomicEnabled(s, HandleAck(task, ack))
    ensures AllTallied(PerformAtomic(s, HandleAck(task, ack)))
    ensures ConfirmedOnce(PerformAtomic(s, HandleAck(task, ack)))
  {
    var s' := PerformAtomic(s, HandleAck(task, ack));
    forall h ensures Tallied(s', h) {
      if h == ack.hash {
        HandledTallied(s, task, ack);
      } else {
        OthersTallied(s, task, ack, h);
        assert Tallied(s, h);
      }
    }
    if EntryConfirms(s, Counted(s.table, ack)) {
      ConfirmsFirst(s, ack);
    }
  }

  /** Steps that handle nothing leave table, counts and confirmations alone. */
  lemma {:induction false} OtherStepTallied(s: Cluster, step: AtomicStep, h: Digest)
    requires AtomicEnabled(s, step) && !step.HandleAck?
    ensures Tallied(PerformAtomic(s, step), h) <==> Tallied(s, h)
  {
    var s' := PerformAtomic(s, step);
    assert s'.confirmed == s.confirmed && s'.counted == s.counted && s'.table == s.table;
    assert CountedFor(s', h) == CountedFor(s, h);
  }

  lemma {:induction false} RunKeepsAtomicInv(n: nat, f: nat, steps: seq<AtomicStep>)
    requires n > 2 * f
    ensures var s := AtomicAfter(Start(n, f), steps);
            s.Some? ==> AtomicInv(s.value)
  {
    AtomicRunIsRun(n, f, steps);
    if |steps| == 0 {
      StartInv(n, f);
    } else {
      var before, step := steps[..|steps| - 1], steps[|steps| - 1];
      RunKeepsAtomicInv(n, f, before);
      AtomicRunIsRun(n, f, before);
      var m := AtomicAfter(Start(n, f), before);
      if m.Some? && AtomicEnabled(m.value, step) {
        ReachableInv(PerformAtomic(m.value, step));
        match step
        case HandleAck(task, ack) => HandleKeepsOnce(m.value, task, ack);
        case _ =>
          forall h ensures Tallied(PerformAtomic(m.value, step), h) {
            OtherStepTallied(m.value, step, h);
            assert Tallied(m.value, h);
          }
      }
    }
  }

  lemma {:induction false} ReachableInv(s: Cluster)
    requires Reachable(s)
    ensures Inv(s)
  {
    var steps :| After(Start(s.n, s.f), steps) == Some(s);
    RunKeepsInv(s.n, s.f, steps);
  }

  // Outside it, two quorums of acknowledgements of one log fit in one after the other.

  /** All servers have sent an acknowledgement of one log, and the first `i` of them have been handled. */
  ghost predicate HandledInTurn(s: Cluster, n: nat, i: nat, count: nat, times: nat) {
    && (forall j :: i <= j < n ==> AckFrom(n, j) in s.inFlight)
    && TaskOf(s, 0).Idle?
    && s.table == (if count == 0 then map[] else map[HashOf(0) := Entry(count, SPECULATION)])
    && |s.confirmed| == times && forall c :: c in s.confirmed ==> c.hash == HashOf(0)
  }

  lemma {:induction false} ExtendAtomic(m: Cluster, step: AtomicStep)
    requires AtomicReachable(m) && AtomicEnabled(m, step)
    ensures AtomicReachable(PerformAtomic(m, step))
  {
    var steps :| AtomicAfter(Start(m.n, m.f), steps) == Some(m);
    assert (steps + [step])[..|steps|] == steps;
    assert AtomicAfter(Start(m.n, m.f), steps + [step]) == Some(PerformAtomic(m, step));
  }

  lemma {:induction false} AllSend(n: nat, f: nat, i: nat) returns (s: Cluster)
    requires i <= n
    ensures AtomicReachable(s) && s.n == n && s.f == f && HaveSent(s, n, i)
  {
    if i == 0 {
      s := Start(n, f);
      assert AtomicAfter(s, []) == Some(s);
    } else {
      var m := AllSend(n, f, i - 1);
      var step := SendAck(i - 1, Request(Group(n, i - 1)), SPECULATION);
      ExtendAtomic(m, step);
      s := PerformAtomic(m, step);
      assert m.logs[i - 1] + [step.command] == [step.command];
    }
  }

  lemma {:induction false} HandleNext(m: Cluster, i: nat, count: nat, times: nat) returns (s: Cluster)
    requires AtomicReachable(m) && i < m.n && HandledInTurn(m, m.n, i, count, times)
    ensures AtomicReachable(s) && s.n == m.n && s.f == m.f
    ensures if count + 1 >= m.n - m.f then HandledInTurn(s, m.n, i + 1, 0, times + 1)
            else HandledInTurn(s, m.n, i + 1, count + 1, times)
  {
    var a := AckFrom(m.n, i);
    assert a.hash == HashOf(0);
    ExtendAtomic(m, HandleAck(0, a));
    s := PerformAtomic(m, HandleAck(0, a));
    forall j | i + 1 <= j < m.n ensures AckFrom(m.n, j) in s.inFlight {
      assert AckFrom(m.n, j).from != a.from;
    }
  }

  lemma OneMoreRound(times: nat, k: nat)
    ensures (times + 1) * k == times * k + k
  {
  }

  lemma {:induction false} HandleUpTo(n: nat, f: nat, k: nat, i: nat) returns (s: Cluster, count: nat, times: nat)
    requires f <= n && i <= n && k == (if n == f then 1 else n - f)
    ensures AtomicReachable(s) && s.n == n && s.f == f && HandledInTurn(s, n, i, count, times)
    ensures count < k && times * k + count == i
  {
    if i == 0 {
      s := AllSend(n, f, n);
      count, times := 0, 0;
    } else {
      var m, c, t := HandleUpTo(n, f, k, i - 1);
      s := HandleNext(m, i - 1, c, t);
      count, times := if c + 1 >= n - f then 0 else c + 1, if c + 1 >= n - f then t + 1 else t;
      OneMoreRound(t, k);
    }
  }

  lemma AtMostOneRound(times: nat, k: nat)
    ensures times <= 1 ==> times * k <= k
  {
  }

  lemma {:induction false} ConfirmsAgain(n: nat, f: nat) returns (s: Cluster)
    requires f <= n <= 2 * f && n >= 2
    ensures AtomicReachable(s) && s.n == n && s.f == f && !ConfirmedOnce(s)
  {
    var k := GroupSize(n, f);
    var count, times;
    s, count, times := HandleUpTo(n, f, k, n);
    AtMostOneRound(times, k);
    assert s.confirmed[0] in s.confirmed && s.confirmed[1] in s.confirmed;
  }

  /**
   * At-most-once confirmation with each acknowledgement handled as one step: no run confirms a hash
   * twice, whatever is lost and whoever leads, if and only if n > 2f.
   */
  lemma {:induction false} AtomicOnceIsExact(n: nat, f: nat)
    requires f <= n && n >= 2
    ensures (forall s :: AtomicReachable(s) && s.n == n && s.f == f ==> ConfirmedOnce(s)) <==> n > 2 * f
  {
    if n > 2 * f {
      forall s | AtomicReachable(s) && s.n == n && s.f == f ensures ConfirmedOnce(s) {
        var steps :| AtomicAfter(Start(n, f), steps) == Some(s);
        RunKeepsAtomicInv(n, f, steps);
      }
    } else {
      var s := ConfirmsAgain(n, f);
      assert !ConfirmedOnce(s);
    }
  }
}
