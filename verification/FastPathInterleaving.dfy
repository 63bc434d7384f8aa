/**
 * At-most-once confirmation when handlers are interleaved: a hash can be confirmed twice, unless every
 * server has to be counted.
 */
module FastPathInterleaving {
  import opened Wrappers
  import opened FastPath
  import opened FastPathAgreement
  import opened FastPathTightness
  import opened Quorums

  // Interleaved handlers: all servers hold one log, and a quorum less one is counted in turn.

  ghost predicate CountedInTurn(s: Cluster, n: nat, last: nat, i: nat)
    requires last < n
  {
    && (forall j :: i <= j <= last ==> AckFrom(n, j) in s.inFlight)
    && (forall j: nat :: j >= i ==> TaskOf(s, j) == Idle)
    && s.table == (if i == 0 then map[] else map[HashOf(0) := Entry(i, SPECULATION)])
    && s.confirmed == []
  }

  lemma {:induction false} CountedNext(table: Table, n: nat, i: nat)
    requires i < n && table == if i == 0 then map[] else map[HashOf(0) := Entry(i, SPECULATION)]
    ensures var entry := Counted(table, AckFrom(n, i));
            entry == Entry(i + 1, SPECULATION) && table[AckFrom(n, i).hash := entry] == map[HashOf(0) := entry]
  {
    assert AckFrom(n, i).hash == HashOf(0);
  }

  lemma {:induction false} CountNext(n: nat, last: nat, m: Cluster, i: nat) returns (s: Cluster)
    requires i <= last < n && CountedInTurn(m, n, last, i)
    ensures After(m, [Read(i, AckFrom(n, i))] + [Store(i)]) == Some(s)
    ensures s.n == m.n && s.f == m.f && CountedInTurn(s, n, last, i + 1)
  {
    var a := AckFrom(n, i);
    CountedNext(m.table, n, i);
    CountingSteps(m, i, a);
    StoreLeaves(m, n, i, last + 1);
    s := AfterStore(m, i, a);
  }

  lemma {:induction false} CountInTurn(n: nat, f: nat, last: nat, i: nat) returns (s: Cluster)
    requires i <= last < n
    ensures Reachable(s) && s.n == n && s.f == f && CountedInTurn(s, n, last, i)
  {
    if i == 0 {
      var steps;
      steps, s := SendAll(n, f, n, last + 1);
    } else {
      var m := CountInTurn(n, f, last, i - 1);
      s := CountNext(n, last, m, i - 1);
      ReachMore(m, [Read(i - 1, AckFrom(n, i - 1))] + [Store(i - 1)], s);
    }
  }

  predicate BothHaveRead(n: nat, q: nat, s: Cluster)
    requires 0 < q < n
  {
    var e := Entry(q, SPECULATION);
    TaskOf(s, q - 1) == HasRead(AckFrom(n, q - 1), e) && TaskOf(s, q) == HasRead(AckFrom(n, q), e)
  }

  predicate BothHaveStored(n: nat, q: nat, s: Cluster)
    requires 0 < q < n
  {
    var e := Entry(q, SPECULATION);
    TaskOf(s, q - 1) == HasStored(AckFrom(n, q - 1), e) && TaskOf(s, q) == HasStored(AckFrom(n, q), e)
  }

  lemma {:induction false} BothRead(n: nat, q: nat, m: Cluster) returns (s: Cluster)
    requires 2 <= q < n && CountedInTurn(m, n, q, q - 1)
    ensures After(m, [Read(q - 1, AckFrom(n, q - 1))] + [Read(q, AckFrom(n, q))]) == Some(s)
    ensures s.n == m.n && s.f == m.f && s.confirmed == []
    ensures BothHaveRead(n, q, s)
  {
    var a, b := AckFrom(n, q - 1), AckFrom(n, q);
    assert a.hash == b.hash == HashOf(0) && a != b;
    assert TaskOf(m, q) == TaskOf(Perform(m, Read(q - 1, a)), q) == Idle;
    Twice(m, Read(q - 1, a), Read(q, b));
    s := Perform(Perform(m, Read(q - 1, a)), Read(q, b));
  }

  lemma {:induction false} BothStore(n: nat, q: nat, m: Cluster) returns (s: Cluster)
    requires 2 <= q < n && m.confirmed == []
    requires BothHaveRead(n, q, m)
    ensures After(m, [Store(q - 1)] + [Store(q)]) == Some(s)
    ensures s.n == m.n && s.f == m.f && s.confirmed == []
    ensures BothHaveStored(n, q, s)
  {
    Twice(m, Store(q - 1), Store(q));
    s := Perform(Perform(m, Store(q - 1)), Store(q));
  }

  lemma {:induction false} BothAnnounce(n: nat, q: nat, m: Cluster) returns (s: Cluster)
    requires 2 <= q < n && m.confirmed == [] && m.n == m.f + q
    requires BothHaveStored(n, q, m)
    ensures After(m, [Announce(q - 1)] + [Announce(q)]) == Some(s)
    ensures s.n == m.n && s.f == m.f
    ensures |s.confirmed| == 2 && s.confirmed[0].hash == s.confirmed[1].hash
  {
    Twice(m, Announce(q - 1), Announce(q));
    s := Perform(Perform(m, Announce(q - 1)), Announce(q));
  }

  /** Two handlers that read the same count of a quorum less one confirm the hash twice. */
  lemma {:induction false} InterleavingConfirmsTwice(n: nat, f: nat) returns (s: Cluster)
    requires 0 < f && f + 2 <= n
    ensures Reachable(s) && s.n == n && s.f == f
    ensures |s.confirmed| == 2 && s.confirmed[0].hash == s.confirmed[1].hash
  {
    var q := n - f;
    var counted := CountInTurn(n, f, q, q - 1);
    var read := BothRead(n, q, counted);
    var stored := BothStore(n, q, read);
    s := BothAnnounce(n, q, stored);
    ReachMore(counted, [Read(q - 1, AckFrom(n, q - 1))] + [Read(q, AckFrom(n, q))], read);
    ReachMore(read, [Store(q - 1)] + [Store(q)], stored);
    ReachMore(stored, [Announce(q - 1)] + [Announce(q)], s);
  }

  // When every server has to be counted, only the last one counted can confirm.

  /** The handler holds an entry for `h` that reaches the quorum of all servers. */
  predicate Completes(s: Cluster, task: nat, h: Digest) {
    var t := TaskOf(s, task);
    (t.HasRead? || t.HasStored?) && t.ack.hash == h && t.entry.counter >= s.n
  }

  predicate ConfirmedOnce(s: Cluster) {
    forall i, j :: 0 <= i < j < |s.confirmed| ==> s.confirmed[i].hash != s.confirmed[j].hash
  }

  ghost predicate OnceInv(s: Cluster) {
    && Inv(s) && s.f == 0 && ConfirmedOnce(s)
    && (forall i, j, h :: Completes(s, i, h) && Completes(s, j, h) ==> i == j)
    && (forall i, h, c :: Completes(s, i, h) && c in s.confirmed ==> c.hash != h)
  }

  /** While an acknowledgement of `h` is unread, not all servers have been counted for `h`. */
  lemma {:induction false} NotAllCounted(s: Cluster, ack: Ack)
    requires Inv(s) && s.f == 0 && ack in s.inFlight
    ensures |CountedFor(s, ack.hash)| < s.n
    ensures forall i :: !Completes(s, i, ack.hash)
    ensures forall c :: c in s.confirmed ==> c.hash != ack.hash
  {
    var counted := CountedFor(s, ack.hash);
    assert HoldersOf(s, ack.hash);
    SubsetCardinality(counted + {ack.from}, Servers(s.n));
    assert |counted + {ack.from}| == |counted| + 1;
    forall i ensures !Completes(s, i, ack.hash) {
      assert i in s.tasks ==> TaskSound(s, s.tasks[i]);
    }
    forall c | c in s.confirmed ensures c.hash != ack.hash {
      assert ConfirmationSound(s, c);
    }
  }

  /** Only a step that reads an acknowledgement of `h` can make a handler complete it. */
  lemma {:induction false} CompletesNoMore(s: Cluster, step: Step, i: nat, h: Digest)
    requires Enabled(s, step) && Completes(Perform(s, step), i, h)
    ensures Completes(s, i, h) || (step.Read? && step.task == i && step.ack.hash == h)
  {
  }

  /** An announced hash was completed, by a handler that then does so no longer. */
  lemma {:induction false} AnnounceCompletes(s: Cluster, task: nat)
    requires s.f == 0 && Enabled(s, Announce(task))
    ensures var s', h := Perform(s, Announce(task)), TaskOf(s, task).ack.hash;
            && Completes(s, task, h) && !Completes(s', task, h)
            && |s'.confirmed| == |s.confirmed| + 1 && s'.confirmed[..|s.confirmed|] == s.confirmed
            && s'.confirmed[|s.confirmed|].hash == h
  {
  }

  lemma {:induction false} AnnounceKeepsOnce(s: Cluster, task: nat)
    requires OnceInv(s) && Enabled(s, Announce(task))
    ensures ConfirmedOnce(Perform(s, Announce(task)))
    ensures var s' := Perform(s, Announce(task));
            forall i, h, c | Completes(s', i, h) && c in s'.confirmed :: c.hash != h
  {
    var s', h := Perform(s, Announce(task)), TaskOf(s, task).ack.hash;
    AnnounceCompletes(s, task);
    forall i, j | 0 <= i < j < |s'.confirmed| ensures s'.confirmed[i].hash != s'.confirmed[j].hash {
      assert s'.confirmed[i] == s.confirmed[i] && s.confirmed[i] in s.confirmed;
      if j < |s.confirmed| {
        assert s'.confirmed[j] == s.confirmed[j];
      }
    }
    forall i, g, c | Completes(s', i, g) && c in s'.confirmed ensures c.hash != g {
      CompletesNoMore(s, Announce(task), i, g);
      assert c in s.confirmed || c.hash == h;
    }
  }

  lemma {:induction false} OtherKeepsOnce(s: Cluster, step: Step)
    requires OnceInv(s) && Enabled(s, step) && !step.Announce?
    ensures ConfirmedOnce(Perform(s, step))
    ensures forall i, h, c | Completes(Perform(s, step), i, h) && c in Perform(s, step).confirmed :: c.hash != h
  {
    forall i, h, c | Completes(Perform(s, step), i, h) && c in s.confirmed ensures c.hash != h {
      CompletesNoMore(s, step, i, h);
      if step.Read? {
        NotAllCounted(s, step.ack);
      }
    }
  }

  lemma {:induction false} StepKeepsOnce(s: Cluster, step: Step)
    requires OnceInv(s) && Enabled(s, step)
    ensures OnceInv(Perform(s, step))
  {
    var s' := Perform(s, step);
    StepKeepsInv(s, step);
    forall i, j, h | Completes(s', i, h) && Completes(s', j, h) ensures i == j {
      CompletesNoMore(s, step, i, h);
      CompletesNoMore(s, step, j, h);
      if step.Read? {
        NotAllCounted(s, step.ack);
      }
    }
    if step.Announce? {
      AnnounceKeepsOnce(s, step.task);
    } else {
      OtherKeepsOnce(s, step);
    }
  }

  lemma {:induction false} RunKeepsOnce(n: nat, steps: seq<Step>)
    ensures var s := After(Start(n, 0), steps);
            s.Some? ==> OnceInv(s.value)
  {
    if |steps| == 0 {
      StartInv(n, 0);
    } else {
      RunKeepsOnce(n, steps[..|steps| - 1]);
      var m := After(Start(n, 0), steps[..|steps| - 1]);
      if m.Some? && Enabled(m.value, steps[|steps| - 1]) {
        StepKeepsOnce(m.value, steps[|steps| - 1]);
      }
    }
  }

  /**
   * At-most-once confirmation with handlers interleaved: within the fault bound, no run confirms a hash
   * twice if and only if no faults are tolerated. Otherwise the handler has to be one step.
   */
  lemma {:induction false} AtMostOnceIsExact(n: nat, f: nat)
    requires n > 2 * f
    ensures (forall s :: Reachable(s) && s.n == n && s.f == f ==> ConfirmedOnce(s)) <==> f == 0
  {
    if f == 0 {
      forall s | Reachable(s) && s.n == n && s.f == f ensures ConfirmedOnce(s) {
        var steps :| After(Start(n, f), steps) == Some(s);
        RunKeepsOnce(n, steps);
      }
    } else {
      var s := InterleavingConfirmsTwice(n, f);
      assert !ConfirmedOnce(s);
    }
  }
}
