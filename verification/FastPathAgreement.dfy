/**
 * Agreement on the fast path: servers append and acknowledge, the proxy's connection tasks count
 * acknowledgements with separate Get, Put and Delete accesses to their shared table, in any interleaving.
 */
module FastPathAgreement {
  import opened Wrappers
  import opened KvStore
  import opened FastPath
  import opened Quorums

  /** Where a connection task stands in its handling of an acknowledgement. */
  datatype Task =
    | Idle
    | HasRead(ack: Ack, entry: Entry)
    | HasStored(ack: Ack, entry: Entry)
    | HasAnnounced(ack: Ack)
    | Stopped

  /**
   * `inFlight` are the acknowledgements sent and not yet received. `counted` and `confirmed` record
   * the history: which servers' acknowledgements of a hash were read, and what was announced.
   */
  datatype Cluster = Cluster(
    n: nat, f: nat,
    logs: seq<seq<Command>>,
    inFlight: set<Ack>,
    table: Table,
    tasks: map<nat, Task>,
    counted: map<Digest, set<nat>>,
    confirmed: seq<Confirmation>)

  datatype Step =
    | Append(server: nat, command: Command, speculation: Speculation)
    | Lose(ack: Ack)
    | Read(task: nat, ack: Ack)
    | Store(task: nat)
    | Announce(task: nat)
    | Skip(task: nat)
    | Remove(task: nat)
    | Stop(task: nat)

  function Start(n: nat, f: nat): Cluster {
    Cluster(n, f, seq(n, _ => []), {}, map[], map[], map[], [])
  }

  function TaskOf(s: Cluster, task: nat): Task {
    if task in s.tasks then s.tasks[task] else Idle
  }

  function CountedFor(s: Cluster, hash: Digest): set<nat> {
    if hash in s.counted then s.counted[hash] else {}
  }

  function Quorum(s: Cluster): int {
    s.n - s.f
  }

  predicate Enabled(s: Cluster, step: Step) {
    match step
    case Append(server, _, _) => server < |s.logs|
    case Lose(ack) => ack in s.inFlight
    case Read(task, ack) => TaskOf(s, task).Idle? && ack in s.inFlight
    case Store(task) => TaskOf(s, task).HasRead?
    case Announce(task) =>
      var t := TaskOf(s, task);
      t.HasStored? && t.entry.counter >= Quorum(s) && t.entry.speculation.Some?
    case Skip(task) =>
      var t := TaskOf(s, task);
      t.HasStored? && !(t.entry.counter >= Quorum(s) && t.entry.speculation.Some?)
    case Remove(task) => TaskOf(s, task).HasAnnounced?
    case Stop(task) => true
  }

  /** The acknowledgement of the last entry of `log`: its hash covers the whole log. */
  function AckOf(server: nat, log: seq<Command>, speculation: Speculation): Ack
    requires |log| > 0
  {
    Ack(server, log[|log| - 1], DigestOf(log), speculation, |log|)
  }

  function Perform(s: Cluster, step: Step): Cluster
    requires Enabled(s, step)
  {
    match step
    case Append(server, command, speculation) =>
      var log := s.logs[server] + [command];
      s.(logs := s.logs[server := log], inFlight := s.inFlight + {AckOf(server, log, speculation)})
    case Lose(ack) => s.(inFlight := s.inFlight - {ack})
    case Read(task, ack) =>
      s.(inFlight := s.inFlight - {ack},
         tasks := s.tasks[task := HasRead(ack, Counted(s.table, ack))],
         counted := s.counted[ack.hash := CountedFor(s, ack.hash) + {ack.from}])
    case Store(task) =>
      var t := TaskOf(s, task);
      s.(table := s.table[t.ack.hash := t.entry], tasks := s.tasks[task := HasStored(t.ack, t.entry)])
    case Announce(task) =>
      var t := TaskOf(s, task);
      s.(tasks := s.tasks[task := HasAnnounced(t.ack)],
         confirmed := s.confirmed + [Confirmation(t.ack.command, t.ack.hash, t.ack.lastIdx)])
    case Skip(task) => s.(tasks := s.tasks[task := Idle])
    case Remove(task) =>
      s.(table := s.table - {TaskOf(s, task).ack.hash}, tasks := s.tasks[task := Idle])
    case Stop(task) => s.(tasks := s.tasks[task := Stopped])
  }

  /** The state after `steps`, if each of them is enabled in its turn. */
  function After(s: Cluster, steps: seq<Step>): Option<Cluster> {
    if |steps| == 0 then Some(s)
    else match After(s, steps[..|steps| - 1])
      case None => None
      case Some(m) => if Enabled(m, steps[|steps| - 1]) then Some(Perform(m, steps[|steps| - 1])) else None
  }

  ghost predicate Reachable(s: Cluster) {
    exists steps :: After(Start(s.n, s.f), steps) == Some(s)
  }

  // The invariant.

  /** `ack` acknowledges a prefix that its sender's log still has. */
  predicate Backed(logs: seq<seq<Command>>, ack: Ack) {
    && ack.from < |logs|
    && 0 < |ack.hash| == ack.lastIdx <= |logs[ack.from]|
    && ack.hash <= DigestOf(logs[ack.from])
    && Hashed(ack.command.id, ack.command.kv) == ack.hash[ack.lastIdx - 1]
  }

  ghost predicate AcksSound(s: Cluster) {
    && (forall a :: a in s.inFlight ==> Backed(s.logs, a) && a.from !in CountedFor(s, a.hash))
    && (forall a, b :: a in s.inFlight && b in s.inFlight && a.from == b.from && a.hash == b.hash ==> a == b)
  }

  /** The servers counted for `h` are servers of the cluster whose logs extend `h`. */
  ghost predicate HoldersOf(s: Cluster, h: Digest)
    requires |s.logs| == s.n
  {
    forall p :: p in CountedFor(s, h) ==> p < s.n && h <= DigestOf(s.logs[p])
  }

  ghost predicate CountedSound(s: Cluster)
    requires |s.logs| == s.n
  {
    forall h {:trigger HoldersOf(s, h)} :: HoldersOf(s, h)
  }

  predicate TaskSound(s: Cluster, t: Task) {
    && (t.HasRead? || t.HasStored? ==>
          Backed(s.logs, t.ack) && t.entry.counter <= |CountedFor(s, t.ack.hash)|)
  }

  ghost predicate CountersSound(s: Cluster) {
    && (forall h :: h in s.table ==> s.table[h].counter <= |CountedFor(s, h)|)
    && (forall i :: i in s.tasks ==> TaskSound(s, s.tasks[i]))
  }

  ghost predicate ConfirmationSound(s: Cluster, c: Confirmation) {
    && |CountedFor(s, c.hash)| >= Quorum(s)
    && 0 < |c.hash| == c.lastIdx
    && Hashed(c.command.id, c.command.kv) == c.hash[c.lastIdx - 1]
  }

  ghost predicate ConfirmedSound(s: Cluster) {
    forall c :: c in s.confirmed ==> ConfirmationSound(s, c)
  }

  ghost predicate Inv(s: Cluster) {
    |s.logs| == s.n && AcksSound(s) && CountedSound(s) && CountersSound(s) && ConfirmedSound(s)
  }

  lemma {:induction false} AppendExtendsDigest(log: seq<Command>, command: Command)
    ensures DigestOf(log) <= DigestOf(log + [command])
  {
  }

  lemma {:induction false} AppendKeepsBacking(s: Cluster, step: Step, a: Ack)
    requires step.Append? && Enabled(s, step) && Backed(s.logs, a)
    ensures Backed(Perform(s, step).logs, a)
  {
    AppendExtendsDigest(s.logs[step.server], step.command);
  }

  lemma {:induction false} AppendKeepsAcks(s: Cluster, step: Step)
    requires Inv(s) && step.Append? && Enabled(s, step)
    ensures AcksSound(Perform(s, step))
  {
    var s' := Perform(s, step);
    var log := s.logs[step.server];
    var ack := AckOf(step.server, log + [step.command], step.speculation);
    assert HoldersOf(s, ack.hash);
    assert ack.from !in CountedFor(s', ack.hash);
    assert Backed(s'.logs, ack);
    forall a | a in s.inFlight
      ensures Backed(s'.logs, a) && (a.from == ack.from ==> a.hash != ack.hash)
    {
      AppendKeepsBacking(s, step, a);
      assert Backed(s.logs, a);
    }
  }

  lemma {:induction false} AppendKeepsInv(s: Cluster, step: Step)
    requires Inv(s) && step.Append? && Enabled(s, step)
    ensures Inv(Perform(s, step))
  {
    var s' := Perform(s, step);
    AppendKeepsAcks(s, step);
    AppendExtendsDigest(s.logs[step.server], step.command);
    forall h ensures HoldersOf(s', h) {
      assert HoldersOf(s, h);
    }
    forall i | i in s'.tasks ensures TaskSound(s', s'.tasks[i]) {
      assert TaskSound(s, s.tasks[i]);
      if s.tasks[i].HasRead? || s.tasks[i].HasStored? {
        AppendKeepsBacking(s, step, s.tasks[i].ack);
      }
    }
    forall c | c in s'.confirmed ensures ConfirmationSound(s', c) {
      assert ConfirmationSound(s, c);
    }
  }

  lemma {:induction false} ReadKeepsInv(s: Cluster, step: Step)
    requires Inv(s) && step.Read? && Enabled(s, step)
    ensures Inv(Perform(s, step))
  {
    var s' := Perform(s, step);
    var h := step.ack.hash;
    assert CountedFor(s', h) == CountedFor(s, h) + {step.ack.from};
    assert |CountedFor(s', h)| == |CountedFor(s, h)| + 1;
    assert forall g :: g != h ==> CountedFor(s', g) == CountedFor(s, g);
    assert forall g :: |CountedFor(s, g)| <= |CountedFor(s', g)|;
    assert TaskSound(s', s'.tasks[step.task]);
    forall g ensures HoldersOf(s', g) {
      assert HoldersOf(s, g);
    }
    forall i | i in s'.tasks && i != step.task ensures TaskSound(s', s'.tasks[i]) {
      assert TaskSound(s, s.tasks[i]);
    }
    forall c | c in s'.confirmed ensures ConfirmationSound(s', c) {
      assert ConfirmationSound(s, c);
    }
  }

  /** Steps that read nothing keep every task's entry backed: it is the same entry, or gone. */
  lemma {:induction false} OtherStepKeepsTask(s: Cluster, step: Step, i: nat)
    requires Inv(s) && !step.Append? && !step.Read? && Enabled(s, step)
    ensures TaskSound(Perform(s, step), TaskOf(Perform(s, step), i))
  {
    var s' := Perform(s, step);
    assert s'.logs == s.logs && s'.counted == s.counted;
    assert i in s.tasks ==> TaskSound(s, s.tasks[i]);
  }

  lemma {:induction false} OtherStepKeepsTable(s: Cluster, step: Step)
    requires Inv(s) && !step.Append? && !step.Read? && Enabled(s, step)
    ensures forall h :: h in Perform(s, step).table ==> Perform(s, step).table[h].counter <= |CountedFor(s, h)|
  {
    if step.Store? {
      assert TaskSound(s, s.tasks[step.task]);
    }
  }

  lemma {:induction false} OtherStepKeepsConfirmed(s: Cluster, step: Step)
    requires Inv(s) && !step.Append? && !step.Read? && Enabled(s, step)
    ensures ConfirmedSound(Perform(s, step))
  {
    var s' := Perform(s, step);
    if step.Announce? {
      assert TaskSound(s, s.tasks[step.task]);
    }
    forall c | c in s'.confirmed ensures ConfirmationSound(s', c) {
      if c in s.confirmed {
        assert ConfirmationSound(s, c);
      }
    }
  }

  lemma {:induction false} OtherStepKeepsInv(s: Cluster, step: Step)
    requires Inv(s) && !step.Append? && !step.Read? && Enabled(s, step)
    ensures Inv(Perform(s, step))
  {
    var s' := Perform(s, step);
    OtherStepKeepsConfirmed(s, step);
    OtherStepKeepsTable(s, step);
    forall h ensures HoldersOf(s', h) {
      assert HoldersOf(s, h);
    }
    forall i | i in s'.tasks ensures TaskSound(s', s'.tasks[i]) {
      OtherStepKeepsTask(s, step, i);
    }
  }

  lemma {:induction false} StepKeepsInv(s: Cluster, step: Step)
    requires Inv(s) && Enabled(s, step)
    ensures Inv(Perform(s, step))
  {
    if step.Append? {
      AppendKeepsInv(s, step);
    } else if step.Read? {
      ReadKeepsInv(s, step);
    } else {
      OtherStepKeepsInv(s, step);
    }
  }

  lemma {:induction false} StartInv(n: nat, f: nat)
    ensures Inv(Start(n, f))
  {
    forall h ensures HoldersOf(Start(n, f), h) {
    }
  }

  lemma {:induction false} RunKeepsInv(n: nat, f: nat, steps: seq<Step>)
    ensures var s := After(Start(n, f), steps);
            s.Some? ==> Inv(s.value) && s.value.n == n && s.value.f == f
  {
    if |steps| == 0 {
      StartInv(n, f);
    } else {
      RunKeepsInv(n, f, steps[..|steps| - 1]);
      var m := After(Start(n, f), steps[..|steps| - 1]);
      if m.Some? && Enabled(m.value, steps[|steps| - 1]) {
        StepKeepsInv(m.value, steps[|steps| - 1]);
      }
    }
  }

  // Agreement.

  predicate Comparable(a: Digest, b: Digest) {
    a <= b || b <= a
  }

  /** Confirmed logs extend one another, and no position has two different confirmed commands. */
  ghost predicate Agrees(s: Cluster) {
    forall c, d :: c in s.confirmed && d in s.confirmed ==>
      && Comparable(c.hash, d.hash)
      && (c.lastIdx == d.lastIdx ==> c.command.id == d.command.id && c.command.kv == d.command.kv)
  }

  lemma {:induction false} InvAgrees(s: Cluster)
    requires Inv(s) && s.n > 2 * s.f
    ensures Agrees(s)
  {
    forall c, d | c in s.confirmed && d in s.confirmed
      ensures Comparable(c.hash, d.hash)
      ensures c.lastIdx == d.lastIdx ==> c.command.id == d.command.id && c.command.kv == d.command.kv
    {
      assert ConfirmationSound(s, c) && ConfirmationSound(s, d);
      assert HoldersOf(s, c.hash) && HoldersOf(s, d.hash);
      var p := Overlap(Servers(s.n), CountedFor(s, c.hash), CountedFor(s, d.hash));
      assert c.hash <= DigestOf(s.logs[p]) && d.hash <= DigestOf(s.logs[p]);
    }
  }

  /** Confirmed-prefix agreement in every run, whatever roles the servers take, when n > 2f. */
  lemma {:induction false} Agreement(s: Cluster)
    requires Reachable(s) && s.n > 2 * s.f
    ensures Agrees(s)
  {
    var steps :| After(Start(s.n, s.f), steps) == Some(s);
    RunKeepsInv(s.n, s.f, steps);
    InvAgrees(s);
  }
}
