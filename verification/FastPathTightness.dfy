/**
 * How tight the fault bound of the fast path is: with n <= 2f there is a run in which two groups of servers
 * get different logs confirmed, unless one server leads throughout.
 */
module FastPathTightness {
  import opened Wrappers
  import opened KvStore
  import opened FastPath
  import opened FastPathAgreement

  const SPECULATION: Speculation := Some(None)

  /** The size of a group that is large enough to confirm on its own. */
  function GroupSize(n: nat, f: nat): (k: nat)
    requires f <= n <= 2 * f && n >= 2
    ensures 1 <= k && 2 * k <= n && k >= n - f
  {
    if n == f then 1 else n - f
  }

  /** Servers of the first group append one command, those of the second group another one. */
  function Request(group: nat): Command {
    Command(1, 0, group, 0, 0, Get("x"))
  }

  function Group(k: nat, server: nat): nat {
    if server < k then 0 else 1
  }

  function AckFrom(k: nat, server: nat): Ack {
    AckOf(server, [Request(Group(k, server))], SPECULATION)
  }

  function HashOf(group: nat): Digest {
    DigestOf([Request(group)])
  }

  ghost predicate HaveSent(s: Cluster, k: nat, i: nat) {
    && |s.logs| == s.n
    && (forall j :: i <= j < s.n ==> s.logs[j] == [])
    && (forall j :: 0 <= j < i ==> AckFrom(k, j) in s.inFlight)
    && s.tasks == map[] && s.table == map[] && s.confirmed == []
  }

  /** How many of the first `i` acknowledgements belong to `group`. */
  function Tally(k: nat, i: nat, group: nat): nat {
    if group == 0 then (if i <= k then i else k) else (if i <= k then 0 else i - k)
  }

  predicate GroupTallied(table: Table, k: nat, i: nat, g: nat) {
    if Tally(k, i, g) == 0 then HashOf(g) !in table
    else HashOf(g) in table && table[HashOf(g)] == Entry(Tally(k, i, g), SPECULATION)
  }

  /** Counting acknowledgement `i` raises the tally of its group, and that of no other. */
  lemma {:induction false} TallyNext(table: Table, k: nat, i: nat)
    requires i < 2 * k && GroupTallied(table, k, i, 0) && GroupTallied(table, k, i, 1)
    ensures var entry := Counted(table, AckFrom(k, i));
            && entry == Entry(Tally(k, i + 1, Group(k, i)), SPECULATION)
            && var table' := table[AckFrom(k, i).hash := entry];
               GroupTallied(table', k, i + 1, 0) && GroupTallied(table', k, i + 1, 1)
  {
    var g := Group(k, i);
    assert AckFrom(k, i).hash == HashOf(g);
    assert HashOf(0)[0] != HashOf(1)[0];
    assert Tally(k, i + 1, g) == Tally(k, i, g) + 1 && Tally(k, i + 1, 1 - g) == Tally(k, i, 1 - g);
  }

  ghost predicate HaveCounted(s: Cluster, k: nat, i: nat) {
    && (forall j :: i <= j < 2 * k ==> AckFrom(k, j) in s.inFlight)
    && (forall j: nat :: j >= i ==> TaskOf(s, j) == Idle)
    && GroupTallied(s.table, k, i, 0) && GroupTallied(s.table, k, i, 1)
    && (k > 0 && i >= k ==> TaskOf(s, k - 1) == HasStored(AckFrom(k, k - 1), Entry(k, SPECULATION)))
    && (k > 0 && i >= 2 * k ==> TaskOf(s, 2 * k - 1) == HasStored(AckFrom(k, 2 * k - 1), Entry(k, SPECULATION)))
    && s.confirmed == []
  }

  lemma {:induction false} Extend(s0: Cluster, steps: seq<Step>, step: Step)
    requires After(s0, steps).Some? && Enabled(After(s0, steps).value, step)
    ensures After(s0, steps + [step]) == Some(Perform(After(s0, steps).value, step))
  {
    assert (steps + [step])[..|steps|] == steps;
  }

  lemma {:induction false} SendAll(n: nat, f: nat, k: nat, i: nat) returns (steps: seq<Step>, s: Cluster)
    requires i <= n
    ensures After(Start(n, f), steps) == Some(s) && s.n == n && s.f == f && HaveSent(s, k, i)
  {
    if i == 0 {
      steps, s := [], Start(n, f);
    } else {
      var before, m := SendAll(n, f, k, i - 1);
      var step := Append(i - 1, Request(Group(k, i - 1)), SPECULATION);
      Extend(Start(n, f), before, step);
      steps, s := before + [step], Perform(m, step);
      assert m.logs[i - 1] + [step.command] == [step.command];
    }
  }

  /** The effect of counting one acknowledgement, up to the decision whether to announce it. */
  function AfterStore(s: Cluster, task: nat, ack: Ack): Cluster {
    var entry := Counted(s.table, ack);
    s.(inFlight := s.inFlight - {ack},
       tasks := s.tasks[task := HasStored(ack, entry)],
       counted := s.counted[ack.hash := CountedFor(s, ack.hash) + {ack.from}],
       table := s.table[ack.hash := entry])
  }

  lemma {:induction false} ReadThenStore(s: Cluster, task: nat, ack: Ack)
    requires TaskOf(s, task).Idle? && ack in s.inFlight
    ensures Enabled(s, Read(task, ack)) && Enabled(Perform(s, Read(task, ack)), Store(task))
    ensures Perform(Perform(s, Read(task, ack)), Store(task)) == AfterStore(s, task, ack)
  {
    var entry := Counted(s.table, ack);
    assert s.tasks[task := HasRead(ack, entry)][task := HasStored(ack, entry)]
        == s.tasks[task := HasStored(ack, entry)];
  }

  lemma {:induction false} CountingSteps(s: Cluster, task: nat, ack: Ack)
    requires TaskOf(s, task).Idle? && ack in s.inFlight
    ensures After(s, [Read(task, ack)] + [Store(task)]) == Some(AfterStore(s, task, ack))
  {
    ReadThenStore(s, task, ack);
    Twice(s, Read(task, ack), Store(task));
  }

  /** The acknowledgements and tasks that counting one of them leaves alone. */
  lemma {:induction false} StoreLeaves(s: Cluster, k: nat, i: nat, n: nat)
    requires forall j :: i <= j < n ==> AckFrom(k, j) in s.inFlight
    ensures forall j :: i < j < n ==> AckFrom(k, j) in AfterStore(s, i, AckFrom(k, i)).inFlight
    ensures forall j: nat :: j != i ==> TaskOf(AfterStore(s, i, AckFrom(k, i)), j) == TaskOf(s, j)
  {
    forall j | i < j < n ensures AckFrom(k, j) in AfterStore(s, i, AckFrom(k, i)).inFlight {
      assert AckFrom(k, j).from != AckFrom(k, i).from;
    }
  }

  /** One more acknowledgement is counted, by a task of its own. */
  lemma {:induction false} CountOne(m: Cluster, k: nat, i: nat) returns (s: Cluster)
    requires i < 2 * k && HaveCounted(m, k, i)
    ensures After(m, [Read(i, AckFrom(k, i))] + [Store(i)]) == Some(s)
    ensures s.n == m.n && s.f == m.f && HaveCounted(s, k, i + 1)
  {
    var ack := AckFrom(k, i);
    CountingSteps(m, i, ack);
    s := AfterStore(m, i, ack);
    TallyNext(m.table, k, i);
    StoreLeaves(m, k, i, 2 * k);
    assert i + 1 == k ==> TaskOf(s, k - 1) == HasStored(ack, Entry(k, SPECULATION));
    assert i + 1 == 2 * k ==> TaskOf(s, 2 * k - 1) == HasStored(ack, Entry(k, SPECULATION));
  }

  lemma {:induction false} SentCounted(s: Cluster, k: nat)
    requires HaveSent(s, k, s.n) && 1 <= k && 2 * k <= s.n
    ensures HaveCounted(s, k, 0)
  {
  }

  lemma {:induction false} CountMore(m: Cluster, k: nat, i: nat) returns (s: Cluster)
    requires 0 < i <= 2 * k && Reachable(m) && HaveCounted(m, k, i - 1)
    ensures Reachable(s) && s.n == m.n && s.f == m.f && HaveCounted(s, k, i)
  {
    s := CountOne(m, k, i - 1);
    ReachMore(m, [Read(i - 1, AckFrom(k, i - 1))] + [Store(i - 1)], s);
  }

  lemma {:induction false} CountAll(n: nat, f: nat, k: nat, i: nat) returns (s: Cluster)
    requires 1 <= k && 2 * k <= n && i <= 2 * k
    ensures Reachable(s) && s.n == n && s.f == f && HaveCounted(s, k, i)
  {
    if i == 0 {
      var steps;
      steps, s := SendAll(n, f, k, n);
      SentCounted(s, k);
    } else {
      var m := CountAll(n, f, k, i - 1);
      s := CountMore(m, k, i);
    }
  }

  lemma {:induction false} Disagreement(n: nat, f: nat) returns (s: Cluster)
    requires f <= n <= 2 * f && n >= 2
    ensures Reachable(s) && s.n == n && s.f == f && !Agrees(s)
  {
    var k := GroupSize(n, f);
    var m := CountAll(n, f, k, 2 * k);
    s := BothGroupsAnnounce(m, k);
    Twice(m, Announce(k - 1), Announce(2 * k - 1));
    ReachMore(m, [Announce(k - 1)] + [Announce(2 * k - 1)], s);
    DifferentHashes(s);
  }

  lemma {:induction false} BothGroupsAnnounce(m: Cluster, k: nat) returns (s: Cluster)
    requires k >= 1 && k >= m.n - m.f && HaveCounted(m, k, 2 * k)
    ensures Enabled(m, Announce(k - 1)) && Enabled(Perform(m, Announce(k - 1)), Announce(2 * k - 1))
    ensures s == Perform(Perform(m, Announce(k - 1)), Announce(2 * k - 1))
    ensures |s.confirmed| == 2 && s.confirmed[0].hash == HashOf(0) && s.confirmed[1].hash == HashOf(1)
    ensures s.n == m.n && s.f == m.f
  {
    s := Perform(Perform(m, Announce(k - 1)), Announce(2 * k - 1));
    assert AckFrom(k, k - 1).hash == HashOf(0) && AckFrom(k, 2 * k - 1).hash == HashOf(1);
  }

  lemma {:induction false} DifferentHashes(s: Cluster)
    requires |s.confirmed| == 2 && s.confirmed[0].hash == HashOf(0) && s.confirmed[1].hash == HashOf(1)
    ensures !Agrees(s)
  {
    assert s.confirmed[0] in s.confirmed && s.confirmed[1] in s.confirmed;
    assert HashOf(0)[0] != HashOf(1)[0];
  }

  /** Every run agrees on what is confirmed, whoever takes the lead and when, if and only if n > 2f. */
  lemma {:induction false} AgreementIsExact(n: nat, f: nat)
    requires f <= n && n >= 2
    ensures (forall s :: Reachable(s) && s.n == n && s.f == f ==> Agrees(s)) <==> n > 2 * f
  {
    if n > 2 * f {
      forall s | Reachable(s) && s.n == n && s.f == f ensures Agrees(s) {
        Agreement(s);
      }
    } else {
      var s := Disagreement(n, f);
    }
  }

  // Runs put together.

  lemma {:induction false} AfterBoth(s0: Cluster, first: seq<Step>, second: seq<Step>)
    requires After(s0, first).Some?
    ensures After(s0, first + second) == After(After(s0, first).value, second)
  {
    if |second| == 0 {
      assert first + second == first;
    } else {
      var last := |second| - 1;
      assert (first + second)[..|first + second| - 1] == first + second[..last];
      AfterBoth(s0, first, second[..last]);
    }
  }

  lemma {:induction false} Twice(s0: Cluster, a: Step, b: Step)
    requires Enabled(s0, a) && Enabled(Perform(s0, a), b)
    ensures After(s0, [a] + [b]) == Some(Perform(Perform(s0, a), b))
  {
    Extend(s0, [], a);
    assert [] + [a] == [a];
    Extend(s0, [a], b);
  }

  lemma {:induction false} ReachMore(m: Cluster, steps: seq<Step>, s: Cluster)
    requires Reachable(m) && After(m, steps) == Some(s) && s.n == m.n && s.f == m.f
    ensures Reachable(s)
  {
    var before :| After(Start(m.n, m.f), before) == Some(m);
    AfterBoth(Start(m.n, m.f), before, steps);
  }

  // With one leader throughout, what is confirmed is a prefix of its log.

  /** Only the acknowledgements of `leader` carry a speculation. */
  predicate LedBy(steps: seq<Step>, leader: nat) {
    forall i :: 0 <= i < |steps| && steps[i].Append? && steps[i].speculation.Some? ==> steps[i].server == leader
  }

  predicate LeaderHas(s: Cluster, leader: nat, h: Digest)
    requires leader < |s.logs|
  {
    h <= DigestOf(s.logs[leader])
  }

  ghost predicate LeaderBacks(s: Cluster, leader: nat) {
    && leader < |s.logs|
    && (forall a :: a in s.inFlight && a.speculation.Some? ==> LeaderHas(s, leader, a.hash))
    && (forall h :: h in s.table && s.table[h].speculation.Some? ==> LeaderHas(s, leader, h))
    && (forall i :: i in s.tasks && (s.tasks[i].HasRead? || s.tasks[i].HasStored?) && s.tasks[i].entry.speculation.Some?
          ==> LeaderHas(s, leader, s.tasks[i].ack.hash))
    && (forall c :: c in s.confirmed ==> LeaderHas(s, leader, c.hash))
  }

  lemma {:induction false} AppendKeepsLeaderHas(s: Cluster, step: Step, leader: nat, h: Digest)
    requires leader < |s.logs| && step.Append? && Enabled(s, step) && LeaderHas(s, leader, h)
    ensures LeaderHas(Perform(s, step), leader, h)
  {
    AppendExtendsDigest(s.logs[step.server], step.command);
  }

  lemma {:induction false} AppendKeepsLeaderBacks(s: Cluster, step: Step, leader: nat)
    requires LeaderBacks(s, leader) && step.Append? && Enabled(s, step) && LedBy([step], leader)
    ensures LeaderBacks(Perform(s, step), leader)
  {
    var s' := Perform(s, step);
    assert [step][0] == step;
    forall h | LeaderHas(s, leader, h) ensures LeaderHas(s', leader, h) {
      AppendKeepsLeaderHas(s, step, leader, h);
    }
  }

  lemma {:induction false} StepKeepsLeaderBacks(s: Cluster, step: Step, leader: nat)
    requires LeaderBacks(s, leader) && !step.Append? && Enabled(s, step)
    ensures LeaderBacks(Perform(s, step), leader)
  {
    var s' := Perform(s, step);
    assert forall h :: LeaderHas(s', leader, h) <==> LeaderHas(s, leader, h);
  }

  lemma {:induction false} LedRun(n: nat, f: nat, steps: seq<Step>, leader: nat)
    requires leader < n && LedBy(steps, leader)
    ensures var s := After(Start(n, f), steps);
            s.Some? ==> LeaderBacks(s.value, leader)
  {
    if |steps| > 0 {
      var before, step := steps[..|steps| - 1], steps[|steps| - 1];
      LedRun(n, f, before, leader);
      var m := After(Start(n, f), before);
      if m.Some? && Enabled(m.value, step) {
        if step.Append? {
          AppendKeepsLeaderBacks(m.value, step, leader);
        } else {
          StepKeepsLeaderBacks(m.value, step, leader);
        }
      }
    }
  }

  /** If one server leads throughout, every run agrees, whatever n and f. */
  lemma {:induction false} OneLeaderAgrees(n: nat, f: nat, steps: seq<Step>, leader: nat)
    requires leader < n && LedBy(steps, leader) && After(Start(n, f), steps).Some?
    ensures Agrees(After(Start(n, f), steps).value)
  {
    var s := After(Start(n, f), steps).value;
    LedRun(n, f, steps, leader);
    RunKeepsInv(n, f, steps);
    forall c, d | c in s.confirmed && d in s.confirmed
      ensures Comparable(c.hash, d.hash)
      ensures c.lastIdx == d.lastIdx ==> c.command.id == d.command.id && c.command.kv == d.command.kv
    {
      assert ConfirmationSound(s, c) && ConfirmationSound(s, d);
      assert LeaderHas(s, leader, c.hash) && LeaderHas(s, leader, d.hash);
    }
  }
}
