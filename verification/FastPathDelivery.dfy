/**
 * What servers and client are sent: in every run of servers and proxy, each server's queue lists the
 * confirmed commands in order and the client is answered for each of them once.
 */
module FastPathDelivery {
  import opened Wrappers
  import opened KvStore
  import opened FastPath
  import opened FastPathOrder
  import opened Quorums

  /** The acknowledgements that the proxy handles in a run, in order. */
  function Handled(s: Cluster, steps: seq<Step>): seq<Ack> {
    if |steps| == 0 then []
    else
      var before, last := steps[..|steps| - 1], steps[|steps| - 1];
      match After(s, before)
      case None => []
      case Some(m) =>
        Handled(s, before) + if Enabled(m, last) && last.Handle? then [m.channels[last.server][0]] else []
  }

  /** The confirmations that `completing` caused. */
  ghost predicate Caused(completing: seq<Ack>, confirmed: seq<Confirmation>) {
    && |completing| == |confirmed|
    && forall k :: 0 <= k < |confirmed| ==>
         confirmed[k] == Confirmation(completing[k].command, completing[k].hash, completing[k].lastIdx)
  }

  lemma {:induction false} OneMoreAck(quorum: nat, table: Table, acks: seq<Ack>, ack: Ack)
    ensures var before, entry := TableAfter(quorum, table, acks), Counted(TableAfter(quorum, table, acks), ack);
            && TableAfter(quorum, table, acks + [ack]) == AfterAck(quorum, before, ack)
            && Completing(quorum, table, acks + [ack]) ==
               Completing(quorum, table, acks) + if Confirms(quorum, entry) then [ack] else []
  {
    assert (acks + [ack])[..|acks|] == acks;
  }

  ghost predicate HandledBy(s: Cluster, quorum: nat, acks: seq<Ack>) {
    && s.n - s.f == quorum && s.table == TableAfter(quorum, map[], acks)
    && Caused(Completing(quorum, map[], acks), s.confirmed)
  }

  lemma {:induction false} StepHandles(m: Cluster, step: Step, quorum: nat, acks: seq<Ack>)
    requires Enabled(m, step) && HandledBy(m, quorum, acks)
    ensures HandledBy(Perform(m, step), quorum, acks + if step.Handle? then [m.channels[step.server][0]] else [])
  {
    if step.Handle? {
      OneMoreAck(quorum, map[], acks, m.channels[step.server][0]);
    } else {
      assert acks + [] == acks;
    }
  }

  lemma {:induction false} HandledNext(s: Cluster, before: seq<Step>, step: Step, m: Cluster)
    requires After(s, before) == Some(m) && Enabled(m, step)
    ensures Handled(s, before + [step]) ==
            Handled(s, before) + if step.Handle? then [m.channels[step.server][0]] else []
  {
    assert (before + [step])[..|before|] == before;
  }

  /** The proxy of a run is one that handles its acknowledgements one after the other. */
  lemma {:induction false} RunIsHandling(n: nat, f: nat, leaders: set<nat>, steps: seq<Step>, s: Cluster)
    requires f <= n && After(Start(n, f, leaders), steps) == Some(s)
    ensures s.n == n && s.f == f && s.leaders == leaders
    ensures HandledBy(s, n - f, Handled(Start(n, f, leaders), steps))
  {
    if |steps| > 0 {
      var start, before, last := Start(n, f, leaders), steps[..|steps| - 1], steps[|steps| - 1];
      var m := After(start, before).value;
      RunIsHandling(n, f, leaders, before, m);
      assert steps == before + [last];
      HandledNext(start, before, last, m);
      StepHandles(m, last, n - f, Handled(start, before));
    }
  }

  /** Only what leaders send carries a response. */
  ghost predicate LeadersRespond(acks: seq<Ack>, leaders: set<nat>) {
    forall a :: a in acks ==> (a.speculation.Some? <==> a.from in leaders)
  }

  lemma {:induction false} OldestFrom(n: nat, f: nat, leaders: set<nat>, steps: seq<Step>, m: Cluster, p: nat)
    requires n > 2 * f && After(Start(n, f, leaders), steps) == Some(m) && Enabled(m, Handle(p))
    ensures var a := m.channels[p][0]; a.from == p && (a.speculation.Some? <==> p in leaders)
  {
    RunIsHandling(n, f, leaders, steps, m);
    RunKeepsInv(n, f, leaders, steps);
    HandleStaysSound(m, p, [Hashed(0, Get(""))]);
  }

  /** Each acknowledgement comes from the server that sent it, and speculates exactly if that one leads. */
  lemma {:induction false} SpeculationsLead(n: nat, f: nat, leaders: set<nat>, steps: seq<Step>)
    requires n > 2 * f && After(Start(n, f, leaders), steps).Some?
    ensures LeadersRespond(Handled(Start(n, f, leaders), steps), leaders)
  {
    if |steps| > 0 {
      var before, last := steps[..|steps| - 1], steps[|steps| - 1];
      var m := After(Start(n, f, leaders), before).value;
      SpeculationsLead(n, f, leaders, before);
      if last.Handle? {
        OldestFrom(n, f, leaders, before, m, last.server);
      }
    }
  }

  lemma {:induction false} CompletingHandled(quorum: nat, table: Table, acks: seq<Ack>)
    ensures forall a :: a in Completing(quorum, table, acks) ==> a in acks
  {
    if |acks| > 0 {
      CompletingHandled(quorum, table, acks[..|acks| - 1]);
    }
  }

  /** Each confirmed command with its index. */
  function Announced(confirmed: seq<Confirmation>): (messages: seq<(Command, nat)>)
    ensures |messages| == |confirmed|
    ensures forall k :: 0 <= k < |confirmed| ==> messages[k] == (confirmed[k].command, confirmed[k].lastIdx)
  {
    seq(|confirmed|, k requires 0 <= k < |confirmed| => (confirmed[k].command, confirmed[k].lastIdx))
  }

  /** The client is told of each confirmation once, in order. */
  ghost predicate Answered(answers: seq<Ack>, confirmed: seq<Confirmation>) {
    && |answers| == |confirmed|
    && forall k :: 0 <= k < |confirmed| ==>
         answers[k].command == confirmed[k].command && answers[k].hash == confirmed[k].hash
  }

  lemma {:induction false} CausedIsTold(completing: seq<Ack>, confirmed: seq<Confirmation>)
    requires Caused(completing, confirmed)
    ensures Messages(completing) == Announced(confirmed) && Answered(completing, confirmed)
  {
  }

  ghost predicate IndexedInOrder(confirmed: seq<Confirmation>) {
    forall k :: 0 <= k < |confirmed| ==> confirmed[k].lastIdx == k + 1
  }

  lemma {:induction false} RunIsIndexed(n: nat, f: nat, leaders: set<nat>, steps: seq<Step>, s: Cluster)
    requires n > 2 * f && After(Start(n, f, leaders), steps) == Some(s)
    ensures IndexedInOrder(s.confirmed)
  {
    RunKeepsInv(n, f, leaders, steps);
    forall k | 0 <= k < |s.confirmed| ensures s.confirmed[k].lastIdx == k + 1 {
      assert Follows(s.confirmed, k);
    }
  }

  lemma {:induction false} CompletingLead(quorum: nat, acks: seq<Ack>, leaders: set<nat>)
    requires LeadersRespond(acks, leaders)
    ensures LeadersRespond(Completing(quorum, map[], acks), leaders)
  {
    CompletingHandled(quorum, map[], acks);
  }

  lemma {:induction false} RunWithinBound(n: nat, f: nat, leaders: set<nat>, steps: seq<Step>, s: Cluster,
                                          acks: seq<Ack>)
    requires n > 2 * f && After(Start(n, f, leaders), steps) == Some(s)
    requires acks == Handled(Start(n, f, leaders), steps)
    ensures IndexedInOrder(s.confirmed) && LeadersRespond(Completing(n - f, map[], acks), leaders)
  {
    RunIsIndexed(n, f, leaders, steps, s);
    SpeculationsLead(n, f, leaders, steps);
    CompletingLead(n - f, acks, leaders);
  }

  /**
   * The proxy of a run of the cluster. Every server is sent exactly the confirmed commands, in order, and
   * the client is answered for each by the acknowledgement that completed its quorum. Within the fault
   * bound the indices sent are 1, 2, 3, ..., and an answer has a response only if its sender leads.
   */
  method RunProxy(n: nat, f: nat, leaders: set<nat>, steps: seq<Step>, ghost s: Cluster) returns (proxy: Proxy)
    requires f <= n && After(Start(n, f, leaders), steps) == Some(s)
    ensures proxy.db == s.table && |proxy.toServers| == n
    ensures forall i :: 0 <= i < n ==> proxy.toServers[i] == Announced(s.confirmed)
    ensures Answered(proxy.toClient, s.confirmed)
    ensures n > 2 * f ==> IndexedInOrder(s.confirmed) && LeadersRespond(proxy.toClient, leaders)
  {
    proxy := new Proxy(n, f);
    var acks := Handled(Start(n, f, leaders), steps);
    proxy.HandleAcks(acks);
    RunIsHandling(n, f, leaders, steps, s);
    CausedIsTold(Completing(n - f, map[], acks), s.confirmed);
    if n > 2 * f {
      RunWithinBound(n, f, leaders, steps, s, acks);
    }
  }

  // A quorum that appends one command, the leader first.

  /** A quorum of `q` servers appends `command`, the leader first, and all that they acknowledge is handled. */
  function QuorumStepAt(q: nat, command: Command, i: nat): Step {
    if i < q then Append(i, command, if i == 0 then Some(Respond(map[], command.kv)) else None) else Handle(i - q)
  }

  function QuorumSteps(q: nat, command: Command, i: nat): seq<Step> {
    seq(i, j requires 0 <= j < i => QuorumStepAt(q, command, j))
  }

  ghost predicate QuorumState(s: Cluster, n: nat, f: nat, command: Command, i: nat) {
    var q := n - f;
    && s.n == n && s.f == f && s.leaders == {0} && |s.logs| == |s.channels| == n && f <= n
    && (forall p :: 0 <= p < n ==> s.logs[p] == if p < q && p < i then [command] else [])
    && (forall p :: 0 <= p < n ==> |s.channels[p]| == if p < q && p < i && i <= q + p then 1 else 0)
  }

  /** One server of the quorum appends, or the oldest acknowledgement is handled. */
  lemma {:induction false} QuorumStep(m: Cluster, n: nat, f: nat, command: Command, i: nat)
    requires n > 2 * f && i < 2 * (n - f) && QuorumState(m, n, f, command, i)
    ensures var step := QuorumStepAt(n - f, command, i);
            Enabled(m, step) && QuorumState(Perform(m, step), n, f, command, i + 1)
  {
    var q, step := n - f, QuorumStepAt(n - f, command, i);
    var s, p := Perform(m, step), step.server;
    if i < q {
      assert m.logs[p] == [] && m.logs[p] + [command] == [command];
      assert s.logs == m.logs[p := [command]] && |s.channels[p]| == |m.channels[p]| + 1;
    } else {
      assert s.logs == m.logs && |s.channels[p]| == |m.channels[p]| - 1;
    }
    assert forall r :: 0 <= r < n && r != p ==> s.channels[r] == m.channels[r];
  }

  lemma {:induction false} QuorumRun(n: nat, f: nat, command: Command, i: nat) returns (s: Cluster)
    requires n > 2 * f && i <= 2 * (n - f)
    ensures After(Start(n, f, {0}), QuorumSteps(n - f, command, i)) == Some(s)
    ensures Reachable(s) && QuorumState(s, n, f, command, i)
  {
    if i == 0 {
      s := Start(n, f, {0});
    } else {
      var m := QuorumRun(n, f, command, i - 1);
      QuorumStep(m, n, f, command, i - 1);
      assert QuorumSteps(n - f, command, i)[..i - 1] == QuorumSteps(n - f, command, i - 1);
      s := Perform(m, QuorumStepAt(n - f, command, i - 1));
    }
    assert After(Start(s.n, s.f, s.leaders), QuorumSteps(n - f, command, i)) == Some(s);
  }

  lemma {:induction false} QuorumConfirms(s: Cluster, n: nat, f: nat, command: Command)
    requires n > 2 * f && Reachable(s) && QuorumState(s, n, f, command, 2 * (n - f))
    ensures IsConfirmed(s, DigestOf([command])) && |s.confirmed| > 0
  {
    var backers := Backers(s, DigestOf([command]));
    forall p | p in Servers(n - f) ensures p in backers {
      assert s.logs[p] == [command] && s.channels[p] == [];
    }
    SubsetCardinality(Servers(n - f), backers);
    assert 0 in backers * s.leaders;
    ConfirmedIffQuorumHandled(s, DigestOf([command]));
  }

  ghost predicate FromInTurn(acks: seq<Ack>, k: int) {
    |acks| == (if k < 0 then 0 else k) && forall j :: 0 <= j < |acks| ==> acks[j].from == j
  }

  lemma {:induction false} QuorumNext(n: nat, f: nat, command: Command, i: nat) returns (m: Cluster)
    requires n > 2 * f && i < 2 * (n - f)
    ensures After(Start(n, f, {0}), QuorumSteps(n - f, command, i)) == Some(m)
    ensures Enabled(m, QuorumStepAt(n - f, command, i))
    ensures i >= n - f ==> m.channels[i - (n - f)][0].from == i - (n - f)
  {
    m := QuorumRun(n, f, command, i);
    QuorumStep(m, n, f, command, i);
    if i >= n - f {
      OldestFrom(n, f, {0}, QuorumSteps(n - f, command, i), m, i - (n - f));
    }
  }

  /** The servers of the quorum are handled in turn. */
  lemma {:induction false} QuorumHandled(n: nat, f: nat, command: Command, i: nat)
    requires n > 2 * f && i <= 2 * (n - f)
    ensures FromInTurn(Handled(Start(n, f, {0}), QuorumSteps(n - f, command, i)), i - (n - f))
  {
    if i > 0 {
      QuorumHandled(n, f, command, i - 1);
      var m := QuorumNext(n, f, command, i - 1);
      assert QuorumSteps(n - f, command, i) ==
             QuorumSteps(n - f, command, i - 1) + [QuorumStepAt(n - f, command, i - 1)];
      HandledNext(Start(n, f, {0}), QuorumSteps(n - f, command, i - 1), QuorumStepAt(n - f, command, i - 1), m);
    }
  }

  /** With a quorum of at least two the first acknowledgement of all confirms nothing. */
  lemma {:induction false} FirstCompletesNothing(quorum: nat, acks: seq<Ack>)
    requires quorum >= 2 && |acks| > 0 && FromInTurn(acks, |acks|)
    ensures forall a :: a in Completing(quorum, map[], acks) ==> a.from > 0
  {
    if |acks| > 1 {
      assert FromInTurn(acks[..|acks| - 1], |acks| - 1);
      FirstCompletesNothing(quorum, acks[..|acks| - 1]);
    } else {
      assert TableAfter(quorum, map[], acks[..0]) == map[] && Completing(quorum, map[], acks[..0]) == [];
    }
  }

  /** The leader's response arrived, but nothing that the client is answered carries one. */
  ghost predicate LacksResponse(quorum: nat, acks: seq<Ack>) {
    && (exists a :: a in acks && a.speculation.Some?)
    && Completing(quorum, map[], acks) != []
    && forall a :: a in Completing(quorum, map[], acks) ==> a.speculation.None?
  }

  lemma {:induction false} LaterAnswersLack(quorum: nat, acks: seq<Ack>)
    requires quorum >= 2 && |acks| > 0 && Completing(quorum, map[], acks) != []
    requires FromInTurn(acks, |acks|)
    requires LeadersRespond(acks, {0})
    ensures LacksResponse(quorum, acks)
  {
    CompletingHandled(quorum, map[], acks);
    FirstCompletesNothing(quorum, acks);
    assert acks[0] in acks;
  }

  /**
   * The client is sent the acknowledgement that completed the quorum, not the response kept in the table:
   * whenever a quorum has two servers, the leader's can come first, and no answer of the run has a response.
   */
  lemma {:induction false} AnswerLacksResponse(n: nat, f: nat, command: Command) returns (steps: seq<Step>, s: Cluster)
    requires n > 2 * f && n - f >= 2
    ensures After(Start(n, f, {0}), steps) == Some(s) && IsConfirmed(s, DigestOf([command]))
    ensures LacksResponse(n - f, Handled(Start(n, f, {0}), steps))
  {
    steps := QuorumSteps(n - f, command, 2 * (n - f));
    s := QuorumRun(n, f, command, 2 * (n - f));
    QuorumConfirms(s, n, f, command);
    RunIsHandling(n, f, {0}, steps, s);
    SpeculationsLead(n, f, {0}, steps);
    QuorumHandled(n, f, command, 2 * (n - f));
    LaterAnswersLack(n - f, Handled(Start(n, f, {0}), steps));
  }

  // What the table tells of a hash.

  /** The acknowledgements of `h`. */
  function Of(acks: seq<Ack>, h: Digest): seq<Ack> {
    if |acks| == 0 then []
    else
      var last := |acks| - 1;
      if acks[last].hash == h then Of(acks[..last], h) + [acks[last]] else Of(acks[..last], h)
  }

  /** The response of the first leader among them. */
  function FirstResponse(acks: seq<Ack>): Speculation {
    if |acks| == 0 then None
    else if acks[0].speculation.Some? then acks[0].speculation
    else FirstResponse(acks[1..])
  }

  lemma {:induction false} FirstResponseNext(acks: seq<Ack>, ack: Ack)
    ensures FirstResponse(acks + [ack]) == if FirstResponse(acks).Some? then FirstResponse(acks) else ack.speculation
  {
    if |acks| > 0 {
      assert (acks + [ack])[1..] == acks[1..] + [ack];
      FirstResponseNext(acks[1..], ack);
    } else {
      assert (acks + [ack])[1..] == [];
    }
  }

  /** Until a hash is confirmed, its entry counts its acknowledgements and keeps the first leader's response. */
  lemma {:induction false} EntryTells(quorum: nat, table: Table, acks: seq<Ack>, h: Digest)
    requires h !in table && forall a :: a in Completing(quorum, table, acks) ==> a.hash != h
    ensures var (after, mine) := (TableAfter(quorum, table, acks), Of(acks, h));
            if |mine| == 0 then h !in after
            else h in after && after[h] == Entry(|mine|, FirstResponse(mine))
  {
    if |acks| > 0 {
      var before, last := acks[..|acks| - 1], acks[|acks| - 1];
      assert acks == before + [last];
      OneMoreAck(quorum, table, before, last);
      EntryTells(quorum, table, before, h);
      FirstResponseNext(Of(before, h), last);
    }
  }
}
