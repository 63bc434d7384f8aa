/**
 * Election safety over every crash-free run of a cluster whose network may lose, duplicate
 * and reorder heartbeat messages.
 */
module ElectionSafety {
  import opened Wrappers
  import opened Ballots
  import opened Quorums
  import opened LeaderElection
  import opened Replicas

  /** `network` holds every message ever sent; delivering from it loses, repeats and reorders freely. */
  datatype System = System(replicas: map<NodeId, Replica>, network: set<BleMessage>, elected: seq<(NodeId, Ballot)>)

  datatype Action =
    | Deliver(node: NodeId, message: BleMessage)
    | Timeout(node: NodeId)
    | TryLead(node: NodeId)
    | SetPriority(node: NodeId, priority: nat)
    | Reconnect(node: NodeId, peer: NodeId)

  predicate Enabled(s: System, a: Action) {
    a.node in s.replicas && (a.Deliver? ==> a.message in s.network && a.message.to == a.node)
  }

  function Act(r: Replica, a: Action): Replica {
    match a
    case Deliver(_, m) => r.(ble := Handle(r.ble, m))
    case Timeout(_) => ElectionTimeout(r)
    case TryLead(_) => TryBecomeLeader(r)
    case SetPriority(_, p) => r.(ble := r.ble.(current := r.ble.current.(priority := p)))
    case Reconnect(_, peer) => Reconnected(r, peer)
  }

  /** One action of one node: its outgoing messages are sent and a new promise is an election. */
  function Perform(s: System, a: Action): System
    requires Enabled(s, a)
  {
    var r := s.replicas[a.node];
    var r' := Act(r, a);
    System(
      s.replicas[a.node := r'.(ble := r'.ble.(outgoing := []))],
      s.network + set m | m in r'.ble.outgoing,
      if r'.promise != r.promise then s.elected + [(a.node, r'.promise)] else s.elected)
  }

  ghost predicate Initial(s: System, config: ClusterConfig, priorities: map<NodeId, nat>) {
    && s.replicas.Keys == priorities.Keys == Members(config.nodes)
    && s.elected == []
    && (forall m :: m in s.network ==> m.msg.Request?)
    && forall p :: p in s.replicas ==>
         exists peers :: s.replicas[p] == FirstReplica(config, p, peers, priorities[p])
  }

  /** A started replica, whose first heartbeat requests have been sent. */
  function FirstReplica(config: ClusterConfig, p: NodeId, peers: seq<NodeId>, priority: nat): Replica {
    var quorum := QuorumFor(config.flexibleQuorum, |peers| + 1);
    NewReplica(InitialState(config.configurationId, p, peers, priority, quorum, None).(outgoing := []))
  }

  /** `run[i + 1]` results from `actions[i]` in `run[i]`. */
  ghost predicate IsRun(run: seq<System>, actions: seq<Action>) {
    && |run| == |actions| + 1
    && (exists config, priorities :: Initial(run[0], config, priorities))
    && forall i {:trigger actions[i]} :: 0 <= i < |actions| ==>
         Enabled(run[i], actions[i]) && run[i + 1] == Perform(run[i], actions[i])
  }

  /** The ballot belongs to a node whose own round has reached it. */
  predicate Reached(s: System, b: Ballot) {
    b.pid in s.replicas && b.n <= s.replicas[b.pid].ble.current.n
  }

  /** A node follows only ballots that their owner's current round has reached, its own included. */
  predicate FollowsReached(s: System, p: NodeId)
    requires p in s.replicas
  {
    Reached(s, s.replicas[p].ble.leader) && s.replicas[p].ble.current.n <= s.replicas[p].ble.leader.n
  }

  ghost predicate NobodyFollowsAhead(s: System) {
    forall p {:trigger FollowsReached(s, p)} :: p in s.replicas ==> FollowsReached(s, p)
  }

  ghost predicate OwnBallots(s: System) {
    forall p :: p in s.replicas ==>
      var r := s.replicas[p];
      && r.ble.pid == p && r.ble.current.pid == p
      && (r.promise == DEFAULT_BALLOT || r.promise.pid == p)
  }

  ghost predicate HeardBallotsReached(s: System) {
    && (forall p, r :: p in s.replicas && r in s.replicas[p].ble.replies ==> Reached(s, r.ballot))
    && (forall m :: m in s.network && m.msg.Reply? ==> Reached(s, m.msg.reply.ballot))
  }

  /** Every elected ballot is its elector's own and below its promise; one node's grow strictly. */
  ghost predicate ElectionsOrdered(s: System) {
    && (forall e :: e in s.elected ==> e.0 == e.1.pid && e.0 in s.replicas && AtMost(e.1, s.replicas[e.0].promise))
    && (forall i, j :: 0 <= i < j < |s.elected| && s.elected[i].0 == s.elected[j].0 ==>
          Less(s.elected[i].1, s.elected[j].1))
  }

  ghost predicate Inv(s: System) {
    NobodyFollowsAhead(s) && OwnBallots(s) && HeardBallotsReached(s) && ElectionsOrdered(s)
  }

  /** What one action may do to the replica that takes it. */
  ghost predicate Grows(r: Replica, r': Replica) {
    && AtMost(r.ble.leader, r'.ble.leader)
    && r.ble.current.n <= r'.ble.current.n
    && (r'.promise == r.promise || (Less(r.promise, r'.promise) && r'.promise.pid == r.ble.pid))
  }

  /** Following the largest ballot heard and then perhaps taking over. */
  lemma {:induction false} ElectedFacts(s: BleState, role: Role, phase: Phase)
    requires s.current.n <= s.leader.n
    ensures var s' := Takeover(WithHappiness(WithLeader(s), role, phase));
            && AtMost(s.leader, s'.leader) && s.current.n <= s'.current.n <= s'.leader.n
            && s'.current == s.current.(n := s'.current.n)
            && (|| s'.leader == s'.current
                || s'.leader == s.leader
                || exists rep :: rep in s.replies && rep.ballot == s'.leader)
  {
    var s1 := WithLeader(s);
    var s2 := Takeover(WithHappiness(s1, role, phase));
    assert s2.leader == s2.current || s2.leader == s1.leader;
    assert AtMost(s1.leader, s2.leader);
  }

  /** What an own promise changes before the new round starts. */
  lemma {:induction false} SyncFacts(s: BleState, promise: Ballot)
    requires s.current.n <= s.leader.n && (promise == DEFAULT_BALLOT || promise.pid == s.pid)
    ensures var s' := SyncWithPromise(NewHbRound(s), promise);
            && AtMost(s.leader, s'.leader) && s.current.n <= s'.current.n <= s'.leader.n
            && s'.replies == [] && s'.pid == s.pid
            && (s'.current == s.current || s'.current == promise)
            && (s'.leader == s.leader || (s'.leader == s'.current == promise && promise.pid == s.pid))
            && (forall m :: m in s'.outgoing && m.msg.Reply? ==> m in s.outgoing)
  {
    assert forall m :: m in HeartbeatRequests(s.pid, s.peers, s.hbRound + 1) ==> m.msg.Request?;
  }

  lemma {:induction false} AtMostTransitive(a: Ballot, b: Ballot, c: Ballot)
    requires AtMost(a, b) && AtMost(b, c)
    ensures AtMost(a, c)
  {
  }

  /** The election state after a timeout. */
  lemma {:induction false} TimeoutBallots(s: BleState, role: Role, phase: Phase, promise: Ballot)
    requires s.current.pid == s.pid && s.current.n <= s.leader.n
    requires promise == DEFAULT_BALLOT || promise.pid == s.pid
    ensures var s' := HbTimeout(s, role, phase, promise);
            && AtMost(s.leader, s'.leader) && s.current.n <= s'.current.n <= s'.leader.n
            && s'.pid == s.pid && s'.current.pid == s.pid && s'.replies == []
            && (|| s'.leader == s'.current
                || s'.leader == s.leader
                || exists rep :: rep in s.replies && rep.ballot == s'.leader)
            && (forall m :: m in s'.outgoing && m.msg.Reply? ==> m in s.outgoing)
  {
    var s1 := Takeover(WithHappiness(WithLeader(s), role, phase));
    ElectedFacts(s, role, phase);
    SyncFacts(s1, promise);
    AtMostTransitive(s.leader, s1.leader, SyncWithPromise(NewHbRound(s1), promise).leader);
  }

  /** The facts about a timeout that the invariant needs, for one replica on its own. */
  lemma {:induction false} TimeoutFacts(r: Replica)
    requires r.ble.current.pid == r.ble.pid && r.ble.current.n <= r.ble.leader.n
    requires r.promise == DEFAULT_BALLOT || r.promise.pid == r.ble.pid
    ensures var r' := ElectionTimeout(r);
            && Grows(r, r')
            && r'.ble.pid == r.ble.pid && r'.ble.current.pid == r.ble.pid
            && r'.ble.current.n <= r'.ble.leader.n
            && (r'.promise == DEFAULT_BALLOT || r'.promise.pid == r.ble.pid)
            && r'.ble.replies == []
            && (|| r'.ble.leader == r'.ble.current
                || r'.ble.leader == r.ble.leader
                || exists rep :: rep in r.ble.replies && rep.ballot == r'.ble.leader)
            && (forall m :: m in r'.ble.outgoing && m.msg.Reply? ==> m in r.ble.outgoing)
  {
    TimeoutBallots(r.ble, r.role, r.phase, r.promise);
    assert ElectionTimeout(r).ble == HbTimeout(r.ble, r.role, r.phase, r.promise);
  }

  lemma {:induction false} ActFacts(r: Replica, a: Action)
    requires r.ble.current.pid == r.ble.pid && r.ble.current.n <= r.ble.leader.n && r.ble.outgoing == []
    requires r.promise == DEFAULT_BALLOT || r.promise.pid == r.ble.pid
    ensures var r' := Act(r, a);
            && Grows(r, r')
            && r'.ble.pid == r.ble.pid && r'.ble.current.pid == r.ble.pid
            && r'.ble.current.n <= r'.ble.leader.n
            && (r'.promise == DEFAULT_BALLOT || r'.promise.pid == r.ble.pid)
            && (|| r'.ble.leader == r'.ble.current
                || r'.ble.leader == r.ble.leader
                || exists rep :: rep in r.ble.replies && rep.ballot == r'.ble.leader)
            && (forall m :: m in r'.ble.outgoing && m.msg.Reply? ==> m.msg.reply.ballot == r.ble.current)
            && (forall rep :: rep in r'.ble.replies ==>
                  rep in r.ble.replies || (a.Deliver? && a.message.msg == Reply(rep)))
  {
    if a.Timeout? {
      TimeoutFacts(r);
    }
  }

  lemma {:induction false} InitialInv(s: System, config: ClusterConfig, priorities: map<NodeId, nat>)
    requires Initial(s, config, priorities)
    ensures Inv(s) && Drained(s)
  {
    forall p | p in s.replicas
      ensures var r := s.replicas[p];
              && FollowsReached(s, p) && r.ble.pid == p && r.ble.current.pid == p
              && r.promise == DEFAULT_BALLOT && r.ble.replies == [] && r.ble.outgoing == []
    {
      var peers :| s.replicas[p] == FirstReplica(config, p, peers, priorities[p]);
    }
  }

  lemma {:induction false} ReachedStays(s: System, a: Action, b: Ballot)
    requires Inv(s) && Enabled(s, a) && s.replicas[a.node].ble.outgoing == [] && Reached(s, b)
    ensures Reached(Perform(s, a), b)
  {
    assert FollowsReached(s, a.node);
    ActFacts(s.replicas[a.node], a);
  }

  ghost predicate Drained(s: System) {
    forall p :: p in s.replicas ==> s.replicas[p].ble.outgoing == []
  }

  lemma {:induction false} StepKeepsBallots(s: System, a: Action)
    requires Inv(s) && Drained(s) && Enabled(s, a)
    ensures Drained(Perform(s, a)) && OwnBallots(Perform(s, a)) && HeardBallotsReached(Perform(s, a))
  {
    var s' := Perform(s, a);
    var r := s.replicas[a.node];
    assert FollowsReached(s, a.node);
    ActFacts(r, a);
    forall p, rep | p in s'.replicas && rep in s'.replicas[p].ble.replies ensures Reached(s', rep.ballot) {
      assert Reached(s, rep.ballot);
      ReachedStays(s, a, rep.ballot);
    }
    forall m | m in s'.network && m.msg.Reply? ensures Reached(s', m.msg.reply.ballot) {
      if m in s.network {
        ReachedStays(s, a, m.msg.reply.ballot);
      } else {
        assert m.msg.reply.ballot == r.ble.current;
      }
    }
  }

  lemma {:induction false} StepKeepsLeaders(s: System, a: Action)
    requires Inv(s) && Drained(s) && Enabled(s, a)
    ensures NobodyFollowsAhead(Perform(s, a))
  {
    var s' := Perform(s, a);
    var r, r' := s.replicas[a.node], Act(s.replicas[a.node], a);
    assert FollowsReached(s, a.node);
    ActFacts(r, a);
    forall p | p in s'.replicas ensures FollowsReached(s', p) {
      if p != a.node {
        assert FollowsReached(s, p);
        ReachedStays(s, a, s.replicas[p].ble.leader);
      } else if r'.ble.leader != r'.ble.current {
        assert Reached(s, r'.ble.leader);
        ReachedStays(s, a, r'.ble.leader);
      }
    }
  }

  /** An election is of the node's own new promise, which is larger than its last. */
  lemma {:induction false} StepElects(s: System, a: Action)
    requires Inv(s) && Drained(s) && Enabled(s, a)
    ensures var (s', p) := (Perform(s, a), s.replicas[a.node].promise);
            var p' := s'.replicas[a.node].promise;
            && s'.replicas == s.replicas[a.node := s'.replicas[a.node]]
            && s'.elected == (if p' == p then s.elected else s.elected + [(a.node, p')])
            && (p' != p ==> Less(p, p') && p'.pid == a.node)
  {
    assert FollowsReached(s, a.node);
    ActFacts(s.replicas[a.node], a);
  }

  lemma {:induction false} ElectOne(s: System, s': System, node: NodeId)
    requires ElectionsOrdered(s) && node in s.replicas && node in s'.replicas
    requires s'.replicas == s.replicas[node := s'.replicas[node]]
    requires var (p, p') := (s.replicas[node].promise, s'.replicas[node].promise);
             Less(p, p') && p'.pid == node && s'.elected == s.elected + [(node, p')]
    ensures ElectionsOrdered(s')
  {
    var last := (node, s'.replicas[node].promise);
    forall e | e in s'.elected
      ensures e.0 == e.1.pid && e.0 in s'.replicas && AtMost(e.1, s'.replicas[e.0].promise)
    {
      assert e in s.elected || e == last;
    }
    forall i | 0 <= i < |s.elected| && s.elected[i].0 == node ensures Less(s.elected[i].1, last.1) {
      assert s.elected[i] in s.elected;
    }
  }

  lemma {:induction false} StepKeepsElections(s: System, a: Action)
    requires Inv(s) && Drained(s) && Enabled(s, a)
    ensures ElectionsOrdered(Perform(s, a))
  {
    var s' := Perform(s, a);
    StepElects(s, a);
    if s'.replicas[a.node].promise != s.replicas[a.node].promise {
      ElectOne(s, s', a.node);
    }
  }

  /** Every action keeps the invariant, and no replica goes back. */
  lemma {:induction false} StepInv(s: System, a: Action)
    requires Inv(s) && Drained(s) && Enabled(s, a)
    ensures var s' := Perform(s, a);
            && Inv(s') && Drained(s')
            && s'.replicas.Keys == s.replicas.Keys
            && forall p :: p in s.replicas ==> Grows(s.replicas[p], s'.replicas[p])
  {
    StepKeepsBallots(s, a);
    StepKeepsLeaders(s, a);
    StepKeepsElections(s, a);
    assert FollowsReached(s, a.node);
    ActFacts(s.replicas[a.node], a);
  }

  lemma {:induction false} RunInv(run: seq<System>, actions: seq<Action>, i: nat)
    requires IsRun(run, actions) && i < |run|
    ensures Inv(run[i]) && Drained(run[i]) && run[i].replicas.Keys == run[0].replicas.Keys
  {
    if i == 0 {
      var config, priorities :| Initial(run[0], config, priorities);
      InitialInv(run[0], config, priorities);
    } else {
      RunInv(run, actions, i - 1);
      StepInv(run[i - 1], actions[i - 1]);
    }
  }

  /**
   * In every run, at every moment: nobody follows a ballot its owner has not reached, no node's
   * own round is beyond its leader's, and every ballot is elected at most once, by its owner.
   */
  lemma {:induction false} ElectionSafety(run: seq<System>, actions: seq<Action>, i: nat)
    requires IsRun(run, actions) && i < |run|
    ensures NobodyFollowsAhead(run[i])
    ensures forall j, k :: 0 <= j < k < |run[i].elected| ==> run[i].elected[j].1 != run[i].elected[k].1
    ensures forall e :: e in run[i].elected ==> e.0 == e.1.pid
  {
    RunInv(run, actions, i);
    ElectedOnce(run[i]);
  }

  lemma {:induction false} ElectedOnce(s: System)
    requires ElectionsOrdered(s)
    ensures forall j, k :: 0 <= j < k < |s.elected| ==> s.elected[j].1 != s.elected[k].1
    ensures forall e :: e in s.elected ==> e.0 == e.1.pid
  {
    forall j, k | 0 <= j < k < |s.elected| ensures s.elected[j].1 != s.elected[k].1 {
      assert s.elected[j] in s.elected && s.elected[k] in s.elected;
    }
  }

  lemma {:induction false} StepGrows(run: seq<System>, actions: seq<Action>, i: nat, p: NodeId)
    requires IsRun(run, actions) && i < |actions| && p in run[i].replicas
    ensures p in run[i + 1].replicas && Grows(run[i].replicas[p], run[i + 1].replicas[p])
  {
    RunInv(run, actions, i);
    StepInv(run[i], actions[i]);
  }

  lemma {:induction false} PerformKeeps(s: System, a: Action, p: NodeId)
    requires Enabled(s, a) && p in s.replicas
    ensures p in Perform(s, a).replicas
  {
  }

  lemma {:induction false} NodeStays(run: seq<System>, actions: seq<Action>, i: nat, p: NodeId)
    requires IsRun(run, actions) && i < |run| && p in run[0].replicas
    ensures p in run[i].replicas
  {
    if i > 0 {
      NodeStays(run, actions, i - 1, p);
      PerformKeeps(run[i - 1], actions[i - 1], p);
    }
  }

  /** Leader and own round do not decrease, and a promise that changes increases. */
  predicate NotBelow(r: Replica, r': Replica) {
    && AtMost(r.ble.leader, r'.ble.leader)
    && r.ble.current.n <= r'.ble.current.n
    && (r.promise == r'.promise || Less(r.promise, r'.promise))
  }

  lemma {:induction false} GrowthGoesOn(r: Replica, r': Replica, r'': Replica)
    requires NotBelow(r, r') && Grows(r', r'')
    ensures NotBelow(r, r'')
  {
  }

  /** Between any two moments of a run no leader decreases and promises change only upwards. */
  lemma {:induction false} NothingGoesBack(run: seq<System>, actions: seq<Action>, i: nat, j: nat, p: NodeId)
    requires IsRun(run, actions) && i <= j < |run| && p in run[0].replicas
    ensures p in run[i].replicas && p in run[j].replicas
    ensures NotBelow(run[i].replicas[p], run[j].replicas[p])
    decreases j
  {
    NodeStays(run, actions, i, p);
    NodeStays(run, actions, j, p);
    if i < j {
      NothingGoesBack(run, actions, i, j - 1, p);
      StepGrows(run, actions, j - 1, p);
      GrowthGoesOn(run[i].replicas[p], run[j - 1].replicas[p], run[j].replicas[p]);
    }
  }
}
