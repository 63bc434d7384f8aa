/**
 * Roles over every run of an election: who leads has been elected, and keeps the role whatever
 * happens, because only ballots of a server's own are ever handed to it.
 */
module ElectionRoles {
  import opened Wrappers
  import opened Ballots
  import opened Quorums
  import opened LeaderElection
  import opened Replicas
  import opened ElectionSafety

  /** The server leads with the ballot it was elected with last, or has never been elected. */
  ghost predicate RoleEarned(s: System, p: NodeId)
    requires p in s.replicas
  {
    var r := s.replicas[p];
    && r.nLeader == r.promise
    && match r.role
       case Leader => r.phase == Prepare && r.promise.pid == p && (p, r.promise) in s.elected
       case Follower => forall e :: e in s.elected ==> e.0 != p
  }

  ghost predicate RolesEarned(s: System) {
    forall p {:trigger RoleEarned(s, p)} :: p in s.replicas ==> RoleEarned(s, p)
  }

  /** What an action does to the role of the server that takes it. */
  lemma {:induction false} RoleAfter(r: Replica, a: Action)
    requires r.ble.pid == r.ble.current.pid && r.nLeader == r.promise
    requires r.role.Leader? ==> r.promise.pid == r.ble.pid && r.phase == Prepare
    requires a.Timeout? ==> HbTimeout(r.ble, r.role, r.phase, r.promise).current.pid == r.ble.pid
    ensures var r' := Act(r, a);
            && r'.nLeader == r'.promise
            && (r'.promise != r.promise ==> r'.role.Leader? && r'.phase == Prepare && r'.promise.pid == r.ble.pid)
            && (r'.promise == r.promise ==> r'.role == r.role && (r.role.Leader? ==> r'.phase == Prepare))
  {
  }

  ghost predicate LeadersKept(s: System, s': System) {
    forall p :: p in s.replicas && s.replicas[p].role.Leader? ==> p in s'.replicas && s'.replicas[p].role.Leader?
  }

  /** An action of a server elects exactly if it changes its promise, and then the server leads. */
  lemma {:induction false} ActorRole(s: System, a: Action)
    requires Inv(s) && Drained(s) && RolesEarned(s) && Enabled(s, a)
    ensures var (r, r') := (s.replicas[a.node], Perform(s, a).replicas[a.node]);
            && r'.nLeader == r'.promise
            && (r'.promise != r.promise ==> r'.role.Leader? && r'.phase == Prepare && r'.promise.pid == a.node)
            && (r'.promise == r.promise ==> r'.role == r.role && (r.role.Leader? ==> r'.phase == Prepare))
  {
    var r := s.replicas[a.node];
    assert RoleEarned(s, a.node) && FollowsReached(s, a.node);
    if a.Timeout? {
      TimeoutBallots(r.ble, r.role, r.phase, r.promise);
    }
    RoleAfter(r, a);
  }

  lemma {:induction false} StepRole(s: System, a: Action)
    requires Inv(s) && Drained(s) && RolesEarned(s) && Enabled(s, a)
    ensures RolesEarned(Perform(s, a)) && LeadersKept(s, Perform(s, a))
  {
    var s' := Perform(s, a);
    ActorRole(s, a);
    forall p | p in s'.replicas ensures RoleEarned(s', p) {
      assert RoleEarned(s, p);
      if s'.elected != s.elected {
        assert s'.elected[|s.elected|] == (a.node, s'.replicas[a.node].promise);
      }
    }
  }

  lemma {:induction false} InitialRoles(s: System, config: ClusterConfig, priorities: map<NodeId, nat>)
    requires Initial(s, config, priorities)
    ensures RolesEarned(s)
  {
    forall p | p in s.replicas ensures RoleEarned(s, p) {
      var peers :| s.replicas[p] == FirstReplica(config, p, peers, priorities[p]);
    }
  }

  lemma {:induction false} NextRoles(run: seq<System>, actions: seq<Action>, i: nat)
    requires IsRun(run, actions) && i < |actions| && RolesEarned(run[i])
    ensures RolesEarned(run[i + 1]) && LeadersKept(run[i], run[i + 1])
  {
    RunInv(run, actions, i);
    StepRole(run[i], actions[i]);
  }

  lemma {:induction false} RunRoles(run: seq<System>, actions: seq<Action>, i: nat)
    requires IsRun(run, actions) && i < |run|
    ensures RolesEarned(run[i])
  {
    if i == 0 {
      var config, priorities :| Initial(run[0], config, priorities);
      InitialRoles(run[0], config, priorities);
    } else {
      RunRoles(run, actions, i - 1);
      NextRoles(run, actions, i - 1);
    }
  }

  /** Whenever an action adds an election, its server then leads with the elected ballot, preparing. */
  lemma {:induction false} ElectedLeads(run: seq<System>, actions: seq<Action>, i: nat)
    requires IsRun(run, actions) && i < |actions| && run[i + 1].elected != run[i].elected
    ensures var p := actions[i].node;
            && p in run[i + 1].replicas
            && var r := run[i + 1].replicas[p];
            && run[i + 1].elected == run[i].elected + [(p, r.promise)]
            && r.role == Leader && r.phase == Prepare && r.nLeader == r.promise && r.promise.pid == p
  {
    RunRoles(run, actions, i);
    RunInv(run, actions, i);
    ActorRole(run[i], actions[i]);
  }

  /** A server leads if and only if it has been elected, and then with the last ballot it was elected with. */
  lemma {:induction false} LeadsIffElected(run: seq<System>, actions: seq<Action>, i: nat, p: NodeId)
    requires IsRun(run, actions) && i < |run| && p in run[i].replicas
    ensures var r := run[i].replicas[p];
            && (r.role == Leader <==> exists e :: e in run[i].elected && e.0 == p)
            && (r.role == Leader ==>
                  && r.phase == Prepare && r.nLeader == r.promise && (p, r.promise) in run[i].elected
                  && forall e :: e in run[i].elected && e.0 == p ==> AtMost(e.1, r.promise))
  {
    RunRoles(run, actions, i);
    RunInv(run, actions, i);
    assert RoleEarned(run[i], p);
  }

  /**
   * Nobody ever steps down: once a server leads, it leads at every later moment of the run, whoever is
   * elected and whatever it is told, even when it is asked to recover by a reconnection.
   */
  lemma {:induction false} LeadersNeverStepDown(run: seq<System>, actions: seq<Action>, i: nat, j: nat, p: NodeId)
    requires IsRun(run, actions) && i <= j < |run|
    requires p in run[i].replicas && run[i].replicas[p].role == Leader
    ensures p in run[j].replicas && run[j].replicas[p].role == Leader
    decreases j
  {
    if i < j {
      LeadersNeverStepDown(run, actions, i, j - 1, p);
      RunRoles(run, actions, j - 1);
      NextRoles(run, actions, j - 1);
    }
  }

  /** Offering itself makes a server leader, whoever leads, with a ballot one past its promise. */
  lemma {:induction false} OfferingLeads(run: seq<System>, actions: seq<Action>, i: nat)
    requires IsRun(run, actions) && i < |actions| && actions[i].TryLead?
    ensures var p := actions[i].node;
            && p in run[i].replicas && p in run[i + 1].replicas
            && OfferedTo(run[i].replicas[p], run[i + 1].replicas[p])
            && run[i + 1].elected == run[i].elected + [(p, run[i + 1].replicas[p].promise)]
  {
    RunRoles(run, actions, i);
    RunInv(run, actions, i);
    StepOffers(run[i], actions[i]);
  }

  predicate OfferedTo(r: Replica, r': Replica) {
    && r'.promise == r'.nLeader == r.ble.current.(n := r.promise.n + 1)
    && r'.role == Leader && r'.phase == Prepare
  }

  lemma {:induction false} StepOffers(s: System, a: Action)
    requires Inv(s) && RolesEarned(s) && Enabled(s, a) && a.TryLead?
    ensures OfferedTo(s.replicas[a.node], Perform(s, a).replicas[a.node])
    ensures Perform(s, a).elected == s.elected + [(a.node, Perform(s, a).replicas[a.node].promise)]
  {
    assert RoleEarned(s, a.node);
  }

  /** The server counts only replies to its current request, from its own configuration. */
  ghost predicate RepliesAreCurrent(b: BleState) {
    forall rep :: rep in b.replies ==> rep.round == b.hbRound && rep.ballot.configId == b.configurationId
  }

  lemma {:induction false} ActCountsCurrent(r: Replica, a: Action)
    requires RepliesAreCurrent(r.ble)
    ensures RepliesAreCurrent(Act(r, a).ble)
  {
    if a.Timeout? {
      assert ElectionTimeout(r).ble.replies == [];
    }
  }

  lemma {:induction false} InitialReplies(s: System, config: ClusterConfig, priorities: map<NodeId, nat>, p: NodeId)
    requires Initial(s, config, priorities) && p in s.replicas
    ensures RepliesAreCurrent(s.replicas[p].ble)
  {
    var peers :| s.replicas[p] == FirstReplica(config, p, peers, priorities[p]);
  }

  /** Late and foreign replies are never counted, however messages are delayed and repeated. */
  lemma {:induction false} CountsCurrentReplies(run: seq<System>, actions: seq<Action>, i: nat, p: NodeId)
    requires IsRun(run, actions) && i < |run| && p in run[0].replicas
    ensures p in run[i].replicas && RepliesAreCurrent(run[i].replicas[p].ble)
  {
    if i == 0 {
      var config, priorities :| Initial(run[0], config, priorities);
      InitialReplies(run[0], config, priorities, p);
    } else {
      CountsCurrentReplies(run, actions, i - 1, p);
      NextCountsCurrent(run, actions, i - 1, p);
    }
  }

  lemma {:induction false} NextCountsCurrent(run: seq<System>, actions: seq<Action>, i: nat, p: NodeId)
    requires IsRun(run, actions) && i < |actions|
    requires p in run[i].replicas && RepliesAreCurrent(run[i].replicas[p].ble)
    ensures p in run[i + 1].replicas && RepliesAreCurrent(run[i + 1].replicas[p].ble)
  {
    StepCountsCurrent(run[i], actions[i], p);
  }

  lemma {:induction false} StepCountsCurrent(s: System, a: Action, p: NodeId)
    requires Enabled(s, a) && p in s.replicas && RepliesAreCurrent(s.replicas[p].ble)
    ensures p in Perform(s, a).replicas && RepliesAreCurrent(Perform(s, a).replicas[p].ble)
  {
    if p == a.node {
      ActCountsCurrent(s.replicas[p], a);
    }
  }
}
