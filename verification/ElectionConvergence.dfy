/**
 * Election convergence: after the leader crashes, three fully delivered heartbeat rounds make
 * all survivors follow the largest of their new ballots, and further rounds change nothing.
 */
module ElectionConvergence {
  import opened Ballots
  import opened Quorums
  import opened LeaderElection
  import opened Replicas
  import opened HeartbeatRounds

  /** Everybody hears everybody else. */
  function Everyone(s: Survivors): Links {
    map p | p in s :: s.Keys - {p}
  }

  /** All heartbeats of a round arrive, each node's in some order, and then everybody times out. */
  ghost predicate FullRound(s: Survivors, s': Survivors) {
    Round(Everyone(s), s, s')
  }

  /** Full rounds one after the other. */
  ghost predicate FullSchedule(rounds: seq<Survivors>) {
    |rounds| > 0 && IsSchedule(Everyone(rounds[0]), rounds)
  }

  /** All survivors run the same valid configuration and still form a prepare quorum. */
  ghost predicate SameCluster(s: Survivors, config: ClusterConfig) {
    && Validate(config) == Valid
    && IsPrepareQuorum(QuorumFor(config.flexibleQuorum, |config.nodes|), |s|)
    && AllMembers(s, config)
  }

  /** In a valid configuration a prepare quorum has at least two nodes and is an accept quorum. */
  lemma {:induction false} PrepareQuorumIsStrong(config: ClusterConfig, n: nat)
    requires Validate(config) == Valid
    requires IsPrepareQuorum(QuorumFor(config.flexibleQuorum, |config.nodes|), n)
    ensures n >= 2 && IsAcceptQuorum(QuorumFor(config.flexibleQuorum, |config.nodes|), n)
  {
  }

  // The stages of the election.

  /** Everybody still follows the crashed `lost` and has no ballot or promise to match it. */
  ghost predicate FollowLost(s: Survivors, lost: Ballot, happy: bool) {
    forall p :: p in s ==>
      && s[p].ble.leader == lost && s[p].ble.happy == happy
      && Less(s[p].ble.current, lost) && AtMost(s[p].promise, lost)
  }

  /** Everybody leads a ballot of its own, one round past `lost`. */
  ghost predicate AllCandidates(s: Survivors, lost: Ballot) {
    forall p :: p in s ==>
      && s[p].ble.leader == s[p].ble.current && s[p].ble.happy
      && s[p].ble.current.n == lost.n + 1 && AtMost(s[p].promise, s[p].ble.current)
  }

  /** `winner` is the largest current ballot among the survivors. */
  ghost predicate Largest(s: Survivors, winner: Ballot) {
    && winner.pid in s && s[winner.pid].ble.current == winner
    && forall p :: p in s ==> AtMost(s[p].ble.current, winner)
  }

  /** Everybody is happy with `winner`, the largest of the survivors' ballots. */
  ghost predicate Converged(s: Survivors, winner: Ballot) {
    && Largest(s, winner)
    && forall p :: p in s ==> s[p].ble.leader == winner && s[p].ble.happy && AtMost(s[p].promise, winner)
  }

  /** The ballot with which `r` takes over from `lost`. */
  function Candidate(r: Replica, lost: Ballot): Ballot {
    r.ble.current.(n := lost.n + 1)
  }

  lemma {:induction false} FullRoundKeepsMembers(s: Survivors, s': Survivors, config: ClusterConfig)
    requires SameCluster(s, config) && FullRound(s, s')
    requires forall p :: p in s ==> AtMost(s[p].promise, s[p].ble.leader)
    ensures SameCluster(s', config)
  {
    RoundKeepsMembers(Everyone(s), s, s', config);
  }

  /** Nobody hears a lost leader: the leader stays and the node is unhappy with it. */
  lemma {:induction false} HearsNoLeader(s: Survivors, p: NodeId, g: Replica, config: ClusterConfig, lost: Ballot,
                                         happy: bool)
    requires SameCluster(s, config) && lost.pid !in s && FollowLost(s, lost, happy) && p in s
    requires g == s[p].(ble := s[p].ble.(replies := g.ble.replies))
    requires forall rep :: rep in g.ble.replies ==> exists q :: q in s && q != p && rep == Answer(s, p, q)
    ensures WithLeader(g.ble).leader == lost && !IsHappy(WithLeader(g.ble), g.role, g.phase)
    ensures forall rep :: rep in g.ble.replies ==> rep.happy == happy
  {
    forall rep | rep in g.ble.replies
      ensures Less(rep.ballot, lost) && rep.ballot.pid != lost.pid && rep.happy == happy
    {
      var q :| q in s && q != p && rep == Answer(s, p, q);
      assert Member(s[q], q, config);
    }
    assert Member(s[p], p, config);
  }

  lemma {:induction false} NodeInRoundOne(s: Survivors, p: NodeId, r: Replica, config: ClusterConfig, lost: Ballot)
    requires SameCluster(s, config) && lost.pid !in s && FollowLost(s, lost, true) && p in s
    requires EndsRound(s, p, s.Keys - {p}, r)
    ensures r.ble.leader == lost && !r.ble.happy && r.ble.current == s[p].ble.current
    ensures r.promise == s[p].promise && r.nLeader == s[p].nLeader
  {
    var g := RoundHears(s, p, s.Keys - {p}, r, config);
    assert |s.Keys - {p}| == |s.Keys| - 1;
    PrepareQuorumIsStrong(config, |s|);
    HearsNoLeader(s, p, g, config, lost, true);
    assert g.ble.replies[0] in g.ble.replies;
    assert !TakesOver(WithHappiness(WithLeader(g.ble), g.role, g.phase));
  }

  lemma {:induction false} NodeInRoundTwo(s: Survivors, p: NodeId, r: Replica, config: ClusterConfig, lost: Ballot)
    requires SameCluster(s, config) && lost.pid !in s && FollowLost(s, lost, false) && p in s
    requires EndsRound(s, p, s.Keys - {p}, r)
    ensures r.ble.leader == r.ble.current == Candidate(s[p], lost) && r.ble.happy
    ensures AtMost(r.promise, r.ble.current)
    ensures AtMost(s[p].nLeader, lost) ==> r.role == Leader && r.phase == Prepare
  {
    var g := RoundHears(s, p, s.Keys - {p}, r, config);
    assert |s.Keys - {p}| == |s.Keys| - 1;
    assert Member(s[p], p, config);
    HearsNoLeader(s, p, g, config, lost, false);
    NoFollowersLeft(g, lost);
  }

  /** A node that hears no follower of its lost leader leads a ballot one round past it. */
  lemma {:induction false} NoFollowersLeft(g: Replica, lost: Ballot)
    requires WithLeader(g.ble).leader == lost && !IsHappy(WithLeader(g.ble), g.role, g.phase)
    requires forall rep :: rep in g.ble.replies ==> !rep.happy
    requires AtMost(g.promise, lost) && IsPrepareQuorum(g.ble.quorum, |g.ble.replies| + 1)
    requires g.ble.current.pid == g.ble.pid
    ensures var r := ElectionTimeout(g);
            && r.ble.leader == r.ble.current == g.ble.current.(n := lost.n + 1) && r.ble.happy
            && AtMost(r.promise, r.ble.current)
            && (AtMost(g.nLeader, lost) ==> r.role == Leader && r.phase == Prepare)
  {
    assert TakesOver(WithHappiness(WithLeader(g.ble), g.role, g.phase));
  }

  /** Round one: nobody hears the lost leader, so everybody turns unhappy. */
  lemma {:induction false} RoundOne(s: Survivors, s': Survivors, config: ClusterConfig, lost: Ballot)
    requires SameCluster(s, config) && lost.pid !in s && FollowLost(s, lost, true) && FullRound(s, s')
    ensures SameCluster(s', config) && FollowLost(s', lost, false)
    ensures forall p :: p in s ==> s'[p].ble.current == s[p].ble.current && s'[p].nLeader == s[p].nLeader
  {
    FullRoundKeepsMembers(s, s', config);
    forall p | p in s
      ensures s'[p].ble.leader == lost && !s'[p].ble.happy
      ensures s'[p].ble.current == s[p].ble.current && s'[p].promise == s[p].promise && s'[p].nLeader == s[p].nLeader
    {
      NodeInRoundOne(s, p, s'[p], config, lost);
    }
  }

  /** Round two: everybody sees only unhappy neighbours and takes over. */
  lemma {:induction false} RoundTwo(s: Survivors, s': Survivors, config: ClusterConfig, lost: Ballot)
    requires SameCluster(s, config) && lost.pid !in s && FollowLost(s, lost, false) && FullRound(s, s')
    ensures SameCluster(s', config) && AllCandidates(s', lost)
    ensures forall p :: p in s ==> s'[p].ble.current == Candidate(s[p], lost)
    ensures forall p :: p in s && AtMost(s[p].nLeader, lost) ==> s'[p].role == Leader && s'[p].phase == Prepare
  {
    FullRoundKeepsMembers(s, s', config);
    forall p | p in s
      ensures s'[p].ble.leader == s'[p].ble.current == Candidate(s[p], lost) && s'[p].ble.happy
      ensures AtMost(s'[p].promise, s'[p].ble.current)
      ensures AtMost(s[p].nLeader, lost) ==> s'[p].role == Leader && s'[p].phase == Prepare
    {
      NodeInRoundTwo(s, p, s'[p], config, lost);
    }
  }

  /** Everybody is happy, and knows of nothing larger than `winner`. */
  ghost predicate Deferring(s: Survivors, winner: Ballot) {
    forall q :: q in s ==> s[q].ble.happy && AtMost(s[q].ble.leader, winner) && AtMost(s[q].promise, winner)
  }

  lemma {:induction false} CandidatesDefer(s: Survivors, lost: Ballot, winner: Ballot)
    requires AllCandidates(s, lost) && Largest(s, winner)
    ensures Deferring(s, winner)
  {
  }

  /** A node that knows the largest ballot to be its own or a happy neighbour's settles on it. */
  lemma {:induction false} Settles(s: Survivors, p: NodeId, r: Replica, config: ClusterConfig, winner: Ballot)
    requires SameCluster(s, config) && p in s && Largest(s, winner)
    requires EndsRound(s, p, s.Keys - {p}, r)
    requires Deferring(s, winner)
    requires s[p].ble.leader == s[p].ble.current || s[p].ble.leader == winner
    ensures r.ble.leader == winner && r.ble.happy && AtMost(r.promise, winner)
    ensures r.ble.current == s[p].ble.current
  {
    var g := RoundHears(s, p, s.Keys - {p}, r, config);
    assert |s.Keys - {p}| == |s.Keys| - 1;
    PrepareQuorumIsStrong(config, |s|);
    assert forall q :: q in s ==> Member(s[q], q, config);
    if p != winner.pid {
      assert Answer(s, p, winner.pid) in g.ble.replies;
    }
    HearsWinner(s, p, g, config, winner);
    HappyStays(g, winner);
  }

  /** What the node has heard makes it follow the largest ballot, happily. */
  lemma {:induction false} HearsWinner(s: Survivors, p: NodeId, g: Replica, config: ClusterConfig, winner: Ballot)
    requires SameCluster(s, config) && p in s && Largest(s, winner) && Deferring(s, winner)
    requires s[p].ble.leader == s[p].ble.current || s[p].ble.leader == winner
    requires g == s[p].(ble := s[p].ble.(replies := g.ble.replies)) && |g.ble.replies| + 1 == |s|
    requires forall rep :: rep in g.ble.replies ==> exists q :: q in s && q != p && rep == Answer(s, p, q)
    requires p != winner.pid ==> Answer(s, p, winner.pid) in g.ble.replies
    requires IsPrepareQuorum(g.ble.quorum, |s|) && IsAcceptQuorum(g.ble.quorum, |s|)
    ensures WithLeader(g.ble).leader == winner && IsHappy(WithLeader(g.ble), g.role, g.phase)
  {
    forall rep | rep in g.ble.replies ensures AtMost(rep.ballot, winner) && AtMost(rep.leader, winner) && rep.happy {
      var q :| q in s && q != p && rep == Answer(s, p, q);
    }
    assert WithLeader(g.ble).leader == winner;
    if p == winner.pid {
      assert PotentialFollowers(g.ble.replies, winner) == |g.ble.replies|;
    }
  }

  /** A node that is happy with its leader, and promised nothing larger, keeps it. */
  lemma {:induction false} HappyStays(g: Replica, winner: Ballot)
    requires WithLeader(g.ble).leader == winner && IsHappy(WithLeader(g.ble), g.role, g.phase)
    requires AtMost(g.promise, winner)
    ensures var r := ElectionTimeout(g);
            && r.ble.leader == winner && r.ble.happy && AtMost(r.promise, winner)
            && r.ble.current == g.ble.current
  {
    var s := WithHappiness(WithLeader(g.ble), g.role, g.phase);
    assert Takeover(s) == s && SyncWithPromise(NewHbRound(s), g.promise) == NewHbRound(s);
  }

  /** Round three: everybody hears the largest candidate and settles on it. */
  lemma {:induction false} RoundThree(s: Survivors, s': Survivors, config: ClusterConfig, lost: Ballot, winner: Ballot)
    requires SameCluster(s, config) && AllCandidates(s, lost) && Largest(s, winner) && FullRound(s, s')
    ensures SameCluster(s', config) && Converged(s', winner)
    ensures forall p :: p in s ==> s'[p].ble.current == s[p].ble.current
  {
    FullRoundKeepsMembers(s, s', config);
    CandidatesDefer(s, lost, winner);
    forall p | p in s
      ensures s'[p].ble.leader == winner && s'[p].ble.happy && AtMost(s'[p].promise, winner)
      ensures s'[p].ble.current == s[p].ble.current
    {
      Settles(s, p, s'[p], config, winner);
    }
  }

  /** Later rounds change nothing: the same leader, and the same ballots. */
  lemma {:induction false} RoundStable(s: Survivors, s': Survivors, config: ClusterConfig, winner: Ballot)
    requires SameCluster(s, config) && Converged(s, winner) && FullRound(s, s')
    ensures SameCluster(s', config) && Converged(s', winner)
  {
    FullRoundKeepsMembers(s, s', config);
    forall p | p in s
      ensures s'[p].ble.leader == winner && s'[p].ble.happy && AtMost(s'[p].promise, winner)
      ensures s'[p].ble.current == s[p].ble.current
    {
      Settles(s, p, s'[p], config, winner);
    }
  }

  lemma {:induction false} LargestCandidate(s: Survivors, lost: Ballot, nodes: set<NodeId>) returns (winner: Ballot)
    requires nodes <= s.Keys && nodes != {} && forall p :: p in s ==> s[p].ble.current.pid == p
    ensures winner.pid in nodes && winner == Candidate(s[winner.pid], lost)
    ensures forall p :: p in nodes ==> AtMost(Candidate(s[p], lost), winner)
  {
    var p :| p in nodes;
    winner := Candidate(s[p], lost);
    if nodes != {p} {
      var best := LargestCandidate(s, lost, nodes - {p});
      if Less(winner, best) {
        winner := best;
      }
    }
  }

  lemma {:induction false} FullRoundAt(rounds: seq<Survivors>, i: nat)
    requires FullSchedule(rounds) && 0 < i < |rounds|
    ensures FullRound(rounds[i - 1], rounds[i]) && rounds[i].Keys == rounds[i - 1].Keys == rounds[0].Keys
  {
    SameNodes(Everyone(rounds[0]), rounds, i - 1);
    SameNodes(Everyone(rounds[0]), rounds, i);
    SameEveryone(rounds[i - 1], rounds[0]);
    assert RoundAt(Everyone(rounds[i - 1]), rounds, i);
  }

  lemma {:induction false} SameEveryone(s: Survivors, t: Survivors)
    requires s.Keys == t.Keys
    ensures Everyone(s) == Everyone(t)
  {
    assert forall p :: p in s <==> p in t.Keys;
  }

  lemma {:induction false} StaysConverged(rounds: seq<Survivors>, config: ClusterConfig, winner: Ballot, i: nat, j: nat)
    requires FullSchedule(rounds) && i <= j < |rounds|
    requires SameCluster(rounds[i], config) && Converged(rounds[i], winner)
    ensures SameCluster(rounds[j], config) && Converged(rounds[j], winner)
    decreases j
  {
    if i < j {
      StaysConverged(rounds, config, winner, i, j - 1);
      FullRoundAt(rounds, j);
      RoundStable(rounds[j - 1], rounds[j], config, winner);
    }
  }

  /**
   * Election convergence. The survivors of a crashed leader follow, from the third fully delivered
   * round on, the one ballot that is largest among (lost.n + 1, priority, pid) over all survivors.
   */
  lemma {:induction false} ElectionConverges(rounds: seq<Survivors>, config: ClusterConfig, lost: Ballot)
    returns (winner: Ballot)
    requires FullSchedule(rounds) && |rounds| > 3
    requires SameCluster(rounds[0], config) && lost.pid !in rounds[0] && FollowLost(rounds[0], lost, true)
    ensures winner.pid in rounds[0] && winner == Candidate(rounds[0][winner.pid], lost)
    ensures winner.n == lost.n + 1
    ensures forall p :: p in rounds[0] ==>
              var priority := rounds[0][p].ble.current.priority;
              priority < winner.priority || (priority == winner.priority && p <= winner.pid)
    ensures forall i, p :: 3 <= i < |rounds| && p in rounds[0] ==>
              p in rounds[i] && rounds[i][p].ble.leader == winner && rounds[i][p].ble.happy
  {
    winner := ThreeRounds(rounds, config, lost);
    forall p | p in rounds[0]
      ensures var priority := rounds[0][p].ble.current.priority;
              priority < winner.priority || (priority == winner.priority && p <= winner.pid)
    {
      assert AtMost(Candidate(rounds[0][p], lost), winner) && Member(rounds[0][p], p, config);
    }
    forall i, p | 3 <= i < |rounds| && p in rounds[0]
      ensures p in rounds[i] && rounds[i][p].ble.leader == winner && rounds[i][p].ble.happy
    {
      StaysConverged(rounds, config, winner, 3, i);
      SameNodes(Everyone(rounds[0]), rounds, i);
      assert p in rounds[i].Keys;
    }
  }

  lemma {:induction false} ThreeRounds(rounds: seq<Survivors>, config: ClusterConfig, lost: Ballot)
    returns (winner: Ballot)
    requires FullSchedule(rounds) && |rounds| > 3
    requires SameCluster(rounds[0], config) && lost.pid !in rounds[0] && FollowLost(rounds[0], lost, true)
    ensures winner.pid in rounds[0] && winner == Candidate(rounds[0][winner.pid], lost)
    ensures forall p :: p in rounds[0] ==> AtMost(Candidate(rounds[0][p], lost), winner)
    ensures SameCluster(rounds[3], config) && Converged(rounds[3], winner)
  {
    winner := FindLargest(rounds[0], config, lost);
    FullRoundAt(rounds, 1);
    FullRoundAt(rounds, 2);
    FullRoundAt(rounds, 3);
    RoundOne(rounds[0], rounds[1], config, lost);
    RoundTwo(rounds[1], rounds[2], config, lost);
    CandidatesLargest(rounds[0], rounds[1], rounds[2], lost, winner);
    RoundThree(rounds[2], rounds[3], config, lost, winner);
  }

  lemma {:induction false} FindLargest(s: Survivors, config: ClusterConfig, lost: Ballot) returns (winner: Ballot)
    requires SameCluster(s, config)
    ensures winner.pid in s && winner == Candidate(s[winner.pid], lost)
    ensures forall p :: p in s ==> AtMost(Candidate(s[p], lost), winner)
  {
    PrepareQuorumIsStrong(config, |s|);
    assert s.Keys != {};
    assert forall p :: p in s ==> Member(s[p], p, config);
    winner := LargestCandidate(s, lost, s.Keys);
  }

  lemma {:induction false} CandidatesLargest(s0: Survivors, s1: Survivors, s2: Survivors, lost: Ballot, winner: Ballot)
    requires s0.Keys == s1.Keys == s2.Keys
    requires forall p :: p in s0 ==> s1[p].ble.current == s0[p].ble.current
    requires forall p :: p in s1 ==> s2[p].ble.current == Candidate(s1[p], lost)
    requires winner.pid in s0 && winner == Candidate(s0[winner.pid], lost)
    requires forall p :: p in s0 ==> AtMost(Candidate(s0[p], lost), winner)
    ensures Largest(s2, winner)
  {
    forall p | p in s2 ensures s2[p].ble.current == Candidate(s0[p], lost) {
      assert p in s0 && p in s1;
    }
  }

  // Roles after the election.

  /** Everybody still has the role of leader, and has promised nothing beyond the ballot it follows. */
  ghost predicate AllLead(s: Survivors) {
    forall p :: p in s ==> s[p].role == Leader && s[p].phase == Prepare && AtMost(s[p].promise, s[p].ble.leader)
  }

  lemma {:induction false} TimeoutKeepsRole(g: Replica)
    requires g.role == Leader && g.phase == Prepare && AtMost(g.promise, g.ble.leader)
    requires g.ble.current.pid == g.ble.pid
    ensures ElectionTimeout(g).role == Leader && ElectionTimeout(g).phase == Prepare
  {
    TimeoutKeepsIdentity(g);
  }

  lemma {:induction false} RoundKeepsRoles(s: Survivors, s': Survivors, config: ClusterConfig)
    requires SameCluster(s, config) && FullRound(s, s') && AllLead(s)
    ensures forall p :: p in s ==> s'[p].role == Leader && s'[p].phase == Prepare
  {
    forall p | p in s ensures s'[p].role == Leader && s'[p].phase == Prepare {
      var g := RoundHears(s, p, s.Keys - {p}, s'[p], config);
      TimeoutKeepsRole(g);
    }
  }

  lemma {:induction false} LeadAfterTakeover(s0: Survivors, s1: Survivors, s2: Survivors, lost: Ballot)
    requires s0.Keys == s1.Keys == s2.Keys && AllCandidates(s2, lost)
    requires forall p :: p in s0 ==> AtMost(s0[p].nLeader, lost) && s1[p].nLeader == s0[p].nLeader
    requires forall p :: p in s1 && AtMost(s1[p].nLeader, lost) ==> s2[p].role == Leader && s2[p].phase == Prepare
    ensures AllLead(s2)
  {
    forall p | p in s2 ensures s2[p].role == Leader && s2[p].phase == Prepare {
      assert p in s0.Keys && p in s1.Keys;
    }
  }

  lemma {:induction false} LeadAtTwo(rounds: seq<Survivors>, config: ClusterConfig, lost: Ballot)
    requires FullSchedule(rounds) && |rounds| > 2
    requires SameCluster(rounds[0], config) && lost.pid !in rounds[0] && FollowLost(rounds[0], lost, true)
    requires forall p :: p in rounds[0] ==> AtMost(rounds[0][p].nLeader, lost)
    ensures SameCluster(rounds[2], config) && AllLead(rounds[2])
  {
    FullRoundAt(rounds, 1);
    FullRoundAt(rounds, 2);
    RoundOne(rounds[0], rounds[1], config, lost);
    RoundTwo(rounds[1], rounds[2], config, lost);
    LeadAfterTakeover(rounds[0], rounds[1], rounds[2], lost);
  }

  lemma {:induction false} LeadNext(rounds: seq<Survivors>, config: ClusterConfig, winner: Ballot, i: nat)
    requires FullSchedule(rounds) && 0 < i < |rounds|
    requires SameCluster(rounds[i - 1], config) && AllLead(rounds[i - 1]) && Converged(rounds[i], winner)
    ensures AllLead(rounds[i])
  {
    FullRoundAt(rounds, i);
    RoundKeepsRoles(rounds[i - 1], rounds[i], config);
    assert forall p :: p in rounds[i] ==> p in rounds[i - 1].Keys;
  }

  /**
   * One ballot, many leaders: taking over gives every survivor the role of leader, and following the winner
   * afterwards does not take it away. From the second round on all of them lead, whatever comes later.
   */
  lemma {:induction false} AllSurvivorsLead(rounds: seq<Survivors>, config: ClusterConfig, lost: Ballot, i: nat)
    requires FullSchedule(rounds) && 2 <= i < |rounds|
    requires SameCluster(rounds[0], config) && lost.pid !in rounds[0] && FollowLost(rounds[0], lost, true)
    requires forall p :: p in rounds[0] ==> AtMost(rounds[0][p].nLeader, lost)
    ensures AllLead(rounds[i])
    decreases i
  {
    if i == 2 {
      LeadAtTwo(rounds, config, lost);
    } else {
      AllSurvivorsLead(rounds, config, lost, i - 1);
      LeadAtTwo(rounds, config, lost);
      var winner := ThreeRounds(rounds, config, lost);
      if i > 3 {
        StaysConverged(rounds, config, winner, 3, i - 1);
        StaysConverged(rounds, config, winner, 3, i);
      }
      LeadNext(rounds, config, winner, i);
    }
  }
}
