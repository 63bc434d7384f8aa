/**
 * The ballot leader election component of one server: heartbeat rounds, the leader it
 * follows, whether it is happy with it, and the takeover rule.
 */
module LeaderElection {
  import opened Wrappers
  import opened Ballots
  import opened Quorums

  const INITIAL_ROUND := 1
  const RECOVERY_ROUND := 0

  datatype HeartbeatReply = HeartbeatReply(round: nat, ballot: Ballot, leader: Ballot, happy: bool)

  datatype HeartbeatMsg = Request(round: nat) | Reply(reply: HeartbeatReply)

  datatype BleMessage = BleMessage(from: NodeId, to: NodeId, msg: HeartbeatMsg)

  datatype Role = Follower | Leader

  datatype Phase = Prepare | Accept | Recover | NoPhase

  /** The fields of the component, as a value. */
  datatype BleState = BleState(
    configurationId: nat,
    pid: NodeId,
    peers: seq<NodeId>,
    hbRound: nat,
    replies: seq<HeartbeatReply>,
    prevReplies: seq<HeartbeatReply>,
    current: Ballot,
    leader: Ballot,
    happy: bool,
    quorum: Quorum,
    outgoing: seq<BleMessage>)

  /** The largest ballot among the replies; the last one of equals, as Rust's `max` picks it. */
  function MaxReplyBallot(replies: seq<HeartbeatReply>): (max: Ballot)
    requires |replies| > 0
    ensures exists r :: r in replies && r.ballot == max
    ensures forall r :: r in replies ==> AtMost(r.ballot, max)
  {
    var last := replies[|replies| - 1];
    if |replies| == 1 then last.ballot
    else
      var max := MaxReplyBallot(replies[..|replies| - 1]);
      assert forall r :: r in replies ==> r in replies[..|replies| - 1] || r == last;
      if Less(last.ballot, max) then max else last.ballot
  }

  function LeaderAfter(leader: Ballot, replies: seq<HeartbeatReply>): (l: Ballot)
    ensures AtMost(leader, l)
    ensures forall r :: r in replies ==> AtMost(r.ballot, l)
    ensures l == leader || (Less(leader, l) && exists r :: r in replies && r.ballot == l)
  {
    if |replies| > 0 && Less(leader, MaxReplyBallot(replies)) then MaxReplyBallot(replies) else leader
  }

  /** How many of the replies follow a leader that is at most `ballot`. */
  function PotentialFollowers(replies: seq<HeartbeatReply>, ballot: Ballot): (count: nat)
    ensures count <= |replies|
    ensures (forall r :: r in replies ==> AtMost(r.leader, ballot)) ==> count == |replies|
  {
    if |replies| == 0 then 0
    else
      var last := |replies| - 1;
      assert forall r :: r in replies[..last] ==> r in replies;
      PotentialFollowers(replies[..last], ballot) + if AtMost(replies[last].leader, ballot) then 1 else 0
  }

  predicate SeesLargerHappyLeader(replies: seq<HeartbeatReply>, ballot: Ballot) {
    exists r :: r in replies && Less(ballot, r.leader) && r.happy
  }

  /** What one more reply adds. */
  lemma {:induction false} OneMoreReply(replies: seq<HeartbeatReply>, i: nat, ballot: Ballot)
    requires i < |replies|
    ensures PotentialFollowers(replies[..i + 1], ballot) ==
            PotentialFollowers(replies[..i], ballot) + if AtMost(replies[i].leader, ballot) then 1 else 0
    ensures SeesLargerHappyLeader(replies[..i + 1], ballot) <==>
            SeesLargerHappyLeader(replies[..i], ballot) || (Less(ballot, replies[i].leader) && replies[i].happy)
  {
    assert replies[..i + 1][..i] == replies[..i];
    assert forall r :: r in replies[..i + 1] <==> r in replies[..i] || r == replies[i];
  }

  lemma {:induction false} OneMoreBallot(replies: seq<HeartbeatReply>, i: nat)
    requires 0 < i < |replies|
    ensures var max := MaxReplyBallot(replies[..i]);
            MaxReplyBallot(replies[..i + 1]) == if Less(replies[i].ballot, max) then max else replies[i].ballot
  {
    assert replies[..i + 1][..i] == replies[..i];
  }

  predicate CanFormQuorum(quorum: Quorum, role: Role, phase: Phase, numNodes: nat) {
    if role == Leader && phase == Accept then IsAcceptQuorum(quorum, numNodes) else IsPrepareQuorum(quorum, numNodes)
  }

  predicate IsHappy(s: BleState, role: Role, phase: Phase) {
    if s.leader == s.current then
      || CanFormQuorum(s.quorum, role, phase, PotentialFollowers(s.replies, s.current) + 1)
      || SeesLargerHappyLeader(s.replies, s.current)
    else
      exists r :: r in s.replies && r.ballot == s.leader && r.happy
  }

  function WithLeader(s: BleState): BleState {
    s.(leader := LeaderAfter(s.leader, s.replies))
  }

  function WithHappiness(s: BleState, role: Role, phase: Phase): BleState {
    s.(happy := IsHappy(s, role, phase))
  }

  predicate TakesOver(s: BleState) {
    && !s.happy
    && (forall r :: r in s.replies ==> !r.happy)
    && IsPrepareQuorum(s.quorum, |s.replies| + 1)
  }

  function Takeover(s: BleState): BleState {
    if TakesOver(s) then
      var ballot := s.current.(n := s.leader.n + 1);
      s.(current := ballot, leader := ballot, happy := true)
    else s
  }

  function HeartbeatRequests(pid: NodeId, peers: seq<NodeId>, round: nat): seq<BleMessage> {
    seq(|peers|, i requires 0 <= i < |peers| => BleMessage(pid, peers[i], Request(round)))
  }

  function NewHbRound(s: BleState): BleState {
    s.(prevReplies := s.replies,
       replies := [],
       hbRound := s.hbRound + 1,
       outgoing := s.outgoing + HeartbeatRequests(s.pid, s.peers, s.hbRound + 1))
  }

  /** A promise beyond the leader, left by `try_become_leader`, is adopted. */
  function SyncWithPromise(s: BleState, promise: Ballot): BleState {
    if Less(s.leader, promise) then
      s.(leader := promise, happy := true, current := if promise.pid == s.pid then promise else s.current)
    else s
  }

  function HbTimeout(s: BleState, role: Role, phase: Phase, promise: Ballot): BleState {
    SyncWithPromise(NewHbRound(Takeover(WithHappiness(WithLeader(s), role, phase))), promise)
  }

  function ReplyTo(s: BleState, from: NodeId, round: nat): BleMessage {
    BleMessage(s.pid, from, Reply(HeartbeatReply(round, s.current, s.leader, s.happy)))
  }

  predicate AcceptsReply(s: BleState, reply: HeartbeatReply) {
    reply.round == s.hbRound && reply.ballot.configId == s.configurationId
  }

  function Handle(s: BleState, m: BleMessage): BleState {
    match m.msg
    case Request(round) => s.(outgoing := s.outgoing + [ReplyTo(s, m.from, round)])
    case Reply(reply) => if AcceptsReply(s, reply) then s.(replies := s.replies + [reply]) else s
  }

  function InitialState(configurationId: nat, pid: NodeId, peers: seq<NodeId>, priority: nat,
                        quorum: Quorum, recovered: Option<Ballot>): BleState
  {
    var own := Ballot(configurationId, INITIAL_ROUND, priority, pid);
    var recovering := recovered.Some? && recovered.value != DEFAULT_BALLOT;
    NewHbRound(BleState(
      configurationId, pid, peers, 0, [], [],
      if recovering then own.(n := RECOVERY_ROUND) else own,
      if recovering then recovered.value else own,
      true, quorum, []))
  }

  class BallotLeaderElection {
    const configurationId: nat
    const pid: NodeId
    const peers: seq<NodeId>
    const quorum: Quorum
    var hbRound: nat
    var heartbeatReplies: seq<HeartbeatReply>
    var prevReplies: seq<HeartbeatReply>
    var currentBallot: Ballot
    var leader: Ballot
    var happy: bool
    var outgoing: seq<BleMessage>

    ghost function View(): BleState
      reads this
    {
      BleState(configurationId, pid, peers, hbRound, heartbeatReplies, prevReplies,
               currentBallot, leader, happy, quorum, outgoing)
    }

    constructor (configurationId: nat, pid: NodeId, peers: seq<NodeId>, priority: nat,
                 flexibleQuorum: QuorumConfig, recovered: Option<Ballot>)
      ensures View() == InitialState(configurationId, pid, peers, priority,
                                     QuorumFor(flexibleQuorum, |peers| + 1), recovered)
      ensures happy && heartbeatReplies == [] && hbRound == 1
      ensures if recovered.Some? && recovered.value != DEFAULT_BALLOT
              then leader == recovered.value && currentBallot == Ballot(configurationId, 0, priority, pid)
              else leader == currentBallot == Ballot(configurationId, 1, priority, pid)
    {
      this.configurationId, this.pid, this.peers := configurationId, pid, peers;
      this.quorum := QuorumFor(flexibleQuorum, |peers| + 1);
      var initialBallot := Ballot(configurationId, INITIAL_ROUND, priority, pid);
      var initialLeader := initialBallot;
      if recovered.Some? && recovered.value != DEFAULT_BALLOT {
        initialBallot := initialBallot.(n := RECOVERY_ROUND);
        initialLeader := recovered.value;
      }
      hbRound, heartbeatReplies, prevReplies := 0, [], [];
      currentBallot, leader, happy, outgoing := initialBallot, initialLeader, true, [];
      new;
      StartRound();
    }

    method SetPriority(p: nat)
      modifies this`currentBallot
      ensures View() == old(View()).(current := old(currentBallot).(priority := p))
    {
      currentBallot := currentBallot.(priority := p);
    }

    method StartRound()
      modifies this
      ensures View() == NewHbRound(old(View()))
      ensures prevReplies == old(heartbeatReplies) && heartbeatReplies == [] && hbRound == old(hbRound) + 1
      ensures |outgoing| == |old(outgoing)| + |peers| && old(outgoing) <= outgoing
      ensures forall i :: 0 <= i < |peers| ==>
                outgoing[|old(outgoing)| + i] == BleMessage(pid, peers[i], Request(hbRound))
    {
      prevReplies := heartbeatReplies;
      heartbeatReplies := [];
      hbRound := hbRound + 1;
      var i := 0;
      while i < |peers|
        invariant 0 <= i <= |peers|
        invariant outgoing == old(outgoing) + HeartbeatRequests(pid, peers[..i], hbRound)
        invariant View() == NewHbRound(old(View())).(outgoing := outgoing)
      {
        outgoing := outgoing + [BleMessage(pid, peers[i], Request(hbRound))];
        i := i + 1;
      }
      assert peers[..i] == peers;
    }

    method UpdateLeader()
      modifies this`leader
      ensures View() == WithLeader(old(View()))
    {
      if |heartbeatReplies| > 0 {
        var max := heartbeatReplies[0].ballot;
        var i := 1;
        while i < |heartbeatReplies|
          invariant 1 <= i <= |heartbeatReplies| && leader == old(leader)
          invariant max == MaxReplyBallot(heartbeatReplies[..i])
        {
          OneMoreBallot(heartbeatReplies, i);
          if !Less(heartbeatReplies[i].ballot, max) {
            max := heartbeatReplies[i].ballot;
          }
          i := i + 1;
        }
        assert heartbeatReplies[..i] == heartbeatReplies;
        assert max == MaxReplyBallot(heartbeatReplies);
        if Less(leader, max) {
          leader := max;
        }
      }
    }

    /** Who would follow this server's ballot, and whether somebody is happy with a larger leader. */
    method CountFollowers() returns (potentialFollowers: nat, seesLargerHappyLeader: bool)
      ensures potentialFollowers == PotentialFollowers(heartbeatReplies, currentBallot)
      ensures seesLargerHappyLeader <==> SeesLargerHappyLeader(heartbeatReplies, currentBallot)
    {
      potentialFollowers, seesLargerHappyLeader := 0, false;
      var i := 0;
      while i < |heartbeatReplies|
        invariant 0 <= i <= |heartbeatReplies|
        invariant potentialFollowers == PotentialFollowers(heartbeatReplies[..i], currentBallot)
        invariant seesLargerHappyLeader <==> SeesLargerHappyLeader(heartbeatReplies[..i], currentBallot)
      {
        OneMoreReply(heartbeatReplies, i, currentBallot);
        if AtMost(heartbeatReplies[i].leader, currentBallot) {
          potentialFollowers := potentialFollowers + 1;
        } else if heartbeatReplies[i].happy {
          seesLargerHappyLeader := true;
        }
        i := i + 1;
      }
      assert heartbeatReplies[..i] == heartbeatReplies;
    }

    method UpdateHappiness(role: Role, phase: Phase)
      modifies this`happy
      ensures View() == WithHappiness(old(View()), role, phase)
      ensures leader != currentBallot ==>
                (happy <==> exists r :: r in heartbeatReplies && r.ballot == leader && r.happy)
    {
      if leader == currentBallot {
        var potentialFollowers, seesLargerHappyLeader := CountFollowers();
        happy := CanFormQuorum(quorum, role, phase, potentialFollowers + 1) || seesLargerHappyLeader;
      } else {
        happy := exists r :: r in heartbeatReplies && r.ballot == leader && r.happy;
      }
    }

    method CheckTakeover()
      modifies this`currentBallot, this`leader, this`happy
      ensures View() == Takeover(old(View()))
    {
      if !happy {
        var allNeighborsUnhappy := forall r :: r in heartbeatReplies ==> !r.happy;
        var quorumConnected := IsPrepareQuorum(quorum, |heartbeatReplies| + 1);
        if allNeighborsUnhappy && quorumConnected {
          currentBallot := currentBallot.(n := leader.n + 1);
          leader := currentBallot;
          happy := true;
        }
      }
    }

    method EndRound(role: Role, phase: Phase, promise: Ballot) returns (elected: Option<Ballot>)
      modifies this
      ensures View() == HbTimeout(old(View()), role, phase, promise)
      ensures elected == if leader == currentBallot then Some(currentBallot) else None
    {
      UpdateLeader();
      UpdateHappiness(role, phase);
      CheckTakeover();
      StartRound();
      ghost var s := View();
      if Less(leader, promise) {
        leader := promise;
        if promise.pid == pid {
          currentBallot := promise;
        }
        happy := true;
      }
      assert View() == SyncWithPromise(s, promise);
      elected := if leader == currentBallot then Some(currentBallot) else None;
    }

    method HandleMessage(m: BleMessage)
      modifies this`outgoing, this`heartbeatReplies
      ensures View() == Handle(old(View()), m)
      ensures m.msg.Request? ==>
                outgoing == old(outgoing) +
                            [BleMessage(pid, m.from, Reply(HeartbeatReply(m.msg.round, currentBallot, leader, happy)))]
      ensures m.msg.Reply? ==>
                var current := m.msg.reply.round == hbRound && m.msg.reply.ballot.configId == configurationId;
                heartbeatReplies == old(heartbeatReplies) + if current then [m.msg.reply] else []
    {
      match m.msg
      case Request(round) =>
        var reply := HeartbeatReply(round, currentBallot, leader, happy);
        outgoing := outgoing + [BleMessage(pid, m.from, Reply(reply))];
      case Reply(reply) =>
        if reply.round == hbRound && reply.ballot.configId == configurationId {
          heartbeatReplies := heartbeatReplies + [reply];
        }
    }
  }
}
