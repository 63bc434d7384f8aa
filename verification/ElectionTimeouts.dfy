/** What one heartbeat timeout decides, told from what was heard in the round. */
module ElectionTimeouts {
  import opened Ballots
  import opened Quorums
  import opened LeaderElection
  import opened Replicas

  /** `l` is the largest of the followed ballot and those heard. */
  predicate LargestHeard(s: BleState, l: Ballot) {
    && (forall r :: r in s.replies ==> AtMost(r.ballot, l))
    && (|| l == s.leader
        || (&& Less(s.leader, l)
            && (exists r :: r in s.replies && r.ballot == l)
            && (forall r :: r in s.replies ==> r.ballot.configId == l.configId)))
  }

  /** The server follows `l` after the round, with the ballot it had. */
  predicate Stays(s: BleState, s': BleState, l: Ballot, happy: bool) {
    s'.leader == l && s'.current == s.current && s'.happy == happy
  }

  /** The server leads a ballot of its own one past `l`. */
  predicate Leads(s: BleState, s': BleState, l: Ballot) {
    s'.leader == s'.current == s.current.(n := l.n + 1) && s'.happy
  }

  /** It hears only unhappy servers, and with itself a prepare quorum of them. */
  predicate HearsUnhappyQuorum(s: BleState) {
    && (forall r :: r in s.replies ==> !r.happy)
    && IsPrepareQuorum(s.quorum, |s.replies| + 1)
  }

  /** What follows from being happy or not with the leader of the round. */
  lemma {:induction false} HappinessDecides(s: BleState, role: Role, phase: Phase, promise: Ballot, l: Ballot)
    requires WithLeader(s).leader == l && AtMost(promise, l)
    ensures var s', happy := HbTimeout(s, role, phase, promise), IsHappy(WithLeader(s), role, phase);
            if happy then Stays(s, s', l, true)
            else if HearsUnhappyQuorum(s) then Leads(s, s', l)
            else Stays(s, s', l, false)
  {
    var s1 := Takeover(WithHappiness(WithLeader(s), role, phase));
    assert AtMost(promise, s1.leader);
    assert SyncWithPromise(NewHbRound(s1), promise) == NewHbRound(s1);
  }

  /**
   * A server that does not lead is happy exactly if the leader it follows answered that it is happy. An
   * unhappy one takes over exactly if it hears only unhappy servers that form a prepare quorum with it.
   */
  lemma {:induction false} FollowerTimeout(s: BleState, role: Role, phase: Phase, promise: Ballot, l: Ballot)
    requires LargestHeard(s, l) && l != s.current && AtMost(promise, l)
    ensures var s' := HbTimeout(s, role, phase, promise);
            if exists r :: r in s.replies && r.ballot == l && r.happy then Stays(s, s', l, true)
            else if HearsUnhappyQuorum(s) then Leads(s, s', l)
            else Stays(s, s', l, false)
  {
    assert WithLeader(s).leader == l;
    HappinessDecides(s, role, phase, promise, l);
  }

  /** The replies of servers that follow a ballot of at most `ballot`. */
  function Followers(replies: seq<HeartbeatReply>, ballot: Ballot): set<nat> {
    set i: nat | i < |replies| && AtMost(replies[i].leader, ballot)
  }

  lemma {:induction false} FollowersCounted(replies: seq<HeartbeatReply>, ballot: Ballot)
    ensures |Followers(replies, ballot)| == PotentialFollowers(replies, ballot)
  {
    if |replies| == 0 {
      assert Followers(replies, ballot) == {};
    } else {
      var last := |replies| - 1;
      FollowersCounted(replies[..last], ballot);
      assert Followers(replies, ballot) ==
             Followers(replies[..last], ballot) + if AtMost(replies[last].leader, ballot) then {last} else {};
    }
  }

  /** A leader's quorum is an accept quorum once it accepts, and a prepare quorum before. */
  predicate HasQuorum(s: BleState, role: Role, phase: Phase, nodes: nat) {
    if role == Leader && phase == Accept then IsAcceptQuorum(s.quorum, nodes) else IsPrepareQuorum(s.quorum, nodes)
  }

  /**
   * A server that leads is happy exactly if those it hears following nothing larger form a quorum with it,
   * or one that follows something larger is happy. An unhappy one takes over as any other server.
   */
  lemma {:induction false} LeaderTimeout(s: BleState, role: Role, phase: Phase, promise: Ballot)
    requires LargestHeard(s, s.leader) && s.leader == s.current && AtMost(promise, s.leader)
    ensures var s' := HbTimeout(s, role, phase, promise);
            if HasQuorum(s, role, phase, |Followers(s.replies, s.current)| + 1)
               || exists r :: r in s.replies && Less(s.current, r.leader) && r.happy
            then Stays(s, s', s.leader, true)
            else if HearsUnhappyQuorum(s) then Leads(s, s', s.leader)
            else Stays(s, s', s.leader, false)
  {
    FollowersCounted(s.replies, s.current);
    assert WithLeader(s) == s;
    HappinessDecides(s, role, phase, promise, s.leader);
  }

  /** A promise larger than all that is adopted: the server follows it happily, and leads it if it is its own. */
  lemma {:induction false} PromiseTimeout(s: BleState, role: Role, phase: Phase, promise: Ballot, l: Ballot)
    requires LargestHeard(s, l) && Less(l, promise) && Less(s.current.(n := l.n + 1), promise)
    ensures var s' := HbTimeout(s, role, phase, promise);
            && s'.leader == promise && s'.happy
            && (promise.pid == s.pid ==> s'.current == promise)
            && (promise.pid != s.pid ==> s'.current == s.current || s'.current == s.current.(n := l.n + 1))
  {
    assert WithLeader(s).leader == l;
  }

  /** The replication side learns of a ballot only if the server leads it, and then leads, if it is larger. */
  lemma {:induction false} TimeoutParts(r: Replica)
    requires var b := HbTimeout(r.ble, r.role, r.phase, r.promise); b.current.pid == b.pid
    ensures var r' := ElectionTimeout(r);
            && r'.ble == HbTimeout(r.ble, r.role, r.phase, r.promise)
            && (if r'.ble.leader == r'.ble.current
                   && Less(r.nLeader, r'.ble.current) && Less(r.promise, r'.ble.current)
                then r'.role == Leader && r'.phase == Prepare && r'.promise == r'.nLeader == r'.ble.current
                else r' == r.(ble := r'.ble))
  {
  }
}
