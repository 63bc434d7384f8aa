/** One server's election driver: leader election together with the promise and role it feeds. */
module Replicas {
  import opened Ballots
  import opened LeaderElection

  datatype Replica = Replica(ble: BleState, promise: Ballot, nLeader: Ballot, role: Role, phase: Phase)

  predicate AcceptsLeader(r: Replica, n: Ballot) {
    Less(r.nLeader, n) && Less(r.promise, n)
  }

  function HandleLeader(r: Replica, n: Ballot): Replica {
    if !AcceptsLeader(r, n) then r
    else if r.ble.pid == n.pid then r.(nLeader := n, promise := n, role := Leader, phase := Prepare)
    else r.(role := Follower)
  }

  /** A heartbeat timeout, whose winner (if any) is handed to the log replication side. */
  function ElectionTimeout(r: Replica): Replica {
    var r' := r.(ble := HbTimeout(r.ble, r.role, r.phase, r.promise));
    if r'.ble.leader == r'.ble.current then HandleLeader(r', r'.ble.current) else r'
  }

  function TryBecomeLeader(r: Replica): Replica {
    HandleLeader(r, r.ble.current.(n := r.promise.n + 1))
  }

  function Reconnected(r: Replica, peer: NodeId): Replica {
    if peer == r.ble.pid || peer != r.promise.pid then r else r.(role := Follower, phase := Recover)
  }

  function NewReplica(ble: BleState): Replica {
    Replica(ble, DEFAULT_BALLOT, DEFAULT_BALLOT, Follower, NoPhase)
  }

  /** The election-related fields of a server, updated in place. */
  class OmniPaxosNode {
    const ble: BallotLeaderElection
    var promise: Ballot
    var nLeader: Ballot
    var role: Role
    var phase: Phase

    ghost function View(): Replica
      reads this, ble
    {
      Replica(ble.View(), promise, nLeader, role, phase)
    }

    constructor (ble: BallotLeaderElection)
      ensures this.ble == ble && View() == NewReplica(ble.View())
    {
      this.ble := ble;
      promise, nLeader, role, phase := DEFAULT_BALLOT, DEFAULT_BALLOT, Follower, NoPhase;
    }

    /** A server that wins has the storage flush its pending batch before it takes the promise. */
    method BecomeLeader(n: Ballot) returns (flush: bool)
      modifies this
      ensures flush <==> AcceptsLeader(old(View()), n) && ble.pid == n.pid
      ensures View() == HandleLeader(old(View()), n)
      ensures flush ==> role == Leader && phase == Prepare && nLeader == promise == n
      ensures !flush ==> nLeader == old(nLeader) && promise == old(promise) && phase == old(phase)
      ensures !flush ==> role == if AcceptsLeader(old(View()), n) then Follower else old(role)
    {
      flush := false;
      if AtMost(n, nLeader) || AtMost(n, promise) {
        return;
      }
      if ble.pid == n.pid {
        flush := true;
        nLeader := n;
        promise := n;
        role, phase := Leader, Prepare;
      } else {
        role := Follower;
      }
    }

    method Timeout()
      modifies this, ble
      ensures View() == ElectionTimeout(old(View()))
    {
      var elected := ble.EndRound(role, phase, promise);
      if elected.Some? {
        var _ := BecomeLeader(elected.value);
      }
    }

    method TryTakeLeadership()
      modifies this
      ensures View() == TryBecomeLeader(old(View()))
      ensures ble.pid == ble.currentBallot.pid && old(nLeader).n <= old(promise).n ==>
                && role == Leader && phase == Prepare
                && nLeader == promise == ble.currentBallot.(n := old(promise).n + 1)
    {
      var _ := BecomeLeader(ble.currentBallot.(n := promise.n + 1));
    }

    method ReconnectTo(peer: NodeId)
      modifies this
      ensures View() == Reconnected(old(View()), peer)
      ensures (role, phase) == if peer != ble.pid && peer == promise.pid then (Follower, Recover)
                               else (old(role), old(phase))
    {
      if peer != ble.pid && peer == promise.pid {
        role, phase := Follower, Recover;
      }
    }
  }
}
