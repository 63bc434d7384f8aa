/**
 * A leader that is alive but has lost its quorum: among servers that hear any given others, if exactly
 * one still hears a prepare quorum, four heartbeat rounds make it the leader of all that hear it.
 */
module ElectionQuorumLoss {
  import opened Ballots
  import opened Quorums
  import opened LeaderElection
  import opened Replicas
  import opened ElectionTimeouts
  import opened HeartbeatRounds
  import opened ElectionConvergence

  /** `h` is the only server that hears, with itself, a prepare quorum. */
  ghost predicate OneHub(s: Survivors, links: Links, config: ClusterConfig, h: NodeId) {
    && Validate(config) == Valid && AllMembers(s, config) && LinksOf(s, links) && h in s
    && forall p :: p in s ==>
         && p !in links[p]
         && (IsPrepareQuorum(QuorumFor(config.flexibleQuorum, |config.nodes|), |links[p]| + 1) <==> p == h)
  }

  /** `p` follows `lost`, with a smaller ballot of its own unless it is the owner, who has lost its quorum. */
  ghost predicate Follows(r: Replica, p: NodeId, lost: Ballot, heard: set<NodeId>) {
    && r.ble.leader == lost && AtMost(r.promise, lost)
    && if p == lost.pid
       then r.ble.current == lost && !HasQuorum(r.ble, r.role, r.phase, |heard| + 1)
       else Less(r.ble.current, lost)
  }

  ghost predicate Following(s: Survivors, links: Links, lost: Ballot) {
    LinksOf(s, links) && forall p {:trigger links[p]} :: p in s ==> Follows(s[p], p, lost, links[p])
  }

  /** No server beyond the hub can take over, and the hub does when all that it hears are unhappy. */
  ghost predicate MayTakeOver(s: Survivors, links: Links, h: NodeId, p: NodeId)
    requires LinksOf(s, links) && h in s
  {
    p == h && forall q :: q in links[h] ==> !s[q].ble.happy
  }

  /** `p` hears the owner of `lost` say that it is happy. */
  ghost predicate HearsHappyOwner(s: Survivors, links: Links, lost: Ballot, p: NodeId)
    requires LinksOf(s, links) && p in s
  {
    p != lost.pid && lost.pid in links[p] && s[lost.pid].ble.happy
  }

  /** The largest ballot heard while everybody follows `lost`, and who sent it. */
  lemma {:induction false} HeardWhileFollowing(s: Survivors, links: Links, config: ClusterConfig, h: NodeId,
                                               lost: Ballot, p: NodeId, g: Replica)
    requires OneHub(s, links, config, h) && Following(s, links, lost) && p in s && HasHeard(s, p, links[p], g)
    ensures LargestHeard(g.ble, lost)
    ensures (exists r :: r in g.ble.replies && r.ballot == lost && r.happy) <==> HearsHappyOwner(s, links, lost, p)
    ensures forall r :: r in g.ble.replies ==> r.leader == lost
    ensures HearsUnhappyQuorum(g.ble) <==> MayTakeOver(s, links, h, p)
  {
    forall r | r in g.ble.replies ensures AtMost(r.ballot, lost) && r.leader == lost {
      var q :| q in links[p] && r == Answer(s, p, q);
      assert Follows(s[q], q, lost, links[q]);
    }
    if r :| r in g.ble.replies && r.ballot == lost && r.happy {
      var q :| q in links[p] && r == Answer(s, p, q);
      assert Follows(s[q], q, lost, links[q]);
    }
    if HearsHappyOwner(s, links, lost, p) {
      assert Follows(s[lost.pid], lost.pid, lost, links[lost.pid]);
      assert Answer(s, p, lost.pid) in g.ble.replies;
    }
    assert Member(s[p], p, config);
    if p == h && forall r :: r in g.ble.replies ==> !r.happy {
      forall q | q in links[h] ensures !s[q].ble.happy {
        assert Answer(s, p, q) in g.ble.replies;
      }
    }
  }

  /** The state that `p` leaves a round in: as before but for happiness, or leading one past `lost`. */
  ghost predicate LeavesRound(r: Replica, r': Replica, p: NodeId, lost: Ballot, heard: set<NodeId>,
                              hearsOwner: bool, takesOver: bool) {
    if takesOver && !hearsOwner then
      && r'.ble.leader == r'.ble.current == Candidate(r, lost) && r'.ble.happy
      && AtMost(r'.promise, r'.ble.current)
      && (AtMost(r.nLeader, lost) ==> r'.role == Leader && r'.phase == Prepare && r'.promise == r'.ble.current)
    else
      && Follows(r', p, lost, heard) && r'.ble.happy == hearsOwner && r'.ble.current == r.ble.current
      && (p != lost.pid ==> r'.nLeader == r.nLeader)
  }

  lemma {:induction false} RoundWhileFollowing(s: Survivors, links: Links, config: ClusterConfig, h: NodeId,
                                               lost: Ballot, p: NodeId, r: Replica)
    requires OneHub(s, links, config, h) && h != lost.pid && Following(s, links, lost) && p in s
    requires EndsRound(s, p, links[p], r)
    ensures LeavesRound(s[p], r, p, lost, links[p], HearsHappyOwner(s, links, lost, p), MayTakeOver(s, links, h, p))
  {
    var g := RoundHears(s, p, links[p], r, config);
    HeardWhileFollowing(s, links, config, h, lost, p, g);
    assert Follows(s[p], p, lost, links[p]);
    if p == lost.pid {
      OwnerStaysUnhappy(g, lost, links[p]);
    } else {
      FollowerTimeout(g.ble, g.role, g.phase, g.promise, lost);
      TimeoutParts(g);
    }
  }

  /** The owner of a lost quorum stays with its ballot, unhappily. */
  lemma {:induction false} OwnerStaysUnhappy(g: Replica, lost: Ballot, heard: set<NodeId>)
    requires Follows(g, lost.pid, lost, heard) && |g.ble.replies| == |heard|
    requires g.ble.pid == lost.pid && LargestHeard(g.ble, lost) && !IsPrepareQuorum(g.ble.quorum, |heard| + 1)
    requires forall r :: r in g.ble.replies ==> r.leader == lost
    ensures var r := ElectionTimeout(g);
            Follows(r, lost.pid, lost, heard) && !r.ble.happy && r.ble.current == g.ble.current
  {
    LeaderTimeout(g.ble, g.role, g.phase, g.promise);
    FollowersCounted(g.ble.replies, lost);
    TimeoutParts(g);
  }

  // The stages.

  ghost predicate OwnerUnhappy(s: Survivors, lost: Ballot) {
    lost.pid in s ==> !s[lost.pid].ble.happy
  }

  ghost predicate NobodyHappy(s: Survivors) {
    forall p :: p in s ==> !s[p].ble.happy
  }

  /** `r` leads `c` happily, and has the role if `fit`. */
  ghost predicate HubLeads(r: Replica, c: Ballot, fit: bool) {
    && r.ble.leader == r.ble.current == c && r.ble.happy && AtMost(r.promise, c)
    && (fit ==> r.role == Leader && r.phase == Prepare && r.promise == c)
  }

  /** Another server still follows `lost`, or it hears the hub and follows `c`. */
  ghost predicate Joins(r: Replica, lost: Ballot, c: Ballot, hearsHub: bool) {
    && AtMost(r.ble.current, lost) && AtMost(r.promise, lost)
    && (r.ble.leader == lost || (hearsHub && r.ble.leader == c))
  }

  /** The hub leads `c`, one past `lost`. */
  ghost predicate Elected(s: Survivors, links: Links, h: NodeId, lost: Ballot, c: Ballot, fit: bool) {
    && LinksOf(s, links) && h in s && c.n == lost.n + 1 && HubLeads(s[h], c, fit)
    && forall p {:trigger links[p]} :: p in s && p != h ==> Joins(s[p], lost, c, h in links[p])
  }

  /** All that hear the hub follow it happily, and all others still follow `lost`. */
  ghost predicate Recovered(s: Survivors, links: Links, h: NodeId, lost: Ballot, c: Ballot, fit: bool) {
    && Elected(s, links, h, lost, c, fit)
    && forall p {:trigger links[p]} :: p in s && p != h ==>
         if h in links[p] then s[p].ble.leader == c && s[p].ble.happy else s[p].ble.leader == lost
  }

  ghost predicate AllLeave(s: Survivors, s': Survivors, links: Links, h: NodeId, lost: Ballot) {
    && LinksOf(s, links) && s'.Keys == s.Keys && h in s
    && forall p {:trigger links[p]} :: p in s ==>
         LeavesRound(s[p], s'[p], p, lost, links[p], HearsHappyOwner(s, links, lost, p), MayTakeOver(s, links, h, p))
  }

  /** One round from a state in which everybody follows `lost`. */
  lemma {:induction false} FollowingRound(s: Survivors, s': Survivors, links: Links, config: ClusterConfig, h: NodeId,
                                          lost: Ballot)
    requires OneHub(s, links, config, h) && h != lost.pid && Following(s, links, lost) && Round(links, s, s')
    ensures OneHub(s', links, config, h) && AllLeave(s, s', links, h, lost)
  {
    forall p | p in s ensures AtMost(s[p].promise, s[p].ble.leader) {
      assert Follows(s[p], p, lost, links[p]);
    }
    RoundKeepsMembers(links, s, s', config);
    forall p | p in s
      ensures LeavesRound(s[p], s'[p], p, lost, links[p], HearsHappyOwner(s, links, lost, p),
                          MayTakeOver(s, links, h, p))
    {
      RoundWhileFollowing(s, links, config, h, lost, p, s'[p]);
    }
  }

  /** First the owner turns unhappy; nobody takes over while all are happy. */
  lemma {:induction false} OwnerTurns(s: Survivors, s': Survivors, links: Links, config: ClusterConfig, h: NodeId,
                                      lost: Ballot)
    requires OneHub(s, links, config, h) && h != lost.pid && Following(s, links, lost) && Round(links, s, s')
    requires forall p :: p in s ==> s[p].ble.happy
    ensures OneHub(s', links, config, h) && Following(s', links, lost) && OwnerUnhappy(s', lost)
    ensures s'[h].ble.current == s[h].ble.current && s'[h].nLeader == s[h].nLeader
  {
    FollowingRound(s, s', links, config, h, lost);
    PrepareQuorumIsStrong(config, |links[h]| + 1);
    var q :| q in links[h];
    assert !MayTakeOver(s, links, h, h);
  }

  lemma {:induction false} NobodyHearsOwner(s: Survivors, links: Links, lost: Ballot, p: NodeId)
    requires LinksOf(s, links) && OwnerUnhappy(s, lost) && p in s
    ensures !HearsHappyOwner(s, links, lost, p)
  {
    assert lost.pid in links[p] ==> lost.pid in s.Keys;
  }

  lemma {:induction false} LeavesUnhappy(s: Survivors, s': Survivors, links: Links, h: NodeId, lost: Ballot, p: NodeId)
    requires AllLeave(s, s', links, h, lost) && OwnerUnhappy(s, lost) && p in s
    ensures LeavesRound(s[p], s'[p], p, lost, links[p], false, MayTakeOver(s, links, h, p))
  {
    NobodyHearsOwner(s, links, lost, p);
  }

  lemma {:induction false} HubIsElected(s: Survivors, s': Survivors, links: Links, h: NodeId, lost: Ballot)
    requires AllLeave(s, s', links, h, lost) && OwnerUnhappy(s, lost) && MayTakeOver(s, links, h, h)
    ensures Elected(s', links, h, lost, Candidate(s[h], lost), AtMost(s[h].nLeader, lost))
  {
    LeavesUnhappy(s, s', links, h, lost, h);
    forall p | p in s && p != h ensures Joins(s'[p], lost, Candidate(s[h], lost), h in links[p]) {
      LeavesUnhappy(s, s', links, h, lost, p);
    }
  }

  lemma {:induction false} AllTurn(s: Survivors, s': Survivors, links: Links, h: NodeId, lost: Ballot)
    requires AllLeave(s, s', links, h, lost) && OwnerUnhappy(s, lost) && !MayTakeOver(s, links, h, h) && h != lost.pid
    ensures Following(s', links, lost) && NobodyHappy(s')
    ensures s'[h].ble.current == s[h].ble.current && s'[h].nLeader == s[h].nLeader
  {
    forall p | p in s ensures Follows(s'[p], p, lost, links[p]) && !s'[p].ble.happy {
      LeavesUnhappy(s, s', links, h, lost, p);
    }
    LeavesUnhappy(s, s', links, h, lost, h);
  }

  /** Then all that are not yet turn unhappy, unless all that the hub hears are: then it takes over. */
  lemma {:induction false} HubTakesOver(s: Survivors, s': Survivors, links: Links, config: ClusterConfig, h: NodeId,
                                        lost: Ballot)
    requires OneHub(s, links, config, h) && h != lost.pid && Following(s, links, lost) && Round(links, s, s')
    requires OwnerUnhappy(s, lost)
    ensures OneHub(s', links, config, h)
    ensures if MayTakeOver(s, links, h, h)
            then Elected(s', links, h, lost, Candidate(s[h], lost), AtMost(s[h].nLeader, lost))
            else && Following(s', links, lost) && NobodyHappy(s')
                 && s'[h].ble.current == s[h].ble.current && s'[h].nLeader == s[h].nLeader
  {
    FollowingRound(s, s', links, config, h, lost);
    if MayTakeOver(s, links, h, h) {
      HubIsElected(s, s', links, h, lost);
    } else {
      AllTurn(s, s', links, h, lost);
    }
  }

  /** What is heard once the hub has been elected. */
  lemma {:induction false} HeardOnceElected(s: Survivors, links: Links, config: ClusterConfig, h: NodeId, lost: Ballot,
                                            c: Ballot, fit: bool, p: NodeId, g: Replica)
    requires OneHub(s, links, config, h) && Elected(s, links, h, lost, c, fit) && p in s && HasHeard(s, p, links[p], g)
    ensures c.configId == config.configurationId
    ensures forall r :: r in g.ble.replies ==> AtMost(r.leader, c) && r.ballot.configId == config.configurationId
    ensures h in links[p] ==> exists r :: r in g.ble.replies && r.ballot == c && r.happy
    ensures forall r :: r in g.ble.replies ==> AtMost(r.ballot, if h in links[p] then c else lost)
  {
    forall r | r in g.ble.replies
      ensures AtMost(r.leader, c) && AtMost(r.ballot, if h in links[p] then c else lost)
      ensures r.ballot.configId == config.configurationId
    {
      var q :| q in links[p] && r == Answer(s, p, q);
      assert Member(s[q], q, config) && (q != h ==> Joins(s[q], lost, c, h in links[q]));
    }
    assert Member(s[h], h, config);
    if h in links[p] {
      assert Answer(s, p, h) in g.ble.replies;
    }
  }

  lemma {:induction false} HubKeepsLeading(g: Replica, c: Ballot, fit: bool)
    requires HubLeads(g, c, fit) && LargestHeard(g.ble, c) && g.ble.current.pid == g.ble.pid
    requires forall r :: r in g.ble.replies ==> AtMost(r.leader, c)
    requires HasQuorum(g.ble, g.role, g.phase, |g.ble.replies| + 1)
    ensures HubLeads(ElectionTimeout(g), c, fit)
  {
    FollowersCounted(g.ble.replies, c);
    LeaderTimeout(g.ble, g.role, g.phase, g.promise);
    TimeoutParts(g);
  }

  lemma {:induction false} OthersJoin(g: Replica, lost: Ballot, c: Ballot, hearsHub: bool)
    requires Joins(g, lost, c, hearsHub) && c.n == lost.n + 1 && g.ble.current.pid == g.ble.pid
    requires forall r :: r in g.ble.replies ==> AtMost(r.ballot, if hearsHub then c else lost)
    requires hearsHub ==> exists r :: r in g.ble.replies && r.ballot == c && r.happy
    requires forall r :: r in g.ble.replies ==> hearsHub ==> r.ballot.configId == c.configId
    requires !IsPrepareQuorum(g.ble.quorum, |g.ble.replies| + 1)
    ensures var r := ElectionTimeout(g);
            && Joins(r, lost, c, hearsHub)
            && if hearsHub then r.ble.leader == c && r.ble.happy else r.ble.leader == lost
  {
    if !hearsHub && g.ble.current == lost {
      LeaderTimeout(g.ble, g.role, g.phase, g.promise);
    } else {
      FollowerTimeout(g.ble, g.role, g.phase, g.promise, if hearsHub then c else lost);
    }
    TimeoutParts(g);
  }

  /** What `p` is like at the end of every round after the election. */
  ghost predicate EndsElected(r: Replica, p: NodeId, h: NodeId, lost: Ballot, c: Ballot, fit: bool, hearsHub: bool) {
    if p == h then HubLeads(r, c, fit)
    else
      && Joins(r, lost, c, hearsHub)
      && if hearsHub then r.ble.leader == c && r.ble.happy else r.ble.leader == lost
  }

  lemma {:induction false} RoundOnceElected(s: Survivors, links: Links, config: ClusterConfig, h: NodeId, lost: Ballot,
                                            c: Ballot, fit: bool, p: NodeId, r: Replica)
    requires OneHub(s, links, config, h) && Elected(s, links, h, lost, c, fit) && p in s
    requires EndsRound(s, p, links[p], r)
    ensures EndsElected(r, p, h, lost, c, fit, h in links[p])
  {
    var g := RoundHears(s, p, links[p], r, config);
    HeardOnceElected(s, links, config, h, lost, c, fit, p, g);
    if p == h {
      PrepareQuorumIsStrong(config, |links[h]| + 1);
      HubKeepsLeading(g, c, fit);
    } else {
      assert Joins(s[p], lost, c, h in links[p]);
      OthersJoin(g, lost, c, h in links[p]);
    }
  }

  lemma {:induction false} ElectedStaysHub(s: Survivors, s': Survivors, links: Links, config: ClusterConfig, h: NodeId,
                                           lost: Ballot, c: Ballot, fit: bool)
    requires OneHub(s, links, config, h) && Elected(s, links, h, lost, c, fit) && Round(links, s, s')
    ensures OneHub(s', links, config, h)
  {
    ElectedPromises(s, links, h, lost, c, fit);
    RoundKeepsMembers(links, s, s', config);
  }

  lemma {:induction false} ElectedPromises(s: Survivors, links: Links, h: NodeId, lost: Ballot, c: Ballot, fit: bool)
    requires Elected(s, links, h, lost, c, fit)
    ensures forall p :: p in s ==> AtMost(s[p].promise, s[p].ble.leader)
  {
    forall p | p in s ensures AtMost(s[p].promise, s[p].ble.leader) {
      assert p != h ==> Joins(s[p], lost, c, h in links[p]);
    }
  }

  /** From the hub's election on every round ends with all that hear it following it. */
  lemma {:induction false} OthersFollow(s: Survivors, s': Survivors, links: Links, config: ClusterConfig, h: NodeId,
                                        lost: Ballot, c: Ballot, fit: bool)
    requires OneHub(s, links, config, h) && Elected(s, links, h, lost, c, fit) && Round(links, s, s')
    ensures OneHub(s', links, config, h) && Recovered(s', links, h, lost, c, fit)
  {
    ElectedStaysHub(s, s', links, config, h, lost, c, fit);
    forall p | p in s ensures EndsElected(s'[p], p, h, lost, c, fit, h in links[p]) {
      RoundOnceElected(s, links, config, h, lost, c, fit, p, s'[p]);
    }
    AllRecovered(s', links, h, lost, c, fit);
  }

  lemma {:induction false} AllRecovered(s: Survivors, links: Links, h: NodeId, lost: Ballot, c: Ballot, fit: bool)
    requires LinksOf(s, links) && h in s && c.n == lost.n + 1
    requires forall p {:trigger links[p]} :: p in s ==> EndsElected(s[p], p, h, lost, c, fit, h in links[p])
    ensures Recovered(s, links, h, lost, c, fit)
  {
    assert links[h] == links[h];
  }

  lemma {:induction false} ThreeRounds(rounds: seq<Survivors>, links: Links, config: ClusterConfig, h: NodeId,
                                       lost: Ballot)
    requires IsSchedule(links, rounds) && |rounds| > 3
    requires OneHub(rounds[0], links, config, h) && h != lost.pid && Following(rounds[0], links, lost)
    requires forall p :: p in rounds[0] ==> rounds[0][p].ble.happy
    ensures OneHub(rounds[3], links, config, h)
    ensures Elected(rounds[3], links, h, lost, Candidate(rounds[0][h], lost), AtMost(rounds[0][h].nLeader, lost))
  {
    assert RoundAt(links, rounds, 1) && RoundAt(links, rounds, 2) && RoundAt(links, rounds, 3);
    OwnerTurns(rounds[0], rounds[1], links, config, h, lost);
    HubTakesOver(rounds[1], rounds[2], links, config, h, lost);
    if MayTakeOver(rounds[1], links, h, h) {
      OthersFollow(rounds[2], rounds[3], links, config, h, lost, Candidate(rounds[0][h], lost),
                   AtMost(rounds[0][h].nLeader, lost));
    } else {
      HubTakesOver(rounds[2], rounds[3], links, config, h, lost);
    }
  }

  lemma {:induction false} StaysRecovered(rounds: seq<Survivors>, links: Links, config: ClusterConfig, h: NodeId,
                                          lost: Ballot, c: Ballot, fit: bool, i: nat)
    requires IsSchedule(links, rounds) && 3 < i < |rounds|
    requires OneHub(rounds[3], links, config, h) && Elected(rounds[3], links, h, lost, c, fit)
    ensures OneHub(rounds[i], links, config, h) && Recovered(rounds[i], links, h, lost, c, fit)
    decreases i
  {
    if i > 4 {
      StaysRecovered(rounds, links, config, h, lost, c, fit, i - 1);
    }
    assert RoundAt(links, rounds, i);
    OthersFollow(rounds[i - 1], rounds[i], links, config, h, lost, c, fit);
  }

  /**
   * Recovery from quorum loss. All servers follow a leader happily, and whoever they hear, exactly one of
   * them, which is not the leader, still hears a prepare quorum. From the fourth round on it leads a ballot
   * one past the lost one, everybody that hears it follows that happily, and nobody else follows anything new.
   */
  lemma {:induction false} QuorumLossRecovers(rounds: seq<Survivors>, links: Links, config: ClusterConfig, h: NodeId,
                                              lost: Ballot, i: nat)
    requires IsSchedule(links, rounds) && 4 <= i < |rounds|
    requires OneHub(rounds[0], links, config, h) && h != lost.pid && Following(rounds[0], links, lost)
    requires forall p :: p in rounds[0] ==> rounds[0][p].ble.happy
    ensures var c := Candidate(rounds[0][h], lost);
            && rounds[i].Keys == rounds[0].Keys
            && HubLeads(rounds[i][h], c, AtMost(rounds[0][h].nLeader, lost))
            && forall p {:trigger links[p]} :: p in rounds[0] && p != h ==>
                 if h in links[p] then rounds[i][p].ble.leader == c && rounds[i][p].ble.happy
                 else rounds[i][p].ble.leader == lost
  {
    ThreeRounds(rounds, links, config, h, lost);
    StaysRecovered(rounds, links, config, h, lost, Candidate(rounds[0][h], lost),
                   AtMost(rounds[0][h].nLeader, lost), i);
    SameNodes(links, rounds, i);
  }

  // Such clusters exist: a star, whose centre hears everybody and is all that the others hear.

  function Star(s: Survivors, h: NodeId): Links {
    map p | p in s :: if p == h then s.Keys - {h} else {h}
  }

  lemma {:induction false} StarHasOneHub(s: Survivors, config: ClusterConfig, h: NodeId)
    requires Validate(config) == Valid && AllMembers(s, config) && |s| == |config.nodes| && h in s
    requires !IsPrepareQuorum(QuorumFor(config.flexibleQuorum, |config.nodes|), 2)
    ensures OneHub(s, Star(s, h), config, h)
  {
    assert |s.Keys - {h}| == |s.Keys| - 1;
  }
}
