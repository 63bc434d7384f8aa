/**
 * Heartbeat rounds of a cluster in which every server hears a given set of others: each answer
 * arrives, in some order, and then everybody times out.
 */
module HeartbeatRounds {
  import opened Ballots
  import opened Quorums
  import opened LeaderElection
  import opened Replicas

  /** The servers that have not crashed. */
  type Survivors = map<NodeId, Replica>

  /** Whom each server hears. */
  type Links = map<NodeId, set<NodeId>>

  /** `p` after the nodes of `order` answered, in that order, the request that `p` sent this round. */
  function Gather(s: Survivors, p: NodeId, order: seq<NodeId>): Replica
    requires p in s && forall q :: q in order ==> q in s
  {
    if |order| == 0 then s[p]
    else
      var last := |order| - 1;
      var r := Gather(s, p, order[..last]);
      r.(ble := Handle(r.ble, ReplyTo(s[order[last]].ble, p, s[p].ble.hbRound)))
  }

  ghost predicate TimesOut(s: Survivors, p: NodeId, heard: set<NodeId>, order: seq<NodeId>, r: Replica)
    requires p in s && heard <= s.Keys
  {
    && NoDuplicates(order) && Members(order) == heard
    && (forall q :: q in order ==> q in Members(order))
    && r == ElectionTimeout(Gather(s, p, order))
  }

  /** `r` is what `p` may be after it heard all of `heard`, in some order, and timed out. */
  ghost predicate EndsRound(s: Survivors, p: NodeId, heard: set<NodeId>, r: Replica)
    requires p in s && heard <= s.Keys
  {
    exists order :: TimesOut(s, p, heard, order, r)
  }

  ghost predicate LinksOf(s: Survivors, links: Links) {
    links.Keys == s.Keys && forall p :: p in links ==> links[p] <= s.Keys
  }

  /** Every server hears the others it is linked to, each once, and then times out. */
  ghost predicate Round(links: Links, s: Survivors, s': Survivors) {
    && LinksOf(s, links) && s'.Keys == s.Keys
    && forall p :: p in s ==> EndsRound(s, p, links[p], s'[p])
  }

  ghost predicate RoundAt(links: Links, rounds: seq<Survivors>, i: nat)
    requires 0 < i < |rounds|
  {
    Round(links, rounds[i - 1], rounds[i])
  }

  ghost predicate IsSchedule(links: Links, rounds: seq<Survivors>) {
    && |rounds| > 0
    && forall i {:trigger RoundAt(links, rounds, i)} :: 0 < i < |rounds| ==> RoundAt(links, rounds, i)
  }

  /** What `q`'s answer to `p` says. */
  function Answer(s: Survivors, p: NodeId, q: NodeId): HeartbeatReply
    requires p in s && q in s
  {
    HeartbeatReply(s[p].ble.hbRound, s[q].ble.current, s[q].ble.leader, s[q].ble.happy)
  }

  predicate Member(r: Replica, p: NodeId, config: ClusterConfig) {
    && r.ble.pid == p && r.ble.current.pid == p
    && r.ble.configurationId == r.ble.current.configId == config.configurationId
    && r.ble.quorum == QuorumFor(config.flexibleQuorum, |config.nodes|)
    && r.ble.replies == []
  }

  /** All run the same configuration. */
  ghost predicate AllMembers(s: Survivors, config: ClusterConfig) {
    forall p :: p in s ==> Member(s[p], p, config)
  }

  lemma {:induction false} GatheredReplies(s: Survivors, p: NodeId, order: seq<NodeId>, config: ClusterConfig)
    requires AllMembers(s, config) && p in s && forall q :: q in order ==> q in s
    ensures var r := Gather(s, p, order);
            && r == s[p].(ble := s[p].ble.(replies := r.ble.replies))
            && |r.ble.replies| == |order|
            && forall i :: 0 <= i < |order| ==> r.ble.replies[i] == Answer(s, p, order[i])
  {
    if |order| > 0 {
      var last := |order| - 1;
      GatheredReplies(s, p, order[..last], config);
      assert Member(s[order[last]], order[last], config) && Member(s[p], p, config);
    }
  }

  /** `g` is `p` after hearing each of `heard` exactly once. */
  ghost predicate HasHeard(s: Survivors, p: NodeId, heard: set<NodeId>, g: Replica)
    requires p in s && heard <= s.Keys
  {
    && g == s[p].(ble := s[p].ble.(replies := g.ble.replies))
    && |g.ble.replies| == |heard|
    && (forall q :: q in heard ==> Answer(s, p, q) in g.ble.replies)
    && forall rep :: rep in g.ble.replies ==> exists q :: q in heard && rep == Answer(s, p, q)
  }

  lemma {:induction false} HeardFrom(s: Survivors, p: NodeId, heard: set<NodeId>, order: seq<NodeId>,
                                     config: ClusterConfig)
    requires AllMembers(s, config) && p in s && heard <= s.Keys
    requires NoDuplicates(order) && Members(order) == heard && forall q :: q in order ==> q in Members(order)
    ensures HasHeard(s, p, heard, Gather(s, p, order))
  {
    GatheredReplies(s, p, order, config);
    MembersCardinality(order);
    var r := Gather(s, p, order);
    forall q | q in heard ensures Answer(s, p, q) in r.ble.replies {
      assert q in Members(order);
      var i :| 0 <= i < |order| && order[i] == q;
      assert r.ble.replies[i] == Answer(s, p, q);
    }
    forall rep | rep in r.ble.replies ensures exists q :: q in heard && rep == Answer(s, p, q) {
      var i :| 0 <= i < |order| && r.ble.replies[i] == rep;
      assert order[i] in heard && rep == Answer(s, p, order[i]);
    }
  }

  /** A round ends with a timeout after hearing each of `heard` once. */
  lemma {:induction false} RoundHears(s: Survivors, p: NodeId, heard: set<NodeId>, r: Replica, config: ClusterConfig)
    returns (g: Replica)
    requires AllMembers(s, config) && p in s && heard <= s.Keys && EndsRound(s, p, heard, r)
    ensures HasHeard(s, p, heard, g) && r == ElectionTimeout(g) && Member(s[p], p, config)
  {
    var order :| TimesOut(s, p, heard, order, r);
    HeardFrom(s, p, heard, order, config);
    g := Gather(s, p, order);
    assert Member(s[p], p, config);
  }

  lemma {:induction false} TimeoutKeepsIdentity(g: Replica)
    requires AtMost(g.promise, g.ble.leader)
    ensures var b, b' := g.ble, ElectionTimeout(g).ble;
            && b'.pid == b.pid && b'.configurationId == b.configurationId && b'.quorum == b.quorum
            && b'.replies == []
            && b'.current == b.current.(n := b'.current.n)
  {
    var taken := Takeover(WithHappiness(WithLeader(g.ble), g.role, g.phase));
    assert AtMost(g.ble.leader, taken.leader);
    assert SyncWithPromise(NewHbRound(taken), g.promise) == NewHbRound(taken);
  }

  lemma {:induction false} StaysMember(s: Survivors, p: NodeId, heard: set<NodeId>, r: Replica, config: ClusterConfig)
    requires AllMembers(s, config) && p in s && heard <= s.Keys && EndsRound(s, p, heard, r)
    requires AtMost(s[p].promise, s[p].ble.leader)
    ensures Member(r, p, config) && r.ble.current.priority == s[p].ble.current.priority
  {
    var g := RoundHears(s, p, heard, r, config);
    TimeoutKeepsIdentity(g);
  }

  lemma {:induction false} RoundKeepsMembers(links: Links, s: Survivors, s': Survivors, config: ClusterConfig)
    requires AllMembers(s, config) && Round(links, s, s')
    requires forall p :: p in s ==> AtMost(s[p].promise, s[p].ble.leader)
    ensures AllMembers(s', config) && |s'| == |s|
  {
    forall p | p in s ensures Member(s'[p], p, config) {
      StaysMember(s, p, links[p], s'[p], config);
    }
    assert |s'| == |s'.Keys| == |s.Keys|;
  }

  // From every state there are schedules of every length.

  lemma {:induction false} OrderExists(nodes: set<NodeId>) returns (order: seq<NodeId>)
    ensures NoDuplicates(order) && Members(order) == nodes
    ensures forall q :: q in order <==> q in nodes
    decreases nodes
  {
    order := [];
    if nodes != {} {
      var p :| p in nodes;
      var rest := OrderExists(nodes - {p});
      order := rest + [p];
      assert forall i :: 0 <= i < |rest| ==> rest[i] in rest;
      assert forall q :: q in order <==> q in rest || q == p;
    }
  }

  lemma {:induction false} RoundEnds(links: Links, s: Survivors, nodes: set<NodeId>) returns (s': Survivors)
    requires LinksOf(s, links) && nodes <= s.Keys
    ensures s'.Keys == nodes && forall p :: p in nodes ==> EndsRound(s, p, links[p], s'[p])
    decreases nodes
  {
    s' := map[];
    if nodes != {} {
      var p :| p in nodes;
      var rest := RoundEnds(links, s, nodes - {p});
      var order := OrderExists(links[p]);
      var r := ElectionTimeout(Gather(s, p, order));
      assert TimesOut(s, p, links[p], order, r);
      s' := rest[p := r];
    }
  }

  lemma {:induction false} ScheduleExists(links: Links, s: Survivors, k: nat) returns (rounds: seq<Survivors>)
    requires LinksOf(s, links)
    ensures IsSchedule(links, rounds) && |rounds| == k + 1 && rounds[0] == s && rounds[k].Keys == s.Keys
  {
    if k == 0 {
      rounds := [s];
    } else {
      var before := ScheduleExists(links, s, k - 1);
      var s' := RoundEnds(links, before[k - 1], before[k - 1].Keys);
      rounds := before + [s'];
      ScheduleExtends(links, before, s');
    }
  }

  lemma {:induction false} ScheduleExtends(links: Links, rounds: seq<Survivors>, s: Survivors)
    requires IsSchedule(links, rounds) && Round(links, rounds[|rounds| - 1], s)
    ensures IsSchedule(links, rounds + [s])
  {
    forall i | 0 < i < |rounds| + 1 ensures RoundAt(links, rounds + [s], i) {
      if i < |rounds| {
        assert RoundAt(links, rounds, i);
      }
    }
  }

  lemma {:induction false} SameNodes(links: Links, rounds: seq<Survivors>, i: nat)
    requires IsSchedule(links, rounds) && i < |rounds|
    ensures rounds[i].Keys == rounds[0].Keys
  {
    if i > 0 {
      SameNodes(links, rounds, i - 1);
      NextNodes(links, rounds, i);
    }
  }

  lemma {:induction false} NextNodes(links: Links, rounds: seq<Survivors>, i: nat)
    requires IsSchedule(links, rounds) && 0 < i < |rounds|
    ensures rounds[i].Keys == rounds[i - 1].Keys
  {
    assert RoundAt(links, rounds, i);
  }
}
