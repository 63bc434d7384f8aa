/** Cluster configuration, quorum sizes and the overlap of quorums. */
module Quorums {
  import opened Ballots

  datatype FlexibleQuorum = FlexibleQuorum(readQuorumSize: nat, writeQuorumSize: nat)

  datatype Quorum = Majority(size: nat) | Flexible(sizes: FlexibleQuorum)

  datatype QuorumConfig = NoFlexibleQuorum | UseFlexible(flexible: FlexibleQuorum)

  datatype ClusterConfig = ClusterConfig(configurationId: nat, nodes: seq<NodeId>, flexibleQuorum: QuorumConfig)

  datatype ConfigError =
    | TooFewNodes
    | ZeroConfigurationId
    | QuorumsDoNotOverlap
    | ReadQuorumOutOfRange
    | WriteQuorumOutOfRange
    | ReadQuorumSmallerThanWriteQuorum

  datatype Validation = Valid | Invalid(error: ConfigError)

  function Validate(config: ClusterConfig): Validation {
    var numNodes := |config.nodes|;
    if numNodes <= 1 then Invalid(TooFewNodes)
    else if config.configurationId == 0 then Invalid(ZeroConfigurationId)
    else match config.flexibleQuorum
      case NoFlexibleQuorum => Valid
      case UseFlexible(FlexibleQuorum(read, write)) =>
        if read + write <= numNodes then Invalid(QuorumsDoNotOverlap)
        else if !(2 <= read <= numNodes) then Invalid(ReadQuorumOutOfRange)
        else if !(2 <= write <= numNodes) then Invalid(WriteQuorumOutOfRange)
        else if read < write then Invalid(ReadQuorumSmallerThanWriteQuorum)
        else Valid
  }

  function QuorumFor(flexibleQuorum: QuorumConfig, numNodes: nat): Quorum {
    match flexibleQuorum
    case UseFlexible(sizes) => Flexible(sizes)
    case NoFlexibleQuorum => Majority(numNodes / 2 + 1)
  }

  predicate IsPrepareQuorum(quorum: Quorum, numNodes: nat) {
    match quorum
    case Majority(size) => numNodes >= size
    case Flexible(sizes) => numNodes >= sizes.readQuorumSize
  }

  predicate IsAcceptQuorum(quorum: Quorum, numNodes: nat) {
    match quorum
    case Majority(size) => numNodes >= size
    case Flexible(sizes) => numNodes >= sizes.writeQuorumSize
  }

  ghost predicate NoDuplicates<T>(s: seq<T>) {
    forall i, j :: 0 <= i < j < |s| ==> s[i] != s[j]
  }

  function Members<T>(s: seq<T>): set<T> {
    set x | x in s
  }

  lemma {:induction false} MembersCardinality<T>(s: seq<T>)
    requires NoDuplicates(s)
    ensures |Members(s)| == |s|
  {
    if |s| == 0 {
      assert Members(s) == {};
    } else {
      var last := |s| - 1;
      MembersCardinality(s[..last]);
      assert Members(s) == Members(s[..last]) + {s[last]};
    }
  }

  /** The servers numbered below `n`. */
  function Servers(n: nat): (servers: set<nat>)
    ensures |servers| == n
    ensures forall p: nat :: p in servers <==> p < n
  {
    if n == 0 then {} else Servers(n - 1) + {n - 1}
  }

  /** Two parts of a finite set that together outnumber it share an element. */
  lemma {:induction false} Overlap<T>(all: set<T>, a: set<T>, b: set<T>) returns (x: T)
    requires a <= all && b <= all && |a| + |b| > |all|
    ensures x in a && x in b
  {
    SubsetCardinality(a + b, all);
    assert |a + b| == |a| + |b| - |a * b|;
    x :| x in a * b;
  }

  lemma {:induction false} SubsetCardinality<T>(a: set<T>, b: set<T>)
    requires a <= b
    ensures |a| <= |b|
  {
    if a != {} {
      var x :| x in a;
      SubsetCardinality(a - {x}, b - {x});
    }
  }

  /**
   * Quorum overlap: in every configuration that validation accepts, a prepare quorum
   * meets every accept quorum and every other prepare quorum.
   */
  lemma {:induction false} QuorumsIntersect(config: ClusterConfig, prepare: set<NodeId>, other: set<NodeId>)
    returns (x: NodeId)
    requires Validate(config) == Valid && NoDuplicates(config.nodes)
    requires prepare <= Members(config.nodes) && other <= Members(config.nodes)
    requires var q := QuorumFor(config.flexibleQuorum, |config.nodes|);
             && IsPrepareQuorum(q, |prepare|)
             && (IsAcceptQuorum(q, |other|) || IsPrepareQuorum(q, |other|))
    ensures x in prepare && x in other
  {
    MembersCardinality(config.nodes);
    x := Overlap(Members(config.nodes), prepare, other);
  }

  /** Sets of two sizes always meet if and only if the sizes add up to more than the number of nodes. */
  lemma {:induction false} SizesOverlapIff(nodes: seq<NodeId>, read: nat, write: nat)
    requires NoDuplicates(nodes)
    ensures (read + write > |nodes|) <==>
            (forall p: set<NodeId>, a: set<NodeId> ::
               p <= Members(nodes) && a <= Members(nodes) && |p| >= read && |a| >= write ==> p * a != {})
  {
    MembersCardinality(nodes);
    if read + write > |nodes| {
      forall p: set<NodeId>, a: set<NodeId>
        | p <= Members(nodes) && a <= Members(nodes) && |p| >= read && |a| >= write
        ensures p * a != {}
      {
        var x := Overlap(Members(nodes), p, a);
        assert x in p * a;
      }
    } else {
      var p, a := Members(nodes[..read]), Members(nodes[read..read + write]);
      MembersCardinality(nodes[..read]);
      MembersCardinality(nodes[read..read + write]);
      assert p <= Members(nodes) && a <= Members(nodes) && |p| >= read && |a| >= write;
      assert p * a == {};
    }
  }

  /**
   * The overlap check of validation is exact. A configuration that is not refused before it is refused for
   * its quorums not overlapping if and only if some prepare quorum misses some accept quorum.
   */
  lemma {:induction false} OverlapCheckIsExact(config: ClusterConfig)
    requires NoDuplicates(config.nodes) && |config.nodes| > 1 && config.configurationId != 0
    requires config.flexibleQuorum.UseFlexible?
    ensures var (nodes, q) := (Members(config.nodes), QuorumFor(config.flexibleQuorum, |config.nodes|));
            Validate(config) != Invalid(QuorumsDoNotOverlap) <==>
            (forall p: set<NodeId>, a: set<NodeId> ::
               p <= nodes && a <= nodes && IsPrepareQuorum(q, |p|) && IsAcceptQuorum(q, |a|) ==> p * a != {})
  {
    var sizes := config.flexibleQuorum.flexible;
    SizesOverlapIff(config.nodes, sizes.readQuorumSize, sizes.writeQuorumSize);
  }

  /**
   * What validation is for: it accepts exactly the configurations, with a number of their own, in which all
   * servers together form both quorums, none does alone, a prepare quorum is always an accept quorum, and
   * no prepare quorum misses an accept quorum.
   */
  lemma {:induction false} ValidIffQuorumsWork(config: ClusterConfig)
    requires NoDuplicates(config.nodes)
    ensures var (n, nodes) := (|config.nodes|, Members(config.nodes));
            var q := QuorumFor(config.flexibleQuorum, n);
            Validate(config) == Valid <==>
            && n > 1 && config.configurationId > 0
            && IsPrepareQuorum(q, n) && IsAcceptQuorum(q, n)
            && !IsPrepareQuorum(q, 1) && !IsAcceptQuorum(q, 1)
            && (forall k: nat :: IsPrepareQuorum(q, k) ==> IsAcceptQuorum(q, k))
            && forall p: set<NodeId>, a: set<NodeId> ::
                 p <= nodes && a <= nodes && IsPrepareQuorum(q, |p|) && IsAcceptQuorum(q, |a|) ==> p * a != {}
  {
    match config.flexibleQuorum
    case UseFlexible(sizes) =>
      SizesOverlapIff(config.nodes, sizes.readQuorumSize, sizes.writeQuorumSize);
      assert IsPrepareQuorum(Flexible(sizes), sizes.readQuorumSize);
    case NoFlexibleQuorum =>
      SizesOverlapIff(config.nodes, |config.nodes| / 2 + 1, |config.nodes| / 2 + 1);
  }
}
