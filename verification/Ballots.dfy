/** Ballots and the order that leader election and promises rely on. */
module Ballots {
  type NodeId = nat

  datatype Ballot = Ballot(configId: nat, n: nat, priority: nat, pid: NodeId)

  const DEFAULT_BALLOT := Ballot(0, 0, 0, 0)

  /** The order is lexicographic on (n, priority, pid); the configuration id takes no part in it. */
  predicate Less(a: Ballot, b: Ballot) {
    || a.n < b.n
    || (a.n == b.n && a.priority < b.priority)
    || (a.n == b.n && a.priority == b.priority && a.pid < b.pid)
  }

  predicate AtMost(a: Ballot, b: Ballot) {
    !Less(b, a)
  }
}
