/**
 * Exactly-once, in-order confirmation on the fast path when the proxy handles each acknowledgement
 * as one step: per-server channels are first-in-first-out and roles do not change.
 */
module FastPathOrder {
  import opened Wrappers
  import opened KvStore
  import opened FastPath
  import opened Quorums

  /** `channels[p]` are the acknowledgements that server `p` sent and the proxy has not handled. */
  datatype Cluster = Cluster(
    n: nat, f: nat, leaders: set<nat>,
    logs: seq<seq<Command>>,
    channels: seq<seq<Ack>>,
    table: Table,
    confirmed: seq<Confirmation>)

  datatype Step = Append(server: nat, command: Command, speculation: Speculation) | Handle(server: nat)

  function Start(n: nat, f: nat, leaders: set<nat>): Cluster {
    Cluster(n, f, leaders, seq(n, _ => []), seq(n, _ => []), map[], [])
  }

  predicate Enabled(s: Cluster, step: Step) {
    && |s.logs| == |s.channels| == s.n && s.f <= s.n && step.server < s.n
    && (step.Append? ==> (step.speculation.Some? <==> step.server in s.leaders))
    && (step.Handle? ==> s.channels[step.server] != [])
  }

  /** The acknowledgement of position `i` (counted from 1) of `log`. */
  predicate Acknowledges(a: Ack, p: nat, log: seq<Command>, i: nat, leads: bool)
    requires 0 < i <= |log|
  {
    && a.from == p && a.lastIdx == i && a.hash == DigestOf(log)[..i]
    && a.command == log[i - 1]
    && (a.speculation.Some? <==> leads)
  }

  function Perform(s: Cluster, step: Step): Cluster
    requires Enabled(s, step)
  {
    var p := step.server;
    match step
    case Append(_, command, speculation) =>
      var log := s.logs[p] + [command];
      s.(logs := s.logs[p := log],
         channels := s.channels[p := s.channels[p] + [Ack(p, command, DigestOf(log), speculation, |log|)]])
    case Handle(_) =>
      var ack := s.channels[p][0];
      var s' := s.(channels := s.channels[p := s.channels[p][1..]], table := AfterAck(s.n - s.f, s.table, ack));
      if Confirms(s.n - s.f, Counted(s.table, ack))
      then s'.(confirmed := s.confirmed + [Confirmation(ack.command, ack.hash, ack.lastIdx)])
      else s'
  }

  function After(s: Cluster, steps: seq<Step>): Option<Cluster> {
    if |steps| == 0 then Some(s)
    else match After(s, steps[..|steps| - 1])
      case None => None
      case Some(m) => if Enabled(m, steps[|steps| - 1]) then Some(Perform(m, steps[|steps| - 1])) else None
  }

  ghost predicate Reachable(s: Cluster) {
    exists steps :: After(Start(s.n, s.f, s.leaders), steps) == Some(s)
  }

  // The invariant.

  /** `channel` holds the acknowledgements of the last positions of `log`, in order. */
  ghost predicate ChannelOf(channel: seq<Ack>, p: nat, log: seq<Command>, leads: bool) {
    && |channel| <= |log|
    && forall i :: 0 <= i < |channel| ==> Acknowledges(channel[i], p, log, |log| - |channel| + i + 1, leads)
  }

  ghost predicate Sound(s: Cluster) {
    && |s.logs| == |s.channels| == s.n && s.n > 2 * s.f
    && forall p {:trigger s.channels[p]} :: 0 <= p < s.n ==> ChannelOf(s.channels[p], p, s.logs[p], p in s.leaders)
  }

  /** The acknowledgement of `h`, a prefix of the log, has left the channel. */
  predicate Backs(log: seq<Command>, channel: seq<Ack>, h: Digest) {
    |h| + |channel| <= |log| && h <= DigestOf(log)
  }

  /** The servers whose acknowledgement of `h` has been handled, as logs and channels show. */
  ghost function Backers(s: Cluster, h: Digest): set<nat>
    requires |s.logs| == |s.channels| == s.n
  {
    set p | p in Servers(s.n) && Backs(s.logs[p], s.channels[p], h)
  }

  ghost predicate IsConfirmed(s: Cluster, h: Digest) {
    exists c :: c in s.confirmed && c.hash == h
  }

  /** What the table says of a hash that is not confirmed: all its backers, and no quorum with a leader. */
  ghost predicate Pending(table: Table, quorum: nat, h: Digest, backers: set<nat>, leaders: set<nat>) {
    if backers == {} then h !in table
    else
      && h in table
      && table[h].counter == |backers|
      && (table[h].speculation.Some? <==> backers * leaders != {})
      && !Confirms(quorum, table[h])
  }

  /** A confirmed hash keeps a quorum of backers beyond those counted since. */
  ghost predicate Settled(table: Table, quorum: nat, h: Digest, backers: set<nat>, leaders: set<nat>) {
    && |backers| >= quorum + (if h in table then table[h].counter else 0)
    && backers * leaders != {}
  }

  ghost predicate Accounted(s: Cluster, h: Digest)
    requires Sound(s)
  {
    if IsConfirmed(s, h)
    then Settled(s.table, s.n - s.f, h, Backers(s, h), s.leaders)
    else Pending(s.table, s.n - s.f, h, Backers(s, h), s.leaders)
  }

  /** Confirmation `i` is of the log prefix of length i + 1, and extends the one before it. */
  predicate Follows(confirmed: seq<Confirmation>, i: nat)
    requires i < |confirmed|
  {
    var c := confirmed[i];
    && |c.hash| == c.lastIdx == i + 1
    && Hashed(c.command.id, c.command.kv) == c.hash[i]
    && (i > 0 ==> confirmed[i - 1].hash == c.hash[..i])
  }

  /** The confirmations are the successive prefixes, of lengths 1, 2, 3, ..., of one log. */
  ghost predicate Consecutive(confirmed: seq<Confirmation>) {
    forall i {:trigger Follows(confirmed, i)} :: 0 <= i < |confirmed| ==> Follows(confirmed, i)
  }

  ghost predicate Inv(s: Cluster) {
    && Sound(s) && Consecutive(s.confirmed)
    && forall h {:trigger Accounted(s, h)} :: |h| > 0 ==> Accounted(s, h)
  }

  lemma {:induction false} StartInv(n: nat, f: nat, leaders: set<nat>)
    requires n > 2 * f
    ensures Inv(Start(n, f, leaders))
  {
    var s := Start(n, f, leaders);
    forall h: Digest | |h| > 0 ensures Accounted(s, h) {
      assert Backers(s, h) == {};
    }
  }

  // Channels.

  lemma {:induction false} ChannelGrows(channel: seq<Ack>, p: nat, log: seq<Command>, leads: bool, ack: Ack)
    requires ChannelOf(channel, p, log, leads)
    requires Acknowledges(ack, p, log + [ack.command], |log| + 1, leads)
    ensures ChannelOf(channel + [ack], p, log + [ack.command], leads)
  {
    var log' := log + [ack.command];
    forall i | 0 <= i < |channel| ensures Acknowledges(channel[i], p, log', |log| - |channel| + i + 1, leads) {
      var k := |log| - |channel| + i + 1;
      assert DigestOf(log')[..k] == DigestOf(log)[..k];
    }
  }

  lemma {:induction false} GrowthKeepsBacking(log: seq<Command>, channel: seq<Ack>, h: Digest, ack: Ack)
    ensures Backs(log + [ack.command], channel + [ack], h) <==> Backs(log, channel, h)
  {
    var log' := log + [ack.command];
    assert DigestOf(log')[..|log|] == DigestOf(log);
    if |h| <= |log| {
      assert DigestOf(log')[..|h|] == DigestOf(log)[..|h|];
    }
  }

  /** Taking the first acknowledgement out backs its hash, which was not backed, and no other. */
  lemma {:induction false} TakeBacks(log: seq<Command>, channel: seq<Ack>, p: nat, leads: bool, h: Digest)
    requires ChannelOf(channel, p, log, leads) && |channel| > 0 && |h| > 0
    ensures Acknowledges(channel[0], p, log, |log| - |channel| + 1, leads)
    ensures ChannelOf(channel[1..], p, log, leads)
    ensures !Backs(log, channel, channel[0].hash)
    ensures Backs(log, channel[1..], h) <==> Backs(log, channel, h) || h == channel[0].hash
  {
    assert channel[0].hash == DigestOf(log)[..|log| - |channel| + 1];
    if Backs(log, channel[1..], h) && !Backs(log, channel, h) {
      assert h == DigestOf(log)[..|h|];
    }
  }

  lemma {:induction false} AppendKeepsInv(s: Cluster, step: Step)
    requires Inv(s) && Enabled(s, step) && step.Append?
    ensures Inv(Perform(s, step))
  {
    var s', p := Perform(s, step), step.server;
    var ack := Ack(p, step.command, DigestOf(s'.logs[p]), step.speculation, |s'.logs[p]|);
    assert DigestOf(s'.logs[p])[..|s'.logs[p]|] == DigestOf(s'.logs[p]);
    ChannelGrows(s.channels[p], p, s.logs[p], p in s.leaders, ack);
    forall h: Digest | |h| > 0 ensures Accounted(s', h) {
      GrowthKeepsBacking(s.logs[p], s.channels[p], h, ack);
      assert Backers(s', h) == Backers(s, h);
      assert Accounted(s, h);
    }
  }

  // Handling one acknowledgement.

  lemma {:induction false} HandleStaysSound(s: Cluster, p: nat, h: Digest)
    requires Sound(s) && Enabled(s, Handle(p)) && |h| > 0
    ensures Sound(Perform(s, Handle(p)))
    ensures Acknowledges(s.channels[p][0], p, s.logs[p], |s.logs[p]| - |s.channels[p]| + 1, p in s.leaders)
    ensures p !in Backers(s, s.channels[p][0].hash)
    ensures Backs(s.logs[p], s.channels[p][1..], h) <==> p in Backers(s, h) || h == s.channels[p][0].hash
  {
    TakeBacks(s.logs[p], s.channels[p], p, p in s.leaders, h);
  }

  lemma {:induction false} OtherBacks(s: Cluster, p: nat, h: Digest, q: nat)
    requires Enabled(s, Handle(p)) && q < s.n
    ensures q in Backers(Perform(s, Handle(p)), h) <==>
            if q == p then Backs(s.logs[p], s.channels[p][1..], h) else q in Backers(s, h)
  {
    var s' := Perform(s, Handle(p));
    assert s'.logs == s.logs && s'.channels[q] == if q == p then s.channels[p][1..] else s.channels[q];
  }

  lemma {:induction false} OthersBack(s: Cluster, p: nat, h: Digest)
    requires Enabled(s, Handle(p))
    ensures Backers(Perform(s, Handle(p)), h) ==
            Backers(s, h) - {p} + (if Backs(s.logs[p], s.channels[p][1..], h) then {p} else {})
  {
    forall q | q in Servers(s.n)
      ensures q in Backers(Perform(s, Handle(p)), h) <==>
              if q == p then Backs(s.logs[p], s.channels[p][1..], h) else q in Backers(s, h)
    {
      OtherBacks(s, p, h, q);
    }
    ReplacedIn(Servers(s.n), Backers(s, h), Backers(Perform(s, Handle(p)), h), p,
               Backs(s.logs[p], s.channels[p][1..], h));
  }

  /** Two parts of a set that differ in at most one element. */
  lemma {:induction false} ReplacedIn<T>(all: set<T>, a: set<T>, b: set<T>, p: T, now: bool)
    requires a <= all && b <= all && p in all
    requires forall q :: q in all ==> (q in b <==> if q == p then now else q in a)
    ensures b == a - {p} + (if now then {p} else {})
  {
  }

  /** Handling an acknowledgement adds its sender to the backers of its hash, and to no others'. */
  lemma {:induction false} HandleBackers(s: Cluster, p: nat, h: Digest)
    requires Sound(s) && Enabled(s, Handle(p)) && |h| > 0
    ensures var s', ack := Perform(s, Handle(p)), s.channels[p][0];
            && Sound(s')
            && Acknowledges(ack, p, s.logs[p], |s.logs[p]| - |s.channels[p]| + 1, p in s.leaders)
            && p !in Backers(s, ack.hash)
            && Backers(s', h) == Backers(s, h) + (if h == ack.hash then {p} else {})
  {
    HandleStaysSound(s, p, h);
    OthersBack(s, p, h);
  }

  lemma {:induction false} CountPending(table: Table, quorum: nat, ack: Ack, backers: set<nat>, leaders: set<nat>)
    requires Pending(table, quorum, ack.hash, backers, leaders) && ack.from !in backers
    requires ack.speculation.Some? <==> ack.from in leaders
    ensures var table', backers' := AfterAck(quorum, table, ack), backers + {ack.from};
            if Confirms(quorum, Counted(table, ack))
            then Settled(table', quorum, ack.hash, backers', leaders)
            else Pending(table', quorum, ack.hash, backers', leaders)
  {
    assert (backers + {ack.from}) * leaders == backers * leaders + (if ack.from in leaders then {ack.from} else {});
  }

  /** Acknowledgements that come after the confirmation start a count too short to confirm again. */
  lemma {:induction false} CountSettled(table: Table, quorum: nat, ack: Ack, backers: set<nat>, leaders: set<nat>)
    requires Settled(table, quorum, ack.hash, backers, leaders) && ack.from !in backers
    requires |backers| + 1 < 2 * quorum
    ensures !Confirms(quorum, Counted(table, ack))
    ensures Settled(AfterAck(quorum, table, ack), quorum, ack.hash, backers + {ack.from}, leaders)
  {
    assert |backers + {ack.from}| == |backers| + 1;
    assert backers * leaders <= (backers + {ack.from}) * leaders;
  }

  lemma {:induction false} HandledSettled(s: Cluster, p: nat)
    requires Inv(s) && Enabled(s, Handle(p)) && IsConfirmed(s, s.channels[p][0].hash)
    ensures var s', h := Perform(s, Handle(p)), s.channels[p][0].hash;
            && Sound(s') && |h| > 0 && Accounted(s', h)
            && !Confirms(s.n - s.f, Counted(s.table, s.channels[p][0]))
  {
    var s', ack := Perform(s, Handle(p)), s.channels[p][0];
    HashNotEmpty(s, p);
    HandleBackers(s, p, ack.hash);
    assert Accounted(s, ack.hash);
    SubsetCardinality(Backers(s', ack.hash), Servers(s.n));
    CountSettled(s.table, s.n - s.f, ack, Backers(s, ack.hash), s.leaders);
    assert s'.confirmed == s.confirmed;
  }

  lemma {:induction false} HandledPending(s: Cluster, p: nat)
    requires Inv(s) && Enabled(s, Handle(p)) && !IsConfirmed(s, s.channels[p][0].hash)
    ensures var s', h := Perform(s, Handle(p)), s.channels[p][0].hash;
            && Sound(s') && |h| > 0 && Accounted(s', h)
            && (Confirms(s.n - s.f, Counted(s.table, s.channels[p][0])) ==>
                  |Backers(s', h)| >= s.n - s.f && Backers(s', h) * s.leaders != {})
  {
    var s', ack := Perform(s, Handle(p)), s.channels[p][0];
    HashNotEmpty(s, p);
    HandleBackers(s, p, ack.hash);
    assert Accounted(s, ack.hash);
    CountPending(s.table, s.n - s.f, ack, Backers(s, ack.hash), s.leaders);
    if Confirms(s.n - s.f, Counted(s.table, ack)) {
      assert s'.confirmed[|s.confirmed|].hash == ack.hash;
      assert IsConfirmed(s', ack.hash);
    } else {
      assert s'.confirmed == s.confirmed;
    }
  }

  lemma {:induction false} HashNotEmpty(s: Cluster, p: nat)
    requires Sound(s) && Enabled(s, Handle(p))
    ensures |s.channels[p][0].hash| > 0
  {
    TakeBacks(s.logs[p], s.channels[p], p, p in s.leaders, [Hashed(0, Get(""))]);
  }

  lemma {:induction false} HandledHashAccounted(s: Cluster, p: nat)
    requires Inv(s) && Enabled(s, Handle(p))
    ensures var s', h := Perform(s, Handle(p)), s.channels[p][0].hash;
            && Sound(s') && |h| > 0 && Accounted(s', h)
            && (Confirms(s.n - s.f, Counted(s.table, s.channels[p][0])) ==>
                  && !IsConfirmed(s, h)
                  && |Backers(s', h)| >= s.n - s.f && Backers(s', h) * s.leaders != {})
  {
    if IsConfirmed(s, s.channels[p][0].hash) {
      HandledSettled(s, p);
    } else {
      HandledPending(s, p);
    }
  }

  /** Counting an acknowledgement says nothing new of another hash. */
  lemma {:induction false} OthersUntouched(table: Table, quorum: nat, ack: Ack, h: Digest, backers: set<nat>,
                                           leaders: set<nat>)
    requires h != ack.hash
    ensures Settled(AfterAck(quorum, table, ack), quorum, h, backers, leaders)
            <==> Settled(table, quorum, h, backers, leaders)
    ensures Pending(AfterAck(quorum, table, ack), quorum, h, backers, leaders)
            <==> Pending(table, quorum, h, backers, leaders)
  {
    var table' := AfterAck(quorum, table, ack);
    assert (h in table' <==> h in table) && (h in table ==> table'[h] == table[h]);
  }

  lemma {:induction false} OthersConfirmed(s: Cluster, p: nat, h: Digest)
    requires Enabled(s, Handle(p)) && h != s.channels[p][0].hash
    ensures IsConfirmed(Perform(s, Handle(p)), h) <==> IsConfirmed(s, h)
  {
    var s' := Perform(s, Handle(p));
    assert s.confirmed <= s'.confirmed;
    assert forall c :: c in s'.confirmed ==> c in s.confirmed || c.hash != h;
    assert forall c :: c in s.confirmed ==> c in s'.confirmed;
  }

  lemma {:induction false} OtherHashAccounted(s: Cluster, p: nat, h: Digest)
    requires Inv(s) && Enabled(s, Handle(p)) && |h| > 0 && h != s.channels[p][0].hash
    ensures Sound(Perform(s, Handle(p))) && Accounted(Perform(s, Handle(p)), h)
  {
    var s' := Perform(s, Handle(p));
    HandleBackers(s, p, h);
    assert Accounted(s, h);
    OthersConfirmed(s, p, h);
    OthersUntouched(s.table, s.n - s.f, s.channels[p][0], h, Backers(s, h), s.leaders);
  }

  /** When a hash is confirmed, each of its shorter non-empty prefixes already is. */
  lemma {:induction false} PrefixesConfirmed(s: Cluster, p: nat, h: Digest)
    requires Inv(s) && Enabled(s, Handle(p))
    requires Confirms(s.n - s.f, Counted(s.table, s.channels[p][0]))
    requires 0 < |h| < |s.channels[p][0].hash| && h <= s.channels[p][0].hash
    ensures IsConfirmed(s, h)
  {
    var s', full := Perform(s, Handle(p)), s.channels[p][0].hash;
    HandledHashAccounted(s, p);
    HandleBackers(s, p, h);
    forall q | q in Backers(s', full) ensures q in Backers(s, h) {
      assert h <= DigestOf(s.logs[q]);
      assert q in Backers(s', h);
    }
    SubsetCardinality(Backers(s', full), Backers(s, h));
    var leader :| leader in Backers(s', full) * s.leaders;
    assert leader in Backers(s, h) * s.leaders;
    assert Accounted(s, h);
  }

  /** Two hashes of one length that both have a quorum of backers are the same hash. */
  lemma {:induction false} SameLengthSameHash(s: Cluster, a: Digest, b: Digest)
    requires Sound(s) && |Backers(s, a)| >= s.n - s.f && |Backers(s, b)| >= s.n - s.f && |a| == |b|
    ensures a == b
  {
    var p := Overlap(Servers(s.n), Backers(s, a), Backers(s, b));
    assert a == DigestOf(s.logs[p])[..|a|] == b;
  }

  /** The hash confirmed now is longer than all those confirmed before. */
  lemma {:induction false} ConfirmsLonger(s: Cluster, p: nat)
    requires Inv(s) && Enabled(s, Handle(p))
    requires Confirms(s.n - s.f, Counted(s.table, s.channels[p][0]))
    ensures |s.channels[p][0].hash| > |s.confirmed|
  {
    var s', h := Perform(s, Handle(p)), s.channels[p][0].hash;
    HandledHashAccounted(s, p);
    if |h| <= |s.confirmed| {
      var c := s.confirmed[|h| - 1];
      assert Follows(s.confirmed, |h| - 1);
      assert IsConfirmed(s, c.hash) && Accounted(s, c.hash);
      HandleBackers(s, p, c.hash);
      SubsetCardinality(Backers(s, c.hash), Backers(s', c.hash));
      SameLengthSameHash(s', c.hash, h);
      assert false;
    }
  }

  /** The hash confirmed now is the next one: one longer than the last, which it extends. */
  lemma {:induction false} ConfirmsTheNext(s: Cluster, p: nat)
    requires Inv(s) && Enabled(s, Handle(p))
    requires Confirms(s.n - s.f, Counted(s.table, s.channels[p][0]))
    ensures var h := s.channels[p][0].hash;
            && |h| == |s.confirmed| + 1
            && (|s.confirmed| > 0 ==> s.confirmed[|s.confirmed| - 1].hash == h[..|s.confirmed|])
  {
    var h := s.channels[p][0].hash;
    ConfirmsLonger(s, p);
    if |h| > 1 {
      PrefixesConfirmed(s, p, h[..|h| - 1]);
      var c :| c in s.confirmed && c.hash == h[..|h| - 1];
      var i :| 0 <= i < |s.confirmed| && s.confirmed[i] == c;
      assert Follows(s.confirmed, i);
    }
  }

  lemma {:induction false} HandleKeepsInv(s: Cluster, step: Step)
    requires Inv(s) && Enabled(s, step) && step.Handle?
    ensures Inv(Perform(s, step))
  {
    var p, s' := step.server, Perform(s, step);
    HandledHashAccounted(s, p);
    forall h: Digest | |h| > 0 ensures Accounted(s', h) {
      if h != s.channels[p][0].hash {
        OtherHashAccounted(s, p, h);
      }
    }
    HandleKeepsOrder(s, p);
  }

  lemma {:induction false} HandleKeepsOrder(s: Cluster, p: nat)
    requires Inv(s) && Enabled(s, Handle(p))
    ensures Consecutive(Perform(s, Handle(p)).confirmed)
  {
    var s' := Perform(s, Handle(p));
    forall i | 0 <= i < |s'.confirmed| ensures Follows(s'.confirmed, i) {
      if i < |s.confirmed| {
        assert Follows(s.confirmed, i);
      } else {
        ConfirmsTheNext(s, p);
        HandleBackers(s, p, s.channels[p][0].hash);
      }
    }
  }

  lemma {:induction false} RunKeepsInv(n: nat, f: nat, leaders: set<nat>, steps: seq<Step>)
    requires n > 2 * f
    ensures var s := After(Start(n, f, leaders), steps);
            s.Some? ==> Inv(s.value) && s.value.n == n && s.value.f == f
  {
    if |steps| == 0 {
      StartInv(n, f, leaders);
    } else {
      var before, step := steps[..|steps| - 1], steps[|steps| - 1];
      RunKeepsInv(n, f, leaders, before);
      var m := After(Start(n, f, leaders), before);
      if m.Some? && Enabled(m.value, step) {
        if step.Append? {
          AppendKeepsInv(m.value, step);
        } else {
          HandleKeepsInv(m.value, step);
        }
      }
    }
  }

  /** An earlier confirmation is a prefix of a later one. */
  lemma {:induction false} EarlierIsPrefix(confirmed: seq<Confirmation>, i: nat, j: nat)
    requires Consecutive(confirmed) && i <= j < |confirmed|
    ensures |confirmed[j].hash| == j + 1 && confirmed[i].hash == confirmed[j].hash[..i + 1]
    decreases j
  {
    assert Follows(confirmed, j);
    if i < j {
      EarlierIsPrefix(confirmed, i, j - 1);
      assert confirmed[j].hash[..j][..i + 1] == confirmed[j].hash[..i + 1];
    } else {
      assert confirmed[j].hash[..j + 1] == confirmed[j].hash;
    }
  }

  /**
   * Exactly-once, in-order, gap-free confirmation: in every run the confirmations announced are,
   * in order, the prefixes of lengths 1, 2, 3, ... of one log, each exactly once.
   */
  lemma {:induction false} ConfirmedInOrder(s: Cluster)
    requires Reachable(s) && s.n > 2 * s.f
    ensures Consecutive(s.confirmed)
    ensures forall i, j :: 0 <= i <= j < |s.confirmed| ==>
              |s.confirmed[j].hash| == j + 1 && s.confirmed[i].hash == s.confirmed[j].hash[..i + 1]
  {
    var steps :| After(Start(s.n, s.f, s.leaders), steps) == Some(s);
    RunKeepsInv(s.n, s.f, s.leaders, steps);
    forall i, j | 0 <= i <= j < |s.confirmed|
      ensures |s.confirmed[j].hash| == j + 1 && s.confirmed[i].hash == s.confirmed[j].hash[..i + 1]
    {
      EarlierIsPrefix(s.confirmed, i, j);
    }
  }

  /** A hash has been confirmed if and only if a quorum with a leader in it has been handled for it. */
  lemma {:induction false} ConfirmedIffQuorumHandled(s: Cluster, h: Digest)
    requires Reachable(s) && s.n > 2 * s.f && |h| > 0
    ensures |s.logs| == |s.channels| == s.n
    ensures IsConfirmed(s, h) <==> |Backers(s, h)| >= s.n - s.f && Backers(s, h) * s.leaders != {}
  {
    var steps :| After(Start(s.n, s.f, s.leaders), steps) == Some(s);
    RunKeepsInv(s.n, s.f, s.leaders, steps);
    assert Accounted(s, h);
  }
}
