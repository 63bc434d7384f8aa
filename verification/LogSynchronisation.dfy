/** Log synchronisation: what a follower holds after it applied what a leader built for it. */
module LogSynchronisation {
  import opened Wrappers
  import opened Ballots
  import opened KvSnapshot
  import opened Storage
  import opened InternalStorage
  import opened StorageReads
  import opened StorageCoherence

  function DecidedEnd(s: Store): nat
    requires Sound(s)
  {
    DecidedIdxWithoutStopsign(s.cache)
  }

  /** A leader of log `log` that has compacted decided entries only, and only into its snapshot. */
  ghost predicate Leads(leader: Store, log: seq<KeyValue>) {
    && Inv(leader) && StoresLog(leader, log) && SnapshotHolds(leader, log)
    && leader.cache.compactedIdx <= DecidedEnd(leader)
  }

  /** A follower of log `log` that agrees with `leaderLog` below `common`, as far as it has compacted. */
  ghost predicate Follows(follower: Store, log: seq<KeyValue>, leaderLog: seq<KeyValue>, common: nat) {
    && Inv(follower) && StoresLog(follower, log)
    && follower.cache.compactedIdx <= common <= |log| && common <= |leaderLog|
    && log[..common] == leaderLog[..common]
  }

  /** The follower's log, stopsign and indices are the leader's. */
  ghost predicate CaughtUp(follower: Store, leader: Store, leaderLog: seq<KeyValue>) {
    && StoresLog(follower, leaderLog)
    && follower.cache.stopsign == leader.cache.stopsign
    && follower.cache.acceptedIdx == leader.cache.acceptedIdx
    && follower.cache.decidedIdx == leader.cache.decidedIdx
  }

  /** The leader's suffix: its log from the synchronisation index on. */
  lemma {:induction false} SyncCarriesSuffix(leader: Store, log: seq<KeyValue>, common: nat, other: nat)
    requires Leads(leader, log) && common <= |log|
    ensures var y := CreateLogSync(leader, common, other);
            && y.stopsign == leader.cache.stopsign
            && y.syncIdx == (if leader.cache.decidedIdx > common then DecidedEnd(leader) else common) <= |log|
            && y.suffix == log[y.syncIdx..]
  {
    var c := leader.backend.compactedIdx;
    AcceptedIsLength(leader, log);
    var at := if leader.cache.decidedIdx > common then leader.cache.decidedIdx else common;
    if at <= |log| {
      assert log[c..][at - c..] == log[at..];
    } else {
      assert log[|log|..] == [];
    }
  }

  /** The snapshot that comes along, if any, and when there is none. */
  lemma {:induction false} SyncCarriesSnapshot(leader: Store, log: seq<KeyValue>, common: nat, other: nat)
    requires Leads(leader, log) && common <= |log|
    ensures var y := CreateLogSync(leader, common, other);
            match y.decidedSnapshot
            case None => y.syncIdx == common || y.syncIdx == 0
            case Some(Complete(s)) => 0 < y.syncIdx == DecidedEnd(leader) && s == Create(log[..y.syncIdx])
            case Some(Delta(s)) =>
              && y.syncIdx == DecidedEnd(leader) && other > leader.cache.compactedIdx
              && s == (if other <= y.syncIdx then Create(log[other..y.syncIdx]) else map[])
  {
    AcceptedIsLength(leader, log);
    if leader.cache.decidedIdx > common {
      var c, d := leader.cache.compactedIdx, DecidedEnd(leader);
      if other <= c && c < d {
        assert leader.backend.log[..d - c] == log[c..d];
        SnapshotExtends(leader, log, d);
      } else if other > c && other <= d {
        EntriesAreSlice(leader, log, other, d);
      }
    }
  }

  /** A synchronisation without a snapshot, applied where both logs still agree. */
  lemma {:induction false} SyncPlain(f: Store, fLog: seq<KeyValue>, lLog: seq<KeyValue>, round: Ballot, decided: nat,
                                     y: LogSync)
    requires Inv(f) && StoresLog(f, fLog) && y.decidedSnapshot.None?
    requires f.backend.trimmedIdx <= y.syncIdx <= |fLog| && y.syncIdx <= |lLog|
    requires fLog[..y.syncIdx] == lLog[..y.syncIdx] && y.suffix == lLog[y.syncIdx..]
    ensures Sound(f)
    ensures var out := SyncLog(f, round, decided, Some(y));
            && out.error.None? && StoresLog(out.store, lLog)
            && out.store.cache.stopsign == y.stopsign && out.store.cache.decidedIdx == decided
            && out.store.backend.snapshot == f.backend.snapshot
            && out.store.cache.compactedIdx == f.cache.compactedIdx
  {
    SyncWritten(f.backend, f.cache, round, decided, y, None);
    var c, at := f.backend.compactedIdx, y.syncIdx;
    assert Truncated(f.backend.log, at - c) == fLog[c..at];
    assert fLog[c..at] == fLog[..at][c..] == lLog[..at][c..];
    assert lLog[..at][c..] + lLog[at..] == lLog[c..];
  }

  /** A synchronisation that installs a snapshot replaces whatever log the follower had. */
  lemma {:induction false} SyncInstalls(f: Store, lLog: seq<KeyValue>, round: Ballot, decided: nat, y: LogSync,
                                        snapshot: Snapshot)
    requires Inv(f) && f.backend.trimmedIdx <= y.syncIdx <= |lLog| && y.suffix == lLog[y.syncIdx..]
    requires Sound(f.(cache := f.cache.(acceptedRound := round, decidedIdx := decided)))
    requires SyncSnapshot(f.(cache := f.cache.(acceptedRound := round, decidedIdx := decided)), y.decidedSnapshot)
             == Ok(Some(snapshot))
    ensures var out := SyncLog(f, round, decided, Some(y));
            && out.error.None? && StoresLog(out.store, lLog)
            && out.store.cache.stopsign == y.stopsign && out.store.cache.decidedIdx == decided
            && out.store.backend.snapshot == Some(snapshot)
            && out.store.cache.compactedIdx == y.syncIdx
  {
    SyncWritten(f.backend, f.cache, round, decided, y, Some(snapshot));
  }

  /**
   * Log synchronisation: a follower that agrees with the leader below `common`, and has not compacted
   * more than the leader has decided, ends with the leader's log, stopsign and indices. Without a delta
   * the synchronisation cannot fail, and a complete snapshot is that of the leader's decided log.
   */
  lemma {:induction false} SyncCatchesUp(leader: Store, lLog: seq<KeyValue>, f: Store, fLog: seq<KeyValue>,
                                         common: nat, other: nat, round: Ballot)
    requires Leads(leader, lLog) && Follows(f, fLog, lLog, common)
    requires f.cache.compactedIdx <= DecidedEnd(leader)
    ensures var y := CreateLogSync(leader, common, other);
            && Sound(f) && f.backend.trimmedIdx <= y.syncIdx
            && var out := SyncLog(f, round, leader.cache.decidedIdx, Some(y));
            && (out.error.None? ==> CaughtUp(out.store, leader, lLog))
            && (y.decidedSnapshot.None? ==>
                  out.error.None? && out.store.backend.snapshot == f.backend.snapshot)
            && (y.decidedSnapshot.Some? && y.decidedSnapshot.value.Complete? ==>
                  && out.error.None?
                  && out.store.cache.compactedIdx == DecidedEnd(leader)
                  && out.store.backend.snapshot == Some(Create(lLog[..DecidedEnd(leader)])))
  {
    var y, decided := CreateLogSync(leader, common, other), leader.cache.decidedIdx;
    SyncCarriesSuffix(leader, lLog, common, other);
    SyncCarriesSnapshot(leader, lLog, common, other);
    AcceptedIsLength(leader, lLog);
    CoherentIsSound(f);
    if y.decidedSnapshot.None? {
      assert fLog[..common][..y.syncIdx] == lLog[..common][..y.syncIdx];
      assert fLog[..y.syncIdx] == fLog[..common][..y.syncIdx] && lLog[..y.syncIdx] == lLog[..common][..y.syncIdx];
      SyncPlain(f, fLog, lLog, round, decided, y);
      AcceptedIsLength(SyncLog(f, round, decided, Some(y)).store, lLog);
    } else {
      var f1 := f.(cache := f.cache.(acceptedRound := round, decidedIdx := decided));
      var installed := SyncSnapshot(f1, y.decidedSnapshot);
      if installed.Ok? {
        SyncInstalls(f, lLog, round, decided, y, installed.value.value);
        AcceptedIsLength(SyncLog(f, round, decided, Some(y)).store, lLog);
      }
    }
  }

  // Delta snapshots.

  /** What a follower without a stopsign installs when a delta arrives. */
  lemma {:induction false} DeltaInstalls(f: Store, fLog: seq<KeyValue>, round: Ballot, decided: nat, y: LogSync,
                                         delta: Snapshot)
    requires Inv(f) && StoresLog(f, fLog) && f.cache.stopsign.None?
    requires f.cache.compactedIdx <= decided && y.decidedSnapshot == Some(Delta(delta)) && y.syncIdx == decided
    ensures var f1 := f.(cache := f.cache.(acceptedRound := round, decidedIdx := decided));
            && Sound(f) && Sound(f1) && CreateSnapshot(f1, decided).Ok?
            && var out := SyncLog(f, round, decided, Some(y));
            out.error.None? && out.store.backend.snapshot == Some(Merge(CreateSnapshot(f1, decided).value, delta))
  {
    var f1 := f.(cache := f.cache.(acceptedRound := round, decidedIdx := decided));
    var snapshot := Merge(CreateSnapshot(f1, decided).value, delta);
    assert SyncSnapshot(f1, y.decidedSnapshot) == Ok(Some(snapshot));
    SyncWritten(f.backend, f.cache, round, decided, y, Some(snapshot));
  }

  /** A follower whose stored log reaches the new decided index makes the snapshot of its own entries below it. */
  lemma {:induction false} DeltaRebuilds(f: Store, log: seq<KeyValue>, f1: Store, decided: nat)
    requires Inv(f) && StoresLog(f, log) && SnapshotHolds(f, log)
    requires f1 == f.(cache := f1.cache) && f1.cache.compactedIdx == f.cache.compactedIdx && Sound(f1)
    requires f.cache.compactedIdx <= decided <= |log|
    ensures CreateSnapshot(f1, decided) == Ok(Create(log[..decided]))
  {
    var c := f.cache.compactedIdx;
    assert log[c..][..decided - c] == log[c..decided];
    SnapshotExtends(f1, log, decided);
  }

  /** A follower whose stored log ends before the new decided index finds no entries to rebuild from. */
  lemma {:induction false} DeltaFindsNothing(f: Store, log: seq<KeyValue>, f1: Store, decided: nat)
    requires Inv(f) && StoresLog(f, log) && SnapshotHolds(f, log)
    requires f1 == f.(cache := f1.cache) && f1.cache.compactedIdx == f.cache.compactedIdx && Sound(f1)
    requires |log| < decided
    ensures CreateSnapshot(f1, decided) == Ok(Create(log[..f.cache.compactedIdx]))
  {
    assert EntriesIn(f1.backend, f.cache.compactedIdx, decided) == [];
    assert log[..0] == [];
    assert Merge(Create(log[..f.cache.compactedIdx]), Create([])) == Create(log[..f.cache.compactedIdx]);
  }

  ghost predicate DistinctEntryKeys(log: seq<KeyValue>) {
    forall i, j :: 0 <= i < j < |log| ==> log[i].key != log[j].key
  }

  datatype Exchange = Exchange(leader: Store, lLog: seq<KeyValue>, f: Store, fLog: seq<KeyValue>, common: nat,
                               round: Ballot)

  /** A leader sends a delta from `other` on to a follower. Nobody has a stopsign; the logs may be any. */
  ghost predicate SendsAnyDelta(x: Exchange, other: nat) {
    && Leads(x.leader, x.lLog) && Inv(x.f) && StoresLog(x.f, x.fLog) && SnapshotHolds(x.f, x.fLog)
    && x.leader.cache.stopsign.None? && x.f.cache.stopsign.None? && x.common <= |x.lLog|
    && x.f.cache.compactedIdx <= x.leader.cache.decidedIdx
    && (var y := CreateLogSync(x.leader, x.common, other); y.decidedSnapshot.Some? && y.decidedSnapshot.value.Delta?)
  }

  /** The entries that the follower takes for decided: all below the new decided index, or only the compacted ones. */
  function Kept(x: Exchange): seq<KeyValue> {
    var d, c := x.leader.cache.decidedIdx, x.f.cache.compactedIdx;
    if d <= |x.fLog| then x.fLog[..d] else if c <= |x.fLog| then x.fLog[..c] else x.fLog
  }

  function DeltaFrom(decided: seq<KeyValue>, other: nat): Snapshot {
    if other <= |decided| then Create(decided[other..]) else map[]
  }

  /** The leader's decided log. */
  function DecidedLog(x: Exchange): seq<KeyValue> {
    if x.leader.cache.decidedIdx <= |x.lLog| then x.lLog[..x.leader.cache.decidedIdx] else x.lLog
  }

  /** The follower ends with the snapshot of the leader's decided log. */
  predicate EndsRight(x: Exchange, other: nat)
    requires Leads(x.leader, x.lLog) && x.common <= |x.lLog| && Inv(x.f)
  {
    var y, d := CreateLogSync(x.leader, x.common, other), x.leader.cache.decidedIdx;
    && x.f.backend.trimmedIdx <= y.syncIdx && d <= |x.lLog|
    && SyncLog(x.f, x.round, d, Some(y)).store.backend.snapshot == Some(Create(x.lLog[..d]))
  }

  /** What the follower installs, whatever the two logs are. */
  lemma {:induction false} DeltaInstalled(x: Exchange, other: nat)
    requires SendsAnyDelta(x, other)
    ensures var y, d := CreateLogSync(x.leader, x.common, other), x.leader.cache.decidedIdx;
            && x.f.backend.trimmedIdx <= y.syncIdx && d <= |x.lLog|
            && SyncLog(x.f, x.round, d, Some(y)).store.backend.snapshot
               == Some(Merge(Create(Kept(x)), DeltaFrom(DecidedLog(x), other)))
  {
    var y, d := CreateLogSync(x.leader, x.common, other), x.leader.cache.decidedIdx;
    SyncCarriesSuffix(x.leader, x.lLog, x.common, other);
    SyncCarriesSnapshot(x.leader, x.lLog, x.common, other);
    AcceptedIsLength(x.leader, x.lLog);
    var f1 := x.f.(cache := x.f.cache.(acceptedRound := x.round, decidedIdx := d));
    DeltaInstalls(x.f, x.fLog, x.round, d, y, y.decidedSnapshot.value.snapshot);
    if d <= |x.fLog| {
      DeltaRebuilds(x.f, x.fLog, f1, d);
    } else {
      DeltaFindsNothing(x.f, x.fLog, f1, d);
    }
    if other <= d {
      assert x.lLog[other..d] == x.lLog[..d][other..];
    }
  }

  /** The follower's own entries up to `k` and a delta from `other` on overlap or meet: together they are right. */
  lemma {:induction false} NothingLost(decided: seq<KeyValue>, k: nat, other: nat)
    requires k <= |decided| && (other <= k || k == |decided|)
    ensures Merge(Create(decided[..k]), DeltaFrom(decided, other)) == Create(decided)
  {
    assert k == |decided| ==> decided[..k] == decided;
    if other <= k {
      MergeOverlapping(decided, other, k);
    }
  }

  /** A key that only one of the entries has is missing if neither side covers that entry. */
  lemma {:induction false} GapShows(decided: seq<KeyValue>, k: nat, other: nat)
    requires k < |decided| && k < other && DistinctEntryKeys(decided)
    ensures Merge(Create(decided[..k]), DeltaFrom(decided, other)) != Create(decided)
  {
    var key := decided[k].key;
    CreateKeys(decided, key);
    CreateKeys(decided[..k], key);
    assert key in Create(decided) && key !in Create(decided[..k]);
    if other <= |decided| {
      CreateKeys(decided[other..], key);
      assert forall i :: 0 <= i < |decided| - other ==> decided[other..][i] == decided[other + i];
    }
  }

  // Followers that agree with the leader as far as the outcome depends on it.

  /** The follower's log agrees with the leader's in all that it takes for decided. */
  ghost predicate SendsDelta(x: Exchange, other: nat) {
    SendsAnyDelta(x, other) && Kept(x) <= DecidedLog(x)
  }

  /** The follower's log reaches the decided index, or nothing lies between its compacted entries and the delta. */
  predicate NothingBetween(x: Exchange, other: nat) {
    x.leader.cache.decidedIdx <= |x.fLog| || other <= x.f.cache.compactedIdx
  }

  /** With nothing in between, every log ends right. */
  lemma {:induction false} DeltaSuffices(x: Exchange, other: nat)
    requires SendsDelta(x, other) && NothingBetween(x, other)
    ensures EndsRight(x, other)
  {
    DeltaInstalled(x, other);
    assert Kept(x) == DecidedLog(x)[..|Kept(x)|];
    NothingLost(DecidedLog(x), |Kept(x)|, other);
  }

  /** For logs whose keys are distinct the condition is exact. */
  lemma {:induction false} DistinctDeltaIff(x: Exchange, other: nat)
    requires SendsDelta(x, other) && DistinctEntryKeys(x.lLog)
    ensures EndsRight(x, other) <==> NothingBetween(x, other)
  {
    if NothingBetween(x, other) {
      DeltaSuffices(x, other);
    } else {
      DeltaInstalled(x, other);
      assert Kept(x) == DecidedLog(x)[..x.f.cache.compactedIdx];
      GapShows(DecidedLog(x), x.f.cache.compactedIdx, other);
    }
  }

  /** A delta to a follower that already stores the leader's log up to the new decided index. */
  lemma {:induction false} DeltaSyncCorrect(x: Exchange, other: nat)
    requires SendsAnyDelta(x, other)
    requires var d := x.leader.cache.decidedIdx; d <= |x.fLog| && d <= |x.lLog| && x.fLog[..d] == x.lLog[..d]
    ensures EndsRight(x, other)
    ensures var y, d := CreateLogSync(x.leader, x.common, other), x.leader.cache.decidedIdx;
            var out := SyncLog(x.f, x.round, d, Some(y));
            out.error.None? && StoresLog(out.store, x.lLog)
  {
    var y, d := CreateLogSync(x.leader, x.common, other), x.leader.cache.decidedIdx;
    DeltaSuffices(x, other);
    SyncCarriesSuffix(x.leader, x.lLog, x.common, other);
    SyncCarriesSnapshot(x.leader, x.lLog, x.common, other);
    AcceptedIsLength(x.leader, x.lLog);
    DeltaInstalls(x.f, x.fLog, x.round, d, y, y.decidedSnapshot.value.snapshot);
    SyncInstalls(x.f, x.lLog, x.round, d, y, Create(x.lLog[..d]));
  }

  // A pair of servers for every choice of indices.

  /** What a server stores that appended `log`, decided up to `decided` and made a snapshot up to `c`. */
  function StoreOf(log: seq<KeyValue>, decided: nat, c: nat): Store
    requires c <= |log|
  {
    Store(NewCache(0).(decidedIdx := decided, acceptedIdx := |log|, compactedIdx := c),
          EmptyBackend().(log := log[c..], decidedIdx := decided, trimmedIdx := c, compactedIdx := c,
                          snapshot := if c == 0 then None else Some(Create(log[..c]))))
  }

  lemma {:induction false} StoreOfHolds(log: seq<KeyValue>, decided: nat, c: nat)
    requires c <= decided <= |log|
    ensures var s := StoreOf(log, decided, c); Inv(s) && StoresLog(s, log) && SnapshotHolds(s, log)
  {
  }

  lemma {:induction false} OneMore(s: Store, ops: seq<Operation>, op: Operation)
    requires After(s, ops).Some?
    requires var m := After(s, ops).value; CanStep(m, op) && Fits(m, op)
    ensures After(s, ops + [op]) == Some(Step(After(s, ops).value, op).store)
  {
    assert (ops + [op])[..|ops|] == ops;
  }

  lemma {:induction false} Decides(log: seq<KeyValue>, decided: nat)
    ensures After(NewStore(0), [AppendOp(log), DecideOp(decided)]) == Some(StoreOf(log, decided, 0))
  {
    assert [] + [AppendOp(log)] == [AppendOp(log)];
    assert [AppendOp(log)] + [DecideOp(decided)] == [AppendOp(log), DecideOp(decided)];
    OneMore(NewStore(0), [], AppendOp(log));
    assert [] + log == log && log[0..] == log;
    OneMore(NewStore(0), [AppendOp(log)], DecideOp(decided));
  }

  /** Servers come to store this. */
  lemma {:induction false} StoreOfReached(log: seq<KeyValue>, decided: nat, c: nat)
    requires c <= decided <= |log|
    ensures After(NewStore(0), [AppendOp(log), DecideOp(decided)] + [SnapshotOp(Some(c))])
            == Some(StoreOf(log, decided, c))
  {
    Decides(log, decided);
    SnapshotStep(log, decided, c);
    OneMore(NewStore(0), [AppendOp(log), DecideOp(decided)], SnapshotOp(Some(c)));
  }

  lemma {:induction false} SnapshotStep(log: seq<KeyValue>, decided: nat, c: nat)
    requires c <= decided <= |log|
    ensures var s := StoreOf(log, decided, 0);
            CanStep(s, SnapshotOp(Some(c))) && Fits(s, SnapshotOp(Some(c)))
            && Step(s, SnapshotOp(Some(c))).store == StoreOf(log, decided, c)
  {
    var s := StoreOf(log, decided, 0);
    assert log[0..] == log;
    assert CompactTo(s.cache, c) == Ok(c);
    if c > 0 {
      StoreOfHolds(log, decided, 0);
      SnapshotExtends(s, log, c);
      SnapshotWritten(s.backend, c, Create(log[..c]));
      assert Compacted(s.backend, c).log == log[c..];
    }
  }

  /** Keys of different lengths are different. */
  function KeyOfLength(n: nat): (key: string)
    ensures |key| == n
  {
    seq(n, _ => 'k')
  }

  function DistinctLog(n: nat): (log: seq<KeyValue>)
    ensures |log| == n
  {
    seq(n, i requires 0 <= i < n => KeyValue(KeyOfLength(i), i))
  }

  lemma {:induction false} DistinctLogIsDistinct(n: nat)
    ensures DistinctEntryKeys(DistinctLog(n))
  {
    forall i, j | 0 <= i < j < n ensures DistinctLog(n)[i].key != DistinctLog(n)[j].key {
      assert |DistinctLog(n)[i].key| == i && |DistinctLog(n)[j].key| == j;
    }
  }

  /** The leader has appended `lLog` and decided up to `d`; the follower has appended `fLog` and compacted up to `c`. */
  function ExchangeOf(lLog: seq<KeyValue>, d: nat, fLog: seq<KeyValue>, decided: nat, c: nat, common: nat): Exchange
    requires c <= |fLog|
  {
    Exchange(StoreOf(lLog, d, 0), lLog, StoreOf(fLog, decided, c), fLog, common, DEFAULT_BALLOT)
  }

  lemma {:induction false} ExchangeSends(lLog: seq<KeyValue>, d: nat, fLog: seq<KeyValue>, decided: nat, c: nat,
                                         common: nat, other: nat)
    requires c <= decided <= |fLog| && c <= d <= |lLog| && common < d && 0 < other
    ensures SendsAnyDelta(ExchangeOf(lLog, d, fLog, decided, c, common), other)
  {
    StoreOfHolds(lLog, d, 0);
    StoreOfHolds(fLog, decided, c);
  }

  /**
   * Entries are lost whenever the leader has decided more than the follower stores, and sends a delta from
   * an index past what the follower has compacted: the entries between the two are gone.
   */
  lemma {:induction false} DeltaLosesEntries(log: seq<KeyValue>, c: nat, other: nat, common: nat, m: nat, d: nat)
    requires DistinctEntryKeys(log) && c < other && d <= |log| && c <= m < d && common <= m
    ensures var x := ExchangeOf(log, d, log[..m], if c <= common then common else c, c, common);
            SendsDelta(x, other) && !EndsRight(x, other)
  {
    var decided := if c <= common then common else c;
    var x := ExchangeOf(log, d, log[..m], decided, c, common);
    ExchangeSends(log, d, log[..m], decided, c, common, other);
    assert log[..m][..c] == log[..c] == log[..d][..c];
    DistinctDeltaIff(x, other);
  }

  /** These are the indices of the exchange. */
  predicate HasIndices(x: Exchange, c: nat, m: nat, d: nat) {
    x.f.cache.compactedIdx == c && |x.fLog| == m && x.leader.cache.decidedIdx == d
  }

  /**
   * Exactly when a delta is right for followers that agree with the leader in all that they take for decided.
   * The follower has compacted up to `c` and stores a log of length `m`; the leader has decided up to `d` and
   * sends a delta from `other` on. Every log ends with the right snapshot if and only if the follower's log
   * reaches `d` or nothing lies between `c` and `other`: otherwise the entries in between can be lost.
   */
  lemma {:induction false} DeltaSyncIsExact(c: nat, other: nat, m: nat, d: nat)
    requires c <= m && c <= d
    ensures (forall x | SendsDelta(x, other) && HasIndices(x, c, m, d) :: EndsRight(x, other))
            <==> d <= m || other <= c
  {
    if d <= m || other <= c {
      forall x | SendsDelta(x, other) && HasIndices(x, c, m, d) ensures EndsRight(x, other) {
        DeltaSuffices(x, other);
      }
    } else {
      DistinctLogIsDistinct(d);
      DeltaLosesEntries(DistinctLog(d), c, other, c, m, d);
      var x := ExchangeOf(DistinctLog(d), d, DistinctLog(d)[..m], c, c, c);
      assert HasIndices(x, c, m, d) && !EndsRight(x, other);
    }
  }

  // Followers that agree with the leader below the common prefix only.

  /** A delta to a follower that agrees with the leader below the common prefix. */
  ghost predicate SendsDeltaToFollower(x: Exchange, other: nat) {
    SendsAnyDelta(x, other) && Follows(x.f, x.fLog, x.lLog, x.common)
  }

  /** Any entry below the new decided index whose key the leader's decided log does not have is kept for good. */
  lemma {:induction false} UndecidedEntryKept(x: Exchange, other: nat, i: nat)
    requires SendsAnyDelta(x, other) && i < x.leader.cache.decidedIdx <= |x.fLog|
    requires forall j :: 0 <= j < |DecidedLog(x)| ==> DecidedLog(x)[j].key != x.fLog[i].key
    ensures var y, d := CreateLogSync(x.leader, x.common, other), x.leader.cache.decidedIdx;
            && x.f.backend.trimmedIdx <= y.syncIdx
            && var snapshot := SyncLog(x.f, x.round, d, Some(y)).store.backend.snapshot;
               snapshot.Some? && x.fLog[i].key in snapshot.value && x.fLog[i].key !in Create(DecidedLog(x))
    ensures !EndsRight(x, other)
  {
    var d, key := x.leader.cache.decidedIdx, x.fLog[i].key;
    DeltaInstalled(x, other);
    CreateKeys(Kept(x), key);
    CreateKeys(DecidedLog(x), key);
    assert Kept(x)[i].key == key;
  }

  /** The first `common` entries of the distinct log and then entries that it does not have. */
  function DivergingLog(common: nat, m: nat, d: nat): (log: seq<KeyValue>)
    requires common <= m && common <= d
    ensures |log| == m && log[..common] == DistinctLog(d)[..common]
  {
    seq(m, i requires 0 <= i < m => if i < common then DistinctLog(d)[i] else KeyValue(KeyOfLength(d + i), i))
  }

  /**
   * Undecided entries get into the decided snapshot whenever the follower's log reaches the new decided index
   * but agrees with the leader's below a smaller one only.
   */
  lemma {:induction false} DeltaKeepsUndecided(c: nat, other: nat, common: nat, m: nat, d: nat)
    requires c <= common < d <= m && 0 < other
    ensures var x := ExchangeOf(DistinctLog(d), d, DivergingLog(common, m, d), common, c, common);
            && SendsDeltaToFollower(x, other) && common >= x.f.cache.decidedIdx
            && DivergingLog(common, m, d)[common] !in DecidedLog(x) && !EndsRight(x, other)
  {
    var log := DivergingLog(common, m, d);
    var x := ExchangeOf(DistinctLog(d), d, log, common, c, common);
    ExchangeSends(DistinctLog(d), d, log, common, c, common, other);
    assert log[common] == KeyValue(KeyOfLength(d + common), common);
    forall j | 0 <= j < d ensures DecidedLog(x)[j].key != log[common].key {
      assert |DecidedLog(x)[j].key| == j && |log[common].key| == d + common;
    }
    UndecidedEntryKept(x, other, common);
  }

  /** The indices of the exchange, and how far the logs are known to agree. */
  predicate HasCommonIndices(x: Exchange, c: nat, common: nat, m: nat, d: nat) {
    HasIndices(x, c, m, d) && x.common == common
  }

  lemma {:induction false} ShortFollowerAgrees(x: Exchange, other: nat)
    requires SendsDeltaToFollower(x, other) && |x.fLog| < x.leader.cache.decidedIdx
    ensures SendsDelta(x, other)
  {
    var c, d := x.f.cache.compactedIdx, x.leader.cache.decidedIdx;
    AcceptedIsLength(x.leader, x.lLog);
    assert x.fLog[..c] == x.fLog[..x.common][..c] == x.lLog[..x.common][..c] == x.lLog[..d][..c];
  }

  /**
   * Exactly when a delta is right for followers that agree with the leader below `common` only, which is all
   * that a leader knows. Every such exchange ends with the snapshot of the leader's decided log if and only if
   * the follower's log ends before the new decided index and the delta starts within what it has compacted:
   * otherwise decided entries can be lost, or undecided ones kept.
   */
  lemma {:induction false} FollowerDeltaIsExact(c: nat, other: nat, common: nat, m: nat, d: nat)
    requires c <= common < d && common <= m && 0 < other
    ensures (forall x | SendsDeltaToFollower(x, other) && HasCommonIndices(x, c, common, m, d) :: EndsRight(x, other))
            <==> m < d && other <= c
  {
    if m < d && other <= c {
      forall x | SendsDeltaToFollower(x, other) && HasCommonIndices(x, c, common, m, d) ensures EndsRight(x, other) {
        ShortFollowerAgrees(x, other);
        DeltaSuffices(x, other);
      }
    } else if m < d {
      var log := DistinctLog(d);
      DistinctLogIsDistinct(d);
      DeltaLosesEntries(log, c, other, common, m, d);
      var x := ExchangeOf(log, d, log[..m], common, c, common);
      assert log[..m][..common] == log[..common];
      assert SendsDeltaToFollower(x, other) && HasCommonIndices(x, c, common, m, d) && !EndsRight(x, other);
    } else {
      DeltaKeepsUndecided(c, other, common, m, d);
      var x := ExchangeOf(DistinctLog(d), d, DivergingLog(common, m, d), common, c, common);
      assert HasCommonIndices(x, c, common, m, d) && !EndsRight(x, other);
    }
  }
}
