/**
 * The write-through layer between log replication and the storage back-end: a cache of the state
 * values, a batch of entries, trimming, snapshots, log synchronisation and reads.
 */
module InternalStorage {
  import opened Wrappers
  import opened Ballots
  import opened KvSnapshot
  import opened Storage

  type Op = StorageOp<KeyValue, Snapshot>

  datatype Cache = Cache(
    batchSize: nat,
    batched: seq<KeyValue>,
    promise: Ballot,
    acceptedRound: Ballot,
    decidedIdx: nat,
    acceptedIdx: nat,
    compactedIdx: nat,
    stopsign: Option<StopSign>)

  datatype Store = Store(cache: Cache, backend: Backend<KeyValue, Snapshot>)

  datatype SnapshotType = Complete(snapshot: Snapshot) | Delta(snapshot: Snapshot)

  datatype LogSync = LogSync(
    decidedSnapshot: Option<SnapshotType>,
    suffix: seq<KeyValue>,
    syncIdx: nat,
    stopsign: Option<StopSign>)

  datatype CompactionErr = UndecidedIndex(decidedIdx: nat) | TrimmedIndex(compactedIdx: nat)

  /** The store after an operation, and the error if it returned one. */
  datatype Outcome = Outcome(store: Store, error: Option<CompactionErr>)

  function NewCache(batchSize: nat): Cache {
    Cache(batchSize, [], DEFAULT_BALLOT, DEFAULT_BALLOT, 0, 0, 0, None)
  }

  /** What loading reads from the back-end; the batch is not stored. */
  function LoadCache(c: Cache, b: Backend<KeyValue, Snapshot>): Cache {
    c.(promise := b.promise.GetOr(DEFAULT_BALLOT),
       decidedIdx := b.decidedIdx,
       acceptedRound := b.acceptedRound.GetOr(DEFAULT_BALLOT),
       compactedIdx := b.compactedIdx,
       stopsign := b.stopsign,
       acceptedIdx := |b.log| + b.compactedIdx + (if b.stopsign.Some? then 1 else 0))
  }

  /** Indices that the source can subtract without underflow. */
  predicate Sound(s: Store) {
    && s.backend.trimmedIdx == s.cache.compactedIdx
    && (s.cache.stopsign.Some? ==> s.cache.acceptedIdx > 0)
  }

  predicate StopsignIsDecided(c: Cache) {
    c.stopsign.Some? && c.decidedIdx == c.acceptedIdx
  }

  function DecidedIdxWithoutStopsign(c: Cache): nat
    requires c.stopsign.Some? ==> c.acceptedIdx > 0
  {
    if StopsignIsDecided(c) then c.decidedIdx - 1 else c.decidedIdx
  }

  function Write(s: Store, ops: seq<Op>): Store
    requires CanApplyAll(s.backend, ops)
  {
    s.(backend := ApplyAll(s.backend, ops))
  }

  function AppendNow(s: Store, entries: seq<KeyValue>): Store {
    Store(s.cache.(acceptedIdx := s.cache.acceptedIdx + |entries|), Apply(s.backend, AppendEntries(entries)))
  }

  /** Adds to the batch and, if that fills it, stores the whole batch. */
  function Append(s: Store, entries: seq<KeyValue>): Store {
    var batch := s.cache.batched + entries;
    if |batch| >= s.cache.batchSize then AppendNow(s.(cache := s.cache.(batched := [])), batch)
    else s.(cache := s.cache.(batched := batch))
  }

  function Flush(s: Store): Store {
    AppendNow(s.(cache := s.cache.(batched := [])), s.cache.batched)
  }

  function StorePromise(s: Store, promise: Ballot): Store {
    Store(s.cache.(promise := promise), Apply(s.backend, SetPromise(promise)))
  }

  function StoreDecidedIdx(s: Store, idx: nat): Store {
    Store(s.cache.(decidedIdx := idx), Apply(s.backend, SetDecidedIndex(idx)))
  }

  function StoreStopsign(s: Store, stopsign: Option<StopSign>): Store
    requires Sound(s)
  {
    var accepted :=
      if stopsign.Some? && s.cache.stopsign.None? then s.cache.acceptedIdx + 1
      else if stopsign.None? && s.cache.stopsign.Some? then s.cache.acceptedIdx - 1
      else s.cache.acceptedIdx;
    Store(s.cache.(acceptedIdx := accepted, stopsign := stopsign), Apply(s.backend, SetStopsign(stopsign)))
  }

  /** The stored snapshot extended by the stored entries below `idx`. */
  function CreateSnapshot(s: Store, idx: nat): Result<Snapshot, CompactionErr>
    requires s.backend.trimmedIdx == s.cache.compactedIdx
  {
    if idx < s.cache.compactedIdx then Err(TrimmedIndex(s.cache.compactedIdx))
    else
      var delta := Create(EntriesIn(s.backend, s.cache.compactedIdx, idx));
      match s.backend.snapshot
      case Some(snapshot) => Ok(Merge(snapshot, delta))
      case None => Ok(delta)
  }

  /** The index up to which a request to compact to `idx` compacts. */
  function CompactTo(c: Cache, idx: nat): Result<nat, CompactionErr>
    requires c.stopsign.Some? ==> c.acceptedIdx > 0
  {
    if idx < c.decidedIdx then Ok(idx)
    else if idx == c.decidedIdx then Ok(DecidedIdxWithoutStopsign(c))
    else Err(UndecidedIndex(c.decidedIdx))
  }

  function TrimOps(idx: nat): seq<Op> {
    [Trim(idx), SetCompactedIdx(idx)]
  }

  function SnapshotOps(idx: nat, snapshot: Snapshot): seq<Op> {
    [Trim(idx), SetCompactedIdx(idx), SetSnapshot(Some(snapshot))]
  }

  /** The back-end after compaction to `idx`. */
  function Compacted(b: Backend<KeyValue, Snapshot>, idx: nat): Backend<KeyValue, Snapshot>
    requires b.trimmedIdx <= idx
  {
    b.(log := Drained(b.log, idx - b.trimmedIdx), trimmedIdx := idx, compactedIdx := idx)
  }

  lemma {:induction false} TrimWritten(b: Backend<KeyValue, Snapshot>, idx: nat)
    requires b.trimmedIdx <= idx
    ensures CanApplyAll(b, TrimOps(idx)) && ApplyAll(b, TrimOps(idx)) == Compacted(b, idx)
  {
    var op: Op := Trim(idx);
    ApplyOne(b, op);
    ApplyOne(Apply(b, op), SetCompactedIdx(idx));
    ApplyConcat(b, [op], [SetCompactedIdx(idx)]);
    assert [op] + [SetCompactedIdx(idx)] == TrimOps(idx);
  }

  lemma {:induction false} SnapshotWritten(b: Backend<KeyValue, Snapshot>, idx: nat, snapshot: Snapshot)
    requires b.trimmedIdx <= idx
    ensures CanApplyAll(b, SnapshotOps(idx, snapshot))
    ensures ApplyAll(b, SnapshotOps(idx, snapshot)) == Compacted(b, idx).(snapshot := Some(snapshot))
  {
    TrimWritten(b, idx);
    var op: Op := SetSnapshot(Some(snapshot));
    ApplyOne(Compacted(b, idx), op);
    ApplyConcat(b, TrimOps(idx), [op]);
    assert TrimOps(idx) + [op] == SnapshotOps(idx, snapshot);
  }

  function TryTrim(s: Store, idx: nat): Outcome
    requires Sound(s)
  {
    match CompactTo(s.cache, idx)
    case Err(e) => Outcome(s, Some(e))
    case Ok(newIdx) =>
      if newIdx > s.cache.compactedIdx
      then
        TrimWritten(s.backend, newIdx);
        Outcome(Write(s, TrimOps(newIdx)).(cache := s.cache.(compactedIdx := newIdx)), None)
      else Outcome(s, None)
  }

  function TrySnapshot(s: Store, idx: Option<nat>): Outcome
    requires Sound(s)
  {
    match CompactTo(s.cache, idx.GetOr(s.cache.decidedIdx))
    case Err(e) => Outcome(s, Some(e))
    case Ok(newIdx) =>
      if newIdx > s.cache.compactedIdx
      then
        var snapshot := CreateSnapshot(s, newIdx).value;
        SnapshotWritten(s.backend, newIdx, snapshot);
        Outcome(Write(s, SnapshotOps(newIdx, snapshot)).(cache := s.cache.(compactedIdx := newIdx)), None)
      else Outcome(s, None)
  }

  /** The snapshot that a log synchronisation installs, if any. */
  function SyncSnapshot(s: Store, decided: Option<SnapshotType>): Result<Option<Snapshot>, CompactionErr>
    requires Sound(s)
  {
    match decided
    case None => Ok(None)
    case Some(Complete(c)) => Ok(Some(c))
    case Some(Delta(d)) =>
      match CreateSnapshot(s, DecidedIdxWithoutStopsign(s.cache))
      case Ok(snapshot) => Ok(Some(Merge(snapshot, d)))
      case Err(e) => Err(e)
  }

  function RoundOps(round: Ballot, decided: nat): seq<Op> {
    [SetAcceptedRound(round), SetDecidedIndex(decided)]
  }

  function StopsignOps(was: Option<StopSign>, now: Option<StopSign>): seq<Op> {
    if now.Some? || was.Some? then [SetStopsign(now)] else []
  }

  function SyncOps(c: Cache, sync: LogSync, snapshot: Option<Snapshot>): seq<Op> {
    (if snapshot.Some? then SnapshotOps(sync.syncIdx, snapshot.value) else [])
    + [AppendOnPrefix(sync.syncIdx, sync.suffix)]
    + StopsignOps(c.stopsign, sync.stopsign)
  }

  /** The back-end after a log synchronisation. */
  function Synced(b: Backend<KeyValue, Snapshot>, c: Cache, round: Ballot, decided: nat, sync: LogSync,
                  snapshot: Option<Snapshot>): Backend<KeyValue, Snapshot>
    requires b.trimmedIdx <= sync.syncIdx
  {
    var b1 := b.(acceptedRound := Some(round), decidedIdx := decided);
    var b2 := if snapshot.Some? then Compacted(b1, sync.syncIdx).(snapshot := snapshot) else b1;
    b2.(log := Truncated(b2.log, sync.syncIdx - b2.trimmedIdx) + sync.suffix,
        stopsign := if sync.stopsign.Some? || c.stopsign.Some? then sync.stopsign else b2.stopsign)
  }

  lemma {:induction false} RoundWritten(b: Backend<KeyValue, Snapshot>, round: Ballot, decided: nat)
    ensures CanApplyAll(b, RoundOps(round, decided))
    ensures ApplyAll(b, RoundOps(round, decided)) == b.(acceptedRound := Some(round), decidedIdx := decided)
  {
    var op1: Op, op2: Op := SetAcceptedRound(round), SetDecidedIndex(decided);
    ApplyOne(b, op1);
    ApplyOne(Apply(b, op1), op2);
    ApplyConcat(b, [op1], [op2]);
    assert [op1] + [op2] == RoundOps(round, decided);
  }

  lemma {:induction false} SyncWritten(b: Backend<KeyValue, Snapshot>, c: Cache, round: Ballot, decided: nat,
                                       sync: LogSync, snapshot: Option<Snapshot>)
    requires b.trimmedIdx <= sync.syncIdx
    ensures var ops := RoundOps(round, decided) + SyncOps(c, sync, snapshot);
            CanApplyAll(b, ops) && ApplyAll(b, ops) == Synced(b, c, round, decided, sync, snapshot)
  {
    RoundWritten(b, round, decided);
    var b1 := b.(acceptedRound := Some(round), decidedIdx := decided);
    var snapshotOps: seq<Op> := if snapshot.Some? then SnapshotOps(sync.syncIdx, snapshot.value) else [];
    var b2 := if snapshot.Some? then Compacted(b1, sync.syncIdx).(snapshot := snapshot) else b1;
    if snapshot.Some? {
      SnapshotWritten(b1, sync.syncIdx, snapshot.value);
    }
    var append: Op := AppendOnPrefix(sync.syncIdx, sync.suffix);
    var b3 := Apply(b2, append);
    ApplyOne(b2, append);
    ApplyOne(b3, SetStopsign(sync.stopsign));
    ApplyConcat(b1, snapshotOps, [append]);
    ApplyConcat(b1, snapshotOps + [append], StopsignOps(c.stopsign, sync.stopsign));
    ApplyConcat(b, RoundOps(round, decided), SyncOps(c, sync, snapshot));
  }

  /** What a follower does with a leader's log synchronisation; an error leaves the cache updated. */
  function SyncLog(s: Store, round: Ballot, decided: nat, sync: Option<LogSync>): Outcome
    requires Sound(s) && (sync.Some? ==> s.backend.trimmedIdx <= sync.value.syncIdx)
  {
    var c1 := s.cache.(acceptedRound := round, decidedIdx := decided);
    match sync
    case None =>
      RoundWritten(s.backend, round, decided);
      Outcome(Store(c1, ApplyAll(s.backend, RoundOps(round, decided))), None)
    case Some(y) =>
      match SyncSnapshot(s.(cache := c1), y.decidedSnapshot)
      case Err(e) => Outcome(s.(cache := c1), Some(e))
      case Ok(snapshot) =>
        SyncWritten(s.backend, s.cache, round, decided, y, snapshot);
        var c2 := c1.(compactedIdx := if snapshot.Some? then y.syncIdx else c1.compactedIdx,
                      acceptedIdx := y.syncIdx + |y.suffix| + (if y.stopsign.Some? then 1 else 0),
                      stopsign := y.stopsign);
        Outcome(Store(c2, ApplyAll(s.backend, RoundOps(round, decided) + SyncOps(s.cache, y, snapshot))), None)
  }

  /** A delta snapshot from `from` on, or a complete one if some of those entries are compacted. */
  function CreateDiffSnapshot(s: Store, from: nat): (Option<SnapshotType>, nat)
    requires Sound(s)
    requires from > s.cache.compactedIdx ==> s.backend.trimmedIdx <= DecidedIdxWithoutStopsign(s.cache)
  {
    var decided := DecidedIdxWithoutStopsign(s.cache);
    var snapshot :=
      if from <= s.cache.compactedIdx then
        if s.cache.compactedIdx < decided then Some(Complete(CreateSnapshot(s, decided).value))
        else match s.backend.snapshot
          case Some(snapshot) => Some(Complete(snapshot))
          case None => None
      else Some(Delta(Create(EntriesIn(s.backend, from, decided))));
    (snapshot, decided)
  }

  /** What a leader sends to a server that shares its log below `commonPrefixIdx`. */
  function CreateLogSync(s: Store, commonPrefixIdx: nat, otherDecidedIdx: nat): LogSync
    requires Sound(s)
    requires s.backend.trimmedIdx <= DecidedIdxWithoutStopsign(s.cache)
    requires s.cache.decidedIdx <= commonPrefixIdx ==> s.backend.trimmedIdx <= commonPrefixIdx
  {
    if s.cache.decidedIdx > commonPrefixIdx then
      var (snapshot, compactedIdx) := CreateDiffSnapshot(s, otherDecidedIdx);
      LogSync(snapshot, SuffixFrom(s.backend, s.cache.decidedIdx), compactedIdx, s.cache.stopsign)
    else
      LogSync(None, SuffixFrom(s.backend, commonPrefixIdx), commonPrefixIdx, s.cache.stopsign)
  }
}
