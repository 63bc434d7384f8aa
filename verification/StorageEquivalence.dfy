/**
 * The key-range back-end under the storage layer: in every run it holds what the in-memory back-end
 * holds, answers the same, and can be opened again.
 */
module StorageEquivalence {
  import opened Wrappers
  import opened KvSnapshot
  import opened Storage
  import opened InternalStorage
  import opened StorageCoherence
  import opened PersistentStorage

  type Keyed = State<KeyValue, Snapshot>

  /** The transaction that an operation writes to its back-end. */
  function Emitted(s: Store, op: Operation): seq<Op>
    requires CanStep(s, op)
  {
    match op
    case AppendOp(entries) =>
      var batch := s.cache.batched + entries;
      if |batch| >= s.cache.batchSize then [AppendEntries(batch)] else []
    case FlushOp => [AppendEntries(s.cache.batched)]
    case PromiseOp(promise) => [SetPromise(promise)]
    case DecideOp(idx) => [SetDecidedIndex(idx)]
    case StopsignOp(stopsign) => [SetStopsign(stopsign)]
    case TrimOp(idx) =>
      (match CompactTo(s.cache, idx)
       case Ok(to) => if to > s.cache.compactedIdx then TrimOps(to) else []
       case Err(_) => [])
    case SnapshotOp(idx) =>
      (match CompactTo(s.cache, idx.GetOr(s.cache.decidedIdx))
       case Ok(to) => if to > s.cache.compactedIdx then SnapshotOps(to, CreateSnapshot(s, to).value) else []
       case Err(_) => [])
    case SyncOp(round, decided, None) => RoundOps(round, decided)
    case SyncOp(round, decided, Some(y)) =>
      var s1 := s.(cache := s.cache.(acceptedRound := round, decidedIdx := decided));
      match SyncSnapshot(s1, y.decidedSnapshot)
      case Ok(snapshot) => RoundOps(round, decided) + SyncOps(s.cache, y, snapshot)
      case Err(_) => []
  }

  /** The in-memory back-end's part of a step is exactly that transaction. */
  lemma {:induction false} EmittedApplies(s: Store, op: Operation)
    requires CanStep(s, op)
    ensures CanApplyAll(s.backend, Emitted(s, op))
    ensures ApplyAll(s.backend, Emitted(s, op)) == Step(s, op).store.backend
  {
    match op
    case AppendOp(entries) => ApplyOne(s.backend, AppendEntries(s.cache.batched + entries));
    case FlushOp => ApplyOne(s.backend, AppendEntries(s.cache.batched));
    case PromiseOp(promise) => ApplyOne(s.backend, SetPromise(promise));
    case DecideOp(idx) => ApplyOne(s.backend, SetDecidedIndex(idx));
    case StopsignOp(stopsign) => ApplyOne(s.backend, SetStopsign(stopsign));
    case TrimOp(idx) =>
      var target := CompactTo(s.cache, idx);
      if target.Ok? && target.value > s.cache.compactedIdx {
        TrimWritten(s.backend, target.value);
      }
    case SnapshotOp(idx) =>
      var target := CompactTo(s.cache, idx.GetOr(s.cache.decidedIdx));
      if target.Ok? && target.value > s.cache.compactedIdx {
        SnapshotWritten(s.backend, target.value, CreateSnapshot(s, target.value).value);
      }
    case SyncOp(round, decided, None) => RoundWritten(s.backend, round, decided);
    case SyncOp(round, decided, Some(y)) =>
      var s1 := s.(cache := s.cache.(acceptedRound := round, decidedIdx := decided));
      var snapshot := SyncSnapshot(s1, y.decidedSnapshot);
      if snapshot.Ok? {
        SyncWritten(s.backend, s.cache, round, decided, y, snapshot.value);
      }
  }

  lemma {:induction false} OneFollows(p: Keyed, b: Backend<KeyValue, Snapshot>, op: Op)
    requires Agrees(p, b) && CanApply(b, op) && StaysWithin(b, op)
    ensures CanApplyAll(b, [op]) && Agrees(WriteAll(p, [op]), ApplyAll(b, [op]))
  {
    ApplyOne(b, op);
    WriteOne(p, op);
    WriteAgrees(p, b, op);
  }

  /** Trimming first and setting values afterwards, as compaction does. */
  lemma {:induction false} CompactionFollows(p: Keyed, b: Backend<KeyValue, Snapshot>, idx: nat, setters: seq<Op>)
    requires Agrees(p, b) && b.trimmedIdx <= idx && CanApplyAll(b, [Trim(idx)] + setters)
    requires forall op | op in setters :: op.SetCompactedIdx? || op.SetSnapshot?
    ensures var ops := [Trim(idx)] + setters;
            Follows(WriteAll(p, ops), ApplyAll(b, ops), b.trimmedIdx + |b.log| < idx)
  {
    var op: Op := Trim(idx);
    ApplyOne(b, op);
    WriteOne(p, op);
    ApplyConcat(b, [op], setters);
    WriteConcat(p, [op], setters);
    WriteFollows(p, b, false, op);
    SettersFollow(WriteOp(p, op), Apply(b, op), b.trimmedIdx + |b.log| < idx, setters);
  }

  /** Log synchronisation, which may compact past the end and then appends from there. */
  lemma {:induction false} SyncFollows(p: Keyed, b: Backend<KeyValue, Snapshot>, c: Cache, sync: LogSync,
                                       snapshot: Option<Snapshot>)
    requires Agrees(p, b) && b.trimmedIdx <= sync.syncIdx && CanApplyAll(b, SyncOps(c, sync, snapshot))
    requires snapshot.None? ==> sync.syncIdx <= b.trimmedIdx + |b.log|
    ensures Agrees(WriteAll(p, SyncOps(c, sync, snapshot)), ApplyAll(b, SyncOps(c, sync, snapshot)))
  {
    var compaction: seq<Op> := if snapshot.Some? then SnapshotOps(sync.syncIdx, snapshot.value) else [];
    var append: Op := AppendOnPrefix(sync.syncIdx, sync.suffix);
    var last := StopsignOps(c.stopsign, sync.stopsign);
    ApplyConcat(b, compaction + [append], last);
    ApplyConcat(b, compaction, [append]);
    WriteConcat(p, compaction + [append], last);
    WriteConcat(p, compaction, [append]);
    if snapshot.Some? {
      var setters: seq<Op> := [SetCompactedIdx(sync.syncIdx), SetSnapshot(snapshot)];
      assert compaction == [Trim(sync.syncIdx)] + setters;
      SnapshotWritten(b, sync.syncIdx, snapshot.value);
      CompactionFollows(p, b, sync.syncIdx, setters);
    }
    var behind := b.trimmedIdx + |b.log| < sync.syncIdx;
    var (p1, b1) := (WriteAll(p, compaction), ApplyAll(b, compaction));
    ApplyOne(b1, append);
    WriteOne(p1, append);
    WriteFollows(p1, b1, behind, append);
    SettersFollow(WriteOp(p1, append), Apply(b1, append), false, last);
  }

  lemma {:induction false} SyncStepAgrees(s: Store, p: Keyed, op: Operation)
    requires Coherent(s) && op.SyncOp? && CanStep(s, op) && Fits(s, op) && Agrees(p, s.backend)
    ensures CanApplyAll(s.backend, Emitted(s, op))
    ensures Agrees(WriteAll(p, Emitted(s, op)), ApplyAll(s.backend, Emitted(s, op)))
  {
    EmittedApplies(s, op);
    var round := RoundOps(op.round, op.decided);
    RoundWritten(s.backend, op.round, op.decided);
    SettersFollow(p, s.backend, false, round);
    if op.sync.Some? {
      var s1 := s.(cache := s.cache.(acceptedRound := op.round, decidedIdx := op.decided));
      var snapshot := SyncSnapshot(s1, op.sync.value.decidedSnapshot);
      if snapshot.Ok? {
        var ops := SyncOps(s.cache, op.sync.value, snapshot.value);
        ApplyConcat(s.backend, round, ops);
        WriteConcat(p, round, ops);
        SyncFollows(WriteAll(p, round), ApplyAll(s.backend, round), s.cache, op.sync.value, snapshot.value);
      }
    }
  }

  lemma {:induction false} StepAgrees(s: Store, p: Keyed, op: Operation)
    requires Coherent(s) && CanStep(s, op) && Fits(s, op) && Agrees(p, s.backend)
    ensures Agrees(WriteAll(p, Emitted(s, op)), Step(s, op).store.backend)
  {
    EmittedApplies(s, op);
    var ops := Emitted(s, op);
    if op.SyncOp? {
      SyncStepAgrees(s, p, op);
    } else if |ops| == 0 {
      assert WriteAll(p, ops) == p;
    } else if op.TrimOp? || op.SnapshotOp? {
      assert ops == [Trim(ops[0].idx)] + ops[1..];
      CompactionFollows(p, s.backend, ops[0].idx, ops[1..]);
    } else {
      assert ops == [ops[0]];
      OneFollows(p, s.backend, ops[0]);
    }
  }

  /** The key-range back-end after a run of the storage layer on top of it. */
  function KeyedAfter(p: Keyed, s: Store, ops: seq<Operation>): Keyed
    requires After(s, ops).Some?
  {
    if |ops| == 0 then p
    else
      var before := ops[..|ops| - 1];
      WriteAll(KeyedAfter(p, s, before), Emitted(After(s, before).value, ops[|ops| - 1]))
  }

  /** Both back-ends agree after every run that starts with them agreeing. */
  lemma {:induction false} RunsAgree(s: Store, p: Keyed, ops: seq<Operation>)
    requires Coherent(s) && Agrees(p, s.backend) && After(s, ops).Some?
    ensures Agrees(KeyedAfter(p, s, ops), After(s, ops).value.backend)
  {
    if |ops| > 0 {
      var before := ops[..|ops| - 1];
      RunsAgree(s, p, before);
      CoherentRuns(s, before);
      StepAgrees(After(s, before).value, KeyedAfter(p, s, before), ops[|ops| - 1]);
    }
  }

  /**
   * Storage equivalence and recovery: after every run both back-ends give the same entries, suffixes
   * and length, and opening the key-range store again finds the same next key and the same cache.
   */
  lemma {:induction false} StoragesAreEquivalent(batchSize: nat, ops: seq<Operation>, from: nat, to: nat)
    requires After(NewStore(batchSize), ops).Some?
    ensures var (b, p) := (After(NewStore(batchSize), ops).value.backend,
                           KeyedAfter(State(EmptyDisk(), 0), NewStore(batchSize), ops));
            && (b.compactedIdx <= from && b.compactedIdx <= to ==>
                  && b.trimmedIdx <= from && b.trimmedIdx <= to
                  && Entries(p, from, to) == Ok(EntriesIn(b, from, to))
                  && Entries(p, from, p.nextLogKey) == Ok(SuffixFrom(b, from)))
            && p.disk.trim.GetOr(0) <= p.nextLogKey && LogLen(p) == |b.log|
            && RecoveredKey(p.disk) == p.nextLogKey
            && Agrees(State(p.disk, RecoveredKey(p.disk)), b)
  {
    var s := NewStore(batchSize);
    RunsAgree(s, State(EmptyDisk(), 0), ops);
    CoherentRuns(s, ops);
    var (b, p) := (After(s, ops).value.backend, KeyedAfter(State(EmptyDisk(), 0), s, ops));
    OpenRecovers(p, b);
    LengthsAgree(p, b);
    if b.compactedIdx <= from && b.compactedIdx <= to {
      ReadsAgree(p, b, from, to);
      SuffixesAgree(p, b, from);
    }
  }
}
