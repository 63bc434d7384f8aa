/**
 * Runs of the storage layer: the cache stays what a reload would rebuild, everything appended stays
 * in order, and compaction by snapshots loses nothing.
 */
module StorageCoherence {
  import opened Wrappers
  import opened Ballots
  import opened KvSnapshot
  import opened Storage
  import opened InternalStorage
  import opened StorageReads

  datatype Operation =
    | AppendOp(entries: seq<KeyValue>)
    | FlushOp
    | PromiseOp(promise: Ballot)
    | DecideOp(idx: nat)
    | StopsignOp(stopsign: Option<StopSign>)
    | TrimOp(idx: nat)
    | SnapshotOp(to: Option<nat>)
    | SyncOp(round: Ballot, decided: nat, sync: Option<LogSync>)

  predicate CanStep(s: Store, op: Operation) {
    Sound(s) && (op.SyncOp? && op.sync.Some? ==> s.backend.trimmedIdx <= op.sync.value.syncIdx)
  }

  function Step(s: Store, op: Operation): Outcome
    requires CanStep(s, op)
  {
    match op
    case AppendOp(entries) => Outcome(Append(s, entries), None)
    case FlushOp => Outcome(Flush(s), None)
    case PromiseOp(promise) => Outcome(StorePromise(s, promise), None)
    case DecideOp(idx) => Outcome(StoreDecidedIdx(s, idx), None)
    case StopsignOp(stopsign) => Outcome(StoreStopsign(s, stopsign), None)
    case TrimOp(idx) => TryTrim(s, idx)
    case SnapshotOp(to) => TrySnapshot(s, to)
    case SyncOp(round, decided, sync) => SyncLog(s, round, decided, sync)
  }

  /** A reload would rebuild the cache as it is. */
  predicate Coherent(s: Store) {
    s.cache == LoadCache(s.cache, s.backend) && s.backend.trimmedIdx == s.backend.compactedIdx
  }

  predicate Inv(s: Store) {
    Coherent(s) && s.cache.decidedIdx <= s.cache.acceptedIdx
  }

  /** The end of the stored log, without a stopsign. */
  function LogEnd(s: Store): nat {
    s.backend.compactedIdx + |s.backend.log|
  }

  /** Whether a compaction to `idx` stays within the stored log, or does nothing. */
  predicate CompactionFits(s: Store, idx: nat)
    requires Sound(s)
  {
    var target := CompactTo(s.cache, idx);
    target.Ok? ==> target.value <= LogEnd(s) || target.value <= s.cache.compactedIdx
  }

  /** A delta for a decided index that is already compacted is refused. */
  predicate SyncFails(s: Store, decided: nat, sync: LogSync)
    requires Sound(s)
  {
    && sync.decidedSnapshot.Some? && sync.decidedSnapshot.value.Delta?
    && DecidedIdxWithoutStopsign(s.cache.(decidedIdx := decided)) < s.cache.compactedIdx
  }

  /**
   * What the storage layer does not check itself: compaction stays within the log, a synchronisation without
   * a snapshot leaves no gap, and one that will fail brings nothing new.
   */
  predicate Fits(s: Store, op: Operation)
    requires CanStep(s, op)
  {
    match op
    case TrimOp(idx) => CompactionFits(s, idx)
    case SnapshotOp(to) => CompactionFits(s, to.GetOr(s.cache.decidedIdx))
    case SyncOp(round, decided, Some(y)) =>
      if SyncFails(s, decided, y) then round == s.cache.acceptedRound && decided == s.cache.decidedIdx
      else y.decidedSnapshot.None? ==> y.syncIdx <= LogEnd(s)
    case _ => true
  }

  /** The decided index is not moved past what is accepted, nor left there. */
  predicate DecidesWithin(s: Store, op: Operation)
    requires CanStep(s, op)
  {
    match op
    case DecideOp(idx) => idx <= s.cache.acceptedIdx
    case StopsignOp(None) => s.cache.stopsign.Some? ==> s.cache.decidedIdx < s.cache.acceptedIdx
    case SyncOp(_, decided, None) => decided <= s.cache.acceptedIdx
    case SyncOp(_, decided, Some(y)) =>
      if SyncFails(s, decided, y) then decided <= s.cache.acceptedIdx
      else decided <= y.syncIdx + |y.suffix| + (if y.stopsign.Some? then 1 else 0)
    case _ => true
  }

  lemma {:induction false} CoherentIsSound(s: Store)
    requires Coherent(s)
    ensures Sound(s)
  {
  }

  lemma {:induction false} CompactionCoherentIff(s: Store, op: Operation)
    requires Coherent(s) && (op.TrimOp? || op.SnapshotOp?)
    ensures CanStep(s, op) && (Coherent(Step(s, op).store) <==> Fits(s, op))
  {
    var to := if op.TrimOp? then op.idx else op.to.GetOr(s.cache.decidedIdx);
    var target := CompactTo(s.cache, to);
    if target.Ok? && target.value > s.cache.compactedIdx {
      TrimWritten(s.backend, target.value);
      if op.SnapshotOp? {
        SnapshotWritten(s.backend, target.value, CreateSnapshot(s, target.value).value);
      }
    }
  }

  lemma {:induction false} SyncCoherentIff(s: Store, op: Operation)
    requires Coherent(s) && op.SyncOp? && CanStep(s, op)
    ensures Coherent(Step(s, op).store) <==> Fits(s, op)
  {
    match op.sync
    case None =>
      RoundWritten(s.backend, op.round, op.decided);
    case Some(y) =>
      var s1 := s.(cache := s.cache.(acceptedRound := op.round, decidedIdx := op.decided));
      var snapshot := SyncSnapshot(s1, y.decidedSnapshot);
      if snapshot.Ok? {
        SyncWritten(s.backend, s.cache, op.round, op.decided, y, snapshot.value);
      }
  }

  /** An operation keeps the cache coherent with the back-end if and only if it fits. */
  lemma {:induction false} StepCoherentIff(s: Store, op: Operation)
    requires Coherent(s) && CanStep(s, op)
    ensures Coherent(Step(s, op).store) <==> Fits(s, op)
  {
    if op.TrimOp? || op.SnapshotOp? {
      CompactionCoherentIff(s, op);
    } else if op.SyncOp? {
      SyncCoherentIff(s, op);
    }
  }

  lemma {:induction false} SyncDecides(s: Store, op: Operation)
    requires Coherent(s) && op.SyncOp? && CanStep(s, op)
    ensures var c := Step(s, op).store.cache;
            c.decidedIdx <= c.acceptedIdx <==>
              match op.sync
              case None => op.decided <= s.cache.acceptedIdx
              case Some(y) =>
                if SyncFails(s, op.decided, y) then op.decided <= s.cache.acceptedIdx
                else op.decided <= y.syncIdx + |y.suffix| + (if y.stopsign.Some? then 1 else 0)
  {
    if op.sync.Some? {
      SyncFailsIff(s, op.round, op.decided, op.sync.value);
    }
  }

  /** It also keeps the decided index within what is accepted if and only if it decides within it. */
  lemma {:induction false} StepInvIff(s: Store, op: Operation)
    requires Inv(s) && CanStep(s, op)
    ensures Inv(Step(s, op).store) <==> Fits(s, op) && DecidesWithin(s, op)
  {
    StepCoherentIff(s, op);
    if op.SyncOp? {
      SyncDecides(s, op);
    }
  }

  /** While it does, every compaction fits. */
  lemma {:induction false} DecidedCompactionFits(s: Store, op: Operation)
    requires Inv(s) && (op.TrimOp? || op.SnapshotOp?)
    ensures CanStep(s, op) && Fits(s, op)
  {
  }

  /**
   * A log synchronisation that fails has already changed the cache, but not the back-end: the two
   * agree afterwards if and only if neither the round nor the decided index was new.
   */
  lemma {:induction false} FailedSyncBreaksCoherence(s: Store, round: Ballot, decided: nat, sync: LogSync)
    requires Coherent(s) && s.backend.trimmedIdx <= sync.syncIdx
    ensures Sound(s)
    ensures var out := SyncLog(s, round, decided, Some(sync));
            out.error.Some? ==>
              (Coherent(out.store) <==> round == s.cache.acceptedRound && decided == s.cache.decidedIdx)
  {
    var s1 := s.(cache := s.cache.(acceptedRound := round, decidedIdx := decided));
    if SyncSnapshot(s1, sync.decidedSnapshot).Err? {
      assert SyncLog(s, round, decided, Some(sync)).store == s1;
    } else {
      assert SyncLog(s, round, decided, Some(sync)).error.None?;
    }
  }

  /** It fails exactly when a delta arrives with a decided index below what is already compacted. */
  lemma {:induction false} SyncFailsIff(s: Store, round: Ballot, decided: nat, sync: LogSync)
    requires Coherent(s) && s.backend.trimmedIdx <= sync.syncIdx
    ensures Sound(s)
    ensures SyncLog(s, round, decided, Some(sync)).error.Some? <==> SyncFails(s, decided, sync)
  {
    var s1 := s.(cache := s.cache.(acceptedRound := round, decidedIdx := decided));
    assert SyncLog(s, round, decided, Some(sync)).error.Some? <==> SyncSnapshot(s1, sync.decidedSnapshot).Err?;
  }

  // Runs.

  function After(s: Store, ops: seq<Operation>): Option<Store> {
    if |ops| == 0 then Some(s)
    else
      var op := ops[|ops| - 1];
      match After(s, ops[..|ops| - 1])
      case None => None
      case Some(m) => if CanStep(m, op) && Fits(m, op) then Some(Step(m, op).store) else None
  }

  function NewStore(batchSize: nat): Store {
    Store(LoadCache(NewCache(batchSize), EmptyBackend()), EmptyBackend())
  }

  /** State-cache coherence over every run that starts from any coherent store. */
  lemma {:induction false} CoherentRuns(s: Store, ops: seq<Operation>)
    requires Coherent(s)
    ensures var after := After(s, ops);
            after.Some? ==>
              var Store(c, b) := after.value;
              && c == LoadCache(c, b)
              && c.acceptedIdx == |b.log| + b.compactedIdx + (if b.stopsign.Some? then 1 else 0)
              && Coherent(after.value)
  {
    if |ops| > 0 {
      var before, op := ops[..|ops| - 1], ops[|ops| - 1];
      CoherentRuns(s, before);
      var m := After(s, before);
      if m.Some? && CanStep(m.value, op) && Fits(m.value, op) {
        StepCoherentIff(m.value, op);
      }
    }
  }

  /** Every operation of the run decides within what is accepted. */
  predicate AlwaysDecidesWithin(s: Store, ops: seq<Operation>) {
    |ops| > 0 ==>
      var before, op := ops[..|ops| - 1], ops[|ops| - 1];
      && AlwaysDecidesWithin(s, before)
      && (After(s, before).Some? && CanStep(After(s, before).value, op) ==> DecidesWithin(After(s, before).value, op))
  }

  lemma {:induction false} DecidedRuns(s: Store, ops: seq<Operation>)
    requires Inv(s) && AlwaysDecidesWithin(s, ops)
    ensures After(s, ops).Some? ==> Inv(After(s, ops).value)
  {
    if |ops| > 0 {
      var before, op := ops[..|ops| - 1], ops[|ops| - 1];
      DecidedRuns(s, before);
      var m := After(s, before);
      if m.Some? && CanStep(m.value, op) && Fits(m.value, op) {
        StepInvIff(m.value, op);
      }
    }
  }

  function AppendedBy(op: Operation): seq<KeyValue> {
    if op.AppendOp? then op.entries else []
  }

  /** All entries appended by the operations, in order. */
  function Appended(ops: seq<Operation>): seq<KeyValue> {
    if |ops| == 0 then []
    else Appended(ops[..|ops| - 1]) + AppendedBy(ops[|ops| - 1])
  }

  /** `total` is stored, up to the batch, which is the rest of it. */
  ghost predicate Reflects(s: Store, total: seq<KeyValue>) {
    && |s.cache.batched| <= |total|
    && StoresLog(s, total[..|total| - |s.cache.batched|])
    && s.cache.batched == total[|total| - |s.cache.batched|..]
  }

  /** The stored snapshot is that of the compacted entries. */
  predicate SnapshotHolds(s: Store, total: seq<KeyValue>) {
    && s.backend.compactedIdx <= |total|
    && s.backend.snapshot == if s.backend.compactedIdx == 0 then None
                             else Some(Create(total[..s.backend.compactedIdx]))
  }

  lemma {:induction false} AppendReflects(s: Store, total: seq<KeyValue>, entries: seq<KeyValue>)
    requires Reflects(s, total)
    ensures Reflects(Append(s, entries), total + entries)
  {
    var s' := Append(s, entries);
    var k := |total| - |s.cache.batched|;
    var all := total + entries;
    assert s.cache.batched + entries == all[k..];
    if s'.cache.batched == [] {
      assert all[..|all|] == all;
      assert s'.backend.log == all[s.backend.compactedIdx..];
    } else {
      assert all[..k] == total[..k];
    }
  }

  lemma {:induction false} FlushReflects(s: Store, total: seq<KeyValue>)
    requires Reflects(s, total)
    ensures Reflects(Flush(s), total)
  {
    assert total[..|total|] == total;
    assert Flush(s).backend.log == total[s.backend.compactedIdx..];
  }

  /** A store compacted to `t`, with any snapshot, still reflects the same appends. */
  lemma {:induction false} CompactedReflects(s: Store, total: seq<KeyValue>, t: nat, snapshot: Option<Snapshot>)
    requires Reflects(s, total) && s.cache.compactedIdx <= t <= s.cache.compactedIdx + |s.backend.log|
    ensures Reflects(Store(s.cache.(compactedIdx := t), Compacted(s.backend, t).(snapshot := snapshot)), total)
  {
    var s' := Store(s.cache.(compactedIdx := t), Compacted(s.backend, t).(snapshot := snapshot));
    var stored := total[..|total| - |s.cache.batched|];
    DrainedSuffix(stored, s.cache.compactedIdx, t);
    assert s'.backend.log == stored[t..];
  }

  lemma {:induction false} DrainedSuffix(log: seq<KeyValue>, c: nat, t: nat)
    requires c <= t <= |log|
    ensures Drained(log[c..], t - c) == log[t..]
  {
  }

  lemma {:induction false} TrimReflects(s: Store, total: seq<KeyValue>, idx: nat)
    requires Coherent(s) && Reflects(s, total) && CompactionFits(s, idx)
    ensures Reflects(TryTrim(s, idx).store, total)
  {
    var target := CompactTo(s.cache, idx);
    if target.Ok? && target.value > s.cache.compactedIdx {
      TrimWritten(s.backend, target.value);
      CompactedReflects(s, total, target.value, s.backend.snapshot);
    }
  }

  lemma {:induction false} StoredStretch(s: Store, total: seq<KeyValue>, t: nat)
    requires Reflects(s, total) && s.cache.compactedIdx == s.backend.compactedIdx
    requires s.backend.compactedIdx <= t <= s.backend.compactedIdx + |s.backend.log|
    ensures t <= |total| && s.backend.log[..t - s.backend.compactedIdx] == total[s.backend.compactedIdx..t]
  {
    var stored := total[..|total| - |s.cache.batched|];
    assert s.backend.log[..t - s.backend.compactedIdx] == stored[s.backend.compactedIdx..t];
  }

  lemma {:induction false} SnapshotReflects(s: Store, total: seq<KeyValue>, idx: Option<nat>)
    requires Coherent(s) && Reflects(s, total) && CompactionFits(s, idx.GetOr(s.cache.decidedIdx))
    ensures Reflects(TrySnapshot(s, idx).store, total)
    ensures SnapshotHolds(s, total) ==> SnapshotHolds(TrySnapshot(s, idx).store, total)
  {
    var target := CompactTo(s.cache, idx.GetOr(s.cache.decidedIdx));
    if target.Ok? && target.value > s.cache.compactedIdx {
      var t := target.value;
      var snapshot := CreateSnapshot(s, t).value;
      SnapshotWritten(s.backend, t, snapshot);
      CompactedReflects(s, total, t, Some(snapshot));
      if SnapshotHolds(s, total) {
        StoredStretch(s, total, t);
        SnapshotExtends(s, total, t);
      }
    }
  }

  /** Extending the snapshot of a prefix by the stored entries gives the snapshot of the longer prefix. */
  lemma {:induction false} SnapshotExtends(s: Store, log: seq<KeyValue>, t: nat)
    requires Sound(s) && SnapshotHolds(s, log) && s.cache.compactedIdx == s.backend.compactedIdx <= t <= |log|
    requires t - s.backend.compactedIdx <= |s.backend.log|
    requires s.backend.log[..t - s.backend.compactedIdx] == log[s.backend.compactedIdx..t]
    ensures CreateSnapshot(s, t) == Ok(Create(log[..t]))
  {
    var c := s.backend.compactedIdx;
    assert EntriesIn(s.backend, c, t) == s.backend.log[0..t - c] == log[c..t];
    assert log[..t] == log[..c] + log[c..t];
    CreateConcat(log[..c], log[c..t]);
    if c == 0 {
      assert log[..t] == log[c..t];
    }
  }

  lemma {:induction false} StepReflects(s: Store, total: seq<KeyValue>, op: Operation)
    requires Coherent(s) && Reflects(s, total) && !op.SyncOp? && CanStep(s, op) && Fits(s, op)
    ensures var s' := Step(s, op).store;
            && Reflects(s', total + AppendedBy(op))
            && (SnapshotHolds(s, total) && !op.TrimOp? ==> SnapshotHolds(s', total + AppendedBy(op)))
  {
    assert total + [] == total;
    match op
    case AppendOp(entries) => AppendStepReflects(s, total, entries);
    case TrimOp(idx) => TrimReflects(s, total, idx);
    case SnapshotOp(to) => SnapshotReflects(s, total, to);
    case _ => OtherStepReflects(s, total, op);
  }

  lemma {:induction false} AppendStepReflects(s: Store, total: seq<KeyValue>, entries: seq<KeyValue>)
    requires Coherent(s) && Reflects(s, total)
    ensures Reflects(Append(s, entries), total + entries)
    ensures SnapshotHolds(s, total) ==> SnapshotHolds(Append(s, entries), total + entries)
  {
    AppendReflects(s, total, entries);
    if s.backend.compactedIdx <= |total| {
      assert (total + entries)[..s.backend.compactedIdx] == total[..s.backend.compactedIdx];
    }
  }

  lemma {:induction false} OtherStepReflects(s: Store, total: seq<KeyValue>, op: Operation)
    requires Coherent(s) && Reflects(s, total) && CanStep(s, op)
    requires op.FlushOp? || op.PromiseOp? || op.DecideOp? || op.StopsignOp?
    ensures Reflects(Step(s, op).store, total)
    ensures SnapshotHolds(s, total) ==> SnapshotHolds(Step(s, op).store, total)
  {
    if op.FlushOp? {
      FlushReflects(s, total);
    }
  }

  /** Stored plus batched entries are all the appends, in order, whatever is decided, trimmed or snapshotted. */
  lemma {:induction false} AppendsStayInOrder(batchSize: nat, ops: seq<Operation>)
    requires forall op :: op in ops ==> !op.SyncOp?
    ensures var after := After(NewStore(batchSize), ops);
            after.Some? ==> Reflects(after.value, Appended(ops))
  {
    if |ops| > 0 {
      var before, op := ops[..|ops| - 1], ops[|ops| - 1];
      AppendsStayInOrder(batchSize, before);
      CoherentRuns(NewStore(batchSize), before);
      var m := After(NewStore(batchSize), before);
      if m.Some? && CanStep(m.value, op) && Fits(m.value, op) {
        StepReflects(m.value, Appended(before), op);
      }
    }
  }

  /**
   * Compaction by snapshot loses nothing: in every run without plain trims the stored snapshot is that
   * of all compacted entries, and the stored log and the batch are the rest, unchanged.
   */
  lemma {:induction false} SnapshotsLoseNothing(batchSize: nat, ops: seq<Operation>)
    requires forall op :: op in ops ==> !op.SyncOp? && !op.TrimOp?
    ensures var after, all := After(NewStore(batchSize), ops), Appended(ops);
            after.Some? ==>
              var Store(c, b) := after.value;
              && SnapshotHolds(after.value, all)
              && all == all[..b.compactedIdx] + b.log + c.batched
  {
    if |ops| > 0 {
      var before, op := ops[..|ops| - 1], ops[|ops| - 1];
      SnapshotsLoseNothing(batchSize, before);
      AppendsStayInOrder(batchSize, before);
      AppendsStayInOrder(batchSize, ops);
      CoherentRuns(NewStore(batchSize), before);
      var m := After(NewStore(batchSize), before);
      if m.Some? && CanStep(m.value, op) && Fits(m.value, op) {
        StepReflects(m.value, Appended(before), op);
        SplitLog(Step(m.value, op).store, Appended(ops));
      }
    }
  }

  lemma {:induction false} SplitLog(s: Store, all: seq<KeyValue>)
    requires Reflects(s, all)
    ensures s.backend.compactedIdx <= |all|
    ensures all == all[..s.backend.compactedIdx] + s.backend.log + s.cache.batched
  {
    var c, k := s.backend.compactedIdx, |all| - |s.cache.batched|;
    assert all[..k][c..] == all[c..k];
  }
}
