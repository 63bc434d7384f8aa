/** The write-through layer as an object over the in-memory back-end. */
module StorageLayer {
  import opened Wrappers
  import opened Ballots
  import opened KvSnapshot
  import opened Storage
  import opened InternalStorage
  import opened StorageReads

  class LogStorage {
    const storage: MemoryStorage<KeyValue, Snapshot>
    const batchSize: nat
    var batchedEntries: seq<KeyValue>
    var promise: Ballot
    var acceptedRound: Ballot
    var decidedIdx: nat
    var acceptedIdx: nat
    var compactedIdx: nat
    var stopsign: Option<StopSign>

    ghost function View(): Store
      reads this, storage
    {
      Store(Cache(batchSize, batchedEntries, promise, acceptedRound, decidedIdx, acceptedIdx, compactedIdx, stopsign),
            storage.View())
    }

    constructor (storage: MemoryStorage<KeyValue, Snapshot>, batchSize: nat)
      ensures this.storage == storage
      ensures View() == Store(LoadCache(NewCache(batchSize), storage.View()), storage.View())
      ensures batchedEntries == [] && decidedIdx == storage.ld && compactedIdx == storage.compactedIdx
      ensures promise == storage.nProm.GetOr(DEFAULT_BALLOT) && acceptedRound == storage.accRound.GetOr(DEFAULT_BALLOT)
      ensures stopsign == storage.stopsign
      ensures acceptedIdx == |storage.log| + compactedIdx + if stopsign.Some? then 1 else 0
    {
      this.storage, this.batchSize, batchedEntries := storage, batchSize, [];
      promise, decidedIdx := storage.nProm.GetOr(DEFAULT_BALLOT), storage.ld;
      acceptedRound := storage.accRound.GetOr(DEFAULT_BALLOT);
      compactedIdx, stopsign := storage.compactedIdx, storage.stopsign;
      acceptedIdx := |storage.log| + storage.compactedIdx + (if storage.stopsign.Some? then 1 else 0);
    }

    method AppendWithoutBatching(entries: seq<KeyValue>) returns (accepted: nat)
      modifies this`acceptedIdx, storage
      ensures View() == AppendNow(old(View()), entries) && accepted == acceptedIdx
      ensures storage.log == old(storage.log) + entries && acceptedIdx == old(acceptedIdx) + |entries|
    {
      storage.Perform(AppendEntries(entries));
      acceptedIdx := acceptedIdx + |entries|;
      accepted := acceptedIdx;
    }

    method AppendBatched(entries: seq<KeyValue>) returns (accepted: Option<nat>)
      modifies this`acceptedIdx, this`batchedEntries, storage
      ensures View() == Append(old(View()), entries)
      ensures var batch := old(batchedEntries) + entries;
              if |batch| >= batchSize then
                && batchedEntries == [] && storage.log == old(storage.log) + batch
                && acceptedIdx == old(acceptedIdx) + |batch| && accepted == Some(acceptedIdx)
              else
                && batchedEntries == batch && storage.View() == old(storage.View())
                && acceptedIdx == old(acceptedIdx) && accepted == None
    {
      batchedEntries := batchedEntries + entries;
      if |batchedEntries| >= batchSize {
        var flushed := batchedEntries;
        batchedEntries := [];
        var idx := AppendWithoutBatching(flushed);
        accepted := Some(idx);
      } else {
        accepted := None;
      }
    }

    method FlushBatch() returns (accepted: nat)
      modifies this`acceptedIdx, this`batchedEntries, storage
      ensures View() == Flush(old(View())) && accepted == acceptedIdx
      ensures batchedEntries == [] && storage.log == old(storage.log) + old(batchedEntries)
      ensures acceptedIdx == old(acceptedIdx) + |old(batchedEntries)|
    {
      var flushed := batchedEntries;
      batchedEntries := [];
      accepted := AppendWithoutBatching(flushed);
    }

    method TakePromise(n: Ballot)
      modifies this`promise, storage
      ensures View() == StorePromise(old(View()), n)
      ensures promise == n && storage.nProm == Some(n)
    {
      promise := n;
      storage.Perform(SetPromise(n));
    }

    method TakeDecidedIdx(idx: nat)
      modifies this`decidedIdx, storage
      ensures View() == StoreDecidedIdx(old(View()), idx)
      ensures decidedIdx == storage.ld == idx
    {
      decidedIdx := idx;
      storage.Perform(SetDecidedIndex(idx));
    }

    method TakeStopsign(ss: Option<StopSign>) returns (accepted: nat)
      requires Sound(View())
      modifies this`acceptedIdx, this`stopsign, storage
      ensures View() == StoreStopsign(old(View()), ss) && accepted == acceptedIdx
      ensures stopsign == storage.stopsign == ss
      ensures acceptedIdx + (if old(stopsign).Some? then 1 else 0) == old(acceptedIdx) + if ss.Some? then 1 else 0
    {
      if ss.Some? && stopsign.None? {
        acceptedIdx := acceptedIdx + 1;
      } else if ss.None? && stopsign.Some? {
        acceptedIdx := acceptedIdx - 1;
      }
      stopsign := ss;
      storage.Perform(SetStopsign(ss));
      accepted := acceptedIdx;
    }

    method DecidedWithoutStopsign() returns (idx: nat)
      requires Sound(View())
      ensures idx == DecidedIdxWithoutStopsign(View().cache)
      ensures idx + (if stopsign.Some? && decidedIdx == acceptedIdx then 1 else 0) == decidedIdx
    {
      idx := decidedIdx;
      if stopsign.Some? && decidedIdx == acceptedIdx {
        idx := idx - 1;
      }
    }

    method MergeSnapshots(s: Snapshot, delta: Snapshot) returns (merged: Snapshot)
      ensures merged == Merge(s, delta)
    {
      var snapshot := new KVSnapshot.Of(s);
      snapshot.MergeWith(delta);
      merged := snapshot.snapshotted;
    }

    method MakeSnapshot(compactIdx: nat) returns (result: Result<Snapshot, CompactionErr>)
      requires Sound(View())
      ensures result == CreateSnapshot(View(), compactIdx)
      ensures compactIdx < compactedIdx <==> result.Err?
      ensures result.Err? ==> result.error == TrimmedIndex(compactedIdx)
    {
      if compactIdx < compactedIdx {
        return Err(TrimmedIndex(compactedIdx));
      }
      var entries := storage.GetEntries(compactedIdx, compactIdx);
      var delta := new KVSnapshot.FromEntries(entries);
      if storage.snapshot.Some? {
        var merged := MergeSnapshots(storage.snapshot.value, delta.snapshotted);
        result := Ok(merged);
      } else {
        result := Ok(delta.snapshotted);
      }
    }

    method MakeDiffSnapshot(from: nat) returns (snapshot: Option<SnapshotType>, compactIdx: nat)
      requires Sound(View())
      requires from > compactedIdx ==> compactedIdx <= DecidedIdxWithoutStopsign(View().cache)
      ensures (snapshot, compactIdx) == CreateDiffSnapshot(View(), from)
    {
      compactIdx := DecidedWithoutStopsign();
      if from <= compactedIdx {
        if compactedIdx < compactIdx {
          var complete := MakeSnapshot(compactIdx);
          snapshot := Some(Complete(complete.value));
        } else if storage.snapshot.Some? {
          snapshot := Some(Complete(storage.snapshot.value));
        } else {
          snapshot := None;
        }
      } else {
        var entries := storage.GetEntries(from, compactIdx);
        var delta := new KVSnapshot.FromEntries(entries);
        snapshot := Some(Delta(delta.snapshotted));
      }
    }

    method TryTrimTo(idx: nat) returns (error: Option<CompactionErr>)
      requires Sound(View())
      modifies this`compactedIdx, storage
      ensures Outcome(View(), error) == TryTrim(old(View()), idx)
      ensures error == if idx > decidedIdx then Some(UndecidedIndex(decidedIdx)) else None
      ensures compactedIdx == if error.Some? then old(compactedIdx)
                              else Max(old(compactedIdx), Min(idx, DecidedIdxWithoutStopsign(old(View()).cache)))
    {
      var newIdx := idx;
      if idx == decidedIdx {
        newIdx := DecidedWithoutStopsign();
      } else if idx > decidedIdx {
        return Some(UndecidedIndex(decidedIdx));
      }
      if newIdx > compactedIdx {
        TrimWritten(storage.View(), newIdx);
        storage.WriteAtomically([Trim(newIdx), SetCompactedIdx(newIdx)]);
        compactedIdx := newIdx;
      }
      error := None;
    }

    method TrySnapshotTo(snapshotIdx: Option<nat>) returns (error: Option<CompactionErr>)
      requires Sound(View())
      modifies this`compactedIdx, storage
      ensures Outcome(View(), error) == TrySnapshot(old(View()), snapshotIdx)
      ensures error == if snapshotIdx.GetOr(decidedIdx) > decidedIdx then Some(UndecidedIndex(decidedIdx)) else None
      ensures compactedIdx == if error.Some? then old(compactedIdx)
                              else Max(old(compactedIdx), Min(snapshotIdx.GetOr(decidedIdx),
                                                              DecidedIdxWithoutStopsign(old(View()).cache)))
    {
      var newIdx := DecidedWithoutStopsign();
      if snapshotIdx.Some? {
        if snapshotIdx.value < decidedIdx {
          newIdx := snapshotIdx.value;
        } else if snapshotIdx.value > decidedIdx {
          return Some(UndecidedIndex(decidedIdx));
        }
      }
      if newIdx > compactedIdx {
        var snapshot := MakeSnapshot(newIdx);
        SnapshotWritten(storage.View(), newIdx, snapshot.value);
        storage.WriteAtomically([Trim(newIdx), SetCompactedIdx(newIdx), SetSnapshot(Some(snapshot.value))]);
        compactedIdx := newIdx;
      }
      error := None;
    }

    method SyncWithLeader(round: Ballot, decided: nat, sync: Option<LogSync>) returns (error: Option<CompactionErr>)
      requires Sound(View()) && (sync.Some? ==> compactedIdx <= sync.value.syncIdx)
      modifies this, storage
      ensures Outcome(View(), error) == SyncLog(old(View()), round, decided, sync)
    {
      acceptedRound, decidedIdx := round, decided;
      var ops: seq<Op> := [SetAcceptedRound(round), SetDecidedIndex(decided)];
      if sync.None? {
        RoundWritten(storage.View(), round, decided);
        storage.WriteAtomically(ops);
        return None;
      }
      var y := sync.value;
      ghost var c := old(View()).cache;
      var installed: Option<Snapshot> := None;
      match y.decidedSnapshot {
        case Some(Complete(complete)) =>
          installed := Some(complete);
        case Some(Delta(d)) =>
          var idx := DecidedWithoutStopsign();
          var snapshot := MakeSnapshot(idx);
          if snapshot.Err? {
            return Some(snapshot.error);
          }
          var merged := MergeSnapshots(snapshot.value, d);
          installed := Some(merged);
        case None =>
      }
      assert SyncSnapshot(Store(c.(acceptedRound := round, decidedIdx := decided), storage.View()), y.decidedSnapshot)
          == Ok(installed);
      SyncWritten(storage.View(), c, round, decided, y, installed);
      WriteSync(ops, y, installed);
      error := None;
    }

    /** Writes the operations of a log synchronisation after `ops` and updates the cache. */
    method WriteSync(ops: seq<Op>, y: LogSync, installed: Option<Snapshot>)
      requires CanApplyAll(storage.View(), ops + SyncOps(View().cache, y, installed))
      modifies this`compactedIdx, this`acceptedIdx, this`stopsign, storage
      ensures storage.View() == ApplyAll(old(storage.View()), ops + SyncOps(old(View().cache), y, installed))
      ensures View().cache == old(View().cache).(
                compactedIdx := if installed.Some? then y.syncIdx else old(compactedIdx),
                acceptedIdx := y.syncIdx + |y.suffix| + (if y.stopsign.Some? then 1 else 0),
                stopsign := y.stopsign)
    {
      var txn := ops;
      if installed.Some? {
        compactedIdx := y.syncIdx;
        txn := txn + [Trim(y.syncIdx), SetCompactedIdx(y.syncIdx), SetSnapshot(Some(installed.value))];
      }
      acceptedIdx := y.syncIdx + |y.suffix|;
      txn := txn + [AppendOnPrefix(y.syncIdx, y.suffix)];
      if y.stopsign.Some? {
        stopsign := y.stopsign;
        acceptedIdx := acceptedIdx + 1;
        txn := txn + [SetStopsign(y.stopsign)];
      } else if stopsign.Some? {
        stopsign := None;
        txn := txn + [SetStopsign(None)];
      }
      assert txn == ops + SyncOps(old(View().cache), y, installed);
      storage.WriteAtomically(txn);
    }

    method ReadRange(from: nat, to: nat) returns (result: ReadResult)
      requires Sound(View())
      ensures result == ReadFromTo(View(), from, to)
    {
      if to == 0 {
        return OutOfBounds;
      }
      var cache := Cache(batchSize, batchedEntries, promise, acceptedRound,
                         decidedIdx, acceptedIdx, compactedIdx, stopsign);
      var toType := EntryType(cache, to - 1);
      var fromType := EntryType(cache, from);
      if toType.None? || fromType.None? {
        return OutOfBounds;
      }
      match (fromType.value, toType.value) {
        case (EntryIndex, EntryIndex) =>
          var entries := storage.GetEntries(from, to);
          result := Entries(Tagged(entries, from, decidedIdx));
        case (EntryIndex, StopSignIndex(ss)) =>
          var entries := storage.GetEntries(from, to - 1);
          result := Entries(Tagged(entries, from, decidedIdx) + [StopSignEntry(ss, StopsignIsDecided(cache))]);
        case (StopSignIndex(ss), StopSignIndex(_)) =>
          result := Entries([StopSignEntry(ss, StopsignIsDecided(cache))]);
        case (CompactedIndex, _) => result := Unimplemented;
        case (_, CompactedIndex) => result := Unimplemented;
        case (StopSignIndex(_), EntryIndex) => result := Unimplemented;
      }
    }
  }
}
