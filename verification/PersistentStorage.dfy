/**
 * The back-end that keeps the log under integer keys of an ordered key-value store. A transaction is
 * queued as a batch, and the key of the next entry moves while the batch is being queued.
 */
module PersistentStorage {
  import opened Wrappers
  import opened Ballots
  import opened Storage

  /** The key-value store: the log's keys, and the state values that have been stored. */
  datatype Disk<T, S> = Disk(
    log: map<nat, T>,
    promise: Option<Ballot>,
    acceptedRound: Option<Ballot>,
    decided: Option<nat>,
    trim: Option<nat>,
    stopsign: Option<Option<StopSign>>,
    snapshot: Option<Option<S>>)

  function EmptyDisk<T, S>(): Disk<T, S> {
    Disk(map[], None, None, None, None, None, None)
  }

  datatype BatchOp<T, S> =
    | Put(key: nat, entry: T)
    | DeleteRange(from: nat, to: nat)
    | PutPromise(promise: Ballot)
    | PutAcceptedRound(round: Ballot)
    | PutDecided(decided: nat)
    | PutTrim(trim: nat)
    | PutStopsign(stopsign: Option<StopSign>)
    | PutSnapshot(snapshot: Option<S>)

  /** The log without the keys from `from` up to, but not including, `to`. */
  function WithoutRange<T>(log: map<nat, T>, from: nat, to: nat): map<nat, T> {
    map k | k in log && !(from <= k < to) :: log[k]
  }

  function KeysFrom(from: nat, n: nat): (keys: set<nat>)
    ensures forall k :: k in keys <==> from <= k < from + n
  {
    if n == 0 then {} else KeysFrom(from, n - 1) + {from + n - 1}
  }

  /** The log with the entries under consecutive keys. */
  function WithEntries<T>(log: map<nat, T>, from: nat, entries: seq<T>): map<nat, T> {
    log + map k | k in KeysFrom(from, |entries|) :: entries[k - from]
  }

  function Execute<T, S>(d: Disk<T, S>, op: BatchOp<T, S>): Disk<T, S> {
    match op
    case Put(key, entry) => d.(log := d.log[key := entry])
    case DeleteRange(from, to) => d.(log := WithoutRange(d.log, from, to))
    case PutPromise(promise) => d.(promise := Some(promise))
    case PutAcceptedRound(round) => d.(acceptedRound := Some(round))
    case PutDecided(decided) => d.(decided := Some(decided))
    case PutTrim(trim) => d.(trim := Some(trim))
    case PutStopsign(stopsign) => d.(stopsign := Some(stopsign))
    case PutSnapshot(snapshot) => d.(snapshot := Some(snapshot))
  }

  /** What is queued for an operation other than an append. */
  function BatchOpFor<T, S>(op: StorageOp<T, S>): BatchOp<T, S>
    requires !op.AppendEntry? && !op.AppendEntries? && !op.AppendOnPrefix?
  {
    match op
    case SetPromise(promise) => PutPromise(promise)
    case SetDecidedIndex(decided) => PutDecided(decided)
    case SetAcceptedRound(round) => PutAcceptedRound(round)
    case SetCompactedIdx(compacted) => PutTrim(compacted)
    case Trim(idx) => DeleteRange(0, idx)
    case SetStopsign(stopsign) => PutStopsign(stopsign)
    case SetSnapshot(snapshot) => PutSnapshot(snapshot)
  }

  /** The store after a batch, whose operations take effect in the order they were queued. */
  function Commit<T, S>(d: Disk<T, S>, batch: seq<BatchOp<T, S>>): Disk<T, S> {
    if |batch| == 0 then d else Execute(Commit(d, batch[..|batch| - 1]), batch[|batch| - 1])
  }

  lemma CommitOneMore<T, S>(d: Disk<T, S>, batch: seq<BatchOp<T, S>>, op: BatchOp<T, S>)
    ensures Commit(d, batch + [op]) == Execute(Commit(d, batch), op)
  {
    assert (batch + [op])[..|batch|] == batch;
  }

  datatype State<T, S> = State(disk: Disk<T, S>, nextLogKey: nat)

  /** The meaning of one operation, with no batch in between. */
  function WriteOp<T, S>(p: State<T, S>, op: StorageOp<T, S>): State<T, S> {
    match op
    case AppendEntry(entry) =>
      State(p.disk.(log := WithEntries(p.disk.log, p.nextLogKey, [entry])), p.nextLogKey + 1)
    case AppendEntries(entries) =>
      State(p.disk.(log := WithEntries(p.disk.log, p.nextLogKey, entries)), p.nextLogKey + |entries|)
    case AppendOnPrefix(from, suffix) =>
      var kept := WithoutRange(p.disk.log, from + |suffix|, p.nextLogKey);
      State(p.disk.(log := WithEntries(kept, from, suffix)), from + |suffix|)
    case SetPromise(promise) => p.(disk := p.disk.(promise := Some(promise)))
    case SetDecidedIndex(decided) => p.(disk := p.disk.(decided := Some(decided)))
    case SetAcceptedRound(round) => p.(disk := p.disk.(acceptedRound := Some(round)))
    case SetCompactedIdx(compacted) => p.(disk := p.disk.(trim := Some(compacted)))
    case Trim(idx) => p.(disk := p.disk.(log := WithoutRange(p.disk.log, 0, idx)))
    case SetStopsign(stopsign) => p.(disk := p.disk.(stopsign := Some(stopsign)))
    case SetSnapshot(snapshot) => p.(disk := p.disk.(snapshot := Some(snapshot)))
  }

  function WriteAll<T, S>(p: State<T, S>, ops: seq<StorageOp<T, S>>): State<T, S>
    decreases |ops|
  {
    if |ops| == 0 then p else WriteAll(WriteOp(p, ops[0]), ops[1..])
  }

  lemma {:induction false} WriteConcat<T, S>(p: State<T, S>, first: seq<StorageOp<T, S>>, second: seq<StorageOp<T, S>>)
    ensures WriteAll(p, first + second) == WriteAll(WriteAll(p, first), second)
    decreases |first|
  {
    if |first| == 0 {
      assert first + second == second;
    } else {
      assert (first + second)[1..] == first[1..] + second;
      WriteConcat(WriteOp(p, first[0]), first[1..], second);
    }
  }

  lemma {:induction false} WriteOne<T, S>(p: State<T, S>, op: StorageOp<T, S>)
    ensures WriteAll(p, [op]) == WriteOp(p, op)
  {
    assert WriteAll(WriteOp(p, op), [op][1..]) == WriteOp(p, op);
  }

  /** Nothing is left of an empty range, so the source's test before it deletes one is only a short cut. */
  lemma EmptyRange<T>(log: map<nat, T>, from: nat, to: nat)
    requires to <= from
    ensures WithoutRange(log, from, to) == log
  {
  }

  lemma OneMoreEntry<T>(log: map<nat, T>, from: nat, entries: seq<T>, n: nat)
    requires n < |entries|
    ensures WithEntries(log, from, entries[..n])[from + n := entries[n]] == WithEntries(log, from, entries[..n + 1])
  {
  }

  lemma PutNext<T, S>(d: Disk<T, S>, from: nat, entries: seq<T>, n: nat)
    requires n < |entries|
    ensures Execute(d.(log := WithEntries(d.log, from, entries[..n])), Put(from + n, entries[n]))
            == d.(log := WithEntries(d.log, from, entries[..n + 1]))
  {
    OneMoreEntry(d.log, from, entries, n);
  }

  /** What is queued for entries under consecutive keys. */
  function PutsFor<T, S>(first: nat, entries: seq<T>): seq<BatchOp<T, S>> {
    seq(|entries|, i requires 0 <= i < |entries| => Put(first + i, entries[i]))
  }

  lemma OneMorePut<T, S>(first: nat, entries: seq<T>, n: nat)
    requires n < |entries|
    ensures PutsFor<T, S>(first, entries[..n + 1]) == PutsFor<T, S>(first, entries[..n]) + [Put(first + n, entries[n])]
  {
  }

  lemma {:induction false} CommitPuts<T, S>(d: Disk<T, S>, batch: seq<BatchOp<T, S>>, first: nat, entries: seq<T>)
    ensures var was := Commit(d, batch);
            Commit(d, batch + PutsFor(first, entries)) == was.(log := WithEntries(was.log, first, entries))
    decreases |entries|
  {
    if |entries| == 0 {
      assert batch + PutsFor(first, entries) == batch;
      assert WithEntries(Commit(d, batch).log, first, entries) == Commit(d, batch).log;
    } else {
      var n := |entries| - 1;
      var before: seq<BatchOp<T, S>> := PutsFor(first, entries[..n]);
      CommitPuts(d, batch, first, entries[..n]);
      assert entries[..n + 1] == entries;
      OneMorePut<T, S>(first, entries, n);
      assert batch + PutsFor(first, entries) == (batch + before) + [Put(first + n, entries[n])];
      CommitOneMore(d, batch + before, Put(first + n, entries[n]));
      PutNext(Commit(d, batch), first, entries, n);
    }
  }

  lemma PutOne<T, S>(d: Disk<T, S>, next: nat, entry: T)
    ensures State(Execute(d, Put(next, entry)), next + 1) == WriteOp(State(d, next), AppendEntry(entry))
  {
    assert WithEntries(d.log, next, [entry]) == d.log[next := entry];
  }

  lemma AppendAfterDelete<T, S>(d: Disk<T, S>, next: nat, from: nat, entries: seq<T>)
    ensures WriteOp(State(d.(log := WithoutRange(d.log, from + |entries|, next)), from), AppendEntries(entries))
            == WriteOp(State(d, next), AppendOnPrefix(from, entries))
  {
  }

  /** The least key from `k` on. */
  predicate IsLeast<T>(log: map<nat, T>, k: nat, m: nat) {
    m in log && k <= m && forall j | j in log && k <= j :: m <= j
  }

  predicate IsGreatest(keys: set<nat>, m: nat) {
    m in keys && forall j | j in keys :: j <= m
  }

  lemma {:induction false} LeastExists<T>(log: map<nat, T>, k: nat, some: nat)
    requires some in log && k <= some
    ensures exists m | m in log :: IsLeast(log, k, m)
    decreases some
  {
    if !IsLeast(log, k, some) {
      var smaller :| smaller in log && k <= smaller < some;
      LeastExists(log, k, smaller);
    }
  }

  lemma {:induction false} GreatestExists(keys: set<nat>)
    requires keys != {}
    ensures exists m | m in keys :: IsGreatest(keys, m)
    decreases keys
  {
    var m :| m in keys;
    if !IsGreatest(keys, m) {
      var j :| j in keys && m < j;
      var above := set i | i in keys && m < i;
      assert j in above && above < keys by { assert m !in above; }
      GreatestExists(above);
      var g :| g in above && IsGreatest(above, g);
      forall i | i in keys ensures i <= g {
        assert i in above || i <= m;
      }
    }
  }

  /** The key at which an iterator stands after seeking `k`, if it stands anywhere. */
  function Seek<T>(log: map<nat, T>, k: nat): (r: Option<nat>)
    ensures r.Some? ==> IsLeast(log, k, r.value)
    ensures r.None? ==> forall j | j in log :: j < k
  {
    if exists some | some in log :: k <= some then
      ghost var some :| some in log && k <= some;
      LeastExists(log, k, some);
      var m :| m in log && IsLeast(log, k, m);
      Some(m)
    else None
  }

  /** The key at which an iterator stands after seeking the last key. */
  function SeekToLast<T>(log: map<nat, T>): (r: Option<nat>)
    ensures r.Some? ==> IsGreatest(log.Keys, r.value)
    ensures r.None? ==> log == map[]
  {
    if log.Keys == {} then None
    else
      GreatestExists(log.Keys);
      var m :| m in log.Keys && IsGreatest(log.Keys, m);
      Some(m)
  }

  datatype ReadError = NoEntry

  /** The values of the first `n` keys from `k` on, in key order. */
  function Scan<T>(log: map<nat, T>, k: nat, n: nat): Result<seq<T>, ReadError>
    decreases n
  {
    if n == 0 then Ok([])
    else match Seek(log, k)
      case None => Err(NoEntry)
      case Some(m) =>
        Prepended([log[m]], Scan(log, m + 1, n - 1))
  }

  function Prepended<T>(read: seq<T>, rest: Result<seq<T>, ReadError>): Result<seq<T>, ReadError> {
    match rest
    case Ok(entries) => Ok(read + entries)
    case Err(e) => Err(e)
  }

  lemma PrependedConcat<T>(a: seq<T>, b: seq<T>, rest: Result<seq<T>, ReadError>)
    ensures Prepended([], rest) == rest
    ensures Prepended(a, Prepended(b, rest)) == Prepended(a + b, rest)
  {
    if rest.Ok? {
      assert a + (b + rest.value) == (a + b) + rest.value && [] + rest.value == rest.value;
    }
  }

  lemma SeekStored<T>(log: map<nat, T>, k: nat)
    requires k in log
    ensures Seek(log, k) == Some(k)
  {
  }

  function Entries<T, S>(p: State<T, S>, from: nat, to: nat): Result<seq<T>, ReadError> {
    if to > p.nextLogKey || from >= to then Ok([]) else Scan(p.disk.log, from, to - from)
  }

  function LogLen<T, S>(p: State<T, S>): nat
    requires p.disk.trim.GetOr(0) <= p.nextLogKey
  {
    p.nextLogKey - p.disk.trim.GetOr(0)
  }

  /** The key that opening the store gives to the next entry. */
  function RecoveredKey<T, S>(d: Disk<T, S>): nat {
    match SeekToLast(d.log)
    case Some(m) => m + 1
    case None => d.trim.GetOr(0)
  }

  /** The log's keys are exactly the indices of the back-end's entries, and the state values are the same. */
  ghost predicate SameContents<T, S>(d: Disk<T, S>, b: Backend<T, S>) {
    && (forall k :: k in d.log <==> b.trimmedIdx <= k < b.trimmedIdx + |b.log|)
    && (forall k | k in d.log :: d.log[k] == b.log[k - b.trimmedIdx])
    && d.promise == b.promise
    && d.acceptedRound == b.acceptedRound
    && d.decided.GetOr(0) == b.decidedIdx
    && d.trim.GetOr(0) == b.compactedIdx
    && d.stopsign.GetOr(None) == b.stopsign
    && d.snapshot.GetOr(None) == b.snapshot
  }

  /** The next key is the end of the log. */
  ghost predicate Agrees<T, S>(p: State<T, S>, b: Backend<T, S>) {
    SameContents(p.disk, b) && p.nextLogKey == b.trimmedIdx + |b.log|
  }

  /** Between the operations of a transaction, trimming past the end leaves the next key behind. */
  ghost predicate Behind<T, S>(p: State<T, S>, b: Backend<T, S>) {
    SameContents(p.disk, b) && |b.log| == 0 && p.nextLogKey <= b.trimmedIdx
  }

  /** Whether the two back-ends take an operation to states that still agree; both bounds can be read off before it. */
  predicate StaysWithin<T, S>(b: Backend<T, S>, op: StorageOp<T, S>) {
    && (op.AppendOnPrefix? ==> op.fromIdx <= b.trimmedIdx + |b.log|)
    && (op.Trim? ==> op.idx <= b.trimmedIdx + |b.log|)
  }

  lemma {:induction false} AppendAgrees<T, S>(p: State<T, S>, b: Backend<T, S>, op: StorageOp<T, S>)
    requires Agrees(p, b) && (op.AppendEntry? || op.AppendEntries?)
    ensures Agrees(WriteOp(p, op), Apply(b, op))
  {
  }

  lemma {:induction false} AppendOnPrefixAgrees<T, S>(p: State<T, S>, b: Backend<T, S>, op: StorageOp<T, S>)
    requires Agrees(p, b) && op.AppendOnPrefix? && CanApply(b, op)
    ensures Agrees(WriteOp(p, op), Apply(b, op)) <==> StaysWithin(b, op)
  {
    var p', b' := WriteOp(p, op), Apply(b, op);
    if StaysWithin(b, op) {
      assert forall k :: k in p'.disk.log <==> b'.trimmedIdx <= k < b'.trimmedIdx + |b'.log|;
      assert forall k | k in p'.disk.log :: p'.disk.log[k] == b'.log[k - b'.trimmedIdx];
    }
  }

  lemma {:induction false} TrimAgrees<T, S>(p: State<T, S>, b: Backend<T, S>, op: StorageOp<T, S>)
    requires Agrees(p, b) && op.Trim? && CanApply(b, op)
    ensures Agrees(WriteOp(p, op), Apply(b, op)) <==> StaysWithin(b, op)
  {
  }

  /**
   * The key-range store and the in-memory one agree after an operation if and only if it neither
   * appends beyond the end of the log nor trims beyond it.
   */
  lemma {:induction false} WriteAgrees<T, S>(p: State<T, S>, b: Backend<T, S>, op: StorageOp<T, S>)
    requires Agrees(p, b) && CanApply(b, op)
    ensures Agrees(WriteOp(p, op), Apply(b, op)) <==> StaysWithin(b, op)
  {
    match op
    case AppendEntry(_) => AppendAgrees(p, b, op);
    case AppendEntries(_) => AppendAgrees(p, b, op);
    case AppendOnPrefix(_, _) => AppendOnPrefixAgrees(p, b, op);
    case Trim(_) => TrimAgrees(p, b, op);
    case _ =>
  }

  /** The next key is the end of the log, or, after trimming past the end, has been left behind. */
  ghost predicate Follows<T, S>(p: State<T, S>, b: Backend<T, S>, behind: bool) {
    if behind then Behind(p, b) else Agrees(p, b)
  }

  /** Whether trimming and appending leave the next key behind. */
  function BehindAfter<T, S>(b: Backend<T, S>, behind: bool, op: StorageOp<T, S>): bool {
    match op
    case Trim(idx) => behind || b.trimmedIdx + |b.log| < idx
    case AppendOnPrefix(_, _) => false
    case _ => behind
  }

  /** A transaction may trim past the end of the log if its next append starts from there. */
  lemma {:induction false} WriteFollows<T, S>(p: State<T, S>, b: Backend<T, S>, behind: bool, op: StorageOp<T, S>)
    requires Follows(p, b, behind) && CanApply(b, op)
    requires op.AppendEntry? || op.AppendEntries? ==> !behind
    requires op.AppendOnPrefix? ==> op.fromIdx <= b.trimmedIdx + |b.log|
    ensures Follows(WriteOp(p, op), Apply(b, op), BehindAfter(b, behind, op))
  {
    if StaysWithin(b, op) && !behind {
      WriteAgrees(p, b, op);
    }
  }

  /** Transactions that only set state values. */
  lemma {:induction false} SettersFollow<T, S>(p: State<T, S>, b: Backend<T, S>, behind: bool, ops: seq<StorageOp<T,
                                               S>>)
    requires Follows(p, b, behind) && CanApplyAll(b, ops)
    requires forall op | op in ops :: !op.AppendEntry? && !op.AppendEntries? && !op.AppendOnPrefix? && !op.Trim?
    ensures Follows(WriteAll(p, ops), ApplyAll(b, ops), behind)
    decreases |ops|
  {
    if |ops| > 0 {
      assert ops[0] in ops;
      WriteFollows(p, b, behind, ops[0]);
      SettersFollow(WriteOp(p, ops[0]), Apply(b, ops[0]), behind, ops[1..]);
    }
  }

  lemma {:induction false} ScanStep<T>(log: map<nat, T>, k: nat, n: nat)
    requires k in log && n > 0
    ensures Scan(log, k, n) == Prepended([log[k]], Scan(log, k + 1, n - 1))
  {
    SeekStored(log, k);
  }

  /** `values` are stored under consecutive keys from `k` on. */
  ghost predicate StoredFrom<T>(log: map<nat, T>, k: nat, values: seq<T>) {
    forall j | k <= j < k + |values| :: j in log && log[j] == values[j - k]
  }

  lemma {:induction false} StoredRest<T>(log: map<nat, T>, k: nat, values: seq<T>)
    requires StoredFrom(log, k, values) && |values| > 0
    ensures k in log && log[k] == values[0] && StoredFrom(log, k + 1, values[1..])
  {
  }

  lemma {:induction false} PrependOne<T>(value: T, rest: seq<T>, values: seq<T>)
    requires |values| > 0 && value == values[0] && rest == values[1..]
    ensures Prepended([value], Ok(rest)) == Ok(values)
  {
    assert [value] + rest == values;
  }

  /** Scanning from `k` reads the entries stored there. */
  lemma {:induction false} ScanReads<T>(log: map<nat, T>, k: nat, values: seq<T>)
    requires StoredFrom(log, k, values)
    ensures Scan(log, k, |values|) == Ok(values)
    decreases |values|
  {
    if |values| > 0 {
      StoredRest(log, k, values);
      ScanReads(log, k + 1, values[1..]);
      ScanStep(log, k, |values|);
      PrependOne(log[k], values[1..], values);
    }
  }

  /** Both back-ends answer every read of stored entries alike. */
  lemma {:induction false} ReadsAgree<T, S>(p: State<T, S>, b: Backend<T, S>, from: nat, to: nat)
    requires Agrees(p, b) && b.trimmedIdx <= from && b.trimmedIdx <= to
    ensures Entries(p, from, to) == Ok(EntriesIn(b, from, to))
  {
    if from < to <= p.nextLogKey {
      ScanReads(p.disk.log, from, EntriesIn(b, from, to));
    } else {
      assert EntriesIn(b, from, to) == [];
    }
  }

  lemma {:induction false} SuffixesAgree<T, S>(p: State<T, S>, b: Backend<T, S>, from: nat)
    requires Agrees(p, b) && b.trimmedIdx <= from
    ensures Entries(p, from, p.nextLogKey) == Ok(SuffixFrom(b, from))
  {
    ReadsAgree(p, b, from, p.nextLogKey);
    assert EntriesIn(b, from, p.nextLogKey) == SuffixFrom(b, from);
  }

  lemma {:induction false} LengthsAgree<T, S>(p: State<T, S>, b: Backend<T, S>)
    requires Agrees(p, b) && b.trimmedIdx == b.compactedIdx
    ensures p.disk.trim.GetOr(0) <= p.nextLogKey && LogLen(p) == |b.log|
  {
  }

  /** Opening the store again gives the next entry the key it had, whether or not the log is empty. */
  lemma {:induction false} OpenRecovers<T, S>(p: State<T, S>, b: Backend<T, S>)
    requires Agrees(p, b) && b.trimmedIdx == b.compactedIdx
    ensures RecoveredKey(p.disk) == p.nextLogKey
  {
    if |b.log| > 0 {
      assert p.nextLogKey - 1 in p.disk.log.Keys;
    }
  }

  class PersistentStorage<T, S> {
    var db: Disk<T, S>
    var writeBatch: seq<BatchOp<T, S>>
    var nextLogKey: nat

    /** What the store holds once the queued batch has been written. */
    ghost function Pending(): State<T, S>
      reads this
    {
      State(Commit(db, writeBatch), nextLogKey)
    }

    constructor Open(d: Disk<T, S>)
      ensures Pending() == State(d, RecoveredKey(d)) && writeBatch == []
    {
      db, writeBatch := d, [];
      var last := SeekToLast(d.log);
      if last.Some? {
        nextLogKey := last.value + 1;
      } else {
        nextLogKey := d.trim.GetOr(0);
      }
    }

    method Queue(op: BatchOp<T, S>)
      modifies `writeBatch
      ensures Commit(db, writeBatch) == Execute(old(Commit(db, writeBatch)), op)
    {
      CommitOneMore(db, writeBatch, op);
      writeBatch := writeBatch + [op];
    }

    method BatchAppendEntry(entry: T)
      modifies `writeBatch, `nextLogKey
      ensures Pending() == WriteOp(old(Pending()), AppendEntry(entry))
    {
      PutOne(Commit(db, writeBatch), nextLogKey, entry);
      Queue(Put(nextLogKey, entry));
      nextLogKey := nextLogKey + 1;
    }

    method BatchAppendEntries(entries: seq<T>)
      modifies `writeBatch, `nextLogKey
      ensures Pending() == WriteOp(old(Pending()), AppendEntries(entries))
    {
      ghost var first := nextLogKey;
      for i := 0 to |entries|
        invariant nextLogKey == first + i
        invariant writeBatch == old(writeBatch) + PutsFor(first, entries[..i])
      {
        OneMorePut<T, S>(first, entries, i);
        writeBatch := writeBatch + [Put(nextLogKey, entries[i])];
        nextLogKey := nextLogKey + 1;
      }
      assert entries[..|entries|] == entries;
      CommitPuts(db, old(writeBatch), first, entries);
    }

    method BatchAppendOnPrefix(fromIdx: nat, entries: seq<T>)
      modifies `writeBatch, `nextLogKey
      ensures Pending() == WriteOp(old(Pending()), AppendOnPrefix(fromIdx, entries))
    {
      ghost var was := Commit(db, writeBatch);
      ghost var kept := was.(log := WithoutRange(was.log, fromIdx + |entries|, nextLogKey));
      var deleteIdx := fromIdx + |entries|;
      if deleteIdx < nextLogKey {
        Queue(DeleteRange(deleteIdx, nextLogKey));
      } else {
        EmptyRange(was.log, deleteIdx, nextLogKey);
      }
      assert Commit(db, writeBatch) == kept;
      AppendAfterDelete(was, nextLogKey, fromIdx, entries);
      nextLogKey := fromIdx;
      BatchAppendEntries(entries);
      assert Pending() == WriteOp(State(kept, fromIdx), AppendEntries(entries));
    }

    method Batch(op: StorageOp<T, S>)
      modifies `writeBatch, `nextLogKey
      ensures Pending() == WriteOp(old(Pending()), op)
    {
      match op
      case AppendEntry(entry) => BatchAppendEntry(entry);
      case AppendEntries(entries) => BatchAppendEntries(entries);
      case AppendOnPrefix(fromIdx, entries) => BatchAppendOnPrefix(fromIdx, entries);
      case _ => Queue(BatchOpFor(op));
    }

    /** The batch has the effect of its operations one after the other. */
    method WriteAtomically(ops: seq<StorageOp<T, S>>)
      requires writeBatch == []
      modifies this
      ensures Pending() == WriteAll(old(Pending()), ops) && writeBatch == []
    {
      for i := 0 to |ops|
        invariant db == old(db)
        invariant WriteAll(Pending(), ops[i..]) == WriteAll(old(Pending()), ops)
      {
        assert ops[i..][0] == ops[i] && ops[i..][1..] == ops[i + 1..];
        Batch(ops[i]);
      }
      db, writeBatch := Commit(db, writeBatch), [];
    }

    /** Appends at once, with a batch of its own. */
    method AppendEntriesNow(entries: seq<T>)
      requires writeBatch == []
      modifies `db, `nextLogKey
      ensures Pending() == WriteOp(old(Pending()), AppendEntries(entries))
    {
      var batch: seq<BatchOp<T, S>> := [];
      ghost var first := nextLogKey;
      for i := 0 to |entries|
        invariant nextLogKey == first + i && db == old(db) && batch == PutsFor(first, entries[..i])
      {
        OneMorePut<T, S>(first, entries, i);
        batch := batch + [Put(nextLogKey, entries[i])];
        nextLogKey := nextLogKey + 1;
      }
      assert entries[..|entries|] == entries && [] + batch == batch;
      CommitPuts(db, [], first, entries);
      db := Commit(db, batch);
    }

    method AppendOnPrefixNow(fromIdx: nat, entries: seq<T>)
      requires writeBatch == []
      modifies `db, `nextLogKey
      ensures Pending() == WriteOp(old(Pending()), AppendOnPrefix(fromIdx, entries))
    {
      var deleteIdx := fromIdx + |entries|;
      if deleteIdx < nextLogKey {
        db := Execute(db, DeleteRange(deleteIdx, nextLogKey));
      } else {
        EmptyRange(db.log, deleteIdx, nextLogKey);
      }
      ghost var kept := old(db).(log := WithoutRange(old(db).log, fromIdx + |entries|, nextLogKey));
      assert db == kept;
      AppendAfterDelete(old(db), nextLogKey, fromIdx, entries);
      nextLogKey := fromIdx;
      AppendEntriesNow(entries);
      assert Pending() == WriteOp(State(kept, fromIdx), AppendEntries(entries));
    }

    method GetEntries(from: nat, to: nat) returns (read: Result<seq<T>, ReadError>)
      requires writeBatch == []
      ensures read == Entries(Pending(), from, to)
    {
      if to > nextLogKey || from >= to {
        return Ok([]);
      }
      var entries := [];
      var at := Seek(db.log, from);
      ghost var next := from;
      PrependedConcat([], [], Scan(db.log, from, to - from));
      for i := 0 to to - from
        invariant at == Seek(db.log, next)
        invariant Prepended(entries, Scan(db.log, next, to - from - i)) == Scan(db.log, from, to - from)
      {
        if at.None? {
          return Err(NoEntry);
        }
        PrependedConcat(entries, [db.log[at.value]], Scan(db.log, at.value + 1, to - from - i - 1));
        entries := entries + [db.log[at.value]];
        next := at.value + 1;
        at := Seek(db.log, at.value + 1);
      }
      assert entries + [] == entries;
      read := Ok(entries);
    }

    method GetSuffix(from: nat) returns (read: Result<seq<T>, ReadError>)
      requires writeBatch == []
      ensures read == Entries(Pending(), from, nextLogKey)
    {
      read := GetEntries(from, nextLogKey);
    }

    /** A next key below the compacted index underflows in the source. */
    method GetLogLen() returns (len: nat)
      requires writeBatch == [] && db.trim.GetOr(0) <= nextLogKey
      ensures len == LogLen(Pending())
    {
      len := nextLogKey - db.trim.GetOr(0);
    }
  }
}
