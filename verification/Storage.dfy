/** The storage interface and its in-memory back-end. */
module Storage {
  import opened Wrappers
  import opened Ballots
  import opened Quorums

  datatype StopSign = StopSign(nextConfig: ClusterConfig, metadata: Option<seq<nat>>)

  datatype StorageOp<T, S> =
    | AppendEntry(entry: T)
    | AppendEntries(entries: seq<T>)
    | AppendOnPrefix(fromIdx: nat, suffix: seq<T>)
    | SetPromise(promise: Ballot)
    | SetDecidedIndex(decided: nat)
    | SetAcceptedRound(round: Ballot)
    | SetCompactedIdx(compacted: nat)
    | Trim(idx: nat)
    | SetStopsign(stopsign: Option<StopSign>)
    | SetSnapshot(snapshot: Option<S>)

  datatype Backend<T, S> = Backend(
    log: seq<T>,
    promise: Option<Ballot>,
    acceptedRound: Option<Ballot>,
    decidedIdx: nat,
    trimmedIdx: nat,
    compactedIdx: nat,
    snapshot: Option<S>,
    stopsign: Option<StopSign>)

  function EmptyBackend<T, S>(): Backend<T, S> {
    Backend([], None, None, 0, 0, 0, None, None)
  }

  /** The first `n` entries, or all of them if there are fewer. */
  function Truncated<T>(log: seq<T>, n: nat): seq<T> {
    if n < |log| then log[..n] else log
  }

  function Drained<T>(log: seq<T>, n: nat): seq<T> {
    if n < |log| then log[n..] else []
  }

  /** An index below the trimmed index underflows in the source. */
  predicate CanApply<T, S>(b: Backend<T, S>, op: StorageOp<T, S>) {
    && (op.AppendOnPrefix? ==> b.trimmedIdx <= op.fromIdx)
    && (op.Trim? ==> b.trimmedIdx <= op.idx)
  }

  function Apply<T, S>(b: Backend<T, S>, op: StorageOp<T, S>): Backend<T, S>
    requires CanApply(b, op)
  {
    match op
    case AppendEntry(entry) => b.(log := b.log + [entry])
    case AppendEntries(entries) => b.(log := b.log + entries)
    case AppendOnPrefix(fromIdx, suffix) => b.(log := Truncated(b.log, fromIdx - b.trimmedIdx) + suffix)
    case SetPromise(promise) => b.(promise := Some(promise))
    case SetDecidedIndex(decided) => b.(decidedIdx := decided)
    case SetAcceptedRound(round) => b.(acceptedRound := Some(round))
    case SetCompactedIdx(compacted) => b.(compactedIdx := compacted)
    case Trim(idx) => b.(log := Drained(b.log, idx - b.trimmedIdx), trimmedIdx := idx)
    case SetStopsign(stopsign) => b.(stopsign := stopsign)
    case SetSnapshot(snapshot) => b.(snapshot := snapshot)
  }

  predicate CanApplyAll<T, S>(b: Backend<T, S>, ops: seq<StorageOp<T, S>>)
    decreases |ops|
  {
    |ops| > 0 ==> CanApply(b, ops[0]) && CanApplyAll(Apply(b, ops[0]), ops[1..])
  }

  function ApplyAll<T, S>(b: Backend<T, S>, ops: seq<StorageOp<T, S>>): Backend<T, S>
    requires CanApplyAll(b, ops)
    decreases |ops|
  {
    if |ops| == 0 then b else ApplyAll(Apply(b, ops[0]), ops[1..])
  }

  /** Writing two lists of operations in turn is writing them in one go. */
  lemma {:induction false} ApplyConcat<T, S>(b: Backend<T, S>, first: seq<StorageOp<T, S>>, second: seq<StorageOp<T,
                                             S>>)
    ensures CanApplyAll(b, first + second) <==> CanApplyAll(b, first) && CanApplyAll(ApplyAll(b, first), second)
    ensures CanApplyAll(b, first + second) ==> ApplyAll(b, first + second) == ApplyAll(ApplyAll(b, first), second)
    decreases |first|
  {
    if |first| == 0 {
      assert first + second == second;
    } else {
      assert (first + second)[0] == first[0] && (first + second)[1..] == first[1..] + second;
      if CanApply(b, first[0]) {
        ApplyConcat(Apply(b, first[0]), first[1..], second);
      }
    }
  }

  lemma {:induction false} ApplyOne<T, S>(b: Backend<T, S>, op: StorageOp<T, S>)
    ensures CanApplyAll(b, [op]) <==> CanApply(b, op)
    ensures CanApply(b, op) ==> ApplyAll(b, [op]) == Apply(b, op)
  {
    if CanApply(b, op) {
      assert ApplyAll(Apply(b, op), [op][1..]) == Apply(b, op);
    }
  }

  /** The entries of the index range, or none if they are not all there. */
  function EntriesIn<T, S>(b: Backend<T, S>, from: nat, to: nat): seq<T>
    requires b.trimmedIdx <= from && b.trimmedIdx <= to
  {
    var (f, t) := (from - b.trimmedIdx, to - b.trimmedIdx);
    if f <= t <= |b.log| then b.log[f..t] else []
  }

  function SuffixFrom<T, S>(b: Backend<T, S>, from: nat): seq<T>
    requires b.trimmedIdx <= from
  {
    var f := from - b.trimmedIdx;
    if f <= |b.log| then b.log[f..] else []
  }

  class MemoryStorage<T, S> {
    var log: seq<T>
    var nProm: Option<Ballot>
    var accRound: Option<Ballot>
    var ld: nat
    var trimmedIdx: nat
    var compactedIdx: nat
    var snapshot: Option<S>
    var stopsign: Option<StopSign>

    ghost function View(): Backend<T, S>
      reads this
    {
      Backend(log, nProm, accRound, ld, trimmedIdx, compactedIdx, snapshot, stopsign)
    }

    constructor ()
      ensures View() == EmptyBackend()
    {
      log, nProm, accRound, ld := [], None, None, 0;
      trimmedIdx, compactedIdx, snapshot, stopsign := 0, 0, None, None;
    }

    method HistoryHash<H>(fed: T -> H) returns (hash: seq<H>)
      ensures |hash| == |log| && forall i :: 0 <= i < |log| ==> hash[i] == fed(log[i])
    {
      hash := [];
      var i := 0;
      while i < |log|
        invariant 0 <= i == |hash| <= |log|
        invariant forall j :: 0 <= j < i ==> hash[j] == fed(log[j])
      {
        hash := hash + [fed(log[i])];
        i := i + 1;
      }
    }

    method Perform(op: StorageOp<T, S>)
      requires CanApply(View(), op)
      modifies this
      ensures View() == Apply(old(View()), op)
    {
      match op
      case AppendEntry(entry) => log := log + [entry];
      case AppendEntries(entries) => log := log + entries;
      case AppendOnPrefix(fromIdx, suffix) =>
        var keep := fromIdx - trimmedIdx;
        if keep < |log| {
          log := log[..keep];
        }
        log := log + suffix;
      case SetPromise(promise) => nProm := Some(promise);
      case SetDecidedIndex(decided) => ld := decided;
      case SetAcceptedRound(round) => accRound := Some(round);
      case SetCompactedIdx(compacted) => compactedIdx := compacted;
      case Trim(idx) =>
        var toTrim := idx - trimmedIdx;
        if toTrim > |log| {
          toTrim := |log|;
        }
        log := log[toTrim..];
        trimmedIdx := idx;
      case SetStopsign(ss) => stopsign := ss;
      case SetSnapshot(s) => snapshot := s;
    }

    method WriteAtomically(ops: seq<StorageOp<T, S>>)
      requires CanApplyAll(View(), ops)
      modifies this
      ensures View() == ApplyAll(old(View()), ops)
    {
      var i := 0;
      while i < |ops|
        invariant 0 <= i <= |ops|
        invariant CanApplyAll(View(), ops[i..])
        invariant ApplyAll(View(), ops[i..]) == ApplyAll(old(View()), ops)
      {
        assert ops[i..][0] == ops[i] && ops[i..][1..] == ops[i + 1..];
        Perform(ops[i]);
        i := i + 1;
      }
    }

    method GetEntries(from: nat, to: nat) returns (entries: seq<T>)
      requires trimmedIdx <= from && trimmedIdx <= to
      ensures entries == EntriesIn(View(), from, to)
    {
      var f, t := from - trimmedIdx, to - trimmedIdx;
      if f <= t && t <= |log| {
        entries := log[f..t];
      } else {
        entries := [];
      }
    }

    method GetSuffix(from: nat) returns (entries: seq<T>)
      requires trimmedIdx <= from
      ensures entries == SuffixFrom(View(), from)
    {
      var f := from - trimmedIdx;
      if f <= |log| {
        entries := log[f..];
      } else {
        entries := [];
      }
    }
  }
}
