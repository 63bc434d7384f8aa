/** Reading a range of the replicated log. */
module StorageReads {
  import opened Wrappers
  import opened KvSnapshot
  import opened Storage
  import opened InternalStorage

  datatype LogEntry =
    | Decided(entry: KeyValue)
    | Undecided(entry: KeyValue)
    | StopSignEntry(stopsign: StopSign, decided: bool)

  datatype IndexEntry = EntryIndex | CompactedIndex | StopSignIndex(stopsign: StopSign)

  datatype Bound = Included(idx: nat) | Excluded(idx: nat) | Unbounded

  /** `Unimplemented` stands for the source's panic. */
  datatype ReadResult = Entries(entries: seq<LogEntry>) | OutOfBounds | Unimplemented

  function EntryType(c: Cache, idx: nat): Option<IndexEntry> {
    if idx < c.compactedIdx then Some(CompactedIndex)
    else if idx + 1 < c.acceptedIdx then Some(EntryIndex)
    else if idx + 1 == c.acceptedIdx then
      match c.stopsign
      case Some(ss) => Some(StopSignIndex(ss))
      case None => Some(EntryIndex)
    else None
  }

  function Tagged(entries: seq<KeyValue>, from: nat, decidedIdx: nat): seq<LogEntry> {
    seq(|entries|, i requires 0 <= i < |entries| =>
      if i + from < decidedIdx then Decided(entries[i]) else Undecided(entries[i]))
  }

  function LogEntries(s: Store, from: nat, to: nat): seq<LogEntry>
    requires s.backend.trimmedIdx <= from && s.backend.trimmedIdx <= to
  {
    Tagged(EntriesIn(s.backend, from, to), from, s.cache.decidedIdx)
  }

  function ReadFromTo(s: Store, from: nat, to: nat): ReadResult
    requires Sound(s)
  {
    if to == 0 then OutOfBounds
    else
      match (EntryType(s.cache, from), EntryType(s.cache, to - 1))
      case (_, None) => OutOfBounds
      case (None, _) => OutOfBounds
      case (Some(EntryIndex), Some(EntryIndex)) => Entries(LogEntries(s, from, to))
      case (Some(EntryIndex), Some(StopSignIndex(ss))) =>
        Entries(LogEntries(s, from, to - 1) + [StopSignEntry(ss, StopsignIsDecided(s.cache))])
      case (Some(StopSignIndex(ss)), Some(StopSignIndex(_))) =>
        Entries([StopSignEntry(ss, StopsignIsDecided(s.cache))])
      case _ => Unimplemented
  }

  function Read(s: Store, start: Bound, end: Bound): ReadResult
    requires Sound(s)
  {
    var from := match start case Included(i) => i case Excluded(i) => i + 1 case Unbounded => 0;
    var to := match end case Included(i) => i + 1 case Excluded(i) => i case Unbounded => s.cache.acceptedIdx;
    ReadFromTo(s, from, to)
  }

  function ReadDecidedSuffix(s: Store, from: nat): ReadResult
    requires Sound(s)
  {
    if from < s.cache.decidedIdx then Read(s, Included(from), Excluded(s.cache.decidedIdx)) else OutOfBounds
  }

  // What the reads return, in terms of the whole log.

  /** The store holds `log`, of which the entries below the compacted index are no longer stored. */
  ghost predicate StoresLog(s: Store, log: seq<KeyValue>) {
    && s.cache == LoadCache(s.cache, s.backend)
    && s.backend.trimmedIdx == s.backend.compactedIdx <= |log|
    && s.backend.log == log[s.backend.compactedIdx..]
  }

  /** Position `k` of the log as a reader sees it: an entry, or the stopsign after the last one. */
  function ItemAt(s: Store, log: seq<KeyValue>, k: nat): LogEntry
    requires k < |log| || s.cache.stopsign.Some?
  {
    if k >= |log| then StopSignEntry(s.cache.stopsign.value, StopsignIsDecided(s.cache))
    else if k < s.cache.decidedIdx then Decided(log[k])
    else Undecided(log[k])
  }

  lemma {:induction false} AcceptedIsLength(s: Store, log: seq<KeyValue>)
    requires StoresLog(s, log)
    ensures Sound(s) && s.cache.acceptedIdx == |log| + (if s.cache.stopsign.Some? then 1 else 0)
  {
  }

  lemma {:induction false} EntriesAreSlice(s: Store, log: seq<KeyValue>, from: nat, to: nat)
    requires StoresLog(s, log) && s.backend.compactedIdx <= from <= to <= |log|
    ensures EntriesIn(s.backend, from, to) == log[from..to]
  {
    var c := s.backend.compactedIdx;
    assert log[c..][from - c..to - c] == log[from..to];
  }

  /** Whichever bounds are included, the same positions are read; without bounds, all that is accepted. */
  lemma {:induction false} BoundsNameTheRange(s: Store, from: nat, to: nat)
    requires Sound(s)
    ensures Read(s, Excluded(from), Included(to)) == Read(s, Included(from + 1), Excluded(to + 1))
    ensures Read(s, Unbounded, Unbounded) == Read(s, Included(0), Excluded(s.cache.acceptedIdx))
  {
    ReadIsRange(s, Excluded(from), Included(to), from + 1, to + 1);
    ReadIsRange(s, Included(from + 1), Excluded(to + 1), from + 1, to + 1);
    ReadIsRange(s, Unbounded, Unbounded, 0, s.cache.acceptedIdx);
    ReadIsRange(s, Included(0), Excluded(s.cache.acceptedIdx), 0, s.cache.acceptedIdx);
  }

  lemma {:induction false} ReadIsRange(s: Store, start: Bound, end: Bound, from: nat, to: nat)
    requires Sound(s)
    requires from == match start case Included(i) => i case Excluded(i) => i + 1 case Unbounded => 0
    requires to == match end case Included(i) => i + 1 case Excluded(i) => i case Unbounded => s.cache.acceptedIdx
    ensures Read(s, start, end) == ReadFromTo(s, from, to)
  {
  }

  lemma {:induction false} RangeIsSlice(s: Store, log: seq<KeyValue>, from: nat, to: nat)
    requires StoresLog(s, log) && Sound(s) && s.cache.compactedIdx <= from < to <= s.cache.acceptedIdx
    ensures var r := ReadFromTo(s, from, to);
            && r.Entries? && |r.entries| == to - from
            && forall i :: 0 <= i < to - from ==>
                 (from + i < |log| || s.cache.stopsign.Some?) && r.entries[i] == ItemAt(s, log, from + i)
  {
    AcceptedIsLength(s, log);
    if to <= |log| {
      EntriesAreSlice(s, log, from, to);
    } else if from < |log| {
      EntriesAreSlice(s, log, from, |log|);
    }
  }

  /**
   * Reads are slices: a non-empty range above the compacted index is out of bounds exactly if it passes
   * the accepted index, and otherwise yields each position of the log, decided ones tagged as such.
   */
  lemma {:induction false} ReadsAreSlices(s: Store, log: seq<KeyValue>, from: nat, to: nat)
    requires StoresLog(s, log) && s.cache.compactedIdx <= from < to
    ensures Sound(s)
    ensures to > s.cache.acceptedIdx ==> Read(s, Included(from), Excluded(to)) == OutOfBounds
    ensures to <= s.cache.acceptedIdx ==>
              var r := Read(s, Included(from), Excluded(to));
              && r.Entries? && |r.entries| == to - from
              && forall i :: 0 <= i < to - from ==>
                   (from + i < |log| || s.cache.stopsign.Some?) && r.entries[i] == ItemAt(s, log, from + i)
  {
    AcceptedIsLength(s, log);
    ReadIsRange(s, Included(from), Excluded(to), from, to);
    if to <= s.cache.acceptedIdx {
      RangeIsSlice(s, log, from, to);
    }
  }

  /** Exactly the ranges that touch compacted entries, or run backwards from the stopsign, panic. */
  lemma {:induction false} ReadPanics(s: Store, log: seq<KeyValue>, from: nat, to: nat)
    requires StoresLog(s, log)
    ensures Sound(s)
    ensures Read(s, Included(from), Excluded(to)) == Unimplemented <==>
            && from < s.cache.acceptedIdx && 0 < to <= s.cache.acceptedIdx
            && (|| from < s.cache.compactedIdx
                || to <= s.cache.compactedIdx
                || (s.cache.stopsign.Some? && from + 1 == s.cache.acceptedIdx && to < s.cache.acceptedIdx))
  {
    AcceptedIsLength(s, log);
  }

  /** Without a stopsign the decided suffix consists of decided entries only, in log order. */
  lemma {:induction false} DecidedSuffixIsDecided(s: Store, log: seq<KeyValue>, from: nat)
    requires StoresLog(s, log) && s.cache.stopsign.None?
    requires s.cache.compactedIdx <= from < s.cache.decidedIdx <= s.cache.acceptedIdx
    ensures Sound(s) && s.cache.decidedIdx <= |log|
    ensures var r := ReadDecidedSuffix(s, from);
            && r.Entries? && |r.entries| == s.cache.decidedIdx - from
            && forall i :: 0 <= i < |r.entries| ==> r.entries[i] == Decided(log[from + i])
  {
    AcceptedIsLength(s, log);
    ReadsAreSlices(s, log, from, s.cache.decidedIdx);
  }
}
