/** Key-value log entries and their snapshots. */
module KvSnapshot {
  datatype KeyValue = KeyValue(key: string, value: nat)

  type Snapshot = map<string, nat>

  function Create(entries: seq<KeyValue>): Snapshot {
    if |entries| == 0 then map[]
    else
      var last := |entries| - 1;
      Create(entries[..last])[entries[last].key := entries[last].value]
  }

  function Merge(s: Snapshot, delta: Snapshot): Snapshot {
    s + delta
  }

  /** A snapshot of two stretches of a log is the first one's merged with the second one's. */
  lemma {:induction false} CreateConcat(a: seq<KeyValue>, b: seq<KeyValue>)
    ensures Create(a + b) == Merge(Create(a), Create(b))
  {
    if |b| == 0 {
      assert a + b == a;
    } else {
      var last := |b| - 1;
      CreateConcat(a, b[..last]);
      assert (a + b)[..|a| + last] == a + b[..last];
    }
  }

  /** A delta may start before the end of what the snapshot covers: overlapping entries do no harm. */
  lemma {:induction false} MergeOverlapping(entries: seq<KeyValue>, from: nat, to: nat)
    requires from <= to <= |entries|
    ensures Merge(Create(entries[..to]), Create(entries[from..])) == Create(entries)
  {
    var a, b, c := entries[..from], entries[from..to], entries[to..];
    assert entries[..to] == a + b && entries[from..] == b + c && entries == a + (b + c);
    CreateConcat(a, b);
    CreateConcat(b, c);
    CreateConcat(a, b + c);
    MergeAgain(Create(a), Create(b), Create(c));
  }

  lemma MergeAgain(a: Snapshot, b: Snapshot, c: Snapshot)
    ensures Merge(Merge(a, b), Merge(b, c)) == Merge(a, Merge(b, c))
  {
  }

  lemma {:induction false} CreateKeys(entries: seq<KeyValue>, key: string)
    ensures key in Create(entries) <==> exists i :: 0 <= i < |entries| && entries[i].key == key
  {
    if |entries| > 0 {
      CreateKeys(entries[..|entries| - 1], key);
      assert forall i :: 0 <= i < |entries| - 1 ==> entries[..|entries| - 1][i] == entries[i];
    }
  }

  /** A snapshot holds for each key the value of its last entry. */
  lemma {:induction false} CreateHoldsLast(entries: seq<KeyValue>, i: nat)
    requires i < |entries| && forall j :: i < j < |entries| ==> entries[j].key != entries[i].key
    ensures entries[i].key in Create(entries) && Create(entries)[entries[i].key] == entries[i].value
  {
    if i < |entries| - 1 {
      CreateHoldsLast(entries[..|entries| - 1], i);
    }
  }

  class KVSnapshot {
    var snapshotted: Snapshot

    constructor FromEntries(entries: seq<KeyValue>)
      ensures snapshotted == Create(entries)
    {
      snapshotted := map[];
      new;
      var i := 0;
      while i < |entries|
        invariant 0 <= i <= |entries|
        invariant snapshotted == Create(entries[..i])
      {
        assert entries[..i + 1][..i] == entries[..i];
        snapshotted := snapshotted[entries[i].key := entries[i].value];
        i := i + 1;
      }
      assert entries[..i] == entries;
    }

    constructor Of(s: Snapshot)
      ensures snapshotted == s
    {
      snapshotted := s;
    }

    method MergeWith(delta: Snapshot)
      modifies this
      ensures snapshotted == Merge(old(snapshotted), delta)
      ensures snapshotted.Keys == old(snapshotted).Keys + delta.Keys
      ensures forall k :: k in snapshotted ==> snapshotted[k] == if k in delta then delta[k] else old(snapshotted)[k]
    {
      var remaining := delta.Keys;
      while remaining != {}
        invariant remaining <= delta.Keys
        invariant snapshotted == Merge(old(snapshotted), delta - remaining)
      {
        var k :| k in remaining;
        snapshotted := snapshotted[k := delta[k]];
        remaining := remaining - {k};
      }
      assert delta - {} == delta;
    }
  }
}
