/**
 * The LFU cache: a value map, a bin of keys per frequency and the smallest frequency in use. It
 * refines the touch-ordered list that evicts the least recently touched key of smallest count.
 */
module LfuCache {
  import opened Wrappers
  import opened CacheSpec

  datatype ValueCounter<V> = ValueCounter(value: V, count: nat)

  /** The keys touched `count` times, from the least to the most recently touched. */
  function Bin<K, V>(list: seq<Item<K, V>>, count: nat): seq<K> {
    if |list| == 0 then []
    else
      var last := |list| - 1;
      var bin := Bin(list[..last], count);
      if list[last].count == count then bin + [list[last].key] else bin
  }

  /** Removing a key from an insertion-ordered set without duplicates. */
  function Delete<K(==)>(bin: seq<K>, key: K): seq<K> {
    if |bin| == 0 then []
    else
      var last := |bin| - 1;
      if bin[last] == key then bin[..last] else Delete(bin[..last], key) + [bin[last]]
  }

  lemma {:induction false} DeleteLater<K>(bin: seq<K>, x: K, key: K)
    ensures Delete(bin + [x], key) == if x == key then bin else Delete(bin, key) + [x]
  {
    assert (bin + [x])[..|bin|] == bin;
  }

  lemma {:induction false} BinKeys<K, V>(list: seq<Item<K, V>>, count: nat, key: K)
    ensures key in Bin(list, count) <==> exists i :: 0 <= i < |list| && list[i] == Item(key, list[i].value, count)
  {
    if |list| > 0 {
      var last := |list| - 1;
      BinKeys(list[..last], count, key);
      if key in Bin(list, count) && key !in Bin(list[..last], count) {
        assert list[last] == Item(key, list[last].value, count);
      }
      if i :| 0 <= i < |list| && list[i] == Item(key, list[i].value, count) {
        if i < last {
          assert list[..last][i] == Item(key, list[..last][i].value, count);
        }
      }
    }
  }

  lemma {:induction false} BinSnoc<K, V>(list: seq<Item<K, V>>, item: Item<K, V>, count: nat)
    ensures Bin(list + [item], count) ==
            if item.count == count then Bin(list, count) + [item.key] else Bin(list, count)
  {
    assert (list + [item])[..|list|] == list;
  }

  lemma {:induction false} WithoutSnoc<T>(list: seq<T>, x: T, i: nat)
    requires i < |list|
    ensures Without(list + [x], i) == Without(list, i) + [x]
  {
  }

  /** Taking an item out of the list deletes its key from the bin of its count, and from no other. */
  lemma {:induction false} BinWithout<K, V>(list: seq<Item<K, V>>, i: nat, count: nat)
    requires i < |list| && DistinctKeys(list)
    ensures Bin(Without(list, i), count) ==
            if list[i].count == count then Delete(Bin(list, count), list[i].key) else Bin(list, count)
  {
    var last := |list| - 1;
    var front, x := list[..last], list[last];
    assert list == front + [x];
    BinSnoc(front, x, count);
    DeleteLater(Bin(front, count), x.key, list[i].key);
    if i == last {
      assert Without(list, i) == front;
    } else {
      BinWithout(front, i, count);
      WithoutSnoc(front, x, i);
      BinSnoc(Without(front, i), x, count);
    }
  }

  /** The front of a bin is the first item of that count, and deleting it leaves the rest. */
  lemma {:induction false} BinFront<K, V>(list: seq<Item<K, V>>, v: nat)
    requires v < |list| && DistinctKeys(list)
    requires forall j :: 0 <= j < v ==> list[j].count != list[v].count
    ensures var bin := Bin(list, list[v].count);
            |bin| > 0 && bin[0] == list[v].key && Delete(bin, bin[0]) == bin[1..]
  {
    var last, count := |list| - 1, list[v].count;
    if v == last {
      BinEmpty(list[..last], count);
    } else {
      BinFront(list[..last], v);
      var before := Bin(list[..last], count);
      if list[last].count == count {
        DeleteLater(before, list[last].key, before[0]);
        assert Bin(list, count)[1..] == before[1..] + [list[last].key];
      }
    }
  }

  lemma {:induction false} BinEmpty<K, V>(list: seq<Item<K, V>>, count: nat)
    requires forall j :: 0 <= j < |list| ==> list[j].count != count
    ensures Bin(list, count) == []
  {
    if |list| > 0 {
      BinEmpty(list[..|list| - 1], count);
    }
  }

  lemma {:induction false} BinUpdate<K, V>(list: seq<Item<K, V>>, i: nat, value: V, count: nat)
    requires i < |list|
    ensures Bin(list[i := list[i].(value := value)], count) == Bin(list, count)
  {
    var last, list' := |list| - 1, list[i := list[i].(value := value)];
    if i == last {
      assert list'[..last] == list[..last];
    } else {
      BinUpdate(list[..last], i, value, count);
      assert list'[..last] == list[..last][i := list[i].(value := value)];
    }
  }

  function Keys<K, V>(list: seq<Item<K, V>>): set<K> {
    set i | 0 <= i < |list| :: list[i].key
  }

  lemma {:induction false} KeysCardinality<K, V>(list: seq<Item<K, V>>)
    requires DistinctKeys(list)
    ensures |Keys(list)| == |list|
  {
    if |list| > 0 {
      var last := |list| - 1;
      KeysCardinality(list[..last]);
      assert Keys(list) == Keys(list[..last]) + {list[last].key} by {
        forall k | k in Keys(list) ensures k in Keys(list[..last]) + {list[last].key} {
          var i :| 0 <= i < |list| && list[i].key == k;
          if i < last { assert list[..last][i].key == k; }
        }
        forall k | k in Keys(list[..last]) ensures k in Keys(list) {
          var i :| 0 <= i < last && list[..last][i].key == k;
          assert list[i].key == k;
        }
      }
      assert list[last].key !in Keys(list[..last]);
    } else {
      assert Keys(list) == {};
    }
  }

  // The representation.

  ghost predicate ValuesOf<K, V>(values: map<K, ValueCounter<V>>, list: seq<Item<K, V>>) {
    && values.Keys == Keys(list)
    && forall i :: 0 <= i < |list| ==>
         list[i].key in values && values[list[i].key] == ValueCounter(list[i].value, list[i].count)
  }

  function BinAt<K>(bins: map<nat, seq<K>>, count: nat): seq<K> {
    if count in bins then bins[count] else []
  }

  ghost predicate BinsOf<K, V>(bins: map<nat, seq<K>>, list: seq<Item<K, V>>) {
    forall count: nat {:trigger BinAt(bins, count)} :: BinAt(bins, count) == Bin(list, count)
  }

  ghost predicate CountsFrom<K, V>(list: seq<Item<K, V>>, min: nat) {
    forall i :: 0 <= i < |list| ==> list[i].count >= min
  }

  /** `min` is the smallest count: no item is below it and its bin is not empty. */
  ghost predicate IsMinimum<K, V>(list: seq<Item<K, V>>, min: nat) {
    CountsFrom(list, min) && Bin(list, min) != []
  }

  lemma {:induction false} ValuesWithout<K, V>(values: map<K, ValueCounter<V>>, list: seq<Item<K, V>>, i: nat)
    requires ValuesOf(values, list) && DistinctKeys(list) && i < |list|
    ensures ValuesOf(values - {list[i].key}, Without(list, i)) && DistinctKeys(Without(list, i))
  {
    var rest, key := Without(list, i), list[i].key;
    forall k ensures k in Keys(rest) <==> k in Keys(list) && k != key {
      if k in Keys(list) && k != key {
        var j :| 0 <= j < |list| && list[j].key == k;
        assert rest[if j < i then j else j - 1].key == k;
      }
      if k in Keys(rest) {
        var j :| 0 <= j < |rest| && rest[j].key == k;
        assert list[if j < i then j else j + 1].key == k;
      }
    }
  }

  lemma {:induction false} ValuesAppend<K, V>(values: map<K, ValueCounter<V>>, list: seq<Item<K, V>>, item: Item<K, V>)
    requires ValuesOf(values, list) && DistinctKeys(list) && item.key !in values
    ensures ValuesOf(values[item.key := ValueCounter(item.value, item.count)], list + [item])
    ensures DistinctKeys(list + [item])
  {
    var all := list + [item];
    assert forall i :: 0 <= i < |list| ==> list[i].key in Keys(list);
    forall k ensures k in Keys(all) <==> k in Keys(list) || k == item.key {
      if k in Keys(list) {
        var j :| 0 <= j < |list| && list[j].key == k;
        assert all[j].key == k;
      }
      assert all[|list|].key == item.key;
    }
  }

  /** At the smallest count the front of the bin is the victim of the specification. */
  lemma {:induction false} MinimumIsVictim<K, V>(list: seq<Item<K, V>>, min: nat)
    requires DistinctKeys(list) && IsMinimum(list, min)
    ensures |list| > 0
    ensures var v := FirstLeastCounted(list);
            list[v].count == min && Bin(list, min)[0] == list[v].key
  {
    BinKeys(list, min, Bin(list, min)[0]);
    assert Bin(list, min)[0] in Bin(list, min);
    BinFront(list, FirstLeastCounted(list));
  }

  lemma {:induction false} FirstOfBin<K, V>(list: seq<Item<K, V>>, count: nat) returns (v: nat)
    requires DistinctKeys(list) && Bin(list, count) != []
    ensures v < |list| && list[v].count == count && forall j :: 0 <= j < v ==> list[j].count != count
  {
    var last := |list| - 1;
    if Bin(list[..last], count) != [] {
      v := FirstOfBin(list[..last], count);
    } else {
      v := last;
      forall j | 0 <= j < last ensures list[j].count != count {
        BinKeys(list[..last], count, list[j].key);
        assert list[..last][j] == list[j];
      }
    }
  }

  lemma {:induction false} TouchBins<K, V>(list: seq<Item<K, V>>, i: nat, count: nat)
    requires i < |list| && DistinctKeys(list)
    ensures var c, key := list[i].count, list[i].key;
            Bin(Touch(LFU, list, i), count) ==
            if count == c + 1 then Bin(list, count) + [key]
            else if count == c then Delete(Bin(list, count), key)
            else Bin(list, count)
  {
    BinWithout(list, i, count);
    BinSnoc(Without(list, i), Touched(LFU, list[i]), count);
  }

  lemma {:induction false} TouchValues<K, V>(values: map<K, ValueCounter<V>>, list: seq<Item<K, V>>, i: nat)
    requires i < |list| && DistinctKeys(list) && ValuesOf(values, list)
    ensures DistinctKeys(Touch(LFU, list, i))
    ensures ValuesOf(values[list[i].key := ValueCounter(list[i].value, list[i].count + 1)], Touch(LFU, list, i))
  {
    var key := list[i].key;
    ValuesWithout(values, list, i);
    ValuesAppend(values - {key}, Without(list, i), Touched(LFU, list[i]));
    assert (values - {key})[key := ValueCounter(list[i].value, list[i].count + 1)] ==
           values[key := ValueCounter(list[i].value, list[i].count + 1)];
  }

  lemma {:induction false} TouchRepresents<K, V>(bins: map<nat, seq<K>>, list: seq<Item<K, V>>, i: nat)
    requires i < |list| && DistinctKeys(list) && BinsOf(bins, list)
    ensures var c, key := list[i].count, list[i].key;
            BinsOf(bins[c := Delete(BinAt(bins, c), key)][c + 1 := BinAt(bins, c + 1) + [key]], Touch(LFU, list, i))
  {
    var c, key := list[i].count, list[i].key;
    var bins': map<nat, seq<K>> := bins[c := Delete(BinAt(bins, c), key)][c + 1 := BinAt(bins, c + 1) + [key]];
    forall count: nat ensures BinAt(bins', count) == Bin(Touch(LFU, list, i), count) {
      TouchBins(list, i, count);
      BinOfList(bins, list, count);
      BinOfList(bins, list, c);
      BinOfList(bins, list, c + 1);
    }
  }

  lemma {:induction false} BinOfList<K, V>(bins: map<nat, seq<K>>, list: seq<Item<K, V>>, count: nat)
    requires BinsOf(bins, list)
    ensures BinAt(bins, count) == Bin(list, count)
  {
  }

  lemma {:induction false} UnlinkRepresents<K, V>(bins: map<nat, seq<K>>, list: seq<Item<K, V>>, i: nat)
    requires i < |list| && DistinctKeys(list) && BinsOf(bins, list)
    ensures var c := list[i].count;
            BinsOf(bins[c := Delete(BinAt(bins, c), list[i].key)], Without(list, i))
  {
    var bins' := bins[list[i].count := Delete(BinAt(bins, list[i].count), list[i].key)];
    forall count: nat ensures BinAt(bins', count) == Bin(Without(list, i), count) {
      BinWithout(list, i, count);
      assert BinAt(bins, count) == Bin(list, count);
    }
  }

  lemma {:induction false} InsertRepresents<K, V>(bins: map<nat, seq<K>>, list: seq<Item<K, V>>, item: Item<K, V>)
    requires BinsOf(bins, list)
    ensures BinsOf(bins[item.count := BinAt(bins, item.count) + [item.key]], list + [item])
  {
    var bins' := bins[item.count := BinAt(bins, item.count) + [item.key]];
    forall count: nat ensures BinAt(bins', count) == Bin(list + [item], count) {
      BinSnoc(list, item, count);
      assert BinAt(bins, count) == Bin(list, count);
    }
  }

  lemma {:induction false} OverwriteRepresents<K, V>(values: map<K, ValueCounter<V>>, bins: map<nat, seq<K>>,
                                                     list: seq<Item<K, V>>, i: nat, value: V)
    requires i < |list| && DistinctKeys(list) && ValuesOf(values, list) && BinsOf(bins, list)
    ensures var list' := list[i := list[i].(value := value)];
            && DistinctKeys(list') && BinsOf(bins, list')
            && ValuesOf(values[list[i].key := ValueCounter(value, list[i].count)], list')
  {
    var list' := list[i := list[i].(value := value)];
    forall count: nat ensures BinAt(bins, count) == Bin(list', count) {
      BinUpdate(list, i, value, count);
      assert BinAt(bins, count) == Bin(list, count);
    }
    assert forall j :: 0 <= j < |list| ==> list'[j].key == list[j].key;
    forall k ensures k in Keys(list') <==> k in Keys(list) {
      if k in Keys(list) {
        var j :| 0 <= j < |list| && list[j].key == k;
        assert list'[j].key == k;
      }
    }
  }

  /** Touching a key at the minimum may empty its bin; the minimum is then the next count. */
  lemma {:induction false} MinimumMoves<K, V>(list: seq<Item<K, V>>, min: nat)
    requires CountsFrom(list, min) && Bin(list, min) == []
    ensures CountsFrom(list, min + 1)
  {
    forall j | 0 <= j < |list| ensures list[j].count >= min + 1 {
      if list[j].count == min {
        assert list[j] == Item(list[j].key, list[j].value, min);
        BinKeys(list, min, list[j].key);
      }
    }
  }

  /** The shortcut that moves the minimum up by one when its bin runs empty is right. */
  lemma {:induction false} TouchMinimum<K, V>(list: seq<Item<K, V>>, i: nat, min: nat)
    requires i < |list| && DistinctKeys(list) && IsMinimum(list, min)
    ensures var list' := Touch(LFU, list, i);
            IsMinimum(list', if list[i].count == min && Bin(list', min) == [] then min + 1 else min)
  {
    var list' := Touch(LFU, list, i);
    assert CountsFrom(list', min);
    TouchBins(list, i, min);
    if list[i].count == min && Bin(list', min) == [] {
      TouchBins(list, i, min + 1);
      MinimumMoves(list', min);
    }
  }

  /** What the fields of a cache say about the list of items that they stand for. */
  ghost predicate Represents<K, V>(values: map<K, ValueCounter<V>>, bins: map<nat, seq<K>>,
                                   capacity: nat, min: nat, items: seq<Item<K, V>>) {
    && capacity > 0 && |items| <= capacity
    && DistinctKeys(items) && CountsFrom(items, 1)
    && ValuesOf(values, items) && BinsOf(bins, items)
    && (|items| == capacity ==> IsMinimum(items, min))
  }

  /** A cached key has a counter with its value and count, and a bin at that count. */
  lemma {:induction false} KeyRepresented<K, V>(values: map<K, ValueCounter<V>>, bins: map<nat, seq<K>>,
                                               capacity: nat, min: nat, items: seq<Item<K, V>>, i: nat)
    requires Represents(values, bins, capacity, min, items) && i < |items|
    ensures var Item(key, value, count) := items[i];
            && key in values && values[key] == ValueCounter(value, count)
            && count in bins && bins[count] == Bin(items, count)
            && Has(items, key) && IndexOf(items, key) == i
  {
    IndexOfUnique(items, i);
    var Item(key, value, count) := items[i];
    assert BinAt(bins, count) == Bin(items, count);
    BinKeys(items, count, key);
  }

  lemma {:induction false} FindKey<K, V>(values: map<K, ValueCounter<V>>, bins: map<nat, seq<K>>,
                                         capacity: nat, min: nat, items: seq<Item<K, V>>, key: K)
    returns (i: nat)
    requires Represents(values, bins, capacity, min, items) && key in values
    ensures i < |items| && items[i].key == key
    ensures values[key] == ValueCounter(items[i].value, items[i].count)
    ensures items[i].count in bins && bins[items[i].count] == Bin(items, items[i].count)
    ensures Has(items, key) && IndexOf(items, key) == i
  {
    assert key in Keys(items);
    i :| 0 <= i < |items| && items[i].key == key;
    KeyRepresented(values, bins, capacity, min, items, i);
  }

  lemma {:induction false} KeyMissing<K, V>(values: map<K, ValueCounter<V>>, items: seq<Item<K, V>>, key: K)
    requires ValuesOf(values, items) && key !in values
    ensures !Has(items, key)
  {
    assert key !in Keys(items);
  }

  /** A touch does not change what a key's value is. */
  lemma {:induction false} PeekAfterGet<K, V>(items: seq<Item<K, V>>, key: K)
    requires DistinctKeys(items)
    ensures DistinctKeys(Get(LFU, items, key)) && Peek(Get(LFU, items, key), key) == Peek(items, key)
  {
    if Has(items, key) {
      var i := IndexOf(items, key);
      var touched := Touch(LFU, items, i);
      assert DistinctKeys(touched) && touched[|items| - 1].key == key;
      IndexOfUnique(touched, |items| - 1);
    }
  }

  /** The map holds the values of the list. */
  lemma {:induction false} ValuesPeek<K, V>(values: map<K, ValueCounter<V>>, items: seq<Item<K, V>>, key: K)
    requires ValuesOf(values, items) && DistinctKeys(items)
    ensures Peek(items, key) == if key in values then Some(values[key].value) else None
  {
    if key in values {
      assert key in Keys(items);
      var i :| 0 <= i < |items| && items[i].key == key;
      IndexOfUnique(items, i);
    } else {
      KeyMissing(values, items, key);
    }
  }

  lemma {:induction false} TouchKeepsRepresentation<K, V>(
    values: map<K, ValueCounter<V>>, bins: map<nat, seq<K>>, capacity: nat, min: nat, items: seq<Item<K, V>>, i: nat,
    bin: seq<K>, next: seq<K>)
    requires Represents(values, bins, capacity, min, items) && i < |items|
    requires bin == Delete(BinAt(bins, items[i].count), items[i].key) && next == BinAt(bins, items[i].count + 1)
    ensures var Item(key, value, count) := items[i];
            Represents(values[key := ValueCounter(value, count + 1)], bins[count := bin][count + 1 := next + [key]],
                       capacity, if count == min && bin == [] then min + 1 else min, Touch(LFU, items, i))
  {
    TouchRepresents(bins, items, i);
    TouchValues(values, items, i);
    if |items| == capacity {
      TouchMinimum(items, i, min);
      TouchBins(items, i, items[i].count);
      assert BinAt(bins, items[i].count) == Bin(items, items[i].count);
    }
  }

  lemma {:induction false} UnlinkKeepsRepresentation<K, V>(values: map<K, ValueCounter<V>>, bins: map<nat, seq<K>>,
                                                          capacity: nat, min: nat, items: seq<Item<K, V>>, i: nat)
    requires Represents(values, bins, capacity, min, items) && i < |items|
    ensures var Item(key, _, c) := items[i];
            Represents(values - {key}, bins[c := Delete(BinAt(bins, c), key)], capacity, min, Without(items, i))
  {
    UnlinkRepresents(bins, items, i);
    ValuesWithout(values, items, i);
  }

  lemma {:induction false} OverwriteKeepsRepresentation<K, V>(values: map<K, ValueCounter<V>>, bins: map<nat, seq<K>>,
                                                             capacity: nat, min: nat, items: seq<Item<K, V>>,
                                                             i: nat, value: V)
    requires Represents(values, bins, capacity, min, items) && i < |items|
    ensures var Item(key, _, c) := items[i];
            Represents(values[key := ValueCounter(value, c)], bins, capacity, min,
                       items[i := items[i].(value := value)])
  {
    OverwriteRepresents(values, bins, items, i, value);
    BinUpdate(items, i, value, min);
  }

  lemma {:induction false} InsertKeepsRepresentation<K, V>(values: map<K, ValueCounter<V>>, bins: map<nat, seq<K>>,
                                                          capacity: nat, min: nat, items: seq<Item<K, V>>,
                                                          key: K, value: V)
    requires Represents(values, bins, capacity, min, items) && key !in values && |items| < capacity
    ensures Represents(values[key := ValueCounter(value, 1)], bins[1 := BinAt(bins, 1) + [key]], capacity, 1,
                       items + [Item(key, value, 1)])
  {
    var item := Item(key, value, 1);
    ValuesAppend(values, items, item);
    InsertRepresents(bins, items, item);
    BinSnoc(items, item, 1);
  }

  class LFUCache<K(==), V> {
    var values: map<K, ValueCounter<V>>
    var frequencyBin: map<nat, seq<K>>
    const capacity: nat
    var minFrequency: nat
    /** The items from the least to the most recently touched: what the fields represent. */
    ghost var items: seq<Item<K, V>>

    ghost predicate Valid()
      reads this
    {
      Represents(values, frequencyBin, capacity, minFrequency, items)
    }

    /** An eviction cannot fail: the bin at the smallest frequency is missing or not empty. */
    ghost predicate CanEvict()
      reads this
    {
      minFrequency in frequencyBin ==> frequencyBin[minFrequency] != []
    }

    constructor (capacity: nat)
      requires capacity > 0
      ensures Valid() && items == [] && this.capacity == capacity
    {
      values, frequencyBin, this.capacity, minFrequency := map[], map[], capacity, 0;
      items := [];
    }

    method Len() returns (n: nat)
      requires Valid()
      ensures n == |items|
    {
      n := |values|;
      KeysCardinality(items);
      assert |values| == |values.Keys|;
    }

    method UpdateFrequencyBin(key: K)
      requires Valid()
      modifies this
      ensures Valid() && items == Get(LFU, old(items), key)
    {
      if key in values {
        ghost var i := FindKey(values, frequencyBin, capacity, minFrequency, items, key);
        var count := values[key].count;
        var bin := Delete(frequencyBin[count], key);
        var next := if count + 1 in frequencyBin then frequencyBin[count + 1] else [];
        TouchKeepsRepresentation(values, frequencyBin, capacity, minFrequency, items, i, bin, next);
        MoveUp(key, values[key].value, count, bin, next, Touch(LFU, items, i));
      } else {
        KeyMissing(values, items, key);
      }
    }

    /** Leaves `bin` at the key's count and puts the key, counted once more, behind `next`. */
    method MoveUp(key: K, value: V, count: nat, bin: seq<K>, next: seq<K>, ghost touched: seq<Item<K, V>>)
      requires Represents(values[key := ValueCounter(value, count + 1)],
                          frequencyBin[count := bin][count + 1 := next + [key]], capacity,
                          if count == minFrequency && bin == [] then minFrequency + 1 else minFrequency, touched)
      modifies this
      ensures Valid() && items == touched
    {
      values := values[key := ValueCounter(value, count + 1)];
      frequencyBin := frequencyBin[count := bin][count + 1 := next + [key]];
      if count == minFrequency && bin == [] {
        minFrequency := minFrequency + 1;
      }
      items := touched;
    }

    method Lookup(key: K) returns (value: Option<V>)
      requires Valid()
      modifies this
      ensures Valid() && items == Get(LFU, old(items), key)
      ensures value == Peek(old(items), key)
    {
      PeekAfterGet(items, key);
      UpdateFrequencyBin(key);
      ValuesPeek(values, items, key);
      value := if key in values then Some(values[key].value) else None;
    }

    method RemoveKey(key: K) returns (value: Option<V>)
      requires Valid()
      modifies this
      ensures Valid() && items == Remove(old(items), key)
      ensures value == Peek(old(items), key)
    {
      if key in values {
        var count := values[key].count;
        var bin := if count in frequencyBin then frequencyBin[count] else [];
        value := Some(values[key].value);
        Unlink(key, count, Delete(bin, key));
      } else {
        value := None;
      }
    }

    /** Drops `key`, whose count is `count`, leaving `bin` at that count. */
    method Unlink(key: K, count: nat, bin: seq<K>)
      requires Valid() && key in values && values[key].count == count
      requires bin == Delete(BinAt(frequencyBin, count), key)
      modifies this`values, this`frequencyBin, this`items
      ensures Valid() && items == Without(old(items), IndexOf(old(items), key))
      ensures Has(old(items), key) && |items| < capacity
    {
      ghost var i := IndexOf(items, key);
      KeyRepresented(values, frequencyBin, capacity, minFrequency, items, i);
      UnlinkKeepsRepresentation(values, frequencyBin, capacity, minFrequency, items, i);
      values := values - {key};
      frequencyBin := frequencyBin[count := bin];
      items := Without(items, i);
    }

    /** Takes the front key out of the bin at the smallest frequency; None if there is no such bin. */
    method EvictEntry() returns (evicted: Option<(K, V)>)
      requires Valid() && CanEvict()
      modifies this`values, this`frequencyBin, this`items
      ensures Valid()
      ensures evicted == None ==> items == old(items)
      ensures evicted.Some? ==>
                exists v :: 0 <= v < |old(items)| && items == Without(old(items), v)
                            && evicted.value == (old(items)[v].key, old(items)[v].value)
                            && old(items)[v].count == minFrequency
      ensures |old(items)| == capacity ==>
                && items == Evict(LFU, old(items))
                && evicted.Some?
                && var v := Victim(LFU, old(items));
                evicted.value == (old(items)[v].key, old(items)[v].value)
    {
      if minFrequency in frequencyBin {
        ghost var list := items;
        var bin := frequencyBin[minFrequency];
        assert BinAt(frequencyBin, minFrequency) == Bin(list, minFrequency);
        ghost var v := FirstOfBin(list, minFrequency);
        BinFront(list, v);
        IndexOfUnique(list, v);
        if |list| == capacity {
          MinimumIsVictim(list, minFrequency);
          IndexOfUnique(list, FirstLeastCounted(list));
        }
        assert list[v].key in values;
        var key := bin[0];
        var value := values[key].value;
        Unlink(key, minFrequency, bin[1..]);
        evicted := Some((key, value));
      } else {
        assert BinAt(frequencyBin, minFrequency) == Bin(items, minFrequency);
        evicted := None;
      }
    }

    method EvictAndReturnKey() returns (key: Option<K>)
      requires Valid() && CanEvict()
      modifies this`values, this`frequencyBin, this`items
      ensures Valid()
      ensures key == None ==> items == old(items)
      ensures |old(items)| == capacity ==>
                items == Evict(LFU, old(items)) && key == Some(old(items)[Victim(LFU, old(items))].key)
    {
      var evicted := EvictEntry();
      key := if evicted.Some? then Some(evicted.value.0) else None;
    }

    method EvictAndReturnValue() returns (value: Option<V>)
      requires Valid() && CanEvict()
      modifies this`values, this`frequencyBin, this`items
      ensures Valid()
      ensures value == None ==> items == old(items)
      ensures |old(items)| == capacity ==>
                items == Evict(LFU, old(items)) && value == Some(old(items)[Victim(LFU, old(items))].value)
    {
      var evicted := EvictEntry();
      value := if evicted.Some? then Some(evicted.value.1) else None;
    }

    method Put(key: K, value: V)
      requires Valid()
      modifies this
      ensures Valid() && items == Set(LFU, capacity, old(items), key, value)
    {
      if key in values {
        Overwrite(key, value);
        UpdateFrequencyBin(key);
        return;
      }
      var n := Len();
      if n >= capacity {
        FullCanEvict();
        var _ := EvictEntry();
      }
      Insert(key, value);
    }

    /** A full cache can always evict, whatever operations led to it. */
    lemma {:induction false} FullCanEvict()
      requires Valid() && |items| == capacity
      ensures CanEvict() && minFrequency in frequencyBin
    {
      assert BinAt(frequencyBin, minFrequency) == Bin(items, minFrequency);
    }

    method Overwrite(key: K, value: V)
      requires Valid() && key in values
      modifies this`values, this`items
      ensures Valid() && Has(old(items), key)
      ensures var i := IndexOf(old(items), key);
              && items == old(items)[i := old(items)[i].(value := value)]
              && Has(items, key) && IndexOf(items, key) == i
    {
      ghost var i := IndexOf(items, key);
      KeyRepresented(values, frequencyBin, capacity, minFrequency, items, i);
      OverwriteKeepsRepresentation(values, frequencyBin, capacity, minFrequency, items, i, value);
      values := values[key := ValueCounter(value, values[key].count)];
      items := items[i := items[i].(value := value)];
      IndexOfUnique(items, i);
    }

    method Insert(key: K, value: V)
      requires Valid() && key !in values && |items| < capacity
      modifies this
      ensures Valid() && items == old(items) + [Item(key, value, 1)]
    {
      InsertKeepsRepresentation(values, frequencyBin, capacity, minFrequency, items, key, value);
      values := values[key := ValueCounter(value, 1)];
      minFrequency := 1;
      var bin := if 1 in frequencyBin then frequencyBin[1] else [];
      frequencyBin := frequencyBin[1 := bin + [key]];
      items := items + [Item(key, value, 1)];
    }
  }
}
