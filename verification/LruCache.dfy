/** The external LRU cache, as the sequence of its entries from the least to the most recently used. */
module LruCache {
  import opened Wrappers
  import opened CacheSpec

  /** The entries as items of the shared cache specification, which an LRU cache does not count. */
  function Items<K, V>(entries: seq<(K, V)>): (items: seq<Item<K, V>>)
    ensures |items| == |entries|
    ensures forall i :: 0 <= i < |items| ==> items[i] == Item(entries[i].0, entries[i].1, 1)
  {
    seq(|entries|, i requires 0 <= i < |entries| => Item(entries[i].0, entries[i].1, 1))
  }

  class LRUCache<K(==), V> {
    const capacity: nat
    var entries: seq<(K, V)>

    ghost predicate Valid()
      reads this
    {
      capacity > 0 && |entries| <= capacity && DistinctKeys(Items(entries))
    }

    constructor (capacity: nat)
      requires capacity > 0
      ensures Valid() && entries == [] && this.capacity == capacity
    {
      this.capacity, entries := capacity, [];
    }

    method Find(key: K) returns (index: int)
      requires Valid()
      ensures -1 <= index < |entries|
      ensures index == -1 ==> !Has(Items(entries), key)
      ensures index >= 0 ==> Has(Items(entries), key) && IndexOf(Items(entries), key) == index
    {
      index := 0;
      while index < |entries|
        invariant 0 <= index <= |entries|
        invariant forall i :: 0 <= i < index ==> entries[i].0 != key
      {
        if entries[index].0 == key {
          IndexOfUnique(Items(entries), index);
          return;
        }
        index := index + 1;
      }
      index := -1;
    }

    method Lookup(key: K) returns (value: Option<V>)
      requires Valid()
      modifies this
      ensures Valid() && Items(entries) == Get(LRU, Items(old(entries)), key)
      ensures value == Peek(Items(old(entries)), key)
    {
      var i := Find(key);
      if i < 0 {
        return None;
      }
      value := Some(entries[i].1);
      entries := Without(entries, i) + [entries[i]];
      assert Items(entries) == Touch(LRU, Items(old(entries)), i);
    }

    method PopLru() returns (popped: Option<(K, V)>)
      requires Valid()
      modifies this
      ensures Valid()
      ensures if old(entries) == [] then popped == None && entries == []
              else popped == Some(old(entries)[0]) && Items(entries) == Evict(LRU, Items(old(entries)))
    {
      if |entries| == 0 {
        return None;
      }
      popped := Some(entries[0]);
      entries := entries[1..];
      assert Items(entries) == Evict(LRU, Items(old(entries)));
    }

    method Push(key: K, value: V)
      requires Valid()
      modifies this
      ensures Valid() && Items(entries) == Set(LRU, capacity, Items(old(entries)), key, value)
    {
      var i := Find(key);
      if i >= 0 {
        entries := Without(entries, i) + [(key, value)];
        assert Items(entries) == Touch(LRU, Items(old(entries))[i := Item(key, value, 1)], i);
        return;
      }
      if |entries| >= capacity {
        var _ := PopLru();
        assert forall j :: 0 <= j < |entries| ==> Items(entries)[j] == Items(old(entries))[j + 1];
      }
      ghost var before := Items(entries);
      entries := entries + [(key, value)];
      assert Items(entries) == before + [Item(key, value, 1)];
      assert forall j :: 0 <= j < |before| ==> before[j].key != key;
    }
  }
}
