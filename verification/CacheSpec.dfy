/**
 * Bounded caches as lists: items ordered from the least to the most recently touched, each with the
 * number of its touches. Both eviction policies choose a victim from the counts and positions alone.
 */
module CacheSpec {
  import opened Wrappers

  datatype Item<K, V> = Item(key: K, value: V, count: nat)

  datatype Policy = LeastRecentlyUsed | LeastFrequentlyUsed

  const LRU := LeastRecentlyUsed
  const LFU := LeastFrequentlyUsed

  predicate Has<K(==), V>(list: seq<Item<K, V>>, key: K) {
    exists i :: 0 <= i < |list| && list[i].key == key
  }

  ghost predicate DistinctKeys<K, V>(list: seq<Item<K, V>>) {
    forall i, j :: 0 <= i < j < |list| ==> list[i].key != list[j].key
  }

  function IndexOf<K(==), V>(list: seq<Item<K, V>>, key: K): (i: nat)
    requires Has(list, key)
    ensures i < |list| && list[i].key == key
  {
    if list[|list| - 1].key == key then |list| - 1
    else
      var before := list[..|list| - 1];
      assert Has(before, key) by {
        var i :| 0 <= i < |list| && list[i].key == key;
        assert before[i].key == key;
      }
      IndexOf(before, key)
  }

  function Without<T>(list: seq<T>, i: nat): (rest: seq<T>)
    requires i < |list|
    ensures |rest| == |list| - 1
    ensures forall j :: 0 <= j < |rest| ==> rest[j] == list[if j < i then j else j + 1]
  {
    list[..i] + list[i + 1..]
  }

  function Touched<K, V>(policy: Policy, item: Item<K, V>): Item<K, V> {
    if policy.LeastFrequentlyUsed? then item.(count := item.count + 1) else item
  }

  /** Item `i` becomes the most recently touched one. */
  function Touch<K, V>(policy: Policy, list: seq<Item<K, V>>, i: nat): seq<Item<K, V>>
    requires i < |list|
  {
    Without(list, i) + [Touched(policy, list[i])]
  }

  /** The least recently touched of the items with the smallest count. */
  function FirstLeastCounted<K, V>(list: seq<Item<K, V>>): (i: nat)
    requires |list| > 0
    ensures i < |list|
    ensures forall j :: 0 <= j < |list| ==> list[i].count <= list[j].count
    ensures forall j :: 0 <= j < i ==> list[i].count < list[j].count
  {
    var last := |list| - 1;
    if last == 0 then 0
    else
      var i := FirstLeastCounted(list[..last]);
      if list[last].count < list[i].count then last else i
  }

  function Victim<K, V>(policy: Policy, list: seq<Item<K, V>>): (i: nat)
    requires |list| > 0
    ensures i < |list|
  {
    if policy.LeastRecentlyUsed? then 0 else FirstLeastCounted(list)
  }

  function Evict<K, V>(policy: Policy, list: seq<Item<K, V>>): seq<Item<K, V>>
    requires |list| > 0
  {
    Without(list, Victim(policy, list))
  }

  function Get<K(==), V>(policy: Policy, list: seq<Item<K, V>>, key: K): seq<Item<K, V>> {
    if Has(list, key) then Touch(policy, list, IndexOf(list, key)) else list
  }

  function Peek<K(==), V>(list: seq<Item<K, V>>, key: K): Option<V> {
    if Has(list, key) then Some(list[IndexOf(list, key)].value) else None
  }

  function Set<K(==), V>(policy: Policy, capacity: nat, list: seq<Item<K, V>>, key: K, value: V): seq<Item<K, V>>
    requires capacity > 0
  {
    if Has(list, key) then
      var i := IndexOf(list, key);
      Touch(policy, list[i := list[i].(value := value)], i)
    else
      (if |list| >= capacity then Evict(policy, list) else list) + [Item(key, value, 1)]
  }

  function Remove<K(==), V>(list: seq<Item<K, V>>, key: K): seq<Item<K, V>> {
    if Has(list, key) then Without(list, IndexOf(list, key)) else list
  }

  lemma {:induction false} IndexOfUnique<K, V>(list: seq<Item<K, V>>, i: nat)
    requires DistinctKeys(list) && i < |list|
    ensures Has(list, list[i].key) && IndexOf(list, list[i].key) == i
  {
  }

  /** The choice of a victim sees counts and positions only. */
  lemma {:induction false} VictimByCounts<K, V, L, W>(policy: Policy, a: seq<Item<K, V>>, b: seq<Item<L, W>>)
    requires |a| == |b| > 0 && forall i :: 0 <= i < |a| ==> a[i].count == b[i].count
    ensures Victim(policy, a) == Victim(policy, b)
  {
  }

  /** `list'` is part of `list` without `key`, and then `key` with `value`. */
  ghost predicate EndsWith<K, V>(list: seq<Item<K, V>>, list': seq<Item<K, V>>, key: K, value: V) {
    && |list'| > 0 && DistinctKeys(list')
    && list'[|list'| - 1].key == key && list'[|list'| - 1].value == value
    && forall i :: 0 <= i < |list'| - 1 ==> list'[i] in list && list'[i].key != key
  }

  lemma {:induction false} AppendEndsWith<K, V>(list: seq<Item<K, V>>, rest: seq<Item<K, V>>, item: Item<K, V>)
    requires DistinctKeys(rest) && !Has(rest, item.key) && forall i :: 0 <= i < |rest| ==> rest[i] in list
    ensures EndsWith(list, rest + [item], item.key, item.value)
  {
  }

  /** Overwriting or inserting a key puts it last, with the value, and changes no other key's item. */
  lemma {:induction false} SetPutsLast<K, V>(policy: Policy, capacity: nat, list: seq<Item<K, V>>, key: K, value: V)
    requires capacity > 0 && DistinctKeys(list)
    ensures EndsWith(list, Set(policy, capacity, list, key, value), key, value)
    ensures |Set(policy, capacity, list, key, value)| ==
            if Has(list, key) || |list| >= capacity then |list| else |list| + 1
  {
    if Has(list, key) {
      var i := IndexOf(list, key);
      var changed := list[i := list[i].(value := value)];
      assert Without(changed, i) == Without(list, i);
      AppendEndsWith(list, Without(list, i), Touched(policy, changed[i]));
    } else if |list| >= capacity {
      AppendEndsWith(list, Evict(policy, list), Item(key, value, 1));
    } else {
      AppendEndsWith(list, list, Item(key, value, 1));
    }
  }

  /** An overwritten key is counted like any other touch, and an inserted one starts from one. */
  lemma {:induction false} SetCounts<K, V>(policy: Policy, capacity: nat, list: seq<Item<K, V>>, key: K, value: V)
    requires capacity > 0
    ensures var list' := Set(policy, capacity, list, key, value);
            |list'| > 0 &&
            list'[|list'| - 1].count ==
              if !Has(list, key) then 1
              else list[IndexOf(list, key)].count + if policy == LFU then 1 else 0
  {
  }

  lemma {:induction false} RemoveForgets<K, V>(list: seq<Item<K, V>>, key: K)
    requires DistinctKeys(list)
    ensures var list' := Remove(list, key);
            && !Has(list', key)
            && (forall item :: item in list' <==> item in list && item.key != key)
  {
    if Has(list, key) {
      var i := IndexOf(list, key);
      forall item | item in list && item.key != key ensures item in Without(list, i) {
        var j :| 0 <= j < |list| && list[j] == item;
        assert Without(list, i)[if j < i then j else j - 1] == item;
      }
    }
  }
}
