/** The two UniCache implementations: an encoder and a decoder cache side by side. */
module FieldCaches {
  import opened CacheSpec
  import opened UniCache
  import opened LfuCache
  import opened LruCache
  import CacheClones

  /** Midway through a clone: the fields outside `remaining` have been copied, each with count 1. */
  ghost predicate Copied<F>(items: seq<Item<F, nat>>, values: map<F, ValueCounter<nat>>, remaining: set<F>,
                            copy: seq<Item<nat, F>>) {
    && remaining <= values.Keys && |remaining| + |copy| == |items| && DistinctKeys(copy)
    && (forall i :: 0 <= i < |copy| ==> copy[i].count == 1 && copy[i].value !in remaining)
    && (forall i :: 0 <= i < |copy| ==> copy[i].value in values && values[copy[i].value].value == copy[i].key)
    && (forall f :: f in values.Keys - remaining ==> Holds(copy, values[f].value, f))
  }

  lemma {:induction false} HoldsAppend<K, V>(list: seq<Item<K, V>>, item: Item<K, V>, key: K, value: V)
    requires DistinctKeys(list) && !Has(list, item.key)
    requires Holds(list, key, value) || (key == item.key && value == item.value)
    ensures DistinctKeys(list + [item]) && Holds(list + [item], key, value)
  {
    var all := list + [item];
    assert all[|list|] == item;
    var i := if key == item.key then |list| else IndexOf(list, key);
    assert all[i].key == key;
    IndexOfUnique(all, i);
  }

  /** Two cached fields never share a code. */
  lemma {:induction false} CodeTellsField<F>(items: seq<Item<F, nat>>, values: map<F, ValueCounter<nat>>,
                                             encoding: nat, f: F, g: F)
    requires ValuesOf(values, items) && CodesSound(items, encoding)
    requires f in values && g in values && values[f].value == values[g].value
    ensures f == g
  {
    assert f in Keys(items) && g in Keys(items);
    var i :| 0 <= i < |items| && items[i].key == f;
    var j :| 0 <= j < |items| && items[j].key == g;
    assert items[i].value == items[j].value;
  }

  lemma {:induction false} CopyOne<F>(items: seq<Item<F, nat>>, values: map<F, ValueCounter<nat>>, encoding: nat,
                                      remaining: set<F>, copy: seq<Item<nat, F>>, field: F)
    requires ValuesOf(values, items) && CodesSound(items, encoding)
    requires Copied(items, values, remaining, copy) && field in remaining
    ensures !Has(copy, values[field].value)
    ensures Copied(items, values, remaining - {field}, copy + [Item(values[field].value, field, 1)])
  {
    var item := Item(values[field].value, field, 1);
    forall i | 0 <= i < |copy| ensures copy[i].key != item.key {
      if copy[i].key == item.key {
        CodeTellsField(items, values, encoding, copy[i].value, field);
      }
    }
    forall f | f in values.Keys - (remaining - {field}) ensures Holds(copy + [item], values[f].value, f) {
      HoldsAppend(copy, item, values[f].value, f);
    }
  }

  lemma {:induction false} CopyDone<F>(items: seq<Item<F, nat>>, values: map<F, ValueCounter<nat>>,
                                       copy: seq<Item<nat, F>>)
    requires ValuesOf(values, items) && DistinctKeys(items) && Copied(items, values, {}, copy)
    ensures SameEntries(items, copy)
  {
    forall i | 0 <= i < |items| ensures Holds(copy, items[i].value, items[i].key) {
      assert items[i].key in values.Keys - {};
    }
    forall i | 0 <= i < |copy| ensures Holds(items, copy[i].value, copy[i].key) {
      assert copy[i].value in Keys(items);
      var j :| 0 <= j < |items| && items[j].key == copy[i].value;
      IndexOfUnique(items, j);
    }
  }

  class LFUniCache<F(==)> {
    const encoder: LFUCache<F, nat>
    const decoder: LFUCache<nat, F>
    var encoding: nat
    const size: nat

    ghost predicate Valid()
      reads this, encoder, decoder
    {
      && encoder as object != decoder
      && encoder.Valid() && decoder.Valid()
      && size > 0 && decoder.capacity == size
    }

    ghost function View(): FieldCache<F>
      reads this, encoder, decoder
    {
      FieldCache(encoder.items, decoder.items, encoding, size)
    }

    constructor (size: nat)
      requires size > 0
      ensures Valid() && fresh(encoder) && fresh(decoder) && encoder.capacity == size
      ensures View() == NewCache(size)
    {
      var e := new LFUCache<F, nat>(size);
      var d := new LFUCache<nat, F>(size);
      encoder, decoder, encoding, this.size := e, d, 0, size;
    }

    /** A copy that can only decode, filled from the encoder's map in whatever order it iterates. */
    constructor CloneOf(original: LFUniCache<F>)
      requires original.Valid() && EncoderSound(original.View())
      ensures Valid() && fresh(encoder) && fresh(decoder)
      ensures encoding == original.encoding && size == original.size
      ensures SameEntries(original.encoder.items, decoder.items)
      ensures forall i :: 0 <= i < |decoder.items| ==> decoder.items[i].count == 1
    {
      var e := new LFUCache<F, nat>(1);
      var d := new LFUCache<nat, F>(original.size);
      ghost var items := original.encoder.items;
      var values := original.encoder.values;
      var remaining := values.Keys;
      KeysCardinality(items);
      while remaining != {}
        invariant e.Valid() && fresh(d) && e as object != d && d.Valid() && d.capacity == original.size
        invariant Copied(items, values, remaining, d.items)
      {
        var field :| field in remaining;
        ghost var copy := d.items + [Item(values[field].value, field, 1)];
        CopyOne(items, values, original.encoding, remaining, d.items, field);
        d.Put(values[field].value, field);
        assert d.items == copy;
        remaining := remaining - {field};
      }
      CopyDone(items, values, d.items);
      encoder, decoder, encoding, size := e, d, original.encoding, original.size;
    }

    method TryEncode(field: F) returns (result: MaybeEncoded<F>)
      requires Valid() && encoder.capacity == size
      modifies this, encoder
      ensures Valid()
      ensures (View(), result) == UniCache.TryEncode(LFU, old(View()), field)
    {
      var found := encoder.Lookup(field);
      match found
      case Some(code) =>
        result := Encoded(code);
      case None =>
        var n := encoder.Len();
        if n == size {
          encoder.FullCanEvict();
          var popped := encoder.EvictAndReturnValue();
          encoder.Put(field, popped.value);
        } else {
          encoder.Put(field, encoding + 1);
          encoding := encoding + 1;
        }
        result := NotEncoded(field);
    }

    method Decode(message: MaybeEncoded<F>) returns (field: F)
      requires Valid() && CanDecode(View(), message)
      modifies this, decoder
      ensures Valid()
      ensures (View(), field) == UniCache.Decode(LFU, old(View()), message)
    {
      match message
      case Encoded(code) =>
        var found := decoder.Lookup(code);
        field := found.value;
      case NotEncoded(f) =>
        field := f;
        var n := decoder.Len();
        if n == size {
          decoder.FullCanEvict();
          var popped := decoder.EvictAndReturnKey();
          decoder.Put(popped.value, f);
        } else {
          decoder.Put(encoding + 1, f);
          encoding := encoding + 1;
        }
    }
  }

  /** One more push extends the decoder by the next entry. */
  lemma {:induction false} PushNext<F>(size: nat, items: seq<Item<F, nat>>, i: nat)
    requires size > 0 && i < |items|
    ensures PushedDecoder(size, items[..i + 1])
         == Set(LRU, size, PushedDecoder(size, items[..i]), items[i].value, items[i].key)
  {
    assert items[..i + 1][..i] == items[..i];
  }

  class LRUniCache<F(==)> {
    const encoder: LRUCache<F, nat>
    const decoder: LRUCache<nat, F>
    var encoding: nat
    const size: nat

    ghost predicate Valid()
      reads this, encoder, decoder
    {
      && encoder as object != decoder
      && encoder.Valid() && decoder.Valid()
      && size > 0 && decoder.capacity == size
    }

    ghost function View(): FieldCache<F>
      reads this, encoder, decoder
    {
      FieldCache(Items(encoder.entries), Items(decoder.entries), encoding, size)
    }

    constructor (size: nat)
      requires size > 0
      ensures Valid() && fresh(encoder) && fresh(decoder) && encoder.capacity == size
      ensures View() == NewCache(size)
    {
      var e := new LRUCache<F, nat>(size);
      var d := new LRUCache<nat, F>(size);
      encoder, decoder, encoding, this.size := e, d, 0, size;
    }

    /** A copy that can only decode: the encoder's entries, pushed from the least recently used on. */
    constructor CloneOf(original: LRUniCache<F>)
      requires original.Valid() && EncoderSound(original.View())
      ensures Valid() && fresh(encoder) && fresh(decoder)
      ensures View() == LruClone(original.View()) && InStep(original.View(), View())
    {
      var e := new LRUCache<F, nat>(1);
      var d := new LRUCache<nat, F>(original.size);
      var entries := original.encoder.entries;
      ghost var items := Items(entries);
      var i := 0;
      while i < |entries|
        invariant 0 <= i <= |entries| && e.Valid() && e.entries == [] && e as object != d
        invariant d.Valid() && fresh(d) && d.capacity == original.size
        invariant Items(d.entries) == PushedDecoder(original.size, items[..i])
      {
        var (field, code) := entries[i];
        PushNext(original.size, items, i);
        d.Push(code, field);
        i := i + 1;
      }
      CacheClones.LruCloneInStep(original.View());
      assert items[..i] == items;
      encoder, decoder, encoding, size := e, d, original.encoding, original.size;
    }

    method TryEncode(field: F) returns (result: MaybeEncoded<F>)
      requires Valid() && encoder.capacity == size
      modifies this, encoder
      ensures Valid()
      ensures (View(), result) == UniCache.TryEncode(LRU, old(View()), field)
    {
      var found := encoder.Lookup(field);
      match found
      case Some(code) =>
        result := Encoded(code);
      case None =>
        if |encoder.entries| == size {
          var popped := encoder.PopLru();
          encoder.Push(field, popped.value.1);
        } else {
          encoder.Push(field, encoding + 1);
          encoding := encoding + 1;
        }
        result := NotEncoded(field);
    }

    method Decode(message: MaybeEncoded<F>) returns (field: F)
      requires Valid() && CanDecode(View(), message)
      modifies this, decoder
      ensures Valid()
      ensures (View(), field) == UniCache.Decode(LRU, old(View()), message)
    {
      match message
      case Encoded(code) =>
        var found := decoder.Lookup(code);
        field := found.value;
      case NotEncoded(f) =>
        field := f;
        if |decoder.entries| == size {
          var popped := decoder.PopLru();
          decoder.Push(popped.value.0, f);
        } else {
          decoder.Push(encoding + 1, f);
          encoding := encoding + 1;
        }
    }
  }
}
