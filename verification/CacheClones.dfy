/**
 * Handing a cache over in the middle of a stream. An LRU clone keeps the recency order and stays in
 * step for good; an LFU clone keeps neither counts nor order and is only sure until an eviction.
 */
module CacheClones {
  import opened Wrappers
  import opened CacheSpec
  import opened UniCache

  // An LRU clone.

  /** An LRU cache lists its entries in recency order and does not count their touches. */
  lemma {:induction false} LruStaysUncounted<F>(c: FieldCache<F>, field: F)
    requires EncoderSound(c) && Uncounted(c.encoder)
    ensures Uncounted(TryEncode(LRU, c, field).0.encoder)
  {
    EncoderStaysSound(LRU, c, field);
    if !Has(c.encoder, field) && |c.encoder| == c.size {
      assert !Has(Evict(LRU, c.encoder), field);
    }
  }

  lemma {:induction false} LruEncodesUncounted<F>(c: FieldCache<F>, fields: seq<F>)
    requires EncoderSound(c) && Uncounted(c.encoder)
    ensures var e := EncodeAll(LRU, c, fields).0; EncoderSound(e) && Uncounted(e.encoder)
    decreases |fields|
  {
    if |fields| > 0 {
      EncoderStaysSound(LRU, c, fields[0]);
      LruStaysUncounted(c, fields[0]);
      LruEncodesUncounted(TryEncode(LRU, c, fields[0]).0, fields[1..]);
    }
  }

  /** Pushing the entries from the least to the most recently used one rebuilds their order. */
  lemma {:induction false} PushesMirror<F>(size: nat, encoder: seq<Item<F, nat>>, encoding: nat)
    requires size > 0 && |encoder| <= size && CodesSound(encoder, encoding) && Uncounted(encoder)
    ensures Mirror(encoder, PushedDecoder(size, encoder))
  {
    if |encoder| > 0 {
      var rest, last := encoder[..|encoder| - 1], encoder[|encoder| - 1];
      PushesMirror(size, rest, encoding);
      var decoder := PushedDecoder(size, rest);
      forall i | 0 <= i < |decoder| ensures decoder[i].key != last.value {
        assert decoder[i].key == encoder[i].value;
      }
      assert PushedDecoder(size, encoder) == decoder + [Swap(last)];
    }
  }

  lemma {:induction false} LruCloneInStep<F>(e: FieldCache<F>)
    requires EncoderSound(e) && Uncounted(e.encoder)
    ensures InStep(e, LruClone(e))
  {
    PushesMirror(e.size, e.encoder, e.encoding);
  }

  /**
   * Hand-over: the clone of an LRU encoder that has sent any stream is in step with it, and decodes to itself
   * whatever is sent from then on.
   */
  lemma {:induction false} HandOver<F>(size: nat, before: seq<F>, rest: seq<F>)
    requires size > 0
    ensures var e := EncodeAll(LRU, NewCache<F>(size), before).0;
            InStep(e, LruClone(e)) && DecodeAll(LRU, LruClone(e), EncodeAll(LRU, e, rest).1) == Some(rest)
  {
    var e := EncodeAll(LRU, NewCache<F>(size), before).0;
    LruEncodesUncounted(NewCache<F>(size), before);
    LruCloneInStep(e);
    StreamRoundTrip(LRU, e, LruClone(e), rest);
  }

  // LFU clones.

  /** What the clone of an LFU encoder knows of it. */
  ghost predicate IsClone<F>(e: FieldCache<F>, d: FieldCache<F>) {
    && EncoderSound(e) && SameEntries(e.encoder, d.decoder)
    && d.encoding == e.encoding && d.size == e.size
  }

  ghost predicate Uncounted<K, V>(list: seq<Item<K, V>>) {
    forall i :: 0 <= i < |list| ==> list[i].count == 1
  }

  /** No field of the stream makes the encoder evict. */
  predicate EvictionFree<F(==)>(policy: Policy, c: FieldCache<F>, fields: seq<F>)
    requires c.size > 0
    decreases |fields|
  {
    |fields| > 0 ==>
      && (Has(c.encoder, fields[0]) || |c.encoder| < c.size)
      && EvictionFree(policy, TryEncode(policy, c, fields[0]).0, fields[1..])
  }

  lemma {:induction false} HoldsAt<K, V>(list: seq<Item<K, V>>, i: nat)
    requires DistinctKeys(list) && i < |list|
    ensures Holds(list, list[i].key, list[i].value)
  {
    IndexOfUnique(list, i);
  }

  lemma {:induction false} TouchIsDistinct<K, V>(policy: Policy, list: seq<Item<K, V>>, i: nat)
    requires DistinctKeys(list) && i < |list|
    ensures DistinctKeys(Touch(policy, list, i))
  {
  }

  lemma {:induction false} TouchKeepsEntry<K, V>(policy: Policy, list: seq<Item<K, V>>, i: nat, key: K, value: V)
    requires DistinctKeys(list) && i < |list| && Holds(list, key, value)
    ensures Holds(Touch(policy, list, i), key, value)
  {
    TouchIsDistinct(policy, list, i);
    var touched, j := Touch(policy, list, i), IndexOf(list, key);
    var k := if j == i then |list| - 1 else if j < i then j else j - 1;
    assert touched[k].key == key && touched[k].value == value;
    HoldsAt(touched, k);
  }

  lemma {:induction false} TouchKeepsIncluded<K, V>(policy: Policy, a: seq<Item<K, V>>, i: nat, b: seq<Item<V, K>>)
    requires Includes(a, b) && i < |a|
    ensures Includes(Touch(policy, a, i), b)
  {
    var touched := Touch(policy, a, i);
    forall k | 0 <= k < |touched| ensures Holds(b, touched[k].value, touched[k].key) {
      var j := if k == |a| - 1 then i else if k < i then k else k + 1;
      assert touched[k].key == a[j].key && touched[k].value == a[j].value;
      assert Holds(b, a[j].value, a[j].key);
    }
  }

  lemma {:induction false} TouchKeepsIncluding<K, V>(policy: Policy, a: seq<Item<K, V>>, b: seq<Item<V, K>>, j: nat)
    requires Includes(a, b) && DistinctKeys(b) && j < |b|
    ensures Includes(a, Touch(policy, b, j))
  {
    forall i | 0 <= i < |a| ensures Holds(Touch(policy, b, j), a[i].value, a[i].key) {
      assert Holds(b, a[i].value, a[i].key);
      TouchKeepsEntry(policy, b, j, a[i].value, a[i].key);
    }
  }

  lemma {:induction false} TouchKeepsSame<F>(policy: Policy, encoder: seq<Item<F, nat>>, decoder: seq<Item<nat, F>>,
                                             i: nat, j: nat)
    requires SameEntries(encoder, decoder) && i < |encoder| && j < |decoder|
    ensures SameEntries(Touch(policy, encoder, i), Touch(policy, decoder, j))
  {
    TouchIsDistinct(policy, encoder, i);
    TouchIsDistinct(policy, decoder, j);
    TouchKeepsIncluded(policy, encoder, i, decoder);
    TouchKeepsIncluding(policy, Touch(policy, encoder, i), decoder, j);
    TouchKeepsIncluded(policy, decoder, j, encoder);
    TouchKeepsIncluding(policy, Touch(policy, decoder, j), encoder, i);
  }

  lemma {:induction false} AppendKeepsEntry<K, V>(list: seq<Item<K, V>>, item: Item<K, V>, key: K, value: V)
    requires DistinctKeys(list) && !Has(list, item.key) && Holds(list, key, value)
    ensures DistinctKeys(list + [item]) && Holds(list + [item], key, value)
  {
    var i := IndexOf(list, key);
    assert (list + [item])[i] == list[i];
    HoldsAt(list + [item], i);
  }

  lemma {:induction false} AppendKeepsIncluded<K, V>(a: seq<Item<K, V>>, b: seq<Item<V, K>>, key: K, value: V)
    requires Includes(a, b) && DistinctKeys(b) && !Has(b, value)
    ensures DistinctKeys(b + [Item(value, key, 1)])
    ensures Includes(a + [Item(key, value, 1)], b + [Item(value, key, 1)])
  {
    var a', b' := a + [Item(key, value, 1)], b + [Item(value, key, 1)];
    HoldsAt(b', |b|);
    forall i | 0 <= i < |a'| ensures Holds(b', a'[i].value, a'[i].key) {
      if i < |a| {
        assert a'[i] == a[i] && Holds(b, a[i].value, a[i].key);
        AppendKeepsEntry(b, Item(value, key, 1), a[i].value, a[i].key);
      }
    }
  }

  lemma {:induction false} AppendKeepsSame<F>(encoder: seq<Item<F, nat>>, decoder: seq<Item<nat, F>>, field: F,
                                              code: nat)
    requires SameEntries(encoder, decoder) && !Has(encoder, field) && !Has(decoder, code)
    ensures SameEntries(encoder + [Item(field, code, 1)], decoder + [Item(code, field, 1)])
  {
    AppendKeepsIncluded(encoder, decoder, field, code);
    AppendKeepsIncluded(decoder, encoder, code, field);
  }

  lemma {:induction false} CloneHit<F>(policy: Policy, e: FieldCache<F>, d: FieldCache<F>, field: F)
    requires IsClone(e, d) && Has(e.encoder, field)
    ensures var (e', m) := TryEncode(policy, e, field);
            && CanDecode(d, m)
            && var (d', f) := Decode(policy, d, m);
            f == field && IsClone(e', d')
  {
    EncoderStaysSound(policy, e, field);
    var i := IndexOf(e.encoder, field);
    assert Holds(d.decoder, e.encoder[i].value, e.encoder[i].key);
    TouchKeepsSame(policy, e.encoder, d.decoder, i, IndexOf(d.decoder, e.encoder[i].value));
  }

  lemma {:induction false} CloneMiss<F>(policy: Policy, e: FieldCache<F>, d: FieldCache<F>, field: F)
    requires IsClone(e, d) && !Has(e.encoder, field) && |e.encoder| < e.size
    ensures var (e', m) := TryEncode(policy, e, field);
            && CanDecode(d, m)
            && var (d', f) := Decode(policy, d, m);
            f == field && IsClone(e', d')
  {
    EncoderStaysSound(policy, e, field);
    forall j | 0 <= j < |d.decoder| ensures d.decoder[j].key != e.encoding + 1 {
      assert Holds(e.encoder, d.decoder[j].value, d.decoder[j].key);
      assert e.encoder[IndexOf(e.encoder, d.decoder[j].value)].value <= e.encoding;
    }
    AppendKeepsSame(e.encoder, d.decoder, field, e.encoding + 1);
  }

  lemma {:induction false} CloneStep<F>(policy: Policy, e: FieldCache<F>, d: FieldCache<F>, field: F)
    requires IsClone(e, d) && (Has(e.encoder, field) || |e.encoder| < e.size)
    ensures var (e', m) := TryEncode(policy, e, field);
            && CanDecode(d, m)
            && var (d', f) := Decode(policy, d, m);
            f == field && IsClone(e', d')
  {
    if Has(e.encoder, field) {
      CloneHit(policy, e, d, field);
    } else {
      CloneMiss(policy, e, d, field);
    }
  }

  /** A clone, however it was ordered, decodes every stream that evicts nothing. */
  lemma {:induction false} CloneUntilEviction<F>(policy: Policy, e: FieldCache<F>, d: FieldCache<F>, fields: seq<F>)
    requires IsClone(e, d) && EvictionFree(policy, e, fields)
    ensures DecodeAll(policy, d, EncodeAll(policy, e, fields).1) == Some(fields)
    decreases |fields|
  {
    if |fields| > 0 {
      CloneStep(policy, e, d, fields[0]);
      var (e', m) := TryEncode(policy, e, fields[0]);
      CloneUntilEviction(policy, e', Decode(policy, d, m).0, fields[1..]);
      DecodeFirst(policy, e, d, fields);
    }
  }

  /** A stream is decoded to itself if its first field is, and the rest is from there on. */
  lemma {:induction false} DecodeFirst<F>(policy: Policy, e: FieldCache<F>, d: FieldCache<F>, fields: seq<F>)
    requires e.size > 0 && d.size > 0 && |fields| > 0
    ensures var (e', m) := TryEncode(policy, e, fields[0]);
            CanDecode(d, m) ==>
              var (d', f) := Decode(policy, d, m);
              (DecodeAll(policy, d, EncodeAll(policy, e, fields).1) == Some(fields)) <==>
              (f == fields[0] && DecodeAll(policy, d', EncodeAll(policy, e', fields[1..]).1) == Some(fields[1..]))
  {
    var (e', m) := TryEncode(policy, e, fields[0]);
    var messages := EncodeAll(policy, e, fields).1;
    assert messages[0] == m && messages[1..] == EncodeAll(policy, e', fields[1..]).1;
    if CanDecode(d, m) {
      var (d', f) := Decode(policy, d, m);
      var rest := DecodeAll(policy, d', messages[1..]);
      if rest.Some? {
        assert ([f] + rest.value)[0] == f && ([f] + rest.value)[1..] == rest.value;
        assert fields == [fields[0]] + fields[1..];
      }
    }
  }

  // Where the first eviction decides.

  /** The encoder's entries with fields and codes exchanged, all counted once. */
  function Uncount<F>(encoder: seq<Item<F, nat>>): seq<Item<nat, F>> {
    seq(|encoder|, i requires 0 <= i < |encoder| => Swap(encoder[i]).(count := 1))
  }

  /** The clone whose iteration order put entry `v` of the encoder last. */
  function ReorderedClone<F>(e: FieldCache<F>, v: nat): FieldCache<F>
    requires v < |e.encoder|
  {
    e.(encoder := [], decoder := Touch(LeastRecentlyUsed, Uncount(e.encoder), v))
  }

  lemma {:induction false} UncountedSame<F>(encoder: seq<Item<F, nat>>, encoding: nat)
    requires CodesSound(encoder, encoding)
    ensures SameEntries(encoder, Uncount(encoder))
  {
    var dec := Uncount(encoder);
    assert DistinctKeys(dec);
    assert Includes(encoder, dec) by {
      forall i | 0 <= i < |encoder| ensures Holds(dec, encoder[i].value, encoder[i].key) {
        HoldsAt(dec, i);
      }
    }
    assert Includes(dec, encoder) by {
      forall i | 0 <= i < |encoder| ensures Holds(encoder, dec[i].value, dec[i].key) {
        HoldsAt(encoder, i);
      }
    }
  }

  lemma {:induction false} ReorderedIsClone<F>(e: FieldCache<F>, v: nat)
    requires EncoderSound(e) && v < |e.encoder|
    ensures var d := ReorderedClone(e, v);
            && IsClone(e, d) && Uncounted(d.decoder)
            && d.decoder[0].key == e.encoder[if v == 0 && |e.encoder| > 1 then 1 else 0].value
  {
    var dec := Uncount(e.encoder);
    UncountedSame(e.encoder, e.encoding);
    TouchIsDistinct(LeastRecentlyUsed, dec, v);
    TouchKeepsIncluded(LeastRecentlyUsed, dec, v, e.encoder);
    TouchKeepsIncluding(LeastRecentlyUsed, e.encoder, dec, v);
  }

  /** After a new field a full encoder knows it by the code of its victim. */
  lemma {:induction false} NewFieldTakesVictimsCode<F>(e: FieldCache<F>, field: F)
    requires EncoderSound(e) && |e.encoder| == e.size && !Has(e.encoder, field)
    ensures var (e', m) := TryEncode(LFU, e, field);
            && m == NotEncoded(field)
            && TryEncode(LFU, e', field).1 == Encoded(e.encoder[Victim(LFU, e.encoder)].value)
  {
    var e' := TryEncode(LFU, e, field).0;
    EncoderStaysSound(LFU, e, field);
    assert !Has(Evict(LFU, e.encoder), field);
    HoldsAt(e'.encoder, |e'.encoder| - 1);
  }

  /** A clone that evicts its first entry still has its other entries after a new field. */
  lemma {:induction false} CloneKeepsOthers<F>(d: FieldCache<F>, field: F, code: nat, other: F)
    requires DistinctKeys(d.decoder) && Uncounted(d.decoder) && |d.decoder| == d.size > 0
    requires Holds(d.decoder, code, other) && code != d.decoder[0].key
    ensures var d' := Decode(LFU, d, NotEncoded(field)).0;
            Holds(d'.decoder, code, other)
  {
    assert Victim(LFU, d.decoder) == 0;
    var k, rest := IndexOf(d.decoder, code), Evict(LFU, d.decoder);
    assert DistinctKeys(rest) && !Has(rest, d.decoder[0].key);
    assert rest[k - 1] == d.decoder[k];
    HoldsAt(rest, k - 1);
    AppendKeepsEntry(rest, Item(d.decoder[0].key, field, 1), code, other);
  }

  predicate DecodesRight<F(==)>(e: FieldCache<F>, d: FieldCache<F>, fields: seq<F>)
    requires e.size > 0 && d.size > 0
  {
    DecodeAll(LFU, d, EncodeAll(LFU, e, fields).1) == Some(fields)
  }

  /** A full clone whose first entry is not the one that its encoder evicts misreads a new field sent twice. */
  lemma {:induction false} FullCloneFails<F>(e: FieldCache<F>, d: FieldCache<F>, field: F)
    requires IsClone(e, d) && Uncounted(d.decoder) && |e.encoder| == e.size && !Has(e.encoder, field)
    requires d.decoder[0].key != e.encoder[Victim(LFU, e.encoder)].value
    ensures !DecodesRight(e, d, [field, field])
  {
    var v := Victim(LFU, e.encoder);
    NewFieldTakesVictimsCode(e, field);
    assert Holds(d.decoder, e.encoder[v].value, e.encoder[v].key);
    CloneKeepsOthers(d, field, e.encoder[v].value, e.encoder[v].key);
    var e', d' := TryEncode(LFU, e, field).0, Decode(LFU, d, NotEncoded(field)).0;
    DecodeFirst(LFU, e, d, [field, field]);
    DecodeFirst(LFU, e', d', [field]);
    assert [field, field][1..] == [field];
  }

  /** With room for one entry only, encoder and clone always evict the same one. */
  lemma {:induction false} SingleEntryClone<F>(e: FieldCache<F>, d: FieldCache<F>, fields: seq<F>)
    requires IsClone(e, d) && e.size == 1 && |e.encoder| == 1
    ensures DecodeAll(LFU, d, EncodeAll(LFU, e, fields).1) == Some(fields)
    decreases |fields|
  {
    if |fields| > 0 {
      var field := fields[0];
      if Has(e.encoder, field) {
        CloneHit(LFU, e, d, field);
      } else {
        SingleEntryMiss(e, d, field);
      }
      var (e', m) := TryEncode(LFU, e, field);
      SingleEntryClone(e', Decode(LFU, d, m).0, fields[1..]);
      DecodeFirst(LFU, e, d, fields);
    }
  }

  lemma {:induction false} SingleEntryMiss<F>(e: FieldCache<F>, d: FieldCache<F>, field: F)
    requires IsClone(e, d) && e.size == 1 && |e.encoder| == 1 && !Has(e.encoder, field)
    ensures var (e', m) := TryEncode(LFU, e, field);
            && m == NotEncoded(field)
            && IsClone(e', Decode(LFU, d, m).0)
  {
    EncoderStaysSound(LFU, e, field);
    assert Holds(e.encoder, d.decoder[0].value, d.decoder[0].key);
    var code := e.encoder[0].value;
    assert Evict(LFU, e.encoder) == [] && Evict(LFU, d.decoder) == [];
    assert SameEntries<F>([], []);
    AppendKeepsSame([], [], field, code);
  }

  // A cache with room is filled first.

  ghost predicate Unseen<F>(e: FieldCache<F>, fields: seq<F>) {
    && (forall i :: 0 <= i < |fields| ==> !Has(e.encoder, fields[i]))
    && (forall i, j :: 0 <= i < j < |fields| ==> fields[i] != fields[j])
  }

  /** A new field that fits is appended on both sides, counted once. */
  lemma {:induction false} FillOne<F>(e: FieldCache<F>, d: FieldCache<F>, field: F)
    requires IsClone(e, d) && Uncounted(d.decoder) && !Has(e.encoder, field) && |e.encoder| < e.size
    ensures var (e', m) := TryEncode(LFU, e, field);
            && CanDecode(d, m)
            && var (d', f) := Decode(LFU, d, m);
            && f == field && IsClone(e', d') && Uncounted(d'.decoder)
            && e'.encoder == e.encoder + [Item(field, e.encoding + 1, 1)]
            && d'.decoder == d.decoder + [Item(e.encoding + 1, field, 1)]
  {
    CloneMiss(LFU, e, d, field);
    forall j | 0 <= j < |d.decoder| ensures d.decoder[j].key != e.encoding + 1 {
      assert Holds(e.encoder, d.decoder[j].value, d.decoder[j].key);
      assert e.encoder[IndexOf(e.encoder, d.decoder[j].value)].value <= e.encoding;
    }
  }

  lemma {:induction false} FilledUnseen<F>(e: FieldCache<F>, e': FieldCache<F>, fields: seq<F>, code: nat)
    requires |fields| > 0 && Unseen(e, fields) && e'.encoder == e.encoder + [Item(fields[0], code, 1)]
    ensures Unseen(e', fields[1..])
  {
    forall i | 0 <= i < |fields| - 1 ensures !Has(e'.encoder, fields[1..][i]) {
      assert !Has(e.encoder, fields[i + 1]) && fields[0] != fields[i + 1];
      forall j | 0 <= j < |e'.encoder| ensures e'.encoder[j].key != fields[i + 1] {
        assert e'.encoder[j] == if j < |e.encoder| then e.encoder[j] else Item(fields[0], code, 1);
      }
    }
  }

  /** Encoder and clone after `n` new fields: the old entries in front, and new ones, counted once, behind. */
  ghost predicate Filled<F>(e: FieldCache<F>, d: FieldCache<F>, e': FieldCache<F>, d': FieldCache<F>, n: nat) {
    && IsClone(e', d') && Uncounted(d'.decoder) && e'.size == e.size
    && |e'.encoder| == |e.encoder| + n && |d'.decoder| >= |d.decoder| > 0 && d'.decoder[0] == d.decoder[0]
    && (forall i :: 0 <= i < |e.encoder| ==> e'.encoder[i] == e.encoder[i])
    && (forall i :: |e.encoder| <= i < |e'.encoder| ==> e'.encoder[i].count == 1)
  }

  lemma {:induction false} FilledMore<F>(e: FieldCache<F>, d: FieldCache<F>, e1: FieldCache<F>, d1: FieldCache<F>,
                                         e': FieldCache<F>, d': FieldCache<F>, n: nat)
    requires Filled(e, d, e1, d1, 1) && Filled(e1, d1, e', d', n)
    ensures Filled(e, d, e', d', n + 1)
  {
    forall i | |e.encoder| <= i < |e'.encoder| ensures e'.encoder[i].count == 1 {
      if i == |e.encoder| {
        assert e'.encoder[i] == e1.encoder[i];
      }
    }
  }

  lemma {:induction false} FillFirst<F>(e: FieldCache<F>, d: FieldCache<F>, fields: seq<F>, last: F)
    returns (e1: FieldCache<F>, d1: FieldCache<F>)
    requires IsClone(e, d) && Uncounted(d.decoder) && |d.decoder| > 0 && |fields| > 0
    requires |e.encoder| + |fields| <= e.size && Unseen(e, fields + [last])
    ensures e1.size == e.size > 0 && d1.size == d.size == e.size && Filled(e, d, e1, d1, 1)
    ensures Unseen(e1, fields[1..] + [last])
    ensures EncodeAll(LFU, e, fields).0 == EncodeAll(LFU, e1, fields[1..]).0
    ensures forall tail :: DecodesRight(e, d, fields + tail) <==> DecodesRight(e1, d1, fields[1..] + tail)
  {
    var all := fields + [last];
    assert all[0] == fields[0] && all[1..] == fields[1..] + [last];
    FillOne(e, d, fields[0]);
    var m := TryEncode(LFU, e, fields[0]).1;
    e1 := TryEncode(LFU, e, fields[0]).0;
    d1 := Decode(LFU, d, m).0;
    FilledUnseen(e, e1, all, e.encoding + 1);
    forall tail ensures DecodesRight(e, d, fields + tail) <==> DecodesRight(e1, d1, fields[1..] + tail) {
      FirstDecoded(e, d, fields, tail);
    }
  }

  lemma {:induction false} FirstDecoded<F>(e: FieldCache<F>, d: FieldCache<F>, fields: seq<F>, tail: seq<F>)
    requires e.size == d.size > 0 && |fields| > 0
    requires var (_, m) := TryEncode(LFU, e, fields[0]); CanDecode(d, m) && Decode(LFU, d, m).1 == fields[0]
    ensures var (e', m) := TryEncode(LFU, e, fields[0]);
            DecodesRight(e, d, fields + tail) <==> DecodesRight(e', Decode(LFU, d, m).0, fields[1..] + tail)
  {
    DecodeFirst(LFU, e, d, fields + tail);
    assert (fields + tail)[0] == fields[0] && (fields + tail)[1..] == fields[1..] + tail;
  }

  /** Unseen fields that fit fill both sides, and what follows is decoded as from the filled caches. */
  lemma {:induction false} Fill<F>(e: FieldCache<F>, d: FieldCache<F>, fields: seq<F>, last: F, tail: seq<F>)
    returns (e': FieldCache<F>, d': FieldCache<F>)
    requires IsClone(e, d) && Uncounted(d.decoder) && |d.decoder| > 0
    requires |e.encoder| + |fields| <= e.size && Unseen(e, fields + [last])
    ensures e' == EncodeAll(LFU, e, fields).0 && Filled(e, d, e', d', |fields|) && !Has(e'.encoder, last)
    ensures DecodesRight(e, d, fields + tail) <==> DecodesRight(e', d', tail)
    decreases |fields|
  {
    if |fields| == 0 {
      e', d' := e, d;
      assert (fields + [last])[0] == last && fields + tail == tail;
    } else {
      var e1, d1 := FillFirst(e, d, fields, last);
      e', d' := Fill(e1, d1, fields[1..], last, tail);
      FilledMore(e, d, e1, d1, e', d', |fields| - 1);
    }
  }

  /** The clones in which every order of eviction is the same: at most one entry, and no count above one. */
  predicate OneOrder<F>(e: FieldCache<F>) {
    e.size == 1 || |e.encoder| == 0 || (|e.encoder| == 1 && e.encoder[0].count == 1)
  }

  lemma {:induction false} OneOrderDecodes<F>(e: FieldCache<F>, d: FieldCache<F>, fields: seq<F>)
    requires IsClone(e, d) && Uncounted(d.decoder) && OneOrder(e)
    ensures DecodesRight(e, d, fields)
  {
    if |e.encoder| == 1 {
      assert Holds(d.decoder, e.encoder[0].value, e.encoder[0].key);
    }
    if |e.encoder| == 1 && e.encoder[0].count != 1 {
      SingleEntryClone(e, d, fields);
    } else {
      assert InStep(e, d);
      StreamRoundTrip(LFU, e, d, fields);
    }
  }

  /** A clone that can be told apart by the first eviction, and the stream that does it. */
  lemma {:induction false} OtherOrdersFail<F>(e: FieldCache<F>, unseen: seq<F>)
    returns (d: FieldCache<F>, fields: seq<F>)
    requires EncoderSound(e) && !OneOrder(e) && forall i :: 0 <= i < |e.encoder| ==> e.encoder[i].count >= 1
    requires |unseen| == e.size - |e.encoder| + 1 && Unseen(e, unseen)
    ensures IsClone(e, d) && Uncounted(d.decoder) && !DecodesRight(e, d, fields)
  {
    var n := |e.encoder|;
    var fill, last := unseen[..e.size - n], unseen[e.size - n];
    assert fill + [last] == unseen;
    ReorderedIsClone(e, 0);
    var filled, _ := Fill(e, ReorderedClone(e, 0), fill, last, []);
    var v := Victim(LFU, filled.encoder);
    var moved := if v < n then v else 0;
    ReorderedIsClone(e, moved);
    d := ReorderedClone(e, moved);
    var e', d' := Fill(e, d, fill, last, [last, last]);
    fields := fill + [last, last];
    if n == 1 {
      assert e'.encoder[1].count == 1;
    }
    FullCloneFails(e', d', last);
  }

  /**
   * Exactly when an LFU clone is safe. Given enough fields that the cache has not seen, every clone decodes
   * every stream if and only if there is room for one entry only, or nothing is cached, or one entry that
   * has been touched once.
   */
  lemma {:induction false} CloneIsExact<F(!new)>(e: FieldCache<F>, unseen: seq<F>)
    requires EncoderSound(e) && forall i :: 0 <= i < |e.encoder| ==> e.encoder[i].count >= 1
    requires |unseen| == e.size - |e.encoder| + 1 && Unseen(e, unseen)
    ensures (forall d, fields :: IsClone(e, d) && Uncounted(d.decoder) ==> DecodesRight(e, d, fields))
            <==> OneOrder(e)
  {
    if OneOrder(e) {
      forall d, fields | IsClone(e, d) && Uncounted(d.decoder) ensures DecodesRight(e, d, fields) {
        OneOrderDecodes(e, d, fields);
      }
    } else {
      var d, fields := OtherOrdersFail(e, unseen);
      assert !DecodesRight(e, d, fields);
    }
  }
}
