/**
 * UniCache: an encoder replaces fields it has seen by small codes and a remote decoder, fed only the
 * results, must return the fields, while both evict. Stated once for both eviction policies.
 */
module UniCache {
  import opened Wrappers
  import opened CacheSpec

  datatype MaybeEncoded<F> = Encoded(code: nat) | NotEncoded(field: F)

  /** The cache of a field: an encoder, a decoder, the last code handed out and the capacity. */
  datatype FieldCache<F> = FieldCache(encoder: seq<Item<F, nat>>, decoder: seq<Item<nat, F>>, encoding: nat, size: nat)

  function NewCache<F>(size: nat): FieldCache<F> {
    FieldCache([], [], 0, size)
  }

  function TryEncode<F(==)>(policy: Policy, c: FieldCache<F>, field: F): (r: (FieldCache<F>, MaybeEncoded<F>))
    requires c.size > 0
    ensures r.0.size == c.size
  {
    if Has(c.encoder, field) then
      (c.(encoder := Get(policy, c.encoder, field)), Encoded(Peek(c.encoder, field).value))
    else if |c.encoder| == c.size then
      var code := c.encoder[Victim(policy, c.encoder)].value;
      (c.(encoder := Set(policy, c.size, Evict(policy, c.encoder), field, code)), NotEncoded(field))
    else
      var code := c.encoding + 1;
      (c.(encoder := Set(policy, c.size, c.encoder, field, code), encoding := code), NotEncoded(field))
  }

  /** Decoding a code that the decoder does not hold is a panic in the source. */
  predicate CanDecode<F>(c: FieldCache<F>, message: MaybeEncoded<F>) {
    message.Encoded? ==> Has(c.decoder, message.code)
  }

  function Decode<F>(policy: Policy, c: FieldCache<F>, message: MaybeEncoded<F>): (r: (FieldCache<F>, F))
    requires c.size > 0 && CanDecode(c, message)
    ensures r.0.size == c.size
  {
    match message
    case Encoded(code) => (c.(decoder := Get(policy, c.decoder, code)), Peek(c.decoder, code).value)
    case NotEncoded(field) =>
      if |c.decoder| == c.size then
        var code := c.decoder[Victim(policy, c.decoder)].key;
        (c.(decoder := Set(policy, c.size, Evict(policy, c.decoder), code, field)), field)
      else
        var code := c.encoding + 1;
        (c.(decoder := Set(policy, c.size, c.decoder, code, field), encoding := code), field)
  }

  function EncodeAll<F(==)>(policy: Policy, c: FieldCache<F>, fields: seq<F>)
    : (r: (FieldCache<F>, seq<MaybeEncoded<F>>))
    requires c.size > 0
    ensures r.0.size == c.size && |r.1| == |fields|
    decreases |fields|
  {
    if |fields| == 0 then (c, [])
    else
      var (c', first) := TryEncode(policy, c, fields[0]);
      var (c'', rest) := EncodeAll(policy, c', fields[1..]);
      (c'', [first] + rest)
  }

  /** None if the decoder panics on the way. */
  function DecodeAll<F>(policy: Policy, c: FieldCache<F>, messages: seq<MaybeEncoded<F>>): Option<seq<F>>
    requires c.size > 0
    decreases |messages|
  {
    if |messages| == 0 then Some([])
    else if !CanDecode(c, messages[0]) then None
    else
      var (c', first) := Decode(policy, c, messages[0]);
      match DecodeAll(policy, c', messages[1..])
      case None => None
      case Some(rest) => Some([first] + rest)
  }

  // The mirror invariant.

  function Swap<F>(item: Item<F, nat>): Item<nat, F> {
    Item(item.value, item.key, item.count)
  }

  /** The decoder's list is the encoder's with fields and codes exchanged, position by position. */
  ghost predicate Mirror<F>(encoder: seq<Item<F, nat>>, decoder: seq<Item<nat, F>>) {
    && |encoder| == |decoder|
    && forall i :: 0 <= i < |encoder| ==> decoder[i] == Swap(encoder[i])
  }

  /** As many codes as cached fields have been handed out: 1, 2, ..., at most `size`, each once. */
  ghost predicate EncoderSound<F>(c: FieldCache<F>) {
    && c.size > 0 && c.encoding == |c.encoder| <= c.size
    && CodesSound(c.encoder, c.encoding)
  }

  ghost predicate CodesSound<F>(list: seq<Item<F, nat>>, encoding: nat) {
    && DistinctKeys(list)
    && (forall i :: 0 <= i < |list| ==> 1 <= list[i].value <= encoding)
    && (forall i, j :: 0 <= i < j < |list| ==> list[i].value != list[j].value)
  }

  ghost predicate InStep<F>(e: FieldCache<F>, d: FieldCache<F>) {
    && EncoderSound(e) && Mirror(e.encoder, d.decoder)
    && d.encoding == e.encoding && d.size == e.size
  }

  lemma {:induction false} MirrorHas<F>(e: FieldCache<F>, d: FieldCache<F>, i: nat)
    requires InStep(e, d) && i < |e.encoder|
    ensures Has(d.decoder, e.encoder[i].value) && IndexOf(d.decoder, e.encoder[i].value) == i
    ensures DistinctKeys(d.decoder)
  {
    assert d.decoder[i].key == e.encoder[i].value;
    IndexOfUnique(d.decoder, i);
  }

  /** Taking item `i` out of both lists keeps them mirrored and frees its field and its code. */
  lemma {:induction false} WithoutStaysMirrored<F>(encoder: seq<Item<F, nat>>, decoder: seq<Item<nat, F>>,
                                                   encoding: nat, i: nat)
    requires Mirror(encoder, decoder) && CodesSound(encoder, encoding) && i < |encoder|
    ensures Mirror(Without(encoder, i), Without(decoder, i)) && CodesSound(Without(encoder, i), encoding)
    ensures !Has(Without(encoder, i), encoder[i].key) && !Has(Without(decoder, i), encoder[i].value)
  {
  }

  lemma {:induction false} AppendStaysMirrored<F>(encoder: seq<Item<F, nat>>, decoder: seq<Item<nat, F>>,
                                                  encoding: nat, item: Item<F, nat>)
    requires Mirror(encoder, decoder) && CodesSound(encoder, encoding)
    requires !Has(encoder, item.key) && !Has(decoder, item.value) && 1 <= item.value <= encoding
    ensures Mirror(encoder + [item], decoder + [Swap(item)]) && CodesSound(encoder + [item], encoding)
  {
    forall i | 0 <= i < |encoder| ensures encoder[i].key != item.key && encoder[i].value != item.value {
      assert decoder[i].key == encoder[i].value;
    }
  }

  lemma {:induction false} HitStaysInStep<F>(policy: Policy, e: FieldCache<F>, d: FieldCache<F>, field: F)
    requires InStep(e, d) && Has(e.encoder, field)
    ensures var (e', m) := TryEncode(policy, e, field);
            && CanDecode(d, m)
            && var (d', f) := Decode(policy, d, m);
            f == field && InStep(e', d')
  {
    var i := IndexOf(e.encoder, field);
    MirrorHas(e, d, i);
    WithoutStaysMirrored(e.encoder, d.decoder, e.encoding, i);
    AppendStaysMirrored(Without(e.encoder, i), Without(d.decoder, i), e.encoding, Touched(policy, e.encoder[i]));
  }

  /** Evicting the same position on both sides and adding the new field with the freed code. */
  lemma {:induction false} EvictionStaysInStep<F>(policy: Policy, e: FieldCache<F>, d: FieldCache<F>, field: F)
    requires InStep(e, d) && !Has(e.encoder, field) && |e.encoder| == e.size
    ensures var (e', m) := TryEncode(policy, e, field);
            && CanDecode(d, m)
            && var (d', f) := Decode(policy, d, m);
            f == field && InStep(e', d')
  {
    VictimByCounts(policy, e.encoder, d.decoder);
    var v := Victim(policy, e.encoder);
    WithoutStaysMirrored(e.encoder, d.decoder, e.encoding, v);
    assert !Has(Without(e.encoder, v), field);
    AppendStaysMirrored(Without(e.encoder, v), Without(d.decoder, v), e.encoding, Item(field, e.encoder[v].value, 1));
  }

  lemma {:induction false} NewCodeStaysInStep<F>(policy: Policy, e: FieldCache<F>, d: FieldCache<F>, field: F)
    requires InStep(e, d) && !Has(e.encoder, field) && |e.encoder| < e.size
    ensures var (e', m) := TryEncode(policy, e, field);
            && CanDecode(d, m)
            && var (d', f) := Decode(policy, d, m);
            f == field && InStep(e', d')
  {
    assert !Has(d.decoder, e.encoding + 1);
    AppendStaysMirrored(e.encoder, d.decoder, e.encoding + 1, Item(field, e.encoding + 1, 1));
  }

  /** One field sent and received: the decoder returns it and both sides stay mirrored. */
  lemma {:induction false} StepRoundTrip<F>(policy: Policy, e: FieldCache<F>, d: FieldCache<F>, field: F)
    requires InStep(e, d)
    ensures var (e', m) := TryEncode(policy, e, field);
            && CanDecode(d, m)
            && var (d', f) := Decode(policy, d, m);
            f == field && InStep(e', d')
  {
    if Has(e.encoder, field) {
      HitStaysInStep(policy, e, d, field);
    } else if |e.encoder| == e.size {
      EvictionStaysInStep(policy, e, d, field);
    } else {
      NewCodeStaysInStep(policy, e, d, field);
    }
  }

  /** From any mirrored pair on, every stream of fields is decoded to itself. */
  lemma {:induction false} StreamRoundTrip<F>(policy: Policy, e: FieldCache<F>, d: FieldCache<F>, fields: seq<F>)
    requires InStep(e, d)
    ensures DecodeAll(policy, d, EncodeAll(policy, e, fields).1) == Some(fields)
    ensures EncoderSound(EncodeAll(policy, e, fields).0)
    decreases |fields|
  {
    if |fields| > 0 {
      var (e', m) := TryEncode(policy, e, fields[0]);
      StepRoundTrip(policy, e, d, fields[0]);
      var (d', f) := Decode(policy, d, m);
      StreamRoundTrip(policy, e', d', fields[1..]);
      var messages := EncodeAll(policy, e, fields).1;
      assert messages[0] == m && messages[1..] == EncodeAll(policy, e', fields[1..]).1;
      assert [fields[0]] + fields[1..] == fields;
    }
  }

  /** The round trip of UniCache: a decoder that starts with the encoder returns every stream, at every size. */
  lemma {:induction false} RoundTrip<F>(policy: Policy, size: nat, fields: seq<F>)
    requires size > 0
    ensures DecodeAll(policy, NewCache<F>(size), EncodeAll(policy, NewCache<F>(size), fields).1) == Some(fields)
  {
    StreamRoundTrip(policy, NewCache<F>(size), NewCache<F>(size), fields);
  }

  /** The decoder that mirrors `c`'s encoder. */
  function MirrorOf<F>(c: FieldCache<F>): FieldCache<F> {
    c.(decoder := seq(|c.encoder|, i requires 0 <= i < |c.encoder| => Swap(c.encoder[i])))
  }

  lemma {:induction false} EncoderStaysSound<F>(policy: Policy, c: FieldCache<F>, field: F)
    requires EncoderSound(c)
    ensures var (c', m) := TryEncode(policy, c, field);
            && EncoderSound(c')
            && (m.Encoded? ==> 1 <= m.code <= c.size)
  {
    StepRoundTrip(policy, c, MirrorOf(c), field);
  }

  /** No code sent in a stream exceeds the size of the cache. */
  lemma {:induction false} CodesStayWithinSize<F>(policy: Policy, c: FieldCache<F>, fields: seq<F>, i: nat)
    requires EncoderSound(c) && i < |fields|
    ensures var m := EncodeAll(policy, c, fields).1[i];
            m.Encoded? ==> 1 <= m.code <= c.size
    decreases |fields|
  {
    EncoderStaysSound(policy, c, fields[0]);
    if i > 0 {
      CodesStayWithinSize(policy, TryEncode(policy, c, fields[0]).0, fields[1..], i - 1);
    }
  }

  // Clones.

  /** The decoder filled by pushing the encoder's entries, from the least to the most recently used one. */
  function PushedDecoder<F>(size: nat, encoder: seq<Item<F, nat>>): seq<Item<nat, F>>
    requires size > 0
  {
    if |encoder| == 0 then []
    else
      var last := encoder[|encoder| - 1];
      Set(LeastRecentlyUsed, size, PushedDecoder(size, encoder[..|encoder| - 1]), last.value, last.key)
  }

  /** The clone of an LRU cache: a decoder filled from the encoder, and an encoder that is not used. */
  function LruClone<F>(c: FieldCache<F>): FieldCache<F>
    requires c.size > 0
  {
    FieldCache([], PushedDecoder(c.size, c.encoder), c.encoding, c.size)
  }

  // Clones that keep the entries but not their order or counts.

  predicate Holds<K(==), V(==)>(list: seq<Item<K, V>>, key: K, value: V) {
    Has(list, key) && Peek(list, key) == Some(value)
  }

  /** Every entry of `a` is in `b`, with key and value exchanged. */
  ghost predicate Includes<K, V>(a: seq<Item<K, V>>, b: seq<Item<V, K>>) {
    forall i {:trigger Holds(b, a[i].value, a[i].key)} :: 0 <= i < |a| ==> Holds(b, a[i].value, a[i].key)
  }

  /** The decoder has the encoder's entries, in any order and with any counts. */
  ghost predicate SameEntries<F>(encoder: seq<Item<F, nat>>, decoder: seq<Item<nat, F>>) {
    && |encoder| == |decoder| && DistinctKeys(encoder) && DistinctKeys(decoder)
    && Includes(encoder, decoder) && Includes(decoder, encoder)
  }
}
