/**
 * What a stream of fields leaves in an encoder, told from the stream alone: an LRU cache holds the
 * fields sent last, an LFU cache counts how often each was sent since it was let in.
 */
module CacheStreams {
  import opened Wrappers
  import opened CacheSpec
  import opened UniCache
  import Quorums

  /** The encoder of a new cache after a stream. */
  function EncoderAfter<F(==)>(policy: Policy, size: nat, fields: seq<F>): seq<Item<F, nat>>
    requires size > 0
  {
    EncodeAll(policy, NewCache<F>(size), fields).0.encoder
  }

  function Sent<F(==)>(policy: Policy, size: nat, fields: seq<F>): (messages: seq<MaybeEncoded<F>>)
    requires size > 0
    ensures |messages| == |fields|
  {
    EncodeAll(policy, NewCache<F>(size), fields).1
  }

  lemma {:induction false} EncodeOneMore<F>(policy: Policy, c: FieldCache<F>, fields: seq<F>, field: F)
    requires c.size > 0
    ensures var (c', messages) := EncodeAll(policy, c, fields);
            var (c'', message) := TryEncode(policy, c', field);
            EncodeAll(policy, c, fields + [field]) == (c'', messages + [message])
    decreases |fields|
  {
    if |fields| > 0 {
      var (c1, first) := TryEncode(policy, c, fields[0]);
      var (c', rest) := EncodeAll(policy, c1, fields[1..]);
      var message := TryEncode(policy, c', field).1;
      EncodeOneMore(policy, c1, fields[1..], field);
      assert (fields + [field])[1..] == fields[1..] + [field];
      assert [first] + (rest + [message]) == ([first] + rest) + [message];
    } else {
      assert fields + [field] == [field] && [field][1..] == [];
      assert [] + [TryEncode(policy, c, field).1] == [TryEncode(policy, c, field).1] + [];
    }
  }

  // When a field was sent last.

  function LastSent<F(==)>(fields: seq<F>, field: F): (i: nat)
    requires field in fields
    ensures i < |fields| && fields[i] == field
    ensures forall j :: i < j < |fields| ==> fields[j] != field
  {
    var last := |fields| - 1;
    if fields[last] == field then last else LastSent(fields[..last], field)
  }

  /** The fields sent since `field` was sent last. */
  function SentSince<F(==)>(fields: seq<F>, field: F): set<F>
    requires field in fields
  {
    Quorums.Members(fields[LastSent(fields, field) + 1..])
  }

  lemma {:induction false} LastSentNext<F>(fields: seq<F>, field: F, g: F)
    requires g in fields || g == field
    ensures LastSent(fields + [field], g) == if g == field then |fields| else LastSent(fields, g)
  {
    assert (fields + [field])[..|fields|] == fields;
  }

  /** Every item is of a field that was sent, and one sent later stands later. */
  ghost predicate InOrderSent<F>(list: seq<Item<F, nat>>, fields: seq<F>) {
    && (forall i :: 0 <= i < |list| ==> list[i].key in fields)
    && forall i, j :: 0 <= i < j < |list| ==> LastSent(fields, list[i].key) < LastSent(fields, list[j].key)
  }

  lemma {:induction false} TouchedInOrder<F>(list: seq<Item<F, nat>>, fields: seq<F>, item: Item<F, nat>)
    requires InOrderSent(list, fields) && forall i :: 0 <= i < |list| ==> list[i].key != item.key
    ensures InOrderSent(list + [item], fields + [item.key])
  {
    var all := list + [item];
    forall i | 0 <= i < |all| ensures all[i].key in fields + [item.key] {
      LastSentNext(fields, item.key, all[i].key);
    }
    forall i, j | 0 <= i < j < |all|
      ensures LastSent(fields + [item.key], all[i].key) < LastSent(fields + [item.key], all[j].key)
    {
      LastSentNext(fields, item.key, all[i].key);
      LastSentNext(fields, item.key, all[j].key);
    }
  }

  lemma {:induction false} WithoutInOrder<F>(list: seq<Item<F, nat>>, fields: seq<F>, i: nat)
    requires InOrderSent(list, fields) && i < |list|
    ensures InOrderSent(Without(list, i), fields)
  {
  }

  /** Under both policies the list is in the order of last occurrence. */
  lemma {:induction false} EncodeInOrder<F>(policy: Policy, c: FieldCache<F>, fields: seq<F>, field: F)
    requires EncoderSound(c) && InOrderSent(c.encoder, fields)
    ensures InOrderSent(TryEncode(policy, c, field).0.encoder, fields + [field])
  {
    if Has(c.encoder, field) {
      var i := IndexOf(c.encoder, field);
      WithoutInOrder(c.encoder, fields, i);
      TouchedInOrder(Without(c.encoder, i), fields, Touched(policy, c.encoder[i]));
    } else if |c.encoder| == c.size {
      var v := Victim(policy, c.encoder);
      WithoutInOrder(c.encoder, fields, v);
      assert !Has(Without(c.encoder, v), field);
      TouchedInOrder(Without(c.encoder, v), fields, Item(field, c.encoder[v].value, 1));
    } else {
      TouchedInOrder(c.encoder, fields, Item(field, c.encoding + 1, 1));
    }
  }

  lemma {:induction false} StreamStaysSound<F>(policy: Policy, size: nat, fields: seq<F>)
    requires size > 0
    ensures EncoderSound(EncodeAll(policy, NewCache<F>(size), fields).0)
  {
    StreamRoundTrip(policy, NewCache<F>(size), NewCache<F>(size), fields);
  }

  /** After every stream the fields stand in the order in which they were sent last. */
  lemma {:induction false} StreamInOrder<F>(policy: Policy, size: nat, fields: seq<F>)
    requires size > 0
    ensures InOrderSent(EncoderAfter(policy, size, fields), fields)
  {
    if |fields| > 0 {
      var before, field := fields[..|fields| - 1], fields[|fields| - 1];
      StreamInOrder(policy, size, before);
      StreamStaysSound(policy, size, before);
      assert fields == before + [field];
      EncodeOneMore(policy, NewCache<F>(size), before, field);
      EncodeInOrder(policy, EncodeAll(policy, NewCache<F>(size), before).0, before, field);
    }
  }

  /** The field for which a full cache gives up another one. */
  predicate Evicts<F(==)>(c: FieldCache<F>, field: F) {
    !Has(c.encoder, field) && |c.encoder| == c.size
  }

  lemma {:induction false} HasAppended<F>(list: seq<Item<F, nat>>, item: Item<F, nat>, f: F)
    ensures Has(list + [item], f) <==> f == item.key || Has(list, f)
  {
    var all := list + [item];
    assert all[|list|] == item;
    if Has(list, f) {
      var i :| 0 <= i < |list| && list[i].key == f;
      assert all[i].key == f;
    }
  }

  lemma {:induction false} HasWithout<F>(list: seq<Item<F, nat>>, i: nat, f: F)
    requires DistinctKeys(list) && i < |list|
    ensures Has(Without(list, i), f) <==> Has(list, f) && f != list[i].key
  {
    if Has(list, f) && f != list[i].key {
      var j :| 0 <= j < |list| && list[j].key == f;
      assert Without(list, i)[if j < i then j else j - 1].key == f;
    }
  }

  /** Which fields are held after one more is sent. */
  lemma {:induction false} EncodeHolds<F>(policy: Policy, c: FieldCache<F>, field: F, f: F)
    requires EncoderSound(c)
    ensures Has(TryEncode(policy, c, field).0.encoder, f) <==>
            f == field || (Has(c.encoder, f) && (Evicts(c, field) ==> f != c.encoder[Victim(policy, c.encoder)].key))
  {
    if Has(c.encoder, field) {
      var i := IndexOf(c.encoder, field);
      HasWithout(c.encoder, i, f);
      HasAppended(Without(c.encoder, i), Touched(policy, c.encoder[i]), f);
    } else if |c.encoder| == c.size {
      var v := Victim(policy, c.encoder);
      HasWithout(c.encoder, v, f);
      assert !Has(Without(c.encoder, v), field);
      HasAppended(Without(c.encoder, v), Item(field, c.encoder[v].value, 1), f);
    } else {
      HasAppended(c.encoder, Item(field, c.encoding + 1, 1), f);
    }
  }

  // LRU: the fields sent last.

  /** Whatever was sent and is not held was last sent before all that is held, and the cache is full. */
  ghost predicate DropsOldest<F>(c: FieldCache<F>, fields: seq<F>) {
    && InOrderSent(c.encoder, fields)
    && forall f :: f in fields && !Has(c.encoder, f) ==>
         && |c.encoder| == c.size > 0
         && forall i :: 0 <= i < |c.encoder| ==> LastSent(fields, f) < LastSent(fields, c.encoder[i].key)
  }

  /** The first item, if any is given up, was sent before all that are then held. */
  lemma {:induction false} KeptAreLater<F>(c: FieldCache<F>, fields: seq<F>, field: F, k: nat)
    requires EncoderSound(c) && InOrderSent(c.encoder, fields) && |c.encoder| > 0
    requires k < |TryEncode(LRU, c, field).0.encoder|
    ensures var g := TryEncode(LRU, c, field).0.encoder[k].key;
            && (g in fields || g == field)
            && var (first, at) := (LastSent(fields, c.encoder[0].key), LastSent(fields + [field], g));
            if Evicts(c, field) then first < at else first <= at
  {
    var g := TryEncode(LRU, c, field).0.encoder[k].key;
    if g == field {
      LastSentNext(fields, field, g);
    } else {
      EncodeHolds(LRU, c, field, g);
      LastSentNext(fields, field, g);
    }
  }

  lemma {:induction false} EncodeDropsOldest<F>(c: FieldCache<F>, fields: seq<F>, field: F)
    requires EncoderSound(c) && DropsOldest(c, fields)
    ensures DropsOldest(TryEncode(LRU, c, field).0, fields + [field])
  {
    var c', fields' := TryEncode(LRU, c, field).0, fields + [field];
    EncodeInOrder(LRU, c, fields, field);
    forall f | f in fields' && !Has(c'.encoder, f)
      ensures |c.encoder| == |c'.encoder| == c'.size > 0
      ensures forall i :: 0 <= i < |c'.encoder| ==> LastSent(fields', f) < LastSent(fields', c'.encoder[i].key)
    {
      EncodeHolds(LRU, c, field, f);
      LastSentNext(fields, field, f);
      forall i | 0 <= i < |c'.encoder| ensures LastSent(fields', f) < LastSent(fields', c'.encoder[i].key) {
        KeptAreLater(c, fields, field, i);
      }
    }
  }

  lemma {:induction false} SentSinceIs<F>(fields: seq<F>, f: F, g: F)
    requires f in fields
    ensures g in SentSince(fields, f) <==> g in fields && LastSent(fields, f) < LastSent(fields, g)
  {
    var i := LastSent(fields, f);
    if g in fields[i + 1..] {
      var j :| 0 <= j < |fields| - i - 1 && fields[i + 1..][j] == g;
      assert fields[i + 1 + j] == g;
    }
    if g in fields && i < LastSent(fields, g) {
      assert fields[i + 1..][LastSent(fields, g) - i - 1] == g;
    }
  }

  function KeysFrom<F(==)>(list: seq<Item<F, nat>>, i: nat): set<F>
    requires i <= |list|
  {
    set j | i <= j < |list| :: list[j].key
  }

  lemma {:induction false} KeysFromCounted<F>(list: seq<Item<F, nat>>, i: nat)
    requires DistinctKeys(list) && i <= |list|
    ensures |KeysFrom(list, i)| == |list| - i
    decreases |list| - i
  {
    if i < |list| {
      KeysFromCounted(list, i + 1);
      assert KeysFrom(list, i) == {list[i].key} + KeysFrom(list, i + 1);
    } else {
      assert KeysFrom(list, i) == {};
    }
  }

  lemma {:induction false} HeldHasFewSince<F>(c: FieldCache<F>, fields: seq<F>, f: F)
    requires EncoderSound(c) && DropsOldest(c, fields) && f in fields && Has(c.encoder, f)
    ensures |SentSince(fields, f)| < c.size
  {
    var i := IndexOf(c.encoder, f);
    KeysFromCounted(c.encoder, i + 1);
    forall g | g in SentSince(fields, f) ensures g in KeysFrom(c.encoder, i + 1) {
      SentSinceIs(fields, f, g);
      assert Has(c.encoder, g);
      assert IndexOf(c.encoder, g) > i;
    }
    Quorums.SubsetCardinality(SentSince(fields, f), KeysFrom(c.encoder, i + 1));
  }

  lemma {:induction false} DroppedHasManySince<F>(c: FieldCache<F>, fields: seq<F>, f: F)
    requires EncoderSound(c) && DropsOldest(c, fields) && f in fields && !Has(c.encoder, f)
    ensures |SentSince(fields, f)| >= c.size
  {
    KeysFromCounted(c.encoder, 0);
    forall g | g in KeysFrom(c.encoder, 0) ensures g in SentSince(fields, f) {
      SentSinceIs(fields, f, g);
    }
    Quorums.SubsetCardinality(KeysFrom(c.encoder, 0), SentSince(fields, f));
  }

  lemma {:induction false} StreamDropsOldest<F>(size: nat, fields: seq<F>)
    requires size > 0
    ensures DropsOldest(EncodeAll(LRU, NewCache<F>(size), fields).0, fields)
  {
    if |fields| > 0 {
      var before, field := fields[..|fields| - 1], fields[|fields| - 1];
      StreamDropsOldest(size, before);
      StreamStaysSound(LRU, size, before);
      assert fields == before + [field];
      EncodeOneMore(LRU, NewCache<F>(size), before, field);
      EncodeDropsOldest(EncodeAll(LRU, NewCache<F>(size), before).0, before, field);
    }
  }

  /**
   * After every stream an LRU encoder holds exactly the fields since whose last occurrence fewer than
   * `size` others were sent, each once and in the order of their last occurrences.
   */
  lemma {:induction false} LruHoldsLastSent<F>(size: nat, fields: seq<F>)
    requires size > 0
    ensures var list := EncoderAfter(LRU, size, fields);
            && DistinctKeys(list) && InOrderSent(list, fields)
            && forall f :: f in fields ==> (Has(list, f) <==> |SentSince(fields, f)| < size)
  {
    StreamDropsOldest(size, fields);
    StreamStaysSound(LRU, size, fields);
    forall f | f in fields ensures Has(EncoderAfter(LRU, size, fields), f) <==> |SentSince(fields, f)| < size {
      var c := EncodeAll(LRU, NewCache<F>(size), fields).0;
      if Has(c.encoder, f) {
        HeldHasFewSince(c, fields, f);
      } else {
        DroppedHasManySince(c, fields, f);
      }
    }
  }

  lemma {:induction false} StreamPrefix<F>(policy: Policy, size: nat, fields: seq<F>, i: nat)
    requires size > 0 && i < |fields|
    ensures var c := EncodeAll(policy, NewCache<F>(size), fields[..i]).0;
            Sent(policy, size, fields)[i] == TryEncode(policy, c, fields[i]).1
    decreases |fields|
  {
    var before, last := fields[..|fields| - 1], fields[|fields| - 1];
    assert fields == before + [last];
    EncodeOneMore(policy, NewCache<F>(size), before, last);
    if i < |before| {
      StreamPrefix(policy, size, before, i);
      assert before[..i] == fields[..i];
    } else {
      assert before == fields[..i];
    }
  }

  /** An LRU cache sends a code exactly for a field sent before, with fewer than `size` others since. */
  lemma {:induction false} LruSendsCodeIff<F>(size: nat, fields: seq<F>, i: nat)
    requires size > 0 && i < |fields|
    ensures Sent(LRU, size, fields)[i].Encoded? <==>
            fields[i] in fields[..i] && |SentSince(fields[..i], fields[i])| < size
  {
    StreamPrefix(LRU, size, fields, i);
    LruHoldsLastSent(size, fields[..i]);
    var list := EncoderAfter(LRU, size, fields[..i]);
    if Has(list, fields[i]) {
      assert list[IndexOf(list, fields[i])].key in fields[..i];
    }
  }

  // LFU: how often a field was sent.

  /** How often `f` was sent since it was last sent in full. */
  function SentSinceLetIn<F(==)>(fields: seq<F>, messages: seq<MaybeEncoded<F>>, f: F): nat
    requires |messages| == |fields| && NotEncoded(f) in messages
  {
    multiset(fields[LastSent(messages, NotEncoded(f))..])[f]
  }

  ghost predicate CountsSent<F>(list: seq<Item<F, nat>>, fields: seq<F>, messages: seq<MaybeEncoded<F>>)
    requires |messages| == |fields|
  {
    forall i :: 0 <= i < |list| ==>
      NotEncoded(list[i].key) in messages && list[i].count == SentSinceLetIn(fields, messages, list[i].key)
  }

  /** One more field sent, with `message`. */
  lemma {:induction false} LetInNext<F>(fields: seq<F>, messages: seq<MaybeEncoded<F>>, field: F,
                                        message: MaybeEncoded<F>, g: F)
    requires |messages| == |fields| && (message.NotEncoded? ==> message.field == field)
    requires message == NotEncoded(g) || NotEncoded(g) in messages
    ensures SentSinceLetIn(fields + [field], messages + [message], g) ==
            if message == NotEncoded(g) then 1
            else SentSinceLetIn(fields, messages, g) + if g == field then 1 else 0
  {
    LastSentNext(messages, message, NotEncoded(g));
    var at := LastSent(messages + [message], NotEncoded(g));
    assert (fields + [field])[at..] == fields[at..] + [field];
  }

  lemma {:induction false} WithoutCounts<F>(list: seq<Item<F, nat>>, fields: seq<F>, messages: seq<MaybeEncoded<F>>,
                                            i: nat)
    requires |messages| == |fields| && CountsSent(list, fields, messages) && i < |list|
    ensures CountsSent(Without(list, i), fields, messages)
  {
  }

  /** The items of other fields stay as they are, and one of the field itself is added. */
  lemma {:induction false} AppendCounts<F>(list: seq<Item<F, nat>>, fields: seq<F>, messages: seq<MaybeEncoded<F>>,
                                           item: Item<F, nat>, message: MaybeEncoded<F>)
    requires |messages| == |fields| && CountsSent(list, fields, messages)
    requires forall i :: 0 <= i < |list| ==> list[i].key != item.key
    requires message.NotEncoded? ==> message.field == item.key && item.count == 1
    requires message.Encoded? ==> NotEncoded(item.key) in messages
                                  && item.count == SentSinceLetIn(fields, messages, item.key) + 1
    ensures CountsSent(list + [item], fields + [item.key], messages + [message])
  {
    var all := list + [item];
    forall i | 0 <= i < |all|
      ensures NotEncoded(all[i].key) in messages + [message]
      ensures all[i].count == SentSinceLetIn(fields + [item.key], messages + [message], all[i].key)
    {
      LetInNext(fields, messages, item.key, message, all[i].key);
    }
  }

  lemma {:induction false} EncodeCounts<F>(c: FieldCache<F>, fields: seq<F>, messages: seq<MaybeEncoded<F>>, field: F)
    requires EncoderSound(c) && |messages| == |fields| && CountsSent(c.encoder, fields, messages)
    ensures var (c', message) := TryEncode(LFU, c, field);
            CountsSent(c'.encoder, fields + [field], messages + [message])
  {
    var message := TryEncode(LFU, c, field).1;
    if Has(c.encoder, field) {
      var i := IndexOf(c.encoder, field);
      WithoutCounts(c.encoder, fields, messages, i);
      AppendCounts(Without(c.encoder, i), fields, messages, Touched(LFU, c.encoder[i]), message);
    } else if |c.encoder| == c.size {
      var v := Victim(LFU, c.encoder);
      WithoutCounts(c.encoder, fields, messages, v);
      assert !Has(Without(c.encoder, v), field);
      AppendCounts(Without(c.encoder, v), fields, messages, Item(field, c.encoder[v].value, 1), message);
    } else {
      AppendCounts(c.encoder, fields, messages, Item(field, c.encoding + 1, 1), message);
    }
  }

  /** After every stream an LFU encoder has counted how often each field was sent since it was let in. */
  lemma {:induction false} LfuCountsSent<F>(size: nat, fields: seq<F>)
    requires size > 0
    ensures CountsSent(EncoderAfter(LFU, size, fields), fields, Sent(LFU, size, fields))
    ensures InOrderSent(EncoderAfter(LFU, size, fields), fields)
  {
    StreamInOrder(LFU, size, fields);
    if |fields| > 0 {
      var before, field := fields[..|fields| - 1], fields[|fields| - 1];
      LfuCountsSent(size, before);
      StreamStaysSound(LFU, size, before);
      assert fields == before + [field];
      EncodeOneMore(LFU, NewCache<F>(size), before, field);
      EncodeCounts(EncodeAll(LFU, NewCache<F>(size), before).0, before, Sent(LFU, size, before), field);
    }
  }

  /** `v` was sent less often than `g` since it was let in, or as often and last before it. */
  ghost predicate RarerThan<F(!new)>(fields: seq<F>, messages: seq<MaybeEncoded<F>>, v: F, g: F)
    requires |messages| == |fields| && NotEncoded(v) in messages && NotEncoded(g) in messages
    requires v in fields && g in fields
  {
    var (a, b) := (SentSinceLetIn(fields, messages, v), SentSinceLetIn(fields, messages, g));
    a < b || (a == b && LastSent(fields, v) < LastSent(fields, g))
  }

  /**
   * A full LFU encoder gives up, for a field that it does not hold, the one sent least often since it was
   * let in, and among several the one sent longest ago. Otherwise it gives up nothing.
   */
  lemma {:induction false} LfuEvictsRarest<F(!new)>(size: nat, fields: seq<F>, field: F) returns (v: F)
    requires size > 0
    ensures var (list, list') := (EncoderAfter(LFU, size, fields), EncoderAfter(LFU, size, fields + [field]));
            var messages := Sent(LFU, size, fields);
            if Has(list, field) || |list| < size then forall g :: Has(list', g) <==> g == field || Has(list, g)
            else
              && Has(list, v) && v in fields && NotEncoded(v) in messages
              && (forall g :: Has(list', g) <==> g == field || (Has(list, g) && g != v))
              && forall g :: Has(list, g) && g != v ==>
                   g in fields && NotEncoded(g) in messages && RarerThan(fields, messages, v, g)
  {
    var c, messages := EncodeAll(LFU, NewCache<F>(size), fields).0, Sent(LFU, size, fields);
    StreamStaysSound(LFU, size, fields);
    EncodeOneMore(LFU, NewCache<F>(size), fields, field);
    LfuCountsSent(size, fields);
    forall g
      ensures Has(TryEncode(LFU, c, field).0.encoder, g) <==>
              g == field || (Has(c.encoder, g) && (Evicts(c, field) ==> g != c.encoder[Victim(LFU, c.encoder)].key))
    {
      EncodeHolds(LFU, c, field, g);
    }
    v := field;
    if Evicts(c, field) {
      var i := Victim(LFU, c.encoder);
      v := c.encoder[i].key;
      forall g | Has(c.encoder, g) && g != v
        ensures g in fields && NotEncoded(g) in messages && RarerThan(fields, messages, v, g)
      {
        var j :| 0 <= j < |c.encoder| && c.encoder[j].key == g;
        assert c.encoder[i].count <= c.encoder[j].count;
      }
    }
  }
}
