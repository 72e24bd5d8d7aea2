/** The tile server's bounded cache: the least recently used entries leave first. */
module LruCache {
  import opened Prelude

  datatype Entry<K, V> = Entry(key: K, value: V)

  function Keys<K, V>(entries: seq<Entry<K, V>>): (keys: seq<K>)
    ensures |keys| == |entries| && forall i | 0 <= i < |keys| :: keys[i] == entries[i].key
  {
    seq(|entries|, i requires 0 <= i < |entries| => entries[i].key)
  }

  function Lookup<K(==), V>(entries: seq<Entry<K, V>>, key: K): Option<V> {
    if entries == [] then None
    else if entries[0].key == key then Some(entries[0].value)
    else Lookup(entries[1..], key)
  }

  function Without<K(==), V>(entries: seq<Entry<K, V>>, key: K): (r: seq<Entry<K, V>>)
    ensures |r| <= |entries|
  {
    if entries == [] then []
    else (if entries[0].key == key then [] else [entries[0]]) + Without(entries[1..], key)
  }

  function Touched<K(==), V>(entries: seq<Entry<K, V>>, key: K): seq<Entry<K, V>> {
    var found := Lookup(entries, key);
    if found.None? then entries else Without(entries, key) + [Entry(key, found.value)]
  }

  function Stored<K(==), V>(entries: seq<Entry<K, V>>, capacity: nat, key: K, value: V): seq<Entry<K, V>> {
    Last(Without(entries, key) + [Entry(key, value)], capacity)
  }

  class TileCache<K(==), V> {
    const capacity: nat
    var entries: seq<Entry<K, V>>
    var hits: nat
    var misses: nat

    constructor (capacity: int)
      ensures this.capacity == if capacity < 1 then 1 else capacity
      ensures entries == [] && hits == 0 && misses == 0
    {
      this.capacity := if capacity < 1 then 1 else capacity;
      entries, hits, misses := [], 0, 0;
    }

    method Get(key: K) returns (value: Option<V>)
      modifies this
      ensures value == Lookup(old(entries), key) && entries == Touched(old(entries), key)
      ensures hits == old(hits) + (if value.Some? then 1 else 0)
      ensures misses == old(misses) + (if value.None? then 1 else 0)
    {
      value := Lookup(entries, key);
      if value.None? {
        misses := misses + 1;
        return;
      }
      entries := Without(entries, key) + [Entry(key, value.value)];
      hits := hits + 1;
    }

    method Put(key: K, value: V)
      modifies this
      ensures entries == Stored(old(entries), capacity, key, value)
      ensures hits == old(hits) && misses == old(misses)
    {
      entries := Without(entries, key) + [Entry(key, value)];
      ghost var grown := entries;
      while |entries| > capacity
        invariant |entries| <= |grown| && entries == Last(grown, |entries|)
        invariant |grown| <= capacity ==> entries == grown
        invariant |grown| > capacity ==> |entries| >= capacity
        invariant hits == old(hits) && misses == old(misses)
      {
        entries := entries[1..];
      }
    }

    method Clear()
      modifies this
      ensures entries == [] && hits == old(hits) && misses == old(misses)
    {
      entries := [];
    }
  }

  // ---------------------------------------------------------------------------------------
  // Which keys a history of operations leaves
  // ---------------------------------------------------------------------------------------

  datatype Op<K, V> = Get(key: K) | Put(key: K, value: V) | Clear

  function AfterOp<K(==), V>(entries: seq<Entry<K, V>>, capacity: nat, op: Op<K, V>): seq<Entry<K, V>> {
    match op
    case Get(key) => Touched(entries, key)
    case Put(key, value) => Stored(entries, capacity, key, value)
    case Clear => []
  }

  function AfterOps<K(==), V>(capacity: nat, ops: seq<Op<K, V>>): seq<Entry<K, V>> {
    if ops == [] then []
    else AfterOp(AfterOps(capacity, ops[..|ops| - 1]), capacity, ops[|ops| - 1])
  }

  function Dropped<K(==)>(keys: seq<K>, key: K): seq<K> {
    if keys == [] then [] else (if keys[0] == key then [] else [keys[0]]) + Dropped(keys[1..], key)
  }

  /**
   * Every key used since the last clear, evicted or not, the most recent use last. A get is a use when the
   * key is among the `capacity` most recent ones, which is when it hits.
   */
  function Recency<K(==), V>(capacity: nat, ops: seq<Op<K, V>>): seq<K> {
    if ops == [] then []
    else
      var before := Recency(capacity, ops[..|ops| - 1]);
      match ops[|ops| - 1]
      case Get(key) => if key in Last(before, capacity) then Dropped(before, key) + [key] else before
      case Put(key, _) => Dropped(before, key) + [key]
      case Clear => []
  }

  /** What was last put under a key since the last clear. */
  function LastPut<K(==), V>(ops: seq<Op<K, V>>, key: K): Option<V> {
    if ops == [] then None
    else
      match ops[|ops| - 1]
      case Get(_) => LastPut(ops[..|ops| - 1], key)
      case Put(k, value) => if k == key then Some(value) else LastPut(ops[..|ops| - 1], key)
      case Clear => None
  }

  lemma {:induction false} DroppedMembers<K(!new)>(keys: seq<K>, key: K)
    ensures forall k :: k in Dropped(keys, key) <==> k in keys && k != key
    ensures key !in keys ==> Dropped(keys, key) == keys
  {
    if keys != [] {
      DroppedMembers(keys[1..], key);
      assert keys == [keys[0]] + keys[1..];
    }
  }

  lemma {:induction false} DroppedKeepsDistinct<K(!new)>(keys: seq<K>, key: K)
    requires Distinct(keys)
    ensures Distinct(Dropped(keys, key)) && key !in Dropped(keys, key)
    ensures |Dropped(keys, key)| == |keys| - if key in keys then 1 else 0
  {
    DroppedMembers(keys, key);
    if keys != [] {
      DroppedKeepsDistinct(keys[1..], key);
      DroppedMembers(keys[1..], key);
      assert keys[0] !in Dropped(keys[1..], key);
      assert keys == [keys[0]] + keys[1..];
    }
  }

  lemma {:induction false} DroppedConcat<K>(a: seq<K>, b: seq<K>, key: K)
    ensures Dropped(a + b, key) == Dropped(a, key) + Dropped(b, key)
  {
    if a == [] {
      assert a + b == b;
    } else {
      DroppedConcat(a[1..], b, key);
      assert (a + b)[1..] == a[1..] + b && (a + b)[0] == a[0];
      Associative(if a[0] == key then [] else [a[0]], Dropped(a[1..], key), Dropped(b, key));
    }
  }

  lemma LastOfConcat<T>(a: seq<T>, b: seq<T>, n: nat)
    requires n <= |b|
    ensures Last(a + b, n) == Last(b, n)
  {}

  lemma UsedIsDistinct<K(!new)>(keys: seq<K>, key: K)
    requires Distinct(keys)
    ensures Distinct(Dropped(keys, key) + [key])
  {
    DroppedKeepsDistinct(keys, key);
  }

  /** Using a key moves it to the end, whether the order kept is the whole one or only its last part. */
  lemma UseOfLast<K(!new)>(order: seq<K>, capacity: nat, key: K)
    requires Distinct(order) && capacity > 0
    ensures var kept := Last(order, capacity);
            && Last(Dropped(order, key) + [key], capacity) == Last(Dropped(kept, key) + [key], capacity)
            && (key in kept ==> |Dropped(kept, key) + [key]| <= capacity)
  {
    var kept := Last(order, capacity);
    assert Distinct(kept);
    DroppedKeepsDistinct(kept, key);
    if kept != order {
      var older := order[..|order| - capacity];
      assert order == older + kept;
      DroppedOlder(older, kept, key);
      LastOfConcat(Dropped(older, key), Dropped(kept, key) + [key], capacity);
    }
  }

  lemma DroppedOlder<K(!new)>(older: seq<K>, kept: seq<K>, key: K)
    ensures Dropped(older + kept, key) + [key] == Dropped(older, key) + (Dropped(kept, key) + [key])
  {
    DroppedConcat(older, kept, key);
  }

  lemma {:induction false} KeysOfWithout<K(!new), V>(entries: seq<Entry<K, V>>, key: K)
    ensures Keys(Without(entries, key)) == Dropped(Keys(entries), key)
  {
    if entries != [] {
      KeysOfWithout(entries[1..], key);
      assert Keys(entries)[1..] == Keys(entries[1..]);
      KeysOfConcat(if entries[0].key == key then [] else [entries[0]], Without(entries[1..], key));
    }
  }

  lemma KeysOfConcat<K, V>(a: seq<Entry<K, V>>, b: seq<Entry<K, V>>)
    ensures Keys(a + b) == Keys(a) + Keys(b)
  {}

  lemma KeysOfLast<K, V>(entries: seq<Entry<K, V>>, n: nat)
    ensures Keys(Last(entries, n)) == Last(Keys(entries), n)
  {}

  lemma {:induction false} LookupFinds<K(!new), V>(entries: seq<Entry<K, V>>, key: K)
    ensures Lookup(entries, key).Some? <==> key in Keys(entries)
    ensures Lookup(entries, key).Some? ==> Entry(key, Lookup(entries, key).value) in entries
  {
    if entries != [] {
      LookupFinds(entries[1..], key);
      assert Keys(entries) == [entries[0].key] + Keys(entries[1..]);
    }
  }

  lemma TouchedKeys<K(!new), V>(entries: seq<Entry<K, V>>, key: K)
    requires key in Keys(entries)
    ensures Keys(Touched(entries, key)) == Dropped(Keys(entries), key) + [key]
  {
    LookupFinds(entries, key);
    GrownKeys(entries, key, Lookup(entries, key).value);
  }

  lemma StoredKeys<K(!new), V>(entries: seq<Entry<K, V>>, capacity: nat, key: K, value: V)
    ensures Keys(Stored(entries, capacity, key, value)) == Last(Dropped(Keys(entries), key) + [key], capacity)
  {
    var grown := Without(entries, key) + [Entry(key, value)];
    GrownKeys(entries, key, value);
    KeysOfLast(grown, capacity);
  }

  lemma GrownKeys<K(!new), V>(entries: seq<Entry<K, V>>, key: K, value: V)
    ensures Keys(Without(entries, key) + [Entry(key, value)]) == Dropped(Keys(entries), key) + [key]
  {
    KeysOfWithout(entries, key);
    KeysOfConcat(Without(entries, key), [Entry(key, value)]);
    assert Keys([Entry(key, value)]) == [key];
  }

  /** The keys held are exactly the `capacity` most recently used ones, in order of use. */
  lemma {:induction false} HoldsMostRecent<K(!new), V>(capacity: nat, ops: seq<Op<K, V>>)
    requires capacity > 0
    ensures Distinct(Recency(capacity, ops))
    ensures Keys(AfterOps(capacity, ops)) == Last(Recency(capacity, ops), capacity)
    ensures |AfterOps(capacity, ops)| <= capacity
  {
    if ops != [] {
      var n := |ops| - 1;
      var (before, entries) := (Recency(capacity, ops[..n]), AfterOps(capacity, ops[..n]));
      HoldsMostRecent(capacity, ops[..n]);
      if ops[n] != Clear {
        var key := ops[n].key;
        LookupFinds(entries, key);
        UsedIsDistinct(before, key);
        UseOfLast(before, capacity, key);
        match ops[n] {
          case Get(_) => if key in Keys(entries) { TouchedKeys(entries, key); }
          case Put(_, value) => StoredKeys(entries, capacity, key, value);
        }
      }
    }
  }

  /** Every entry holds what was last put under its key. */
  ghost predicate HoldsLastPuts<K(!new), V>(entries: seq<Entry<K, V>>, ops: seq<Op<K, V>>) {
    forall e <- entries :: LastPut(ops, e.key) == Some(e.value)
  }

  lemma {:induction false} WithoutMembers<K(!new), V>(entries: seq<Entry<K, V>>, key: K)
    ensures forall e <- Without(entries, key) :: e in entries && e.key != key
  {
    if entries != [] { WithoutMembers(entries[1..], key); }
  }

  lemma {:induction false} ValuesAreLastPuts<K(!new), V>(capacity: nat, ops: seq<Op<K, V>>)
    ensures HoldsLastPuts(AfterOps(capacity, ops), ops)
  {
    if ops != [] {
      var n := |ops| - 1;
      var entries := AfterOps(capacity, ops[..n]);
      ValuesAreLastPuts(capacity, ops[..n]);
      if ops[n] != Clear {
        LookupFinds(entries, ops[n].key);
        WithoutMembers(entries, ops[n].key);
      }
    }
  }

  /** A lookup hits exactly the recently used keys, and gives what was last put there. */
  lemma LookupAfter<K(!new), V>(capacity: nat, ops: seq<Op<K, V>>, key: K)
    requires capacity > 0
    ensures Lookup(AfterOps(capacity, ops), key)
         == if key in Last(Recency(capacity, ops), capacity) then LastPut(ops, key) else None
  {
    HoldsMostRecent(capacity, ops);
    ValuesAreLastPuts(capacity, ops);
    LookupFinds(AfterOps(capacity, ops), key);
  }
}
