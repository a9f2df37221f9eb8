/**
 * The keyed tables a node keeps (pending interests, cache, locations).
 *
 * The TLRU table's own implementation is not part of this model: a table is
 * the map from key to the last entry stored under it, with exactly the
 * operations the node uses.  Capacity eviction and lazy expiry are left out,
 * so every property below holds of a table in which nothing has expired or
 * been evicted.
 */
module Tables {
  import opened Common

  /** One slot: the stored value, the lifetime the caller passed (None when the
      caller relied on the table's default) and the outstanding count. */
  datatype Entry<V> = Entry(val: V, ttl: Option<int>, count: int)

  datatype Table<V> = Table(entries: map<Name, Entry<V>>)

  /** What a removal hands back: the remaining table and, when the key was
      present, the (value, count) pair. */
  datatype Taken<V> = Taken(rest: Table<V>, got: Option<(V, int)>)

  function Empty<V>(): (t: Table<V>)
    ensures forall k :: !Contains(t, k)
  {
    Table(map[])
  }

  /** contains(key): the key has an entry, exactly when get finds one. */
  predicate Contains<V>(t: Table<V>, key: Name)
    ensures Contains(t, key) <==> Get(t, key).Some?
  {
    key in t.entries
  }

  /** add(key, val, ttl, count): the key now holds exactly this entry; every
      other key keeps its entry. */
  function Add<V>(t: Table<V>, key: Name, val: V, ttl: Option<int>, count: int): (r: Table<V>)
    ensures key in r.entries && r.entries[key] == Entry(val, ttl, count)
    ensures r.entries.Keys == t.entries.Keys + {key}
    ensures forall k :: k in t.entries && k != key ==> r.entries[k] == t.entries[k]
  {
    Table(t.entries[key := Entry(val, ttl, count)])
  }

  /** remove(key): evicts the entry whatever its count and returns its value and
      count; an absent key yields nothing and leaves the table alone. */
  function Remove<V>(t: Table<V>, key: Name): (r: Taken<V>)
    ensures r.got.Some? <==> key in t.entries
    ensures key in t.entries ==> r.got.value == (t.entries[key].val, t.entries[key].count)
    ensures r.rest.entries == t.entries - {key}
  {
    if key in t.entries then
      Taken(Table(t.entries - {key}), Some((t.entries[key].val, t.entries[key].count)))
    else
      assert t.entries - {key} == t.entries;
      Taken(t, None)
  }

  /** removeCount(key): one outstanding branch fewer; the entry is evicted once
      its count reaches zero, and the caller sees the decremented count. */
  function RemoveCount<V>(t: Table<V>, key: Name): (r: Taken<V>)
    ensures r.got.Some? <==> key in t.entries
    ensures key in t.entries ==> r.got.value == (t.entries[key].val, t.entries[key].count - 1)
    ensures key in t.entries && t.entries[key].count > 1 ==>
      r.rest.entries.Keys == t.entries.Keys &&
      r.rest.entries[key] == t.entries[key].(count := t.entries[key].count - 1)
    ensures key !in t.entries || t.entries[key].count <= 1 ==> r.rest.entries == t.entries - {key}
    ensures forall k :: k in t.entries && k != key ==> k in r.rest.entries && r.rest.entries[k] == t.entries[k]
  {
    if key !in t.entries then
      assert t.entries - {key} == t.entries;
      Taken(t, None)
    else
      var e := t.entries[key];
      if e.count - 1 > 0 then
        Taken(Table(t.entries[key := e.(count := e.count - 1)]), Some((e.val, e.count - 1)))
      else
        Taken(Table(t.entries - {key}), Some((e.val, e.count - 1)))
  }

  /** get(key): the stored value and lifetime, or nothing for an absent key. */
  function Get<V>(t: Table<V>, key: Name): (r: Option<(V, Option<int>)>)
    ensures r.Some? <==> key in t.entries
    ensures r.Some? ==> r.value == (t.entries[key].val, t.entries[key].ttl)
  {
    if key in t.entries then Some((t.entries[key].val, t.entries[key].ttl)) else None
  }

  /** Every entry has at least one outstanding branch. */
  ghost predicate PositiveCounts<V>(t: Table<V>)
  {
    forall k :: k in t.entries ==> t.entries[k].count >= 1
  }

  /** A second add under the same key replaces the first one completely. */
  lemma AddOverwrites<V>(t: Table<V>, key: Name, a: V, x: Option<int>, c: int, b: V, y: Option<int>, d: int)
    ensures Add(Add(t, key, a, x, c), key, b, y, d) == Add(t, key, b, y, d)
  {
    assert Add(Add(t, key, a, x, c), key, b, y, d).entries == Add(t, key, b, y, d).entries;
  }

  /** remove after add returns what was added and leaves the table as it was
      without the key. */
  lemma RemoveAfterAdd<V>(t: Table<V>, key: Name, v: V, ttl: Option<int>, c: int)
    ensures Remove(Add(t, key, v, ttl, c), key) == Taken(Remove(t, key).rest, Some((v, c)))
  {
    assert Remove(Add(t, key, v, ttl, c), key).rest.entries == Remove(t, key).rest.entries;
  }

  /** Adding with a positive count and removing keep every count positive. */
  lemma PositiveCountsKept<V>(t: Table<V>, key: Name, v: V, ttl: Option<int>, c: int)
    requires c >= 1
    ensures PositiveCounts(t) ==> PositiveCounts(Add(t, key, v, ttl, c))
    ensures PositiveCounts(t) ==> PositiveCounts(Remove(t, key).rest)
    ensures PositiveCounts(t) ==> PositiveCounts(RemoveCount(t, key).rest)
  {
  }
}
