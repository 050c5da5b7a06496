/**
 * The least-recently-used cache of src/utils/cache.ts.
 *
 * The JavaScript `Map` keeps its keys in insertion order, and the cache
 * uses that order as recency: the first entry is the least recently used
 * one, the last entry the most recently used one. Here the map is a
 * sequence of (key, value) pairs in that order.
 */
module Cache {
  import opened Wrappers

  /** Capacity used when the constructor gets no argument. */
  const DefaultMaxSize: int := 100

  /** The keys of an entry list, in recency order. */
  function Keys<K, V>(es: seq<(K, V)>): (ks: seq<K>)
    ensures |ks| == |es|
    ensures forall i :: 0 <= i < |es| ==> ks[i] == es[i].0
  {
    seq(|es|, i requires 0 <= i < |es| => es[i].0)
  }

  /** No key appears twice (a `Map` holds each key once). */
  ghost predicate UniqueKeys<K, V>(es: seq<(K, V)>)
  {
    forall i, j :: 0 <= i < j < |es| ==> es[i].0 != es[j].0
  }

  /** `Map.get`: the value stored under `k`, if any. */
  function Lookup<K(==), V>(es: seq<(K, V)>, k: K): (r: Option<V>)
    ensures r.None? <==> k !in Keys(es)
    ensures r.Some? ==> (k, r.value) in es
  {
    if es == [] then None
    else if es[0].0 == k then Some(es[0].1)
    else
      assert Keys(es) == [es[0].0] + Keys(es[1..]);
      Lookup(es[1..], k)
  }

  /** `Map.delete`: the entries without the one stored under `k`. */
  function Remove<K(==), V>(es: seq<(K, V)>, k: K): (r: seq<(K, V)>)
    ensures k !in Keys(r)
    ensures |r| <= |es|
  {
    if es == [] then []
    else
      assert Keys(es) == [es[0].0] + Keys(es[1..]);
      var rest := Remove(es[1..], k);
      if es[0].0 == k then rest
      else
        assert Keys([es[0]] + rest) == [es[0].0] + Keys(rest);
        [es[0]] + rest
  }

  /** The key sequence `ks` with every occurrence of `k` dropped. */
  function Without<K(==)>(ks: seq<K>, k: K): (r: seq<K>)
    ensures k !in r
    ensures forall i :: 0 <= i < |r| ==> r[i] in ks && r[i] != k
    ensures forall i :: 0 <= i < |ks| && ks[i] != k ==> ks[i] in r
  {
    if ks == [] then []
    else if ks[0] == k then Without(ks[1..], k)
    else [ks[0]] + Without(ks[1..], k)
  }

  /** The entry list after `get(k)`: a present key moves to the most-recent end. */
  function AfterGet<K(==), V>(es: seq<(K, V)>, k: K): seq<(K, V)>
  {
    match Lookup(es, k)
    case None => es
    case Some(v) => Remove(es, k) + [(k, v)]
  }

  /**
   * The entry list after `set(k, v)`: a present key is re-inserted at the
   * end; a new key first evicts the first (least recently used) entry when
   * `size >= maxSize` and the map is not empty.
   */
  function AfterSet<K(==), V>(es: seq<(K, V)>, maxSize: int, k: K, v: V): seq<(K, V)>
  {
    if k in Keys(es) then Remove(es, k) + [(k, v)]
    else if |es| >= maxSize && |es| > 0 then es[1..] + [(k, v)]
    else es + [(k, v)]
  }

  lemma {:induction false} KeysAppend<K, V>(a: seq<(K, V)>, b: seq<(K, V)>)
    ensures Keys(a + b) == Keys(a) + Keys(b)
  {
  }

  /** Removing `k` keeps the other keys in their relative order. */
  lemma {:induction false} KeysRemove<K, V>(es: seq<(K, V)>, k: K)
    ensures Keys(Remove(es, k)) == Without(Keys(es), k)
  {
    if es != [] {
      assert Keys(es) == [es[0].0] + Keys(es[1..]);
      KeysRemove(es[1..], k);
      if es[0].0 != k {
        KeysAppend([es[0]], Remove(es[1..], k));
      }
    }
  }

  /** Removing `k` leaves every other key's value as it was. */
  lemma {:induction false} LookupRemove<K, V>(es: seq<(K, V)>, k: K, k': K)
    ensures Lookup(Remove(es, k), k') == if k' == k then None else Lookup(es, k')
  {
    if es != [] {
      LookupRemove(es[1..], k, k');
    }
  }

  /** Removing a present key from a duplicate-free list shortens it by one. */
  lemma {:induction false} RemoveLength<K, V>(es: seq<(K, V)>, k: K)
    requires UniqueKeys(es)
    ensures |Remove(es, k)| == if k in Keys(es) then |es| - 1 else |es|
    ensures UniqueKeys(Remove(es, k))
  {
    if es != [] {
      assert Keys(es) == [es[0].0] + Keys(es[1..]);
      RemoveLength(es[1..], k);
      if es[0].0 == k {
        assert k !in Keys(es[1..]);
        RemoveAbsent(es[1..], k);
      } else {
        KeysRemove(es[1..], k);
        assert es[0].0 !in Keys(es[1..]);
        PrependFreshKeepsUnique(es[0], Remove(es[1..], k));
      }
    }
  }

  /** Prepending an entry whose key is new keeps keys unique. */
  lemma {:induction false} PrependFreshKeepsUnique<K, V>(e: (K, V), es: seq<(K, V)>)
    requires UniqueKeys(es) && e.0 !in Keys(es)
    ensures UniqueKeys([e] + es)
  {
    var es' := [e] + es;
    forall i, j | 0 <= i < j < |es'| ensures es'[i].0 != es'[j].0 {
      if i == 0 {
        assert es'[j].0 == Keys(es)[j - 1];
      }
    }
  }

  /** Removing an absent key changes nothing. */
  lemma {:induction false} RemoveAbsent<K, V>(es: seq<(K, V)>, k: K)
    requires k !in Keys(es)
    ensures Remove(es, k) == es
  {
    if es != [] {
      assert Keys(es) == [es[0].0] + Keys(es[1..]);
      RemoveAbsent(es[1..], k);
    }
  }

  /** A key that is last in the list is found with the value stored last. */
  lemma {:induction false} LookupLast<K, V>(es: seq<(K, V)>, k: K, v: V)
    requires k !in Keys(es)
    ensures Lookup(es + [(k, v)], k) == Some(v)
  {
    if es != [] {
      assert Keys(es) == [es[0].0] + Keys(es[1..]);
      assert (es + [(k, v)])[1..] == es[1..] + [(k, v)];
      LookupLast(es[1..], k, v);
    }
  }

  /** Appending an entry for `k` does not change what other keys find. */
  lemma {:induction false} LookupAppendOther<K, V>(es: seq<(K, V)>, k: K, v: V, k': K)
    requires k' != k
    ensures Lookup(es + [(k, v)], k') == Lookup(es, k')
  {
    if es != [] {
      assert (es + [(k, v)])[1..] == es[1..] + [(k, v)];
      LookupAppendOther(es[1..], k, v, k');
    }
  }

  /**
   * `get` on a present key returns its value and moves the key to the
   * most-recent end; the other keys keep their order and their values,
   * and the size does not change.
   */
  lemma GetPresent<K, V>(es: seq<(K, V)>, k: K, v: V)
    requires UniqueKeys(es)
    requires Lookup(es, k) == Some(v)
    ensures Keys(AfterGet(es, k)) == Without(Keys(es), k) + [k]
    ensures |AfterGet(es, k)| == |es|
    ensures UniqueKeys(AfterGet(es, k))
    ensures forall k' :: Lookup(AfterGet(es, k), k') == Lookup(es, k')
  {
    var r := Remove(es, k);
    KeysRemove(es, k);
    KeysAppend(r, [(k, v)]);
    RemoveLength(es, k);
    forall k' ensures Lookup(AfterGet(es, k), k') == Lookup(es, k') {
      if k' == k {
        LookupLast(r, k, v);
      } else {
        LookupAppendOther(r, k, v, k');
        LookupRemove(es, k, k');
      }
    }
    AppendFreshKeepsUnique(r, k, v);
  }

  /** `get` on an absent key leaves the cache as it is. */
  lemma GetAbsent<K, V>(es: seq<(K, V)>, k: K)
    requires k !in Keys(es)
    ensures Lookup(es, k) == None
    ensures AfterGet(es, k) == es
  {
  }

  /** Appending an entry whose key is new keeps keys unique. */
  lemma {:induction false} AppendFreshKeepsUnique<K, V>(es: seq<(K, V)>, k: K, v: V)
    requires UniqueKeys(es) && k !in Keys(es)
    ensures UniqueKeys(es + [(k, v)])
  {
    var es' := es + [(k, v)];
    forall i, j | 0 <= i < j < |es'| ensures es'[i].0 != es'[j].0 {
      if j == |es| {
        assert es[i].0 == Keys(es)[i];
      }
    }
  }

  /** Immediately after `set(k, v)`, `get(k)` returns `v`. */
  lemma SetThenGet<K, V>(es: seq<(K, V)>, maxSize: int, k: K, v: V)
    ensures Lookup(AfterSet(es, maxSize, k, v), k) == Some(v)
  {
    if k in Keys(es) {
      LookupLast(Remove(es, k), k, v);
    } else if |es| >= maxSize && |es| > 0 {
      assert Keys(es) == [es[0].0] + Keys(es[1..]);
      LookupLast(es[1..], k, v);
    } else {
      LookupLast(es, k, v);
    }
  }

  /** `set` on a present key re-appends it: no eviction, same size. */
  lemma SetPresent<K, V>(es: seq<(K, V)>, maxSize: int, k: K, v: V)
    requires UniqueKeys(es) && k in Keys(es)
    ensures |AfterSet(es, maxSize, k, v)| == |es|
    ensures Keys(AfterSet(es, maxSize, k, v)) == Without(Keys(es), k) + [k]
  {
    KeysRemove(es, k);
    KeysAppend(Remove(es, k), [(k, v)]);
    RemoveLength(es, k);
  }

  /**
   * `set` on a new key when the cache is full evicts exactly the first
   * (least recently used) key before appending.
   */
  lemma SetEvicts<K, V>(es: seq<(K, V)>, maxSize: int, k: K, v: V)
    requires k !in Keys(es) && |es| >= maxSize && |es| > 0
    ensures Keys(AfterSet(es, maxSize, k, v)) == Keys(es)[1..] + [k]
    ensures |AfterSet(es, maxSize, k, v)| == |es|
  {
    KeysAppend(es[1..], [(k, v)]);
  }

  /** `set` on a new key below capacity only appends. */
  lemma SetAppends<K, V>(es: seq<(K, V)>, maxSize: int, k: K, v: V)
    requires k !in Keys(es) && (|es| < maxSize || |es| == 0)
    ensures AfterSet(es, maxSize, k, v) == es + [(k, v)]
  {
  }

  /**
   * `set` keeps keys unique and, for a capacity of at least one, never
   * lets the size exceed the capacity.
   */
  lemma SetKeepsInvariant<K, V>(es: seq<(K, V)>, maxSize: int, k: K, v: V)
    requires UniqueKeys(es)
    requires maxSize >= 1 ==> |es| <= maxSize
    ensures UniqueKeys(AfterSet(es, maxSize, k, v))
    ensures maxSize >= 1 ==> |AfterSet(es, maxSize, k, v)| <= maxSize
  {
    if k in Keys(es) {
      RemoveLength(es, k);
      AppendFreshKeepsUnique(Remove(es, k), k, v);
    } else if |es| >= maxSize && |es| > 0 {
      assert Keys(es) == [es[0].0] + Keys(es[1..]);
      AppendFreshKeepsUnique(es[1..], k, v);
    } else {
      AppendFreshKeepsUnique(es, k, v);
    }
  }

  /** Removing keeps only entries that were there. */
  lemma {:induction false} RemoveEntries<K, V>(es: seq<(K, V)>, k: K)
    ensures forall e :: e in Remove(es, k) ==> e in es
  {
    if es != [] {
      RemoveEntries(es[1..], k);
    }
  }

  /** `get` adds no entry. */
  lemma AfterGetEntries<K, V>(es: seq<(K, V)>, k: K)
    ensures forall e :: e in AfterGet(es, k) ==> e in es
  {
    RemoveEntries(es, k);
  }

  /** `set(k, v)` adds no entry but `(k, v)`. */
  lemma AfterSetEntries<K, V>(es: seq<(K, V)>, maxSize: int, k: K, v: V)
    ensures forall e :: e in AfterSet(es, maxSize, k, v) ==> e in es || e == (k, v)
  {
    RemoveEntries(es, k);
  }

  /** The cache object: a recency-ordered entry list and a fixed capacity. */
  class LRUCache<K(==), V> {
    var entries: seq<(K, V)>
    const maxSize: int

    ghost predicate Valid()
      reads this
    {
      UniqueKeys(entries) && (maxSize >= 1 ==> |entries| <= maxSize)
    }

    constructor (maxSize: int)
      ensures Valid()
      ensures entries == [] && this.maxSize == maxSize
    {
      entries := [];
      this.maxSize := maxSize;
    }

    /** `get(key)`: the stored value, refreshing the key when present. */
    method Get(key: K) returns (r: Option<V>)
      requires Valid()
      modifies this
      ensures Valid()
      ensures r == Lookup(old(entries), key)
      ensures entries == AfterGet(old(entries), key)
    {
      r := Lookup(entries, key);
      if r.Some? {
        GetPresent(entries, key, r.value);
        entries := Remove(entries, key);
        entries := entries + [(key, r.value)];
      }
    }

    /** `set(key, value)`: re-insert, or evict the oldest entry when full. */
    method Set(key: K, value: V)
      requires Valid()
      modifies this
      ensures Valid()
      ensures entries == AfterSet(old(entries), maxSize, key, value)
    {
      SetKeepsInvariant(entries, maxSize, key, value);
      if key in Keys(entries) {
        entries := Remove(entries, key);
      } else if |entries| >= maxSize {
        if |entries| > 0 {
          entries := entries[1..];
        }
      }
      entries := entries + [(key, value)];
    }

    /** `clear()`: the cache becomes empty. */
    method Clear()
      requires Valid()
      modifies this
      ensures Valid()
      ensures entries == []
    {
      entries := [];
    }

    /** `size()`: the number of entries. */
    method Size() returns (n: nat)
      requires Valid()
      ensures n == |entries|
    {
      n := |entries|;
    }
  }
}
