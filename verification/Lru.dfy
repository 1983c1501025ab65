/** `cachetools.LRUCache` by its documented contract, and `CacheRegion`, which guards one with a lock. */
module Lru {
  import opened Prelude

  /** `order` lists the keys, least recently used first. Every entry has size one. */
  datatype LruCache<K(==, !new), V> = LruCache(capacity: nat, order: seq<K>, data: map<K, V>) {

    ghost predicate Valid()
    {
      && Distinct(order) && |order| <= capacity
      && forall k :: k in data <==> k in order
    }

    /** `cache.get(k)`: a hit becomes the most recent entry. */
    function Get(k: K): (LruCache<K, V>, Option<V>)
    {
      if k in data then (this.(order := Without(order, k) + [k]), Some(data[k])) else (this, None)
    }

    /** `cache[k] = v`: evicts the least recent entry if a new key needs the room. */
    function Set(k: K, v: V): LruCache<K, V>
      requires capacity > 0
    {
      if k in data then LruCache(capacity, Without(order, k) + [k], data[k := v])
      else if |order| < capacity || order == [] then LruCache(capacity, order + [k], data[k := v])
      else LruCache(capacity, order[1..] + [k], (data - {order[0]})[k := v])
    }

    /** `cache.pop(k, None)`. */
    function Pop(k: K): LruCache<K, V>
    {
      if k in data then LruCache(capacity, Without(order, k), data - {k}) else this
    }

    function Clear(): LruCache<K, V> { LruCache(capacity, [], map[]) }

    lemma GetValid(k: K)
      requires Valid()
      ensures Get(k).0.Valid()
    {
      WithoutFacts(order, k);
    }

    lemma SetValid(k: K, v: V)
      requires Valid() && capacity > 0
      ensures Set(k, v).Valid()
    {
      WithoutFacts(order, k);
      if k !in data && order != [] {
        assert order == [order[0]] + order[1..];
      }
    }

    lemma PopValid(k: K)
      requires Valid()
      ensures Pop(k).Valid()
    {
      WithoutFacts(order, k);
    }
  }

  function Without<K(==)>(s: seq<K>, k: K): seq<K>
  {
    if s == [] then []
    else if s[|s| - 1] == k then Without(s[..|s| - 1], k)
    else Without(s[..|s| - 1], k) + [s[|s| - 1]]
  }

  lemma {:induction false} WithoutFacts<K(!new)>(s: seq<K>, k: K)
    requires Distinct(s)
    ensures Distinct(Without(s, k))
    ensures forall x :: x in Without(s, k) <==> x in s && x != k
    ensures |Without(s, k)| == if k in s then |s| - 1 else |s|
  {
    if s != [] {
      var front, last := s[..|s| - 1], s[|s| - 1];
      assert s == front + [last];
      WithoutFacts(front, k);
      assert last !in front;
    }
  }

  lemma {:induction false} WithoutAbsent<K>(s: seq<K>, k: K)
    requires k !in s
    ensures Without(s, k) == s
  {
    if s != [] {
      WithoutAbsent(s[..|s| - 1], k);
    }
  }

  /** The keys used more recently than `k`. */
  function After<K(==)>(s: seq<K>, k: K): set<K>
  {
    if s == [] || s[|s| - 1] == k then {} else After(s[..|s| - 1], k) + {s[|s| - 1]}
  }

  lemma AfterAppend<K>(s: seq<K>, x: K, k: K)
    ensures After(s + [x], k) == if x == k then {} else After(s, k) + {x}
  {
    assert (s + [x])[..|s|] == s;
  }

  lemma {:induction false} AfterWithout<K>(s: seq<K>, x: K, k: K)
    requires x != k
    ensures After(Without(s, x), k) == After(s, k) - {x}
  {
    if s != [] {
      var front, last := s[..|s| - 1], s[|s| - 1];
      AfterWithout(front, x, k);
      if last != x {
        AfterAppend(Without(front, x), last, k);
      }
    }
  }

  lemma {:induction false} AfterTail<K>(s: seq<K>, k: K)
    requires s != [] && Distinct(s) && k in s[1..]
    ensures After(s[1..], k) == After(s, k)
  {
    var front, last := s[..|s| - 1], s[|s| - 1];
    assert s[1..] == front[1..] + [last];
    AfterAppend(front[1..], last, k);
    if last != k {
      AfterTail(front, k);
    }
  }

  lemma {:induction false} AfterMember<K(!new)>(s: seq<K>, k: K)
    ensures forall x | x in After(s, k) :: x in s
  {
    if s != [] {
      AfterMember(s[..|s| - 1], k);
    }
  }

  /** A least recent key has every other key after it. */
  lemma {:induction false} AfterFirst<K(!new)>(s: seq<K>)
    requires s != [] && Distinct(s)
    ensures |After(s, s[0])| == |s| - 1
  {
    if |s| > 1 {
      var front, last := s[..|s| - 1], s[|s| - 1];
      AfterFirst(front);
      AfterMember(front, s[0]);
      assert last !in front;
      assert After(s, s[0]) == After(front, front[0]) + {last};
    }
  }

  /** A thread-safe cache: every method is one critical section. */
  class CacheRegion<K(==, !new), V> {
    var cache: LruCache<K, V>

    ghost predicate Valid()
      reads this
    {
      cache.Valid() && cache.capacity > 0
    }

    constructor (capacity: nat)
      requires capacity > 0
      ensures Valid() && cache == LruCache(capacity, [], map[])
    {
      cache := LruCache(capacity, [], map[]);
    }

    method Get(k: K) returns (v: Option<V>)
      requires Valid()
      modifies this
      ensures Valid() && cache == old(cache).Get(k).0 && v == old(cache).Get(k).1
      ensures cache.data == old(cache).data && v == if k in cache.data then Some(cache.data[k]) else None
      ensures cache.order == if k in cache.data then Without(old(cache).order, k) + [k] else old(cache).order
    {
      cache.GetValid(k);
      v := cache.Get(k).1;
      cache := cache.Get(k).0;
    }

    method Set(k: K, v: V)
      requires Valid()
      modifies this
      ensures Valid() && cache == old(cache).Set(k, v) && k in cache.data && cache.data[k] == v
      ensures k in old(cache).data ==> cache.order == Without(old(cache).order, k) + [k] && cache.data.Keys == old(cache).data.Keys
      ensures k !in old(cache).data && |old(cache).order| < cache.capacity ==>
                cache.order == old(cache).order + [k] && cache.data.Keys == old(cache).data.Keys + {k}
      ensures k !in old(cache).data && |old(cache).order| == cache.capacity ==>
                cache.order == old(cache).order[1..] + [k] && cache.data.Keys == old(cache).data.Keys - {old(cache).order[0]} + {k}
      ensures forall x | x in cache.data && x != k :: cache.data[x] == old(cache).data[x]
    {
      cache.SetValid(k, v);
      cache := cache.Set(k, v);
    }

    method Invalidate(k: K)
      requires Valid()
      modifies this
      ensures Valid() && cache == old(cache).Pop(k) && cache.data == old(cache).data - {k}
    {
      cache.PopValid(k);
      assert k !in cache.data ==> cache.data - {k} == cache.data;
      cache := cache.Pop(k);
    }

    method ClearAll()
      requires Valid()
      modifies this
      ensures Valid() && cache == old(cache).Clear()
    {
      cache := cache.Clear();
    }

    method Len() returns (n: nat)
      requires Valid()
      ensures n == |cache.order|
    {
      n := |cache.order|;
    }
  }
}
