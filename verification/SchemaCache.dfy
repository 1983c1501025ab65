/** `SchemaCache`: the LRU cache of collection schemas shared by all threads. */
module SchemaCaches {
  import opened CacheKeys
  import opened Lru
  import opened Prelude

  /** A described collection; `fields` stands for everything a request is encoded from. */
  datatype Schema = Schema(fields: seq<string>, updateTimestamp: Option<int>)

  type SchemaLru = LruCache<Key, Schema>

  ghost predicate Good(c: SchemaLru)
  {
    c.Valid() && c.capacity > 0
  }

  /** One critical section of the schema cache. */
  datatype CacheOp = Use(k: Key) | Put(k: Key, schema: Schema) | Drop(k: Key) | DropDb(endpoint: string, db: string)

  function Apply(c: SchemaLru, op: CacheOp): SchemaLru
    requires c.capacity > 0
  {
    match op
    case Use(k) => c.Get(k).0
    case Put(k, schema) => c.Set(k, schema)
    case Drop(k) => c.Pop(k)
    case DropDb(endpoint, db) => DropKeys(c, InDbKeys(c.order, endpoint, db))
  }

  function InDbKeys(s: seq<Key>, endpoint: string, db: string): set<Key>
  {
    set k | k in s && InDb(k, endpoint, db)
  }

  /** `s` without the keys in `drop`. */
  function Keep(s: seq<Key>, drop: set<Key>): seq<Key>
  {
    if s == [] then []
    else if s[|s| - 1] in drop then Keep(s[..|s| - 1], drop)
    else Keep(s[..|s| - 1], drop) + [s[|s| - 1]]
  }

  function DropKeys(c: SchemaLru, drop: set<Key>): SchemaLru
  {
    LruCache(c.capacity, Keep(c.order, drop), c.data - drop)
  }

  lemma {:induction false} KeepFacts(s: seq<Key>, drop: set<Key>)
    requires Distinct(s)
    ensures Distinct(Keep(s, drop)) && |Keep(s, drop)| <= |s|
    ensures forall x :: x in Keep(s, drop) <==> x in s && x !in drop
  {
    if s != [] {
      var front, last := s[..|s| - 1], s[|s| - 1];
      assert s == front + [last];
      KeepFacts(front, drop);
      assert last !in front;
    }
  }

  lemma {:induction false} KeepOneLess(s: seq<Key>, drop: set<Key>, k: Key)
    ensures Without(Keep(s, drop), k) == Keep(s, drop + {k})
  {
    if s != [] {
      var front, last := s[..|s| - 1], s[|s| - 1];
      KeepOneLess(front, drop, k);
      if last !in drop {
        assert (Keep(front, drop) + [last])[..|Keep(front, drop)|] == Keep(front, drop);
      }
    }
  }

  lemma {:induction false} KeepAll(s: seq<Key>)
    ensures Keep(s, {}) == s
  {
    if s != [] {
      KeepAll(s[..|s| - 1]);
    }
  }

  /** Popping one more key. */
  lemma PopIsDrop(c: SchemaLru, drop: set<Key>, k: Key)
    requires Good(c) && k in c.order && k !in drop
    ensures DropKeys(c, drop).Pop(k) == DropKeys(c, drop + {k})
  {
    KeepOneLess(c.order, drop, k);
    assert c.data - drop - {k} == c.data - (drop + {k});
  }

  lemma ApplyGood(c: SchemaLru, op: CacheOp)
    requires Good(c)
    ensures Good(Apply(c, op)) && Apply(c, op).capacity == c.capacity
  {
    match op
    case Use(k) => c.GetValid(k);
    case Put(k, schema) => c.SetValid(k, schema);
    case Drop(k) => c.PopValid(k);
    case DropDb(endpoint, db) => KeepFacts(c.order, InDbKeys(c.order, endpoint, db));
  }

  /** The source's subclass of `CacheRegion`: its own keys over the inherited cache. */
  class SchemaCache {
    const region: CacheRegion<Key, Schema>

    ghost predicate Valid()
      reads region
    {
      region.Valid()
    }

    constructor (capacity: nat)
      requires capacity > 0
      ensures Valid() && fresh(region) && region.cache == LruCache(capacity, [], map[])
    {
      region := new CacheRegion(capacity);
    }

    method Get(endpoint: string, db: string, collection: string) returns (schema: Option<Schema>)
      requires Valid()
      modifies region
      ensures Valid() && region.cache == Apply(old(region.cache), Use(MakeKey(endpoint, db, collection)))
      ensures schema == old(region.cache).Get(MakeKey(endpoint, db, collection)).1
    {
      schema := region.Get(MakeKey(endpoint, db, collection));
    }

    method Set(endpoint: string, db: string, collection: string, schema: Schema)
      requires Valid()
      modifies region
      ensures Valid() && region.cache == Apply(old(region.cache), Put(MakeKey(endpoint, db, collection), schema))
    {
      region.Set(MakeKey(endpoint, db, collection), schema);
    }

    method Invalidate(endpoint: string, db: string, collection: string)
      requires Valid()
      modifies region
      ensures Valid() && region.cache == Apply(old(region.cache), Drop(MakeKey(endpoint, db, collection)))
    {
      region.Invalidate(MakeKey(endpoint, db, collection));
    }

    /** The keys of the database are collected, then popped one by one: the other entries and their order
        stay. */
    method InvalidateDb(endpoint: string, db: string)
      requires Valid()
      modifies region
      ensures Valid() && region.cache == Apply(old(region.cache), DropDb(endpoint, db))
      ensures forall k :: k in region.cache.data <==> k in old(region.cache).data && !InDb(k, endpoint, db)
      ensures forall k | k in region.cache.data :: region.cache.data[k] == old(region.cache).data[k]
    {
      ghost var was := region.cache;
      ApplyGood(was, DropDb(endpoint, db));
      var keysToRemove := InDbKeys(region.cache.order, endpoint, db);
      ghost var removed: set<Key> := {};
      KeepAll(was.order);
      assert was.data - {} == was.data;
      while keysToRemove != {}
        invariant removed !! keysToRemove && removed + keysToRemove == InDbKeys(was.order, endpoint, db)
        invariant region.cache == DropKeys(was, removed)
        decreases keysToRemove
      {
        var k :| k in keysToRemove;
        PopIsDrop(was, removed, k);
        region.cache := region.cache.Pop(k);
        removed := removed + {k};
        keysToRemove := keysToRemove - {k};
      }
    }
  }

  // ---- Runs of operations by other threads.

  ghost function Run(c: SchemaLru, ops: seq<CacheOp>): (r: SchemaLru)
    requires Good(c)
    ensures Good(r) && r.capacity == c.capacity
  {
    if ops == [] then c
    else
      ApplyGood(Run(c, ops[..|ops| - 1]), ops[|ops| - 1]);
      Apply(Run(c, ops[..|ops| - 1]), ops[|ops| - 1])
  }

  /** The schema last put under `k`, unless a later operation removed the entry by name. */
  function LastPut(ops: seq<CacheOp>, k: Key): Option<Schema>
  {
    if ops == [] then None
    else LastPutStep(LastPut(ops[..|ops| - 1], k), ops[|ops| - 1], k)
  }

  function LastPutStep(before: Option<Schema>, op: CacheOp, k: Key): Option<Schema>
  {
    match op
    case Use(_) => before
    case Put(x, schema) => if x == k then Some(schema) else before
    case Drop(x) => if x == k then None else before
    case DropDb(endpoint, db) => if InDb(k, endpoint, db) then None else before
  }

  function Cached(c: SchemaLru, k: Key): Option<Schema>
  {
    if k in c.data then Some(c.data[k]) else None
  }

  lemma ApplyCached(c: SchemaLru, op: CacheOp, k: Key)
    requires Good(c)
    ensures Cached(Apply(c, op), k) in {None, LastPutStep(Cached(c, k), op, k)}
    ensures |c.order| < c.capacity ==> Cached(Apply(c, op), k) == LastPutStep(Cached(c, k), op, k)
    ensures |Apply(c, op).order| <= |c.order| + 1
  {
    match op
    case Use(x) => WithoutFacts(c.order, x);
    case Put(x, _) => WithoutFacts(c.order, x);
    case Drop(x) => WithoutFacts(c.order, x);
    case DropDb(endpoint, db) => KeepFacts(c.order, InDbKeys(c.order, endpoint, db));
  }

  /** What is cached under a key that was absent is what was last put there. */
  lemma {:induction false} CachedIsLastPut(c: SchemaLru, ops: seq<CacheOp>, k: Key)
    requires Good(c) && k !in c.data
    ensures Cached(Run(c, ops), k) in {None, LastPut(ops, k)}
  {
    if ops != [] {
      CachedIsLastPut(c, ops[..|ops| - 1], k);
      ApplyCached(Run(c, ops[..|ops| - 1]), ops[|ops| - 1], k);
    }
  }

  lemma {:induction false} CachedWithRoom(c: SchemaLru, ops: seq<CacheOp>, k: Key)
    requires Good(c) && k !in c.data && |c.order| + |ops| <= c.capacity
    ensures Cached(Run(c, ops), k) == LastPut(ops, k) && |Run(c, ops).order| <= |c.order| + |ops|
  {
    if ops != [] {
      CachedWithRoom(c, ops[..|ops| - 1], k);
      ApplyCached(Run(c, ops[..|ops| - 1]), ops[|ops| - 1], k);
    }
  }

  /** Whatever the cache, `k` is absent or maps to `schema`. */
  ghost predicate NeverStale(ops: seq<CacheOp>, k: Key, schema: Schema)
  {
    forall c: SchemaLru | Good(c) && k !in c.data :: Cached(Run(c, ops), k) in {None, Some(schema)}
  }

  /** After an invalidation of `k`, other threads' operations leave no stale entry, whatever the cache, if
      and only if the last schema they put there is the current one. */
  lemma NeverStaleIff(ops: seq<CacheOp>, k: Key, schema: Schema)
    ensures NeverStale(ops, k, schema) <==> LastPut(ops, k) in {None, Some(schema)}
  {
    if LastPut(ops, k) in {None, Some(schema)} {
      forall c: SchemaLru | Good(c) && k !in c.data ensures Cached(Run(c, ops), k) in {None, Some(schema)} {
        CachedIsLastPut(c, ops, k);
      }
    } else {
      var c := LruCache<Key, Schema>.LruCache(|ops| + 1, [], map[]);
      CachedWithRoom(c, ops, k);
      assert Good(c) && k !in c.data;
    }
  }
}
