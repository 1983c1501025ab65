/** `CollectionTsCache` and the timestamps requests get from it (`ts_utils`). */
module CollectionTs {
  import opened CacheKeys
  import opened Lru
  import opened Prelude

  type TsCache = LruCache<Key, int>

  function Lookup(c: TsCache, k: Key): int { if k in c.data then c.data[k] else 0 }

  /** `CollectionTsCache.set`: the old value is read, which counts as a use, and replaced if smaller. */
  function SetTs(c: TsCache, k: Key, ts: int): TsCache
    requires c.capacity > 0
  {
    var c1 := c.Get(k).0;
    if ts > Lookup(c, k) then c1.Set(k, ts) else c1
  }

  ghost predicate Good(c: TsCache)
  {
    c.Valid() && c.capacity > 0 && forall k | k in c.data :: c.data[k] > 0
  }

  /** The source's subclass of `CacheRegion`, with timestamps that only grow. */
  class CollectionTsCache {
    const region: CacheRegion<Key, int>

    ghost predicate Valid()
      reads region
    {
      Good(region.cache)
    }

    constructor (capacity: nat)
      requires capacity > 0
      ensures Valid() && fresh(region) && region.cache == LruCache(capacity, [], map[])
    {
      region := new CacheRegion(capacity);
    }

    method Get(endpoint: string, db: string, collection: string) returns (ts: int)
      requires Valid()
      modifies region
      ensures Valid() && region.cache == Apply(old(region.cache), Read(MakeKey(endpoint, db, collection)))
      ensures ts == Lookup(old(region.cache), MakeKey(endpoint, db, collection))
    {
      var r := region.Get(MakeKey(endpoint, db, collection));
      ts := if r.Some? && r.value != 0 then r.value else 0;
    }

    method Set(endpoint: string, db: string, collection: string, ts: int)
      requires Valid()
      modifies region
      ensures Valid() && region.cache == Apply(old(region.cache), Write(MakeKey(endpoint, db, collection), ts))
    {
      var k := MakeKey(endpoint, db, collection);
      ApplyGood(region.cache, Write(k, ts));
      var r := region.cache.Get(k);
      region.cache := r.0;
      var oldTs := if r.1.Some? then r.1.value else 0;
      if ts > oldTs {
        region.cache := region.cache.Set(k, ts);
      }
    }

    method Invalidate(endpoint: string, db: string, collection: string)
      requires Valid()
      modifies region
      ensures Valid() && region.cache == Apply(old(region.cache), Drop(MakeKey(endpoint, db, collection)))
    {
      ApplyGood(region.cache, Drop(MakeKey(endpoint, db, collection)));
      region.Invalidate(MakeKey(endpoint, db, collection));
    }
  }

  // ---- Runs of cache operations, by any number of threads.

  datatype Op = Write(k: Key, ts: int) | Read(k: Key) | Drop(k: Key) | Clear

  function Apply(c: TsCache, op: Op): TsCache
    requires c.capacity > 0
  {
    match op
    case Write(k, ts) => SetTs(c, k, ts)
    case Read(k) => c.Get(k).0
    case Drop(k) => c.Pop(k)
    case Clear => c.Clear()
  }

  lemma ApplyGood(c: TsCache, op: Op)
    requires Good(c)
    ensures Good(Apply(c, op)) && Apply(c, op).capacity == c.capacity
  {
    match op
    case Write(k, ts) =>
      c.GetValid(k);
      c.Get(k).0.SetValid(k, ts);
    case Read(k) => c.GetValid(k);
    case Drop(k) => c.PopValid(k);
    case Clear =>
  }

  ghost function Run(c: TsCache, ops: seq<Op>): (r: TsCache)
    requires Good(c)
    ensures Good(r) && r.capacity == c.capacity
  {
    if ops == [] then c
    else
      ApplyGood(Run(c, ops[..|ops| - 1]), ops[|ops| - 1]);
      Apply(Run(c, ops[..|ops| - 1]), ops[|ops| - 1])
  }

  /** The other keys these operations use. */
  function Others(ops: seq<Op>, k: Key): set<Key>
  {
    if ops == [] then {}
    else
      var op := ops[|ops| - 1];
      Others(ops[..|ops| - 1], k) + UsedBy(op, k)
  }

  /** No operation removes `k` explicitly. */
  ghost predicate Keeps(ops: seq<Op>, k: Key)
  {
    forall i | 0 <= i < |ops| :: !ops[i].Clear? && ops[i] != Drop(k)
  }

  /** The largest timestamp among `ts` and those written to `k`. */
  function MaxWritten(ts: int, ops: seq<Op>, k: Key): int
  {
    if ops == [] then ts
    else
      var front, op := MaxWritten(ts, ops[..|ops| - 1], k), ops[|ops| - 1];
      if op.Write? && op.k == k then Max(front, op.ts) else front
  }

  /** `k` is cached, and every key used since is in `used`. */
  ghost predicate Recent(c: TsCache, k: Key, used: set<Key>)
  {
    k in c.data && After(c.order, k) <= used && k !in used
  }

  /** One operation on another key cannot evict `k` while fewer keys than the capacity were used. */
  lemma OtherKeepsRecent(c: TsCache, k: Key, used: set<Key>, op: Op)
    requires Good(c) && Recent(c, k, used)
    requires !op.Clear? && op.k != k
    requires |used + {op.k}| < c.capacity
    ensures Recent(Apply(c, op), k, if op.Drop? then used else used + {op.k})
    ensures Apply(c, op).data[k] == c.data[k]
  {
    var x := op.k;
    AfterWithout(c.order, x, k);
    AfterAppend(Without(c.order, x), x, k);
    AfterAppend(c.order, x, k);
    if op.Write? && x in c.data {
      SetAfterGet(c, x, op.ts);
    } else if op.Write? && op.ts > 0 && |c.order| == c.capacity {
      EvictsAnother(c, k, used, x);
    }
  }

  lemma SetAfterGet(c: TsCache, x: Key, ts: int)
    requires Good(c) && x in c.data
    ensures SetTs(c, x, ts).order == Without(c.order, x) + [x]
    ensures SetTs(c, x, ts).data == if ts > c.data[x] then c.data[x := ts] else c.data
  {
    var o := Without(c.order, x);
    WithoutFacts(c.order, x);
    WithoutAbsent(o, x);
    assert (o + [x])[..|o|] == o;
  }

  lemma EvictsAnother(c: TsCache, k: Key, used: set<Key>, x: Key)
    requires Good(c) && Recent(c, k, used) && x !in c.data && |c.order| == c.capacity
    requires |used + {x}| < c.capacity
    ensures c.order[0] != k && After(c.order[1..] + [x], k) <= used + {x}
  {
    if c.order[0] == k {
      AfterFirst(c.order);
      AfterMember(c.order, k);
      SubsetSize(After(c.order, k) + {x}, used + {x});
    } else {
      AfterTail(c.order, k);
      AfterAppend(c.order[1..], x, k);
    }
  }

  lemma SubsetSize<T>(a: set<T>, b: set<T>)
    requires a <= b
    ensures |a| <= |b|
  {
    assert b == a + (b - a);
  }

  function UsedBy(op: Op, k: Key): set<Key>
  {
    if (op.Write? || op.Read?) && op.k != k then {op.k} else {}
  }

  lemma StepKeepsRecent(c: TsCache, k: Key, used: set<Key>, op: Op)
    requires Good(c) && Recent(c, k, used) && !op.Clear? && op != Drop(k)
    requires |used + UsedBy(op, k)| < c.capacity
    ensures Recent(Apply(c, op), k, used + UsedBy(op, k))
    ensures Apply(c, op).data[k] == if op.Write? && op.k == k then Max(c.data[k], op.ts) else c.data[k]
  {
    if op.k == k {
      AfterAppend(Without(c.order, k), k, k);
      if op.Write? {
        SetAfterGet(c, k, op.ts);
      }
    } else if op.Drop? {
      DropKeepsRecent(c, k, used, op.k);
    } else {
      OtherKeepsRecent(c, k, used, op);
    }
  }

  /** A key is kept, with the maximum of what was written to it, through any operations that use fewer
      other keys than the capacity. */
  lemma {:induction false} Survives(c: TsCache, ops: seq<Op>, k: Key, used: set<Key>)
    requires Good(c) && Recent(c, k, used) && Keeps(ops, k)
    requires |used + Others(ops, k)| < c.capacity
    ensures Recent(Run(c, ops), k, used + Others(ops, k))
    ensures Run(c, ops).data[k] == MaxWritten(c.data[k], ops, k)
  {
    if ops == [] {
      assert used + {} == used;
    } else {
      var front, op := ops[..|ops| - 1], ops[|ops| - 1];
      SubsetSize(used + Others(front, k), used + Others(ops, k));
      Survives(c, front, k, used);
      assert used + Others(ops, k) == (used + Others(front, k)) + UsedBy(op, k);
      StepKeepsRecent(Run(c, front), k, used + Others(front, k), op);
    }
  }

  lemma DropKeepsRecent(c: TsCache, k: Key, used: set<Key>, x: Key)
    requires Good(c) && Recent(c, k, used) && x != k
    ensures Recent(c.Pop(x), k, used) && c.Pop(x).data[k] == c.data[k]
  {
    AfterWithout(c.order, x, k);
  }

  // ---- Read your writes.

  const EVENTUALLY_TS := 1
  const BOUNDED_TS := 2

  /** The timestamp of a session-level request. */
  function SessionTs(c: TsCache, k: Key): int
  {
    if Lookup(c, k) != 0 then Lookup(c, k) else EVENTUALLY_TS
  }

  /** After a write with timestamp `t`, every session-level request gets a timestamp of at least `t`, as
      long as fewer other keys than the capacity were used since and the key was not invalidated. The
      cached value is then the maximum written since the key entered the cache. */
  lemma ReadYourWrites(c: TsCache, k: Key, t: int, ops: seq<Op>)
    requires Good(c) && Keeps(ops, k) && |Others(ops, k)| < c.capacity
    ensures Good(SetTs(c, k, t))
    ensures SessionTs(Run(SetTs(c, k, t), ops), k) >= t
    ensures t > 0 ==> Lookup(Run(SetTs(c, k, t), ops), k) == MaxWritten(Max(Lookup(c, k), t), ops, k)
  {
    var c1 := SetTs(c, k, t);
    assert c1 == Apply(c, Write(k, t));
    ApplyGood(c, Write(k, t));
    if t > 0 {
      WriteIsRecent(c, k, t);
      assert {} + Others(ops, k) == Others(ops, k);
      Survives(c1, ops, k, {});
      MaxWrittenAtLeast(c1.data[k], ops, k);
    } else {
      assert Good(Run(c1, ops));
    }
  }

  lemma WriteIsRecent(c: TsCache, k: Key, t: int)
    requires Good(c) && t > 0
    ensures Recent(SetTs(c, k, t), k, {}) && SetTs(c, k, t).data[k] == Max(Lookup(c, k), t)
  {
    if k in c.data {
      SetAfterGet(c, k, t);
      AfterAppend(Without(c.order, k), k, k);
    } else if |c.order| < c.capacity {
      AfterAppend(c.order, k, k);
    } else {
      AfterAppend(c.order[1..], k, k);
    }
  }

  lemma {:induction false} MaxWrittenAtLeast(ts: int, ops: seq<Op>, k: Key)
    ensures MaxWritten(ts, ops, k) >= ts
  {
    if ops != [] {
      MaxWrittenAtLeast(ts, ops[..|ops| - 1], k);
    }
  }

  // ---- The bound is tight.

  function Writes(ks: seq<Key>, ts: int): seq<Op>
  {
    seq(|ks|, i requires 0 <= i < |ks| => Write(ks[i], ts))
  }

  lemma WriteOneMore(c: TsCache, rest: seq<Key>, recent: seq<Key>, x: Key, ts: int) returns (rest': seq<Key>)
    requires Good(c) && c.order == rest + recent && x !in recent && |recent| < c.capacity && ts > 0
    ensures SetTs(c, x, ts).order == rest' + (recent + [x])
  {
    if x in c.data {
      SetAfterGet(c, x, ts);
      WithoutPrefix(rest, recent, x);
      rest' := Without(rest, x);
    } else if |c.order| == c.capacity {
      assert c.order[1..] == rest[1..] + recent;
      rest' := rest[1..];
    } else {
      rest' := rest;
    }
    assert (rest' + recent) + [x] == rest' + (recent + [x]);
  }

  /** Writing `n` distinct keys leaves them as the `n` most recent ones. */
  lemma {:induction false} WrittenAreLast(c: TsCache, ks: seq<Key>, ts: int) returns (rest: seq<Key>)
    requires Good(c) && Distinct(ks) && |ks| <= c.capacity && ts > 0
    ensures Run(c, Writes(ks, ts)).order == rest + ks
  {
    if ks == [] {
      rest := c.order;
    } else {
      var front, x := ks[..|ks| - 1], ks[|ks| - 1];
      rest := WrittenAreLast(c, front, ts);
      assert Writes(ks, ts)[..|ks| - 1] == Writes(front, ts);
      rest := WriteOneMore(Run(c, Writes(front, ts)), rest, front, x, ts);
      assert front + [x] == ks;
    }
  }

  lemma {:induction false} WithoutPrefix(a: seq<Key>, b: seq<Key>, x: Key)
    requires x !in b
    ensures Without(a + b, x) == Without(a, x) + b
  {
    if b == [] {
      assert a + b == a;
    } else {
      assert (a + b)[..|a + b| - 1] == a + b[..|b| - 1];
      WithoutPrefix(a, b[..|b| - 1], x);
    }
  }

  /** Writing as many other keys as the capacity always loses the entry. */
  lemma CapacityIsTight(c: TsCache, k: Key, ks: seq<Key>, ts: int)
    requires Good(c) && Distinct(ks) && |ks| == c.capacity && k !in ks && ts > 0
    ensures Lookup(Run(c, Writes(ks, ts)), k) == 0
  {
    var rest := WrittenAreLast(c, ks, ts);
    assert rest == [];
    assert k !in Run(c, Writes(ks, ts)).order;
  }

  // ---- `construct_guarantee_ts`.

  datatype Level = Strong | Session | Bounded | Eventually | Customized
  datatype LevelArg = ByCode(n: int) | ByName(s: string) | OtherArg

  function LevelCode(l: Level): int
  {
    match l case Strong => 0 case Session => 1 case Bounded => 2 case Eventually => 3 case Customized => 4
  }

  /** `get_consistency_level`; `None` for InvalidConsistencyLevel. */
  function GetConsistencyLevel(a: LevelArg): Option<Level>
  {
    match a
    case ByCode(n) =>
      if n == 0 then Some(Strong) else if n == 1 then Some(Session) else if n == 2 then Some(Bounded)
      else if n == 3 then Some(Eventually) else if n == 4 then Some(Customized) else None
    case ByName(s) =>
      if s == "Strong" then Some(Strong) else if s == "Session" then Some(Session) else if s == "Bounded" then Some(Bounded)
      else if s == "Eventually" then Some(Eventually) else if s == "Customized" then Some(Customized) else None
    case OtherArg => None
  }

  class Kwargs {
    var isIterator: bool
    var level: Option<LevelArg>
    var guaranteeTs: Option<int>

    constructor (isIterator: bool, level: Option<LevelArg>, guaranteeTs: Option<int>)
      ensures this.isIterator == isIterator && this.level == level && this.guaranteeTs == guaranteeTs
    {
      this.isIterator, this.level, this.guaranteeTs := isIterator, level, guaranteeTs;
    }
  }

  /** The request names this consistency level, by its code or by its name. */
  predicate Names(level: Option<LevelArg>, code: int, name: string)
  {
    level == Some(ByCode(code)) || level == Some(ByName(name))
  }

  method ConstructGuaranteeTs(kwargs: Kwargs, cache: CollectionTsCache, endpoint: string, db: string, collection: string)
    returns (r: Option<bool>)
    requires cache.Valid()
    modifies kwargs, cache.region
    ensures cache.Valid() && kwargs.isIterator == old(kwargs.isIterator)
    ensures r == if old(kwargs.isIterator) || old(kwargs.level).None? then Some(true)
                 else if Names(old(kwargs.level), 0, "Strong") || Names(old(kwargs.level), 1, "Session")
                         || Names(old(kwargs.level), 2, "Bounded") || Names(old(kwargs.level), 3, "Eventually")
                         || Names(old(kwargs.level), 4, "Customized") then Some(false)
                 else None
    ensures r.None? || old(kwargs.isIterator) ==>
              kwargs.level == old(kwargs.level) && kwargs.guaranteeTs == old(kwargs.guaranteeTs) && cache.region.cache == old(cache.region.cache)
    ensures !old(kwargs.isIterator) && (old(kwargs.level).None? || Names(old(kwargs.level), 1, "Session")) ==>
              var k := Key(endpoint, if db == "" then "default" else db, collection);
              && kwargs.guaranteeTs == Some(if k in old(cache.region.cache).data then old(cache.region.cache).data[k] else 1)
              && kwargs.level == (if old(kwargs.level).None? then None else Some(ByCode(1)))
              && cache.region.cache == Apply(old(cache.region.cache), Read(k))
    ensures r == Some(false) && !Names(old(kwargs.level), 1, "Session") ==> cache.region.cache == old(cache.region.cache)
    ensures !old(kwargs.isIterator) && Names(old(kwargs.level), 0, "Strong") ==>
              kwargs.guaranteeTs == Some(0) && kwargs.level == Some(ByCode(0))
    ensures !old(kwargs.isIterator) && Names(old(kwargs.level), 2, "Bounded") ==>
              kwargs.guaranteeTs == Some(2) && kwargs.level == Some(ByCode(2))
    ensures !old(kwargs.isIterator) && (Names(old(kwargs.level), 3, "Eventually") || Names(old(kwargs.level), 4, "Customized")) ==>
              && kwargs.guaranteeTs == (if old(kwargs.guaranteeTs).Some? then old(kwargs.guaranteeTs) else Some(1))
              && kwargs.level == Some(ByCode(if Names(old(kwargs.level), 3, "Eventually") then 3 else 4))
  {
    if kwargs.isIterator {
      return Some(true);
    }
    if kwargs.level.None? {
      var ts := cache.Get(endpoint, db, collection);
      kwargs.guaranteeTs := Some(if ts != 0 then ts else EVENTUALLY_TS);
      return Some(true);
    }
    var level := GetConsistencyLevel(kwargs.level.value);
    if level.None? {
      return None;
    }
    kwargs.level := Some(ByCode(LevelCode(level.value)));
    match level.value {
      case Strong =>
        kwargs.guaranteeTs := Some(0);
      case Session =>
        var ts := cache.Get(endpoint, db, collection);
        kwargs.guaranteeTs := Some(if ts != 0 then ts else EVENTUALLY_TS);
      case Bounded =>
        kwargs.guaranteeTs := Some(BOUNDED_TS);
      case _ =>
        if kwargs.guaranteeTs.None? {
          kwargs.guaranteeTs := Some(EVENTUALLY_TS);
        }
    }
    r := Some(false);
  }
}
