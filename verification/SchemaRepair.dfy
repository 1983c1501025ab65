/** `insert_rows` over the shared schema cache, `retry_on_schema_mismatch`, and its composition with the
    retry loop. Between any two of our critical sections other threads may use the cache. */
module SchemaRepair {
  import opened CacheKeys
  import opened Lru
  import opened Prelude
  import opened SchemaCaches
  import Retry
  import Ts = CollectionTs

  type Failure = o: Retry.Outcome | !o.Returned? witness Retry.OtherFailure

  datatype Exception = DataNotMatch | SchemaMismatch | ParamError | Raised(failure: Failure) {

    /** The two exceptions the decorator catches. */
    predicate IsMismatch() { DataNotMatch? || SchemaMismatch? }
  }

  type Reply<T> = Result<T, Exception>

  predicate Mismatched<T>(r: Reply<T>) { r.Err? && r.error.IsMismatch() }

  /** The world around one insert: what other threads do to the cache before step `t`, and what the server
      answers at step `t`. `prepare` encodes the rows of this insert by a schema. */
  datatype Env = Env(
    others: nat -> seq<CacheOp>,
    describe: nat -> Reply<Schema>,
    prepare: Schema -> Reply<string>,
    insert: (nat, string, int) -> Reply<int>)

  /** `schema.get("update_timestamp", 0)`. */
  function Timestamp(schema: Schema): int
  {
    if schema.updateTimestamp.Some? then schema.updateTimestamp.value else 0
  }

  // ---- The specification.

  datatype State = State(cache: SchemaLru, clock: nat)

  ghost predicate GoodState(s: State) { Good(s.cache) }

  ghost function Others(env: Env, s: State): (r: State)
    requires GoodState(s)
    ensures GoodState(r) && r.cache.capacity == s.cache.capacity
  {
    State(Run(s.cache, env.others(s.clock)), s.clock + 1)
  }

  /** One of our own critical sections, after whatever the other threads did. */
  ghost function Act(env: Env, s: State, op: CacheOp): (r: State)
    requires GoodState(s)
    ensures GoodState(r) && r.cache.capacity == s.cache.capacity
  {
    var o := Others(env, s);
    ApplyGood(o.cache, op);
    State(Apply(o.cache, op), o.clock)
  }

  /** `_get_schema`. */
  ghost function SchemaOf(env: Env, k: Key, s: State): (r: (State, Reply<Schema>))
    requires GoodState(s)
    ensures GoodState(r.0) && r.0.cache.capacity == s.cache.capacity
  {
    var hit := Cached(Others(env, s).cache, k);
    var s1 := Act(env, s, Use(k));
    if hit.Some? then (s1, Ok(hit.value))
    else
      var answer := env.describe(s1.clock);
      if answer.Ok? then (Act(env, s1, Put(k, answer.value)), answer) else (s1, answer)
  }

  /** What the server says to the rows encoded by `schema`. */
  function Send(env: Env, clock: nat, schema: Schema): Reply<int>
  {
    var prepared := env.prepare(schema);
    if prepared.Ok? then env.insert(clock, prepared.value, Timestamp(schema)) else Err(prepared.error)
  }

  /** One run of the body of `insert_rows`. */
  ghost function Body(env: Env, k: Key, s: State): (r: (State, Reply<int>))
    requires GoodState(s)
    ensures GoodState(r.0) && r.0.cache.capacity == s.cache.capacity
  {
    var g := SchemaOf(env, k, s);
    (g.0, if g.1.Ok? then Send(env, g.0.clock, g.1.value) else Err(g.1.error))
  }

  datatype Report = Report(state: State, reply: Reply<int>, runs: nat)

  /** The state in which the second run starts. */
  ghost function Invalidated(env: Env, k: Key, s: State): (r: State)
    requires GoodState(s)
    ensures GoodState(r) && r.cache.capacity == s.cache.capacity && k !in r.cache.data
  {
    var s1 := Body(env, k, s).0;
    WithoutFacts(Others(env, s1).cache.order, k);
    Act(env, s1, Drop(k))
  }

  ghost function Insert(env: Env, k: Key, hasContext: bool, s: State): (r: Report)
    requires GoodState(s)
    ensures GoodState(r.state) && r.state.cache.capacity == s.cache.capacity
  {
    var first := Body(env, k, s);
    if !Mismatched(first.1) then Report(first.0, first.1, 1)
    else if !hasContext then Report(first.0, Err(ParamError), 1)
    else
      var second := Body(env, k, Invalidated(env, k, s));
      Report(second.0, second.1, 2)
  }

  // ---- The code.

  class GrpcHandler {
    const serverAddress: string
    const schemas: SchemaCache
    const timestamps: Ts.CollectionTsCache
    var clock: nat

    ghost predicate Valid()
      reads this, schemas.region, timestamps.region
    {
      schemas.Valid() && timestamps.Valid() && schemas.region as object != timestamps.region
    }

    ghost function Now(): State
      reads this, schemas.region
    {
      State(schemas.region.cache, clock)
    }

    constructor (serverAddress: string, schemas: SchemaCache, timestamps: Ts.CollectionTsCache)
      requires schemas.Valid() && timestamps.Valid() && schemas.region as object != timestamps.region
      ensures Valid() && this.serverAddress == serverAddress && this.schemas == schemas && this.timestamps == timestamps
    {
      this.serverAddress, this.schemas, this.timestamps, clock := serverAddress, schemas, timestamps, 0;
    }

    /** The other threads' turn. */
    method Yield(env: Env)
      requires Valid()
      modifies this, schemas.region
      ensures Valid() && Now() == Others(env, old(Now()))
    {
      var ops := env.others(clock);
      ghost var was := schemas.region.cache;
      var i := 0;
      while i < |ops|
        invariant 0 <= i <= |ops| && schemas.Valid() && clock == old(clock)
        invariant schemas.region.cache == Run(was, ops[..i])
      {
        assert ops[..i + 1][..i] == ops[..i];
        ApplyGood(schemas.region.cache, ops[i]);
        schemas.region.cache := Apply(schemas.region.cache, ops[i]);
        i := i + 1;
      }
      assert ops[..i] == ops;
      clock := clock + 1;
    }

    method GetSchema(env: Env, collection: string, db: string) returns (schema: Reply<Schema>)
      requires Valid()
      modifies this, schemas.region
      ensures Valid() && (Now(), schema) == SchemaOf(env, MakeKey(serverAddress, db, collection), old(Now()))
    {
      Yield(env);
      var cached := schemas.Get(serverAddress, db, collection);
      if cached.Some? {
        return Ok(cached.value);
      }
      schema := env.describe(clock);
      if schema.Ok? {
        Yield(env);
        schemas.Set(serverAddress, db, collection, schema.value);
      }
    }

    /** The undecorated `insert_rows`: an accepted insert also records its timestamp. */
    method InsertOnce(env: Env, collection: string, db: string) returns (reply: Reply<int>)
      requires Valid()
      modifies this, schemas.region, timestamps.region
      ensures Valid() && (Now(), reply) == Body(env, MakeKey(serverAddress, db, collection), old(Now()))
      ensures reply.Err? ==> timestamps.region.cache == old(timestamps.region.cache)
      ensures reply.Ok? ==>
                timestamps.region.cache == Ts.SetTs(old(timestamps.region.cache), MakeKey(serverAddress, db, collection), reply.value)
    {
      var schema := GetSchema(env, collection, db);
      if schema.Err? {
        return Err(schema.error);
      }
      var prepared := env.prepare(schema.value);
      if prepared.Err? {
        return Err(prepared.error);
      }
      reply := env.insert(clock, prepared.value, Timestamp(schema.value));
      if reply.Ok? {
        timestamps.Set(serverAddress, db, collection, reply.value);
      }
    }

    /** `insert_rows` under `retry_on_schema_mismatch`; `context` carries the database name. The body runs twice
        exactly when its first run mismatched and there is a context to invalidate by; without one the
        mismatch becomes a ParamError, and a second mismatch is raised. */
    method InsertRows(env: Env, collection: string, context: Option<string>) returns (reply: Reply<int>, runs: nat)
      requires Valid()
      modifies this, schemas.region, timestamps.region
      ensures Valid() && Report(Now(), reply, runs) == Insert(env, KeyOf(serverAddress, collection, context), context.Some?, old(Now()))
      ensures reply.Err? ==> timestamps.region.cache == old(timestamps.region.cache)
      ensures reply.Ok? ==>
                timestamps.region.cache == Ts.SetTs(old(timestamps.region.cache), KeyOf(serverAddress, collection, context), reply.value)
      ensures reply.Ok? && reply.value > 0 ==>
                var k := KeyOf(serverAddress, collection, context);
                && k in timestamps.region.cache.data
                && timestamps.region.cache.data[k] ==
                   if k in old(timestamps.region.cache).data then Max(old(timestamps.region.cache).data[k], reply.value) else reply.value
      ensures 1 <= runs <= 2
      ensures runs == 2 <==> context.Some? && Mismatched(Body(env, KeyOf(serverAddress, collection, context), old(Now())).1)
      ensures var first := Body(env, KeyOf(serverAddress, collection, context), old(Now())).1;
              && (runs == 2 <==> context.Some? && first in {Err(DataNotMatch), Err(SchemaMismatch)})
              && (context.None? ==> reply == if first in {Err(DataNotMatch), Err(SchemaMismatch)} then Err(ParamError) else first)
      ensures Mismatched(reply) ==> runs == 2
    {
      var db := if context.Some? then context.value else "";
      ghost var k := KeyOf(serverAddress, collection, context);
      runs := 0;
      for attempt := 0 to 2
        invariant Valid() && attempt < 2 && runs == attempt && timestamps.region.cache == old(timestamps.region.cache)
        invariant attempt == 0 ==> Now() == old(Now())
        invariant attempt == 1 ==> context.Some? && Mismatched(Body(env, k, old(Now())).1) && Now() == Invalidated(env, k, old(Now()))
      {
        reply := InsertOnce(env, collection, db);
        runs := runs + 1;
        if reply.Ok? && reply.value > 0 {
          Ts.WriteIsRecent(old(timestamps.region.cache), k, reply.value);
        }
        if !Mismatched(reply) {
          return;
        }
        if attempt == 0 {
          if context.None? {
            return Err(ParamError), runs;
          }
          Yield(env);
          schemas.Invalidate(serverAddress, context.value, collection);
        } else {
          return;
        }
      }
      assert false;
    }
  }

  function KeyOf(serverAddress: string, collection: string, context: Option<string>): Key
  {
    MakeKey(serverAddress, if context.Some? then context.value else "", collection)
  }

  /** The request carries the schema's update timestamp, or 0. */
  lemma BodySends(env: Env, k: Key, s: State, schema: Schema, rows: string)
    requires GoodState(s) && SchemaOf(env, k, s).1 == Ok(schema) && env.prepare(schema) == Ok(rows)
    ensures var t := if schema.updateTimestamp.Some? then schema.updateTimestamp.value else 0;
            Body(env, k, s).1 == env.insert(SchemaOf(env, k, s).0.clock, rows, t)
  {
  }

  /** An insert, then whatever other threads do to the timestamp cache, then a request at session or default
      level for the same collection: while the key is kept and fewer other keys than the capacity are used,
      the request's guarantee timestamp is at least the insert's. */
  method RequestAfterInsert(h: GrpcHandler, env: Env, collection: string, context: Option<string>, ops: seq<Ts.Op>, kwargs: Ts.Kwargs)
    returns (reply: Reply<int>)
    requires h.Valid() && !kwargs.isIterator && (kwargs.level.None? || Ts.Names(kwargs.level, 1, "Session"))
    modifies h, h.schemas.region, h.timestamps.region, kwargs
    ensures var k := KeyOf(h.serverAddress, collection, context);
            reply.Ok? && Ts.Keeps(ops, k) && |Ts.Others(ops, k)| < old(h.timestamps.region.cache).capacity ==>
              kwargs.guaranteeTs.Some? && kwargs.guaranteeTs.value >= reply.value
  {
    ghost var k, c := KeyOf(h.serverAddress, collection, context), h.timestamps.region.cache;
    var runs;
    reply, runs := h.InsertRows(env, collection, context);
    ghost var c1 := h.timestamps.region.cache;
    for i := 0 to |ops|
      invariant h.Valid() && h.timestamps.region.cache == Ts.Run(c1, ops[..i])
      invariant kwargs.isIterator == old(kwargs.isIterator) && kwargs.level == old(kwargs.level)
    {
      assert ops[..i + 1][..i] == ops[..i];
      Ts.ApplyGood(h.timestamps.region.cache, ops[i]);
      h.timestamps.region.cache := Ts.Apply(h.timestamps.region.cache, ops[i]);
    }
    assert ops[..|ops|] == ops;
    var answered := Ts.ConstructGuaranteeTs(kwargs, h.timestamps, h.serverAddress, if context.Some? then context.value else "", collection);
    if reply.Ok? && Ts.Keeps(ops, k) && |Ts.Others(ops, k)| < c.capacity {
      Ts.ReadYourWrites(c, k, reply.value, ops);
    }
  }

  // ---- How often the body runs, and what else it touches.

  ghost predicate Quiet(env: Env)
  {
    forall t :: env.others(t) == []
  }

  /** Everything in the cache but `k`: the order of the other keys, and their schemas. */
  function Rest(c: SchemaLru, k: Key): (seq<Key>, map<Key, Schema>)
  {
    (Without(c.order, k), c.data - {k})
  }

  lemma {:induction false} WithoutTwice(s: seq<Key>, k: Key)
    ensures Without(Without(s, k), k) == Without(s, k)
    ensures Without(Without(s, k) + [k], k) == Without(s, k)
  {
    assert (Without(s, k) + [k])[..|Without(s, k)|] == Without(s, k);
    if s != [] {
      var front, last := s[..|s| - 1], s[|s| - 1];
      WithoutTwice(front, k);
      if last != k {
        assert (Without(front, k) + [last])[..|Without(front, k)|] == Without(front, k);
      }
    }
  }

  ghost predicate Touches(op: CacheOp, k: Key)
  {
    (op.Use? || op.Put? || op.Drop?) && op.k == k
  }

  lemma PutKeepsRest(c: SchemaLru, k: Key, schema: Schema)
    requires Good(c) && (k !in c.data ==> |c.order| < c.capacity)
    ensures Rest(Apply(c, Put(k, schema)), k) == Rest(c, k)
  {
    WithoutTwice(c.order, k);
    if k !in c.data {
      WithoutAbsent(c.order, k);
    }
    assert c.data[k := schema] - {k} == c.data - {k};
  }

  /** An operation on `k` leaves the other entries as they are, in their order, unless it has to evict. */
  lemma KeepsRest(c: SchemaLru, op: CacheOp, k: Key)
    requires Good(c) && Touches(op, k)
    requires op.Put? && k !in c.data ==> |c.order| < c.capacity
    ensures Rest(Apply(c, op), k) == Rest(c, k)
  {
    match op
    case Use(_) => WithoutTwice(c.order, k);
    case Put(_, schema) => PutKeepsRest(c, k, schema);
    case Drop(_) =>
      WithoutTwice(c.order, k);
      assert c.data - {k} - {k} == c.data - {k};
  }

  /** Evicting drops the least recently used entry and no other. */
  lemma EvictsFirst(c: SchemaLru, k: Key, schema: Schema)
    requires Good(c) && k !in c.data && |c.order| == c.capacity
    ensures Rest(Apply(c, Put(k, schema)), k) == (c.order[1..], c.data - {c.order[0]})
  {
    WithoutAbsent(c.order[1..], k);
    WithoutTwice(c.order[1..], k);
    assert (c.data - {c.order[0]})[k := schema] - {k} == c.data - {c.order[0]};
  }

  /** The first run has to make room for the collection's schema. */
  predicate NeedsRoom(env: Env, k: Key, s: State)
  {
    k !in s.cache.data && |s.cache.order| == s.cache.capacity && env.describe(s.clock + 1).Ok?
  }

  lemma QuietAct(env: Env, s: State, op: CacheOp)
    requires GoodState(s) && Quiet(env)
    ensures Act(env, s, op) == State(Apply(s.cache, op), s.clock + 1) && Others(env, s).cache == s.cache
  {
    assert env.others(s.clock) == [];
  }

  lemma QuietBodyKeepsRest(env: Env, k: Key, s: State)
    requires GoodState(s) && Quiet(env) && !NeedsRoom(env, k, s)
    ensures Rest(Body(env, k, s).0.cache, k) == Rest(s.cache, k)
  {
    KeepsRest(s.cache, Use(k), k);
    var s1 := Act(env, s, Use(k));
    var answer := env.describe(s1.clock);
    if k !in s.cache.data && answer.Ok? {
      KeepsRest(s1.cache, Put(k, answer.value), k);
    }
  }

  lemma QuietEvicts(env: Env, k: Key, s: State)
    requires GoodState(s) && Quiet(env) && NeedsRoom(env, k, s)
    ensures Rest(Body(env, k, s).0.cache, k) == (s.cache.order[1..], s.cache.data - {s.cache.order[0]})
    ensures k in Body(env, k, s).0.cache.data
  {
    var schema := env.describe(s.clock + 1).value;
    QuietAct(env, s, Use(k));
    var s1 := Act(env, s, Use(k));
    assert s1 == State(s.cache, s.clock + 1);
    QuietAct(env, s1, Put(k, schema));
    EvictsFirst(s.cache, k, schema);
  }

  lemma InvalidatedKeepsRest(env: Env, k: Key, s: State)
    requires GoodState(s) && Quiet(env)
    ensures Rest(Invalidated(env, k, s).cache, k) == Rest(Body(env, k, s).0.cache, k)
  {
    KeepsRest(Body(env, k, s).0.cache, Drop(k), k);
  }

  /** The insert has to make room for the collection's schema: in its first run, or in its second when
      the first describe itself reported a mismatch. */
  predicate Evicts(env: Env, k: Key, hasContext: bool, s: State)
  {
    && k !in s.cache.data && |s.cache.order| == s.cache.capacity
    && (env.describe(s.clock + 1).Ok? ||
        (Mismatched(env.describe(s.clock + 1)) && hasContext && env.describe(s.clock + 3).Ok?))
  }

  /** With no interference an insert never changes another collection's entry or the order of the others.
      It loses one exactly when the collection was not cached, the cache was full and the server described
      the collection; and then the least recently used one. */
  lemma TouchesOnlyItsKey(env: Env, k: Key, hasContext: bool, s: State)
    requires GoodState(s) && Quiet(env)
    ensures Rest(Insert(env, k, hasContext, s).state.cache, k) ==
            if Evicts(env, k, hasContext, s) then (s.cache.order[1..], s.cache.data - {s.cache.order[0]})
            else Rest(s.cache, k)
  {
    FirstRunRest(env, k, s);
    if Mismatched(Body(env, k, s).1) && hasContext {
      InvalidatedKeepsRest(env, k, s);
      SecondRunRest(env, k, s);
    }
  }

  lemma FirstRunRest(env: Env, k: Key, s: State)
    requires GoodState(s) && Quiet(env)
    ensures Rest(Body(env, k, s).0.cache, k) ==
            if NeedsRoom(env, k, s) then (s.cache.order[1..], s.cache.data - {s.cache.order[0]}) else Rest(s.cache, k)
  {
    if NeedsRoom(env, k, s) {
      QuietEvicts(env, k, s);
    } else {
      QuietBodyKeepsRest(env, k, s);
    }
  }

  /** The first run caches the collection unless it was not cached and could not be described. */
  lemma FirstRunCaches(env: Env, k: Key, s: State)
    requires GoodState(s) && Quiet(env)
    ensures k in Body(env, k, s).0.cache.data <==> k in s.cache.data || env.describe(s.clock + 1).Ok?
    ensures k !in Body(env, k, s).0.cache.data ==>
              Body(env, k, s) == (State(s.cache, s.clock + 1), Err(env.describe(s.clock + 1).error))
  {
    QuietAct(env, s, Use(k));
    var s1 := Act(env, s, Use(k));
    if k !in s.cache.data && env.describe(s1.clock).Ok? {
      QuietAct(env, s1, Put(k, env.describe(s1.clock).value));
    }
  }

  lemma InvalidatedQuiet(env: Env, k: Key, s: State)
    requires GoodState(s) && Quiet(env)
    ensures var b := Body(env, k, s).0;
            && Invalidated(env, k, s) == State(b.cache.Pop(k), b.clock + 1)
            && (k in b.cache.data ==> |b.cache.Pop(k).order| < b.cache.capacity)
  {
    var b := Body(env, k, s).0;
    QuietAct(env, b, Drop(k));
    WithoutFacts(b.cache.order, k);
  }

  /** The second run makes room only when the first describe failed. */
  predicate LateRoom(env: Env, k: Key, s: State)
  {
    k !in s.cache.data && !env.describe(s.clock + 1).Ok? && Evicts(env, k, true, s)
  }

  lemma LateRoomIsNeeded(env: Env, k: Key, s: State)
    requires GoodState(s) && Quiet(env) && Mismatched(Body(env, k, s).1)
    ensures NeedsRoom(env, k, Invalidated(env, k, s)) <==> LateRoom(env, k, s)
    ensures LateRoom(env, k, s) ==> Invalidated(env, k, s).cache == Body(env, k, s).0.cache == s.cache
  {
    InvalidatedQuiet(env, k, s);
    FirstRunCaches(env, k, s);
  }

  lemma SecondRunRest(env: Env, k: Key, s: State)
    requires GoodState(s) && Quiet(env) && Mismatched(Body(env, k, s).1)
    ensures Rest(Body(env, k, Invalidated(env, k, s)).0.cache, k) ==
            if LateRoom(env, k, s) then (s.cache.order[1..], s.cache.data - {s.cache.order[0]})
            else Rest(Body(env, k, s).0.cache, k)
  {
    var s2 := Invalidated(env, k, s);
    LateRoomIsNeeded(env, k, s);
    FirstRunRest(env, k, s2);
    InvalidatedKeepsRest(env, k, s);
  }

  // ---- The repair.

  /** A lookup returns what other threads left in the cache, else what the server describes, and caches it. */
  lemma LookedUp(env: Env, k: Key, s: State, schema: Schema)
    requires GoodState(s) && env.describe(s.clock + 1) == Ok(schema)
    ensures var seen := Cached(Run(s.cache, env.others(s.clock)), k);
            var used := if seen.Some? then seen.value else schema;
            SchemaOf(env, k, s).1 == Ok(used) && Cached(SchemaOf(env, k, s).0.cache, k) == Some(used)
  {
    WithoutFacts(Others(env, s).cache.order, k);
  }

  ghost predicate LooksUp(env: Env, k: Key, s: State, schema: Schema)
    requires GoodState(s)
  {
    SchemaOf(env, k, s).1 == Ok(schema)
  }

  /** Every lookup at time `t` in a cache without the collection sees this schema. */
  ghost predicate UsesFresh(env: Env, k: Key, t: nat, schema: Schema)
  {
    forall c: SchemaLru | Good(c) && k !in c.data :: LooksUp(env, k, State(c, t), schema)
  }

  /** After an invalidation at time `t` the next lookup is certain to see the server's schema if and only
      if the last schema other threads put there meanwhile, if any, is that schema. */
  lemma FreshIff(env: Env, k: Key, t: nat, schema: Schema)
    requires env.describe(t + 1) == Ok(schema)
    ensures UsesFresh(env, k, t, schema) <==> LastPut(env.others(t), k) in {None, Some(schema)}
  {
    NeverStaleIff(env.others(t), k, schema);
    if NeverStale(env.others(t), k, schema) {
      forall c: SchemaLru | Good(c) && k !in c.data ensures LooksUp(env, k, State(c, t), schema) {
        SeenFresh(env, k, c, t, schema);
      }
    }
    if UsesFresh(env, k, t, schema) {
      forall c: SchemaLru | Good(c) && k !in c.data ensures Cached(Run(c, env.others(t)), k) in {None, Some(schema)} {
        SeenFresh(env, k, c, t, schema);
      }
    }
  }

  lemma SeenFresh(env: Env, k: Key, c: SchemaLru, t: nat, schema: Schema)
    requires Good(c) && env.describe(t + 1) == Ok(schema)
    ensures LooksUp(env, k, State(c, t), schema) <==> Cached(Run(c, env.others(t)), k) in {None, Some(schema)}
  {
    LookedUp(env, k, State(c, t), schema);
  }

  /** The server keeps describing the collection as `schema` and takes the rows encoded by it. */
  ghost predicate Settled(env: Env, since: nat, schema: Schema)
  {
    && (forall t | t >= since :: env.describe(t) == Ok(schema))
    && (forall t | t >= since :: Send(env, t, schema).Ok?)
  }

  /** Whatever the cache held, if the server settles after the invalidation and no other thread's last put
      meanwhile is a stale schema, the insert succeeds on its second run and leaves the server's schema
      cached. */
  lemma Repair(env: Env, k: Key, s: State, schema: Schema)
    requires GoodState(s) && Mismatched(Body(env, k, s).1)
    requires Settled(env, Invalidated(env, k, s).clock, schema)
    requires LastPut(env.others(Invalidated(env, k, s).clock), k) in {None, Some(schema)}
    ensures var r := Insert(env, k, true, s);
            r.reply.Ok? && r.runs == 2 && Cached(r.state.cache, k) == Some(schema)
  {
    var s2 := Invalidated(env, k, s);
    var ops := env.others(s2.clock);
    CachedIsLastPut(s2.cache, ops, k);
    LookedUp(env, k, s2, schema);
    ClockGrows(env, k, s2);
  }

  lemma ClockGrows(env: Env, k: Key, s: State)
    requires GoodState(s)
    ensures SchemaOf(env, k, s).0.clock > s.clock
  {
  }

  /** The condition is needed: if another thread's late put of a schema `stale` is seen instead, the second
      run is decided by `stale`, however settled the server is; and when the server refuses rows encoded by
      it, the insert fails with the mismatch it was to repair. */
  lemma StalePutDefeatsRepair(env: Env, k: Key, s: State, schema: Schema, stale: Schema)
    requires GoodState(s) && Mismatched(Body(env, k, s).1)
    requires Settled(env, Invalidated(env, k, s).clock, schema)
    requires LastPut(env.others(Invalidated(env, k, s).clock), k) == Some(stale)
    requires |Invalidated(env, k, s).cache.order| + |env.others(Invalidated(env, k, s).clock)| <= s.cache.capacity
    ensures var r := Insert(env, k, true, s);
            r.reply == Send(env, r.state.clock, stale) && Cached(r.state.cache, k) == Some(stale)
  {
    var s2 := Invalidated(env, k, s);
    CachedWithRoom(s2.cache, env.others(s2.clock), k);
    LookedUp(env, k, s2, schema);
  }

  // ---- Under the retry loop.

  const UNEXPECTED_ERROR := 1

  /** A SchemaMismatch exception is raised with the server's reason in place of its numeric code, so it
      equals no code. */
  const NO_CODE := -1

  function OutcomeOf(reply: Reply<int>): Retry.Outcome
  {
    match reply
    case Ok(ts) => Retry.Returned(ts)
    case Err(Raised(failure)) => failure
    case Err(SchemaMismatch) => Retry.MilvusFailure(NO_CODE, UNEXPECTED_ERROR)
    case Err(_) => Retry.MilvusFailure(UNEXPECTED_ERROR, UNEXPECTED_ERROR)
  }

  /** The decorated insert called by attempt `i` of the retry loop. */
  ghost function Attempt(env: Env, k: Key, hasContext: bool, s: State, i: nat): (r: Report)
    requires GoodState(s)
    ensures GoodState(r.state)
  {
    Insert(env, k, hasContext, if i == 0 then s else Attempt(env, k, hasContext, s, i - 1).state)
  }

  ghost predicate Wraps(setup: Retry.Setup, env: Env, k: Key, hasContext: bool, s: State)
    requires GoodState(s)
  {
    forall i: nat :: setup.outcome(i) == OutcomeOf(Attempt(env, k, hasContext, s, i).reply)
  }

  function Sum(f: nat -> nat, n: nat): nat
  {
    if n == 0 then 0 else Sum(f, n - 1) + f(n - 1)
  }

  lemma {:induction false} SumBetween(f: nat -> nat, n: nat, low: nat, high: nat)
    requires forall i | 0 <= i < n :: low <= f(i) <= high
    ensures low * n <= Sum(f, n) <= high * n
  {
    if n > 0 {
      SumBetween(f, n - 1, low, high);
      assert low * n == low * (n - 1) + low && high * n == high * (n - 1) + high;
    }
  }

  /** How often the body has run in the first `attempts` calls of the decorated insert. */
  ghost function BodyRuns(env: Env, k: Key, hasContext: bool, s: State, attempts: nat): nat
    requires GoodState(s)
  {
    Sum(i => RunsIn(env, k, hasContext, s, i), attempts)
  }

  ghost function RunsIn(env: Env, k: Key, hasContext: bool, s: State, i: nat): nat
  {
    if GoodState(s) then Attempt(env, k, hasContext, s, i).runs else 1
  }

  lemma AtMostTwoEach(env: Env, k: Key, hasContext: bool, s: State, attempts: nat)
    requires GoodState(s)
    ensures attempts <= BodyRuns(env, k, hasContext, s, attempts) <= 2 * attempts
    ensures !hasContext ==> BodyRuns(env, k, hasContext, s, attempts) == attempts
  {
    SumBetween(i => RunsIn(env, k, hasContext, s, i), attempts, 1, if hasContext then 2 else 1);
  }

  /** `calls` is how often the retry loop calls the decorated insert. */
  ghost predicate Calls(setup: Retry.Setup, calls: nat)
  {
    calls >= 1 && setup.Stops(calls - 1) && forall i: nat | i < calls - 1 :: !setup.Stops(i)
  }

  /** Without a timeout the body runs at most 2 * (max(N, 0) + 1) times; with one, at most twice the
      bound on the calls. */
  lemma RunsBounded(setup: Retry.Setup, env: Env, k: Key, hasContext: bool, s: State, calls: nat)
    requires GoodState(s) && Wraps(setup, env, k, hasContext, s) && setup.Finite() && Calls(setup, calls)
    ensures BodyRuns(env, k, hasContext, s, calls) <= 2 * setup.Bound()
    ensures setup.timeout.None? ==> BodyRuns(env, k, hasContext, s, calls) <= 2 * (Max(setup.FinalRetryTimes(), 0) + 1)
  {
    Retry.CallsBounded(setup, calls);
    AtMostTwoEach(env, k, hasContext, s, calls);
  }

  /** A mismatch that the repair does not cure, or that has no context, is not retried again. */
  lemma MismatchEndsTheLoop(setup: Retry.Setup, env: Env, k: Key, hasContext: bool, s: State, i: nat)
    requires GoodState(s) && Wraps(setup, env, k, hasContext, s)
    requires Mismatched(Attempt(env, k, hasContext, s, i).reply) || Attempt(env, k, hasContext, s, i).reply == Err(ParamError)
    ensures setup.Stops(i)
  {
    var reply := Attempt(env, k, hasContext, s, i).reply;
    assert setup.outcome(i) == OutcomeOf(reply);
    NotRetryable(setup, reply);
  }

  lemma NotRetryable(setup: Retry.Setup, reply: Reply<int>)
    requires Mismatched(reply) || reply == Err(ParamError)
    ensures !setup.Retryable(OutcomeOf(reply))
  {
  }

  lemma OneAttempt(env: Env, k: Key, hasContext: bool, s: State)
    requires GoodState(s)
    ensures BodyRuns(env, k, hasContext, s, 1) == Insert(env, k, hasContext, s).runs
  {
    var f := (i: nat) => RunsIn(env, k, hasContext, s, i);
    assert Sum(f, 1) == Sum(f, 0) + f(0);
  }

  /** Rows that no schema in sight fits make the body run exactly twice, whatever the retry count. */
  lemma PersistentMismatch(setup: Retry.Setup, env: Env, k: Key, s: State, calls: nat)
    requires GoodState(s) && Wraps(setup, env, k, true, s) && Calls(setup, calls)
    requires forall schema :: Mismatched(env.prepare(schema))
    requires forall t :: env.describe(t).Ok?
    ensures calls == 1 && BodyRuns(env, k, true, s, calls) == 2 && Mismatched(Attempt(env, k, true, s, 0).reply)
  {
    BodyMismatches(env, k, s);
    BodyMismatches(env, k, Invalidated(env, k, s));
    MismatchEndsTheLoop(setup, env, k, true, s, 0);
    assert !(0 < calls - 1);
    OneAttempt(env, k, true, s);
  }

  lemma BodyMismatches(env: Env, k: Key, s: State)
    requires GoodState(s)
    requires forall schema :: Mismatched(env.prepare(schema))
    requires forall t :: env.describe(t).Ok?
    ensures Mismatched(Body(env, k, s).1)
  {
    var g := SchemaOf(env, k, s);
    assert Mismatched(env.prepare(g.1.value));
  }

  /** A server whose schema changes before every attempt and which is unavailable to every repaired one. */
  function Unlucky(schema: Schema): Env
  {
    Env(_ => [], _ => Ok(schema), _ => Ok(""),
        (t, _, _) => if t % 4 == 1 then Err(SchemaMismatch) else Err(Raised(Retry.RpcFailure(Retry.UNAVAILABLE))))
  }

  ghost predicate Ready(k: Key, s: State, n: nat)
  {
    GoodState(s) && k in s.cache.data && s.clock == 4 * n
  }

  ghost predicate Wasted(r: Report)
  {
    r.runs == 2 && r.reply == Err(Raised(Retry.RpcFailure(Retry.UNAVAILABLE)))
  }

  lemma UnluckyFirst(schema: Schema, k: Key, s: State, n: nat)
    requires Ready(k, s, n)
    ensures Mismatched(Body(Unlucky(schema), k, s).1)
    ensures Invalidated(Unlucky(schema), k, s).clock == 4 * n + 2
  {
    QuietAct(Unlucky(schema), s, Use(k));
  }

  lemma UnluckySecond(schema: Schema, k: Key, s: State, n: nat)
    requires GoodState(s) && k !in s.cache.data && s.clock == 4 * n + 2
    ensures var b := Body(Unlucky(schema), k, s);
            Ready(k, b.0, n + 1) && b.1 == Err(Raised(Retry.RpcFailure(Retry.UNAVAILABLE)))
  {
    QuietAct(Unlucky(schema), s, Use(k));
    LookedUp(Unlucky(schema), k, s, schema);
  }

  lemma UnluckyAttempt(schema: Schema, k: Key, s: State, n: nat)
    requires Ready(k, s, n)
    ensures var r := Insert(Unlucky(schema), k, true, s);
            Wasted(r) && Ready(k, r.state, n + 1)
  {
    UnluckyFirst(schema, k, s, n);
    UnluckySecond(schema, k, Invalidated(Unlucky(schema), k, s), n);
  }

  ghost predicate WastesFrom(env: Env, k: Key, s: State, n: nat)
  {
    Ready(k, s, n) ==>
      var r := Insert(env, k, true, s);
      Wasted(r) && Ready(k, r.state, n + 1)
  }

  ghost predicate AlwaysWastes(env: Env, k: Key)
  {
    forall s, n: nat :: WastesFrom(env, k, s, n)
  }

  lemma UnluckyWastes(schema: Schema, k: Key)
    ensures AlwaysWastes(Unlucky(schema), k)
  {
    forall s, n: nat ensures WastesFrom(Unlucky(schema), k, s, n) {
      if Ready(k, s, n) {
        UnluckyAttempt(schema, k, s, n);
      }
    }
  }

  lemma {:induction false} WastedAttempts(env: Env, k: Key, s: State, i: nat)
    requires Ready(k, s, 0) && AlwaysWastes(env, k)
    ensures Wasted(Attempt(env, k, true, s, i)) && Ready(k, Attempt(env, k, true, s, i).state, i + 1)
  {
    if i == 0 {
      assert WastesFrom(env, k, s, 0);
    } else {
      WastedAttempts(env, k, s, i - 1);
      assert WastesFrom(env, k, Attempt(env, k, true, s, i - 1).state, i);
    }
  }

  lemma WastedRuns(env: Env, k: Key, s: State, n: nat)
    requires Ready(k, s, 0) && AlwaysWastes(env, k)
    ensures BodyRuns(env, k, true, s, n) == 2 * n
  {
    forall i: nat | i < n ensures RunsIn(env, k, true, s, i) == 2 {
      WastedAttempts(env, k, s, i);
    }
    SumBetween(i => RunsIn(env, k, true, s, i), n, 2, 2);
  }

  lemma WastedCalls(setup: Retry.Setup, env: Env, k: Key, s: State, calls: nat)
    requires Ready(k, s, 0) && AlwaysWastes(env, k)
    requires Wraps(setup, env, k, true, s) && setup.timeout.None? && Calls(setup, calls)
    ensures calls == Max(setup.FinalRetryTimes(), 0) + 1
  {
    Retry.CallsExact(setup, calls);
    forall i: nat ensures setup.Retryable(setup.outcome(i)) {
      WastedIsRetried(setup, env, k, s, i);
    }
  }

  lemma UnavailableIsRetried(setup: Retry.Setup, reply: Reply<int>)
    requires reply == Err(Raised(Retry.RpcFailure(Retry.UNAVAILABLE)))
    ensures setup.Retryable(OutcomeOf(reply))
  {
  }

  lemma WastedIsRetried(setup: Retry.Setup, env: Env, k: Key, s: State, i: nat)
    requires Ready(k, s, 0) && AlwaysWastes(env, k) && Wraps(setup, env, k, true, s)
    ensures setup.Retryable(setup.outcome(i))
  {
    WastedAttempts(env, k, s, i);
    var reply := Attempt(env, k, true, s, i).reply;
    assert setup.outcome(i) == OutcomeOf(reply);
    UnavailableIsRetried(setup, reply);
  }

  /** The bound of `RunsBounded` is attained for every retry count. */
  lemma RunsBoundIsTight(setup: Retry.Setup, schema: Schema, k: Key, s: State, calls: nat)
    requires Ready(k, s, 0)
    requires Wraps(setup, Unlucky(schema), k, true, s) && setup.timeout.None? && Calls(setup, calls)
    ensures BodyRuns(Unlucky(schema), k, true, s, calls) == 2 * (Max(setup.FinalRetryTimes(), 0) + 1)
  {
    UnluckyWastes(schema, k);
    WastedCalls(setup, Unlucky(schema), k, s, calls);
    WastedRuns(Unlucky(schema), k, s, calls);
  }
}
