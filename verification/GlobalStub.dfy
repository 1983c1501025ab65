/** Global clusters: racing topology refreshes, and the fail-over of the one handler to the primary. */
module GlobalStubs {
  import opened Prelude

  datatype ClusterInfo = ClusterInfo(clusterId: string, endpoint: string, capability: int) {

    /** `capability & WRITABLE`, the second lowest bit. */
    predicate IsPrimary() { (capability / 2) % 2 == 1 }
  }

  datatype Topology = Topology(version: int, clusters: seq<ClusterInfo>)

  /** The first writable cluster; `None` stands for the ValueError. */
  function PrimaryOf(cs: seq<ClusterInfo>): Option<ClusterInfo>
  {
    if cs == [] then None else if cs[0].IsPrimary() then Some(cs[0]) else PrimaryOf(cs[1..])
  }

  /** The lowest two bits are 2 or 3. */
  predicate Writable(c: ClusterInfo) { c.capability % 4 >= 2 }

  predicate IsFirstPrimary(cs: seq<ClusterInfo>, i: nat)
  {
    i < |cs| && Writable(cs[i]) && forall j | 0 <= j < i :: !Writable(cs[j])
  }

  lemma {:induction false} PrimaryIsFirst(cs: seq<ClusterInfo>)
    ensures PrimaryOf(cs).None? <==> forall i | 0 <= i < |cs| :: !Writable(cs[i])
    ensures PrimaryOf(cs).Some? ==> exists i :: 0 <= i < |cs| && IsFirstPrimary(cs, i) && cs[i] == PrimaryOf(cs).value
  {
    if cs != [] {
      if cs[0].IsPrimary() {
        assert IsFirstPrimary(cs, 0);
      } else {
        PrimaryIsFirst(cs[1..]);
        if i :| 0 <= i < |cs| - 1 && IsFirstPrimary(cs[1..], i) && cs[1..][i] == PrimaryOf(cs).value {
          assert IsFirstPrimary(cs, i + 1) && cs[i + 1] == PrimaryOf(cs).value;
        }
      }
    }
  }

  method Primary(t: Topology) returns (r: Option<ClusterInfo>)
    ensures r == PrimaryOf(t.clusters)
  {
    for i := 0 to |t.clusters|
      invariant PrimaryOf(t.clusters) == PrimaryOf(t.clusters[i..])
    {
      assert t.clusters[i..][1..] == t.clusters[i + 1..];
      if t.clusters[i].IsPrimary() {
        return Some(t.clusters[i]);
      }
    }
    r := None;
  }

  predicate HasPrimary(t: Topology) { PrimaryOf(t.clusters).Some? }

  function Endpoint(t: Topology): string
    requires HasPrimary(t)
  {
    PrimaryOf(t.clusters).value.endpoint
  }

  // ---- The stub, as a value.

  datatype Handler = Handler(endpoint: string, closed: bool)

  /** What the environment makes of one topology change: does creating a handler succeed, and does closing
      the old one release it? */
  datatype Faults = Faults(created: bool, closed: bool)

  /** Every handler created so far; the last one is in use. */
  datatype Stub = Stub(topology: Topology, handlers: seq<Handler>)

  ghost predicate Valid(s: Stub)
  {
    HasPrimary(s.topology) && s.handlers != [] && !Current(s).closed
  }

  function Current(s: Stub): Handler
    requires s.handlers != []
  {
    s.handlers[|s.handlers| - 1]
  }

  ghost function Started(t: Topology): Stub
    requires HasPrimary(t)
  {
    Stub(t, [Handler(Endpoint(t), false)])
  }

  /** The new topology names another primary. */
  predicate Moves(was: Topology, t: Topology)
    requires HasPrimary(was)
  {
    HasPrimary(t) && Endpoint(t) != Endpoint(was)
  }

  /** A new handler takes over and the last one is closed, or left open. */
  function Replaced(hs: seq<Handler>, closed: bool, endpoint: string): seq<Handler>
    requires hs != []
  {
    hs[..|hs| - 1] + [hs[|hs| - 1].(closed := closed), Handler(endpoint, false)]
  }

  ghost function OnChange(s: Stub, t: Topology, f: Faults): (r: Stub)
    requires Valid(s)
    ensures Valid(r)
  {
    if !HasPrimary(t) then s
    else if !Moves(s.topology, t) || !f.created then s.(topology := t)
    else Stub(t, Replaced(s.handlers, f.closed, Endpoint(t)))
  }

  // ---- The code.

  class GrpcHandler {
    const endpoint: string
    var closed: bool

    constructor (endpoint: string)
      ensures this.endpoint == endpoint && !closed
    {
      this.endpoint, closed := endpoint, false;
    }

    /** May raise without releasing the channel. */
    method Close(releases: bool) returns (raised: bool)
      modifies this
      ensures closed == releases && raised == !releases
    {
      closed := releases;
      raised := !releases;
    }
  }

  ghost function States(hs: seq<GrpcHandler>): seq<Handler>
    reads hs
  {
    seq(|hs|, i requires 0 <= i < |hs| reads hs => Handler(hs[i].endpoint, hs[i].closed))
  }

  class GlobalStub {
    var topology: Topology
    var primaryHandler: GrpcHandler
    ghost var created: seq<GrpcHandler>

    ghost predicate Valid()
      reads this, created
    {
      && created != [] && created[|created| - 1] == primaryHandler
      && (forall i, j | 0 <= i < j < |created| :: created[i] != created[j])
      && HasPrimary(topology) && !primaryHandler.closed
    }

    ghost function View(): Stub
      reads this, created
    {
      Stub(topology, States(created))
    }

    constructor (topology: Topology)
      requires HasPrimary(topology)
      ensures Valid() && fresh(primaryHandler) && View() == Started(topology)
    {
      this.topology := topology;
      var h := new GrpcHandler(PrimaryOf(topology.clusters).value.endpoint);
      primaryHandler := h;
      created := [h];
    }

    /** `_create_primary_handler`; null for an exception. */
    method CreatePrimaryHandler(succeeds: bool) returns (h: GrpcHandler?)
      ensures h == null <==> !HasPrimary(topology) || !succeeds
      ensures h != null ==> fresh(h) && h.endpoint == Endpoint(topology) && !h.closed
    {
      var primary := Primary(topology);
      h := null;
      if primary.Some? && succeeds {
        h := new GrpcHandler(primary.value.endpoint);
      }
    }

    /** The new handler is installed before the old one is closed. */
    method SwitchTo(h: GrpcHandler, closes: bool)
      requires Valid() && h !in created && !h.closed
      modifies this`primaryHandler, this`created, primaryHandler
      ensures Valid() && primaryHandler == h && old(primaryHandler).closed == closes
      ensures States(created) == Replaced(old(States(created)), closes, h.endpoint)
    {
      var oldHandler := primaryHandler;
      primaryHandler := h;
      created := created + [h];
      var _ := oldHandler.Close(closes);
    }

    method OnTopologyChange(newTopology: Topology, faults: Faults) returns (raised: bool)
      requires Valid()
      modifies this, primaryHandler
      ensures Valid() && View() == OnChange(old(View()), newTopology, faults)
      ensures raised <==> !HasPrimary(newTopology) || (Moves(old(topology), newTopology) && !faults.created)
      ensures primaryHandler == old(primaryHandler) || fresh(primaryHandler)
      ensures PrimaryOf(newTopology.clusters).None? ==> topology == old(topology)
      ensures PrimaryOf(newTopology.clusters).Some? ==> topology == newTopology
      ensures primaryHandler != old(primaryHandler) <==>
                && PrimaryOf(newTopology.clusters).Some? && faults.created
                && PrimaryOf(newTopology.clusters).value.endpoint != PrimaryOf(old(topology).clusters).value.endpoint
      ensures primaryHandler != old(primaryHandler) ==>
                && primaryHandler.endpoint == PrimaryOf(newTopology.clusters).value.endpoint
                && old(primaryHandler).closed == faults.closed
    {
      var oldPrimary := Primary(topology);
      var newPrimary := Primary(newTopology);
      if newPrimary.None? {
        assert View() == old(View());
        return true;
      }
      topology := newTopology;
      raised := false;
      if oldPrimary.value.endpoint != newPrimary.value.endpoint {
        var h := CreatePrimaryHandler(faults.created);
        if h == null {
          return true;
        }
        SwitchTo(h, faults.closed);
      }
    }
  }

  /** `GlobalStub.__init__`: null when the first fetch fails, has no primary, or no handler can be made. */
  method StartStub(fetched: Option<Topology>, createSucceeds: bool) returns (stub: GlobalStub?)
    ensures stub == null <==> fetched.None? || !HasPrimary(fetched.value) || !createSucceeds
    ensures stub != null ==> fresh(stub) && stub.Valid() && stub.View() == Started(fetched.value)
  {
    stub := null;
    if fetched.Some? && createSucceeds {
      var primary := Primary(fetched.value);
      if primary.Some? {
        stub := new GlobalStub(fetched.value);
      }
    }
  }

  class TopologyRefresher {
    var topology: Topology
    const stub: GlobalStub

    constructor (stub: GlobalStub)
      ensures this.stub == stub && topology == stub.topology
    {
      this.stub, topology := stub, stub.topology;
    }

    /** `_try_refresh`. The fetch happened outside the lock, so `fetched` may be arbitrarily old; the rest is
        one critical section. Exceptions of the fetch and of the callback are swallowed. */
    method TryRefresh(fetched: Option<Topology>, faults: Faults)
      requires stub.Valid()
      modifies this, stub, stub.primaryHandler
      ensures stub.Valid()
      ensures var newer := fetched.Some? && fetched.value.version > old(topology).version;
              && topology == (if newer then fetched.value else old(topology))
              && stub.View() == (if newer then OnChange(old(stub.View()), fetched.value, faults) else old(stub.View()))
    {
      if fetched.None? {
        return;
      }
      var newTopology := fetched.value;
      if newTopology.version > topology.version {
        topology := newTopology;
        var _ := stub.OnTopologyChange(newTopology, faults);
      }
    }
  }

  // ---- Fail-over, over every sequence of topology changes.

  datatype Change = Change(topology: Topology, faults: Faults)

  ghost function After(t0: Topology, es: seq<Change>): (s: Stub)
    requires HasPrimary(t0)
    ensures Valid(s)
  {
    if es == [] then Started(t0)
    else
      var e := es[|es| - 1];
      OnChange(After(t0, es[..|es| - 1]), e.topology, e.faults)
  }

  function OpenHandlers(hs: seq<Handler>): nat
  {
    if hs == [] then 0
    else OpenHandlers(hs[..|hs| - 1]) + if hs[|hs| - 1].closed then 0 else 1
  }

  /** Exactly one created handler is open, the one in use, and it is connected to the stub's primary. */
  ghost predicate FailedOver(s: Stub)
    requires Valid(s)
  {
    OpenHandlers(s.handlers) == 1 && Connected(s)
  }

  ghost predicate Connected(s: Stub)
    requires Valid(s)
  {
    Current(s).endpoint == Endpoint(s.topology)
  }

  lemma OpenAfterReplace(hs: seq<Handler>, closed: bool, endpoint: string)
    requires hs != [] && !hs[|hs| - 1].closed
    ensures OpenHandlers(Replaced(hs, closed, endpoint)) == OpenHandlers(hs) + if closed then 0 else 1
  {
    var front, r := hs[..|hs| - 1], Replaced(hs, closed, endpoint);
    assert r[..|r| - 1] == front + [hs[|hs| - 1].(closed := closed)];
    assert r[..|r| - 1][..|hs| - 1] == front;
  }

  /** One change keeps the stub failed over if and only if it moves the primary without faults, or does not
      move it. */
  lemma OneChange(s: Stub, t: Topology, f: Faults)
    requires Valid(s) && FailedOver(s)
    ensures FailedOver(OnChange(s, t, f)) <==> (Moves(s.topology, t) ==> f.created && f.closed)
  {
    if Moves(s.topology, t) && f.created {
      OpenAfterReplace(s.handlers, f.closed, Endpoint(t));
    }
  }

  /** The change with index `i` moves the primary, and its new handler is created and its old one closed. */
  ghost predicate Clean(t0: Topology, es: seq<Change>, i: nat)
    requires HasPrimary(t0) && i < |es|
  {
    Moves(After(t0, es[..i]).topology, es[i].topology) ==> es[i].faults.created && es[i].faults.closed
  }

  ghost predicate FailedOverAt(t0: Topology, es: seq<Change>, n: nat)
    requires HasPrimary(t0) && n <= |es|
  {
    FailedOver(After(t0, es[..n]))
  }

  /** Between all callbacks of a run there is one open handler and it is the primary's, if and only if no
      change that moves the primary failed to create its handler or to close the old one. */
  lemma {:induction false} FailoverIff(t0: Topology, es: seq<Change>)
    requires HasPrimary(t0)
    ensures (forall n | 0 <= n <= |es| :: FailedOverAt(t0, es, n)) <==> (forall i | 0 <= i < |es| :: Clean(t0, es, i))
  {
    assert es[..0] == [];
    assert FailedOverAt(t0, es, 0) by {
      assert OpenHandlers([]) == 0;
    }
    if forall i | 0 <= i < |es| :: Clean(t0, es, i) {
      forall n | 0 <= n <= |es| ensures FailedOverAt(t0, es, n) {
        CleanUpTo(t0, es, n);
      }
    }
    if forall n | 0 <= n <= |es| :: FailedOverAt(t0, es, n) {
      forall i | 0 <= i < |es| ensures Clean(t0, es, i) {
        assert FailedOverAt(t0, es, i) && FailedOverAt(t0, es, i + 1);
        NextChange(t0, es, i);
      }
    }
  }

  lemma NextChange(t0: Topology, es: seq<Change>, i: nat)
    requires HasPrimary(t0) && i < |es| && FailedOverAt(t0, es, i)
    ensures FailedOverAt(t0, es, i + 1) <==> Clean(t0, es, i)
  {
    assert es[..i + 1][..i] == es[..i];
    OneChange(After(t0, es[..i]), es[i].topology, es[i].faults);
  }

  lemma {:induction false} CleanUpTo(t0: Topology, es: seq<Change>, n: nat)
    requires HasPrimary(t0) && n <= |es| && FailedOverAt(t0, es, 0)
    requires forall i | 0 <= i < |es| :: Clean(t0, es, i)
    ensures FailedOverAt(t0, es, n)
  {
    if n > 0 {
      CleanUpTo(t0, es, n - 1);
      assert Clean(t0, es, n - 1);
      NextChange(t0, es, n - 1);
    }
  }

  /** Every topology with a primary in this sequence names the primary `endpoint`. */
  ghost predicate PrimaryStays(es: seq<Change>, endpoint: string)
  {
    forall i | 0 <= i < |es| && HasPrimary(es[i].topology) :: Endpoint(es[i].topology) == endpoint
  }

  /** A handler that could not be created is not tried again while the primary stays where it is: the stub
      keeps using the old one. */
  lemma {:induction false} FailedCreationSticks(t0: Topology, es: seq<Change>, later: seq<Change>)
    requires HasPrimary(t0) && !Connected(After(t0, es))
    requires PrimaryStays(later, Endpoint(After(t0, es).topology))
    ensures After(t0, es + later).handlers == After(t0, es).handlers && !Connected(After(t0, es + later))
    ensures Endpoint(After(t0, es + later).topology) == Endpoint(After(t0, es).topology)
  {
    if later == [] {
      assert es + later == es;
    } else {
      var front := later[..|later| - 1];
      assert (es + later)[..|es + later| - 1] == es + front;
      FailedCreationSticks(t0, es, front);
      assert HasPrimary(later[|later| - 1].topology) ==> !Moves(After(t0, es + front).topology, later[|later| - 1].topology);
    }
  }

  // ---- Races between refreshes.

  /** The refresher, its stub, the fetched topologies no thread has committed yet, and the history. */
  datatype System = System(
    installed: Topology, stub: Stub, pending: multiset<Topology>,
    fetched: multiset<Topology>, committed: seq<Topology>, callbacks: seq<Change>)

  datatype Step = Fetch(t: Topology) | Commit(t: Topology, faults: Faults)

  ghost function Init(t: Topology): System
    requires HasPrimary(t)
  {
    System(t, Started(t), multiset{}, multiset{}, [], [])
  }

  predicate Enabled(x: System, step: Step)
  {
    step.Commit? ==> step.t in x.pending
  }

  /** A thread finishes a fetch, or enters the critical section with what it fetched. */
  ghost function Next(x: System, step: Step): (r: System)
    requires Valid(x.stub)
    ensures Valid(r.stub)
  {
    match step
    case Fetch(t) => x.(pending := x.pending + multiset{t}, fetched := x.fetched + multiset{t})
    case Commit(t, faults) =>
      var y := x.(pending := x.pending - multiset{t}, committed := x.committed + [t]);
      if t.version > x.installed.version then
        y.(installed := t, stub := OnChange(x.stub, t, faults), callbacks := x.callbacks + [Change(t, faults)])
      else y
  }

  ghost function Run(t0: Topology, steps: seq<Step>): (x: System)
    requires HasPrimary(t0)
    ensures Valid(x.stub)
  {
    if steps == [] then Init(t0) else Next(Run(t0, steps[..|steps| - 1]), steps[|steps| - 1])
  }

  /** Every commit is of a topology fetched before and not yet committed. */
  ghost predicate Legal(t0: Topology, steps: seq<Step>)
    requires HasPrimary(t0)
  {
    steps != [] ==> Legal(t0, steps[..|steps| - 1]) && Enabled(Run(t0, steps[..|steps| - 1]), steps[|steps| - 1])
  }

  function MaxVersion(v: int, ts: seq<Topology>): int
  {
    if ts == [] then v else Max(MaxVersion(v, ts[..|ts| - 1]), ts[|ts| - 1].version)
  }

  /** The callbacks see versions that grow, from above `v`. */
  ghost predicate Growing(v: int, es: seq<Change>)
  {
    && (forall i | 0 <= i < |es| :: es[i].topology.version > v)
    && forall i, j | 0 <= i < j < |es| :: es[i].topology.version < es[j].topology.version
  }

  function Newest(t0: Topology, es: seq<Change>): Topology
  {
    if es == [] then t0 else es[|es| - 1].topology
  }

  ghost predicate Safe(t0: Topology, x: System)
    requires Valid(x.stub)
  {
    && x.installed.version == MaxVersion(t0.version, x.committed)
    && Growing(t0.version, x.callbacks)
    && x.installed == Newest(t0, x.callbacks)
    && x.stub.topology.version <= x.installed.version
    && (x.stub.topology == x.installed <==> HasPrimary(x.installed))
  }

  lemma MaxVersionNext(v: int, ts: seq<Topology>, t: Topology)
    ensures MaxVersion(v, ts + [t]) == Max(MaxVersion(v, ts), t.version)
  {
    assert (ts + [t])[..|ts|] == ts;
  }

  lemma GrowingNext(t0: Topology, es: seq<Change>, e: Change)
    requires Growing(t0.version, es) && e.topology.version > Newest(t0, es).version
    ensures Growing(t0.version, es + [e])
  {
    assert forall i | 0 <= i < |es| :: es[i].topology.version <= Newest(t0, es).version;
  }

  lemma SafeNext(t0: Topology, x: System, step: Step)
    requires Valid(x.stub) && Safe(t0, x)
    ensures Safe(t0, Next(x, step))
  {
    if step.Commit? {
      MaxVersionNext(t0.version, x.committed, step.t);
      if step.t.version > x.installed.version {
        GrowingNext(t0, x.callbacks, Change(step.t, step.faults));
      }
    }
  }

  /** Whatever the interleaving: the installed version is the largest of the initial one and those
      committed, callbacks see strictly growing versions, the last of them is the installed topology, and
      the stub has followed exactly when that one has a primary. */
  lemma {:induction false} RacesAreSafe(t0: Topology, steps: seq<Step>)
    requires HasPrimary(t0)
    ensures Safe(t0, Run(t0, steps))
  {
    if steps != [] {
      RacesAreSafe(t0, steps[..|steps| - 1]);
      SafeNext(t0, Run(t0, steps[..|steps| - 1]), steps[|steps| - 1]);
    }
  }

  lemma {:induction false} VersionNeverDecreases(t0: Topology, steps: seq<Step>, n: nat)
    requires HasPrimary(t0) && n <= |steps|
    ensures Run(t0, steps[..n]).installed.version <= Run(t0, steps).installed.version
  {
    if n == |steps| {
      assert steps[..n] == steps;
    } else {
      assert steps[..|steps| - 1][..n] == steps[..n];
      VersionNeverDecreases(t0, steps[..|steps| - 1], n);
    }
  }

  ghost predicate Conserved(x: System)
  {
    x.fetched == multiset(x.committed) + x.pending
  }

  lemma ConservedNext(x: System, step: Step)
    requires Valid(x.stub) && Conserved(x) && Enabled(x, step)
    ensures Conserved(Next(x, step))
  {
    if step.Commit? {
      assert multiset(x.committed + [step.t]) == multiset(x.committed) + multiset{step.t};
      assert x.pending == x.pending - multiset{step.t} + multiset{step.t};
    }
  }

  /** Nothing fetched is lost: in a legal run it is committed or still pending. */
  lemma {:induction false} FetchedIsCommitted(t0: Topology, steps: seq<Step>)
    requires HasPrimary(t0) && Legal(t0, steps)
    ensures Run(t0, steps).fetched == multiset(Run(t0, steps).committed) + Run(t0, steps).pending
  {
    if steps != [] {
      FetchedIsCommitted(t0, steps[..|steps| - 1]);
      ConservedNext(Run(t0, steps[..|steps| - 1]), steps[|steps| - 1]);
    }
  }

  /** The stub of a run is the one its callbacks lead to. */
  lemma {:induction false} StubFollowsCallbacks(t0: Topology, steps: seq<Step>)
    requires HasPrimary(t0)
    ensures Run(t0, steps).stub == After(t0, Run(t0, steps).callbacks)
  {
    if steps != [] {
      var x, last := Run(t0, steps[..|steps| - 1]), steps[|steps| - 1];
      StubFollowsCallbacks(t0, steps[..|steps| - 1]);
      if last.Commit? && last.t.version > x.installed.version {
        assert (x.callbacks + [Change(last.t, last.faults)])[..|x.callbacks|] == x.callbacks;
      }
    }
  }

  /** Fail-over under races: if no callback that moves the primary met a fault, then after every
      interleaving one handler is open and, when the newest topology has a primary, it is connected there. */
  lemma RacesFailOver(t0: Topology, steps: seq<Step>)
    requires HasPrimary(t0)
    requires var es := Run(t0, steps).callbacks; forall i | 0 <= i < |es| :: Clean(t0, es, i)
    ensures var x := Run(t0, steps);
            FailedOver(x.stub) && (HasPrimary(x.installed) ==> Current(x.stub).endpoint == Endpoint(x.installed))
  {
    var x := Run(t0, steps);
    FailoverIff(t0, x.callbacks);
    assert x.callbacks[..|x.callbacks|] == x.callbacks;
    assert FailedOverAt(t0, x.callbacks, |x.callbacks|);
    StubFollowsCallbacks(t0, steps);
    RacesAreSafe(t0, steps);
  }
}