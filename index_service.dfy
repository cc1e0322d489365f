/**
 * The per-index shard owner (IndexService.java) as a class whose fields are
 * the state the source keeps: the two copy-on-write maps, replaced by new maps
 * on every change, and the closed flag. Two more fields stand for the
 * collaborators: the shard locks held for this index (the lock manager) and
 * the trace of calls into listeners and subsystems.
 *
 * Each public method runs as one serialised step, as the source's
 * `synchronized` methods do, and is proved to agree with the function of the
 * same operation in module Lifecycle.
 */
module IndexServices {
  import opened ShardTypes
  import opened ServiceState
  import opened Lifecycle

  class IndexService {
    const index: string
    /** The number of plugin-provided shard services, each closed on removal. */
    const pluginServices: nat

    var shardsInjectors: map<int, Injector>
    var shards: map<int, IndexShard>
    var closed: bool
    /** The ordinals whose shard lock is held for this index. */
    var held: set<int>
    /** The calls made so far into listeners and subsystems. */
    var trace: seq<Event>

    ghost function Model(): State
      reads this
    {
      State(index, pluginServices, shardsInjectors, shards, closed, held, trace)
    }

    ghost predicate Valid()
      reads this
    {
      Inv(Model())
    }

    constructor (index: string, pluginServices: nat)
      ensures Valid()
      ensures Model() == State(index, pluginServices, map[], map[], false, {}, [])
    {
      this.index := index;
      this.pluginServices := pluginServices;
      shardsInjectors := map[];
      shards := map[];
      closed := false;
      held := {};
      trace := [];
    }

    // -------------------------------------------------------------------
    // Read accessors
    // -------------------------------------------------------------------

    /** The published shard of `id`, or none. */
    function Shard(id: int): (r: Option<IndexShard>)
      reads this
      ensures r.Some? <==> id in shards
      ensures r.Some? ==> r.value == shards[id]
      ensures Valid() && r.Some? ==>
        && r.value.shardId == ShardId(index, id)
        && id in shardsInjectors
        && shardsInjectors[id].shard == r.value
    {
      if id in shards then Some(shards[id]) else None
    }

    /** The published shard of `id`, or a missing-shard error naming it. */
    function ShardSafe(id: int): (r: Result<IndexShard>)
      reads this
      ensures r.Failure? <==> !HasShard(id)
      ensures r.Failure? ==> r.error == ShardMissing(ShardId(index, id))
      ensures r.Success? ==> Shard(id) == Some(r.value)
    {
      var shard := Shard(id);
      if shard.None? then Failure(ShardMissing(ShardId(index, id))) else Success(shard.value)
    }

    /** The ordinals of the published shards. */
    function ShardIds(): (ids: set<int>)
      reads this
      ensures forall id :: id in ids <==> Shard(id).Some?
    {
      shards.Keys
    }

    /** Whether `id` has a published shard. */
    function HasShard(id: int): (b: bool)
      reads this
      ensures b <==> id in ShardIds()
    {
      id in shards
    }

    /** How many shards are published. */
    function NumberOfShards(): (n: nat)
      reads this
      ensures n == |ShardIds()|
    {
      |shards|
    }

    /** The registered injector of `id`, or none. */
    function ShardInjector(id: int): (r: Option<Injector>)
      reads this
      ensures r.Some? <==> id in shardsInjectors
      ensures r.Some? ==> r.value == shardsInjectors[id]
      ensures Valid() && r.Some? ==> r.value.shard.shardId == ShardId(index, id)
      ensures Valid() && r.None? ==> id !in shards
    {
      if id in shardsInjectors then Some(shardsInjectors[id]) else None
    }

    /** The registered injector of `id`, or a missing-shard error naming it. */
    function ShardInjectorSafe(id: int): (r: Result<Injector>)
      reads this
      ensures r.Failure? <==> ShardInjector(id).None?
      ensures r.Failure? ==> r.error == ShardMissing(ShardId(index, id))
      ensures r.Success? ==> ShardInjector(id) == Some(r.value)
    {
      var injector := ShardInjector(id);
      if injector.None? then Failure(ShardMissing(ShardId(index, id))) else Success(injector.value)
    }

    // -------------------------------------------------------------------
    // Collaborators
    // -------------------------------------------------------------------

    /**
     * Makes one call into a listener or a subsystem; it throws when it is in
     * `throwing`. A call that closes the store ends the ownership of the
     * shard lock (see ServiceState.Perform).
     */
    method Invoke(a: Action, throwing: set<Action>) returns (threw: bool)
      modifies this`trace, this`held
      ensures threw == (a in throwing)
      ensures Model() == Perform(old(Model()), a, throwing)
    {
      threw := a in throwing;
      trace := trace + [Event(a, threw, a.shard in shards, a.shard in shardsInjectors)];
      if a.step == StoreClose {
        held := held - {a.shard};
      }
    }

    /**
     * Asks the lock manager for the shard lock of `id`. It is refused when it
     * is already held, or when the lock manager does not grant it in time.
     */
    method AcquireLock(id: int, granted: bool) returns (ok: bool)
      modifies this`held
      ensures ok == (id !in old(held) && granted)
      ensures held == if ok then old(held) + {id} else old(held)
    {
      ok := id !in held && granted;
      if ok {
        held := held + {id};
      }
    }

    // -------------------------------------------------------------------
    // createShard
    // -------------------------------------------------------------------

    method CreateShard(id: int, lockGranted: bool, build: Build, throwing: set<Action>)
      returns (r: Result<IndexShard>)
      requires Valid()
      modifies this
      ensures Valid()
      ensures (Model(), r) == Create(old(Model()), id, lockGranted, build, throwing)
    {
      CreatePreservesInv(Model(), id, lockGranted, build, throwing);
      if closed {
        return Failure(IndexClosed(ShardId(index, id)));
      }
      var locked := AcquireLock(id, lockGranted);
      if !locked {
        // the lock manager's failure is an I/O failure, wrapped as a creation error
        return Failure(ShardCreationFailed(ShardId(index, id), LockUnavailable));
      }
      r := CreateLocked(id, build, throwing);
      // the finally block: every failure after the lock was taken gives it back
      if r.Failure? {
        held := held - {id};
      }
    }

    /** The body of createShard while the shard lock is held. */
    method CreateLocked(id: int, build: Build, throwing: set<Action>) returns (r: Result<IndexShard>)
      modifies this
      ensures (Model(), r) == Lifecycle.CreateLocked(old(Model()), id, build, throwing)
    {
      var sid := ShardId(index, id);
      if id in shardsInjectors {
        return Failure(ShardAlreadyExists(sid));
      }
      var threw := Invoke(Action(id, BeforeCreated), throwing);
      if threw {
        return Failure(Rethrown(sid, BeforeCreated));
      }
      match build
      case ConfigurationFailed(e) =>
        r := Failure(ShardCreationFailed(sid, Thrown(e)));
      case BuildThrew(e) =>
        r := Failure(ShardCreationFailed(sid, Thrown(e)));
      case Built(h) =>
        r := Wire(id, h, throwing);
    }

    /** Registers the injector of a built shard, calls the two listeners, publishes the shard. */
    method Wire(id: int, h: nat, throwing: set<Action>) returns (r: Result<IndexShard>)
      modifies this
      ensures (Model(), r) == Lifecycle.Wire(old(Model()), id, h, throwing)
    {
      var sid := ShardId(index, id);
      var injector := Injector(h, IndexShard(sid, h));
      shardsInjectors := shardsInjectors[id := injector];
      var shard := injector.shard;
      var threw := Invoke(Action(id, StateChanged), throwing);
      if threw {
        return Failure(Rethrown(sid, StateChanged));
      }
      threw := Invoke(Action(id, AfterCreated), throwing);
      if threw {
        return Failure(Rethrown(sid, AfterCreated));
      }
      shards := shards[id := shard];
      r := Success(shard);
    }

    // -------------------------------------------------------------------
    // removeShard
    // -------------------------------------------------------------------

    /** One call of a run of calls that ignores throws (a guarded close). */
    method Apply(ghost s0: State, ghost done: seq<Action>, a: Action, throwing: set<Action>)
      requires Model() == PerformAll(s0, done, throwing)
      modifies this`trace, this`held
      ensures Model() == PerformAll(s0, done + [a], throwing)
    {
      var threw := Invoke(a, throwing);
      assert (done + [a])[..|done|] == done;
    }

    /**
     * The guarded closes of a removal: each plugin shard service, the
     * translog service, the shard itself when it was published, the engine,
     * the merge scheduler and policy, the gateway, the translog and the
     * percolator registry. A throw from any of them is caught and the next
     * one is still made.
     */
    method CloseServices(id: int, indexShard: Option<IndexShard>, reason: string, throwing: set<Action>)
      modifies this`trace, this`held
      ensures Model() == PerformAll(old(Model()), ServicePlan(id, pluginServices, indexShard.Some?, reason), throwing)
    {
      ghost var s0 := Model();
      var i := 0;
      while i < pluginServices
        invariant 0 <= i <= pluginServices
        invariant Model() == PerformAll(s0, PluginPlan(id, i), throwing)
      {
        Apply(s0, PluginPlan(id, i), Action(id, PluginService(i)), throwing);
        i := i + 1;
      }
      ghost var done := PluginPlan(id, pluginServices);
      Apply(s0, done, Action(id, TranslogService), throwing);
      done := done + [Action(id, TranslogService)];
      if indexShard.Some? {
        Apply(s0, done, Action(id, ShardClose(reason)), throwing);
        done := done + [Action(id, ShardClose(reason))];
      } else {
        assert done + [] == done;
      }
      assert done == PluginPlan(id, pluginServices) + [Action(id, TranslogService)]
        + (if indexShard.Some? then [Action(id, ShardClose(reason))] else []);
      Apply(s0, done, Action(id, Engine), throwing);
      done := done + [Action(id, Engine)];
      Apply(s0, done, Action(id, MergeScheduler), throwing);
      done := done + [Action(id, MergeScheduler)];
      Apply(s0, done, Action(id, MergePolicy), throwing);
      done := done + [Action(id, MergePolicy)];
      Apply(s0, done, Action(id, Gateway), throwing);
      done := done + [Action(id, Gateway)];
      Apply(s0, done, Action(id, Translog), throwing);
      done := done + [Action(id, Translog)];
      Apply(s0, done, Action(id, Percolator), throwing);
      done := done + [Action(id, Percolator)];
      ServicePlanSpelled(id, pluginServices, indexShard.Some?, reason);
    }

    /** One call of a run that ends at the first unguarded throw. */
    method Next(ghost u: State, ghost done: seq<Action>, a: Action, throwing: set<Action>) returns (threw: bool)
      requires Execute(u, done, throwing).failed.None?
      requires Model() == Execute(u, done, throwing).state
      modifies this`trace, this`held
      ensures threw == (a in throwing)
      ensures Model() == Execute(u, done + [a], throwing).state
      ensures Execute(u, done + [a], throwing).failed == if Aborts(a, throwing) then Some(a) else None
    {
      threw := Invoke(a, throwing);
      ExecuteSnoc(u, done, a, throwing);
    }

    /**
     * The unguarded tail of a removal, after the run `head` has made the
     * guarded closes: the after-close listener, the store lookup, the store
     * close (a throw from it is logged, not raised) and the trailing injector
     * close. `failed` is the call whose throw ends the run, if any.
     */
    method CloseStore(ghost u: State, ghost head: seq<Action>, id: int, throwing: set<Action>)
      returns (failed: Option<Action>)
      requires Execute(u, head, throwing).failed.None?
      requires Model() == Execute(u, head, throwing).state
      modifies this`trace, this`held
      ensures var e := Execute(u, head + [Action(id, AfterClosed), Action(id, StoreLookup),
                                          Action(id, StoreClose), Action(id, IndexInjectorClose)], throwing);
        Model() == e.state && failed == e.failed
    {
      var ac, sl, sc, ic :=
        Action(id, AfterClosed), Action(id, StoreLookup), Action(id, StoreClose), Action(id, IndexInjectorClose);
      ghost var plan := head + [ac, sl, sc, ic];
      SplitFour(head, ac, sl, sc, ic);
      var threw := Next(u, head, ac, throwing);
      if threw {
        ExecuteStopped(u, head + [ac], [sl, sc, ic], throwing);
        return Some(ac);
      }
      threw := Next(u, head + [ac], sl, throwing);
      if threw {
        ExecuteStopped(u, head + [ac] + [sl], [sc, ic], throwing);
        return Some(sl);
      }
      threw := Next(u, head + [ac] + [sl], sc, throwing);
      threw := Next(u, head + [ac] + [sl] + [sc], ic, throwing);
      failed := if threw then Some(ic) else None;
    }

    /**
     * The calls removeShard makes once the ordinal is unregistered, starting
     * from state `u`; `failed` is the unguarded call whose throw ends them.
     */
    method Teardown(ghost u: State, id: int, indexShard: Option<IndexShard>, reason: string, throwing: set<Action>)
      returns (failed: Option<Action>)
      requires Model() == u
      modifies this`trace, this`held
      ensures var e := Execute(u, TeardownPlan(id, pluginServices, indexShard.Some?, reason), throwing);
        Model() == e.state && failed == e.failed
    {
      ghost var services := ServicePlan(id, pluginServices, indexShard.Some?, reason);
      ghost var tail := [Action(id, AfterClosed), Action(id, StoreLookup), Action(id, StoreClose), Action(id, IndexInjectorClose)];
      TeardownPlanSpelled(id, pluginServices, indexShard.Some?, reason);
      var bc := Action(id, BeforeClosed);
      var threw := Next(u, [], bc, throwing);
      assert [] + [bc] == [bc];
      if threw {
        ExecuteStopped(u, [bc], services + tail, throwing);
        return Some(bc);
      }
      CloseServices(id, indexShard, reason, throwing);
      ServicePlanQuiet(id, pluginServices, indexShard.Some?, reason, throwing);
      ExecuteAppendQuiet(u, [bc], services, throwing);
      failed := CloseStore(u, [bc] + services, id, throwing);
    }

    method RemoveShard(id: int, reason: string, throwing: set<Action>) returns (outcome: Outcome)
      requires Valid()
      modifies this
      ensures Valid()
      ensures (Model(), outcome) == Remove(old(Model()), id, reason, throwing)
    {
      RemovePreservesInv(Model(), id, reason, throwing);
      if id !in shardsInjectors {
        return Pass;
      }
      var indexShard := if id in shards then Some(shards[id]) else None;
      shardsInjectors := shardsInjectors - {id};
      shards := shards - {id};
      var failed := Teardown(Model(), id, indexShard, reason, throwing);
      // the first unguarded throw reaches the caller
      outcome := if failed.Some? then Fail(Rethrown(ShardId(index, id), failed.value.step)) else Pass;
    }

    // -------------------------------------------------------------------
    // close
    // -------------------------------------------------------------------

    /**
     * Closes the index once: sets the flag and removes every published
     * ordinal of a snapshot taken at that moment, going on when a removal
     * fails. `order` is the order in which the snapshot was visited.
     */
    method Close(reason: string, throwing: set<Action>) returns (ghost order: seq<int>)
      requires Valid()
      modifies this
      ensures Valid()
      ensures Model() == Lifecycle.Close(old(Model()), order, reason, throwing)
      ensures !old(closed) ==> multiset(order) == multiset(old(shards).Keys)
      ensures !old(closed) ==> shards == map[]
    {
      order := [];
      if closed {
        return;
      }
      closed := true;
      var snapshot := shards.Keys;
      var remaining := snapshot;
      ghost var start := Model();
      while remaining != {}
        invariant Valid()
        invariant remaining <= snapshot
        invariant multiset(order) + multiset(remaining) == multiset(snapshot)
        invariant Model() == RemoveEach(start, order, reason, throwing)
        decreases remaining
      {
        assert exists x :: x in remaining by {
          if forall x :: x !in remaining { assert false; }
        }
        var id :| id in remaining;
        remaining := remaining - {id};
        // a failed removal is logged and the loop goes on
        var outcome := RemoveShard(id, reason, throwing);
        assert (order + [id])[..|order|] == order;
        order := order + [id];
      }
      assert multiset(order) == multiset(snapshot);
      forall x ensures x in order <==> x in old(shards) {
        assert x in order <==> x in multiset(order);
        assert x in snapshot <==> x in multiset(snapshot);
      }
      CloseDrains(old(Model()), order, reason, throwing);
    }
  }

  /**
   * Two shards created on a fresh service, with collaborators that never
   * fail: both are published, and the count follows.
   */
  method CreateTwoShards(index: string, plugins: nat, a: int, b: int) returns (service: IndexService)
    requires a != b
    ensures fresh(service) && service.Valid()
    ensures service.ShardIds() == {a, b} && service.NumberOfShards() == 2
  {
    service := new IndexService(index, plugins);
    ghost var m0 := service.Model();
    CreateSucceeds(m0, a, 1, {});
    var r0 := service.CreateShard(a, true, Built(1), {});
    ghost var m1 := service.Model();
    CreateSucceeds(m1, b, 2, {});
    var r1 := service.CreateShard(b, true, Built(2), {});
    assert service.ShardIds() == {a, b};
  }

  /**
   * One of two published shards removed, with collaborators that never
   * fail: the removal succeeds, the other shard stays published, and the
   * removed ordinal is reported missing.
   */
  method RemoveOneOfTwo(service: IndexService, a: int, b: int, reason: string)
    requires service.Valid() && a != b && service.ShardIds() == {a, b}
    modifies service
    ensures service.ShardIds() == {b} && service.NumberOfShards() == 1
    ensures service.ShardSafe(a) == Failure(ShardMissing(ShardId(service.index, a)))
  {
    ghost var m := service.Model();
    RemoveUnregistersFirst(m, a, reason, {});
    RemoveCompletes(m, a, reason, {});
    var outcome := service.RemoveShard(a, reason, {});
    assert outcome == Pass;
    assert service.shards.Keys == m.shards.Keys - {a};
    assert service.ShardIds() == {b};
    assert service.NumberOfShards() == |{b}| == 1;
  }
}
