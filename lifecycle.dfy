/**
 * The three state-changing operations of the shard owner as functions of its
 * state, and the properties the owner promises about them.
 *
 * `Create` is `createShard`, `Remove` is `removeShard`, `RemoveEach` is the
 * loop of `close` and `Close` is `close` itself (IndexService.java). The
 * class in index_service.dfy performs the same operations step by step and
 * is proved to agree with these functions.
 */
module Lifecycle {
  import opened ShardTypes
  import opened ServiceState

  // ---------------------------------------------------------------------
  // The fixed teardown order of removeShard
  // ---------------------------------------------------------------------

  /** The closes of the plugin-provided shard services, in the plugins' order. */
  function PluginPlan(id: int, plugins: nat): seq<Action>
    decreases plugins
  {
    if plugins == 0 then []
    else PluginPlan(id, plugins - 1) + [Action(id, PluginService(plugins - 1))]
  }

  /**
   * The guarded closes between the two listener calls of a removal. The shard
   * itself is closed only when it was published.
   */
  function ServicePlan(id: int, plugins: nat, hasShard: bool, reason: string): seq<Action>
  {
    PluginPlan(id, plugins)
    + [Action(id, TranslogService)]
    + (if hasShard then [Action(id, ShardClose(reason))] else [])
    + [Action(id, Engine), Action(id, MergeScheduler), Action(id, MergePolicy),
       Action(id, Gateway), Action(id, Translog), Action(id, Percolator)]
  }

  /**
   * Every call removeShard makes for a registered ordinal, in order: the
   * listener before the closes, the guarded closes, the listener after them
   * (before the store is closed, so that listeners can still use it), the
   * store lookup, the store close and the trailing injector close.
   */
  function TeardownPlan(id: int, plugins: nat, hasShard: bool, reason: string): seq<Action>
  {
    [Action(id, BeforeClosed)]
    + ServicePlan(id, plugins, hasShard, reason)
    + [Action(id, AfterClosed), Action(id, StoreLookup), Action(id, StoreClose), Action(id, IndexInjectorClose)]
  }

  /** Proof helper: the guarded closes regrouped one call at a time, in the order they are made. */
  lemma ServicePlanSpelled(id: int, plugins: nat, hasShard: bool, reason: string)
    ensures ServicePlan(id, plugins, hasShard, reason)
         == PluginPlan(id, plugins) + [Action(id, TranslogService)]
            + (if hasShard then [Action(id, ShardClose(reason))] else [])
            + [Action(id, Engine)] + [Action(id, MergeScheduler)] + [Action(id, MergePolicy)]
            + [Action(id, Gateway)] + [Action(id, Translog)] + [Action(id, Percolator)]
  {
  }

  /** Proof helper: the teardown regrouped as the first listener call, the guarded closes and the unguarded tail. */
  lemma TeardownPlanSpelled(id: int, plugins: nat, hasShard: bool, reason: string)
    ensures var services := ServicePlan(id, plugins, hasShard, reason);
      var tail := [Action(id, AfterClosed), Action(id, StoreLookup), Action(id, StoreClose), Action(id, IndexInjectorClose)];
      && TeardownPlan(id, plugins, hasShard, reason) == [Action(id, BeforeClosed)] + (services + tail)
      && TeardownPlan(id, plugins, hasShard, reason) == ([Action(id, BeforeClosed)] + services) + tail
  {
  }

  /** Every plugin close is a guarded call for `id`, one per plugin, in order. */
  lemma {:induction false} PluginPlanShape(id: int, plugins: nat)
    ensures |PluginPlan(id, plugins)| == plugins
    ensures forall j :: 0 <= j < plugins ==> PluginPlan(id, plugins)[j] == Action(id, PluginService(j))
    decreases plugins
  {
    if plugins > 0 {
      PluginPlanShape(id, plugins - 1);
    }
  }

  /**
   * Between the two listener calls, every call is a guarded close for `id`
   * that is not the store close.
   */
  lemma ServicePlanShape(id: int, plugins: nat, hasShard: bool, reason: string)
    ensures forall a :: a in ServicePlan(id, plugins, hasShard, reason) ==>
      a.shard == id && Guarded(a.step) && a.step != StoreClose
    ensures NoAbort(ServicePlan(id, plugins, hasShard, reason), {})
  {
    PluginPlanShape(id, plugins);
    var p := PluginPlan(id, plugins);
    forall a | a in p ensures a.shard == id && a.step.PluginService? {
      var j :| 0 <= j < |p| && p[j] == a;
    }
  }

  /** No throw from a guarded close ends a removal. */
  lemma ServicePlanQuiet(id: int, plugins: nat, hasShard: bool, reason: string, throwing: set<Action>)
    ensures NoAbort(ServicePlan(id, plugins, hasShard, reason), throwing)
  {
    ServicePlanShape(id, plugins, hasShard, reason);
    var services := ServicePlan(id, plugins, hasShard, reason);
    forall j | 0 <= j < |services| ensures !Aborts(services[j], throwing) {
      assert services[j] in services;
    }
  }

  /** Every call of the teardown of `id` is made on behalf of `id`. */
  lemma TeardownPlanShape(id: int, plugins: nat, hasShard: bool, reason: string)
    ensures forall a :: a in TeardownPlan(id, plugins, hasShard, reason) ==> a.shard == id
  {
    ServicePlanShape(id, plugins, hasShard, reason);
  }

  /** A sequence of calls for `id` alone releases the lock of `id` exactly when it closes the store. */
  lemma ReleasedByOne(plan: seq<Action>, id: int)
    requires forall a :: a in plan ==> a.shard == id
    ensures ReleasedBy(plan) == if Action(id, StoreClose) in plan then {id} else {}
  {
    if Action(id, StoreClose) in plan {
      assert id in ReleasedBy(plan);
    }
  }

  // ---------------------------------------------------------------------
  // createShard
  // ---------------------------------------------------------------------

  /** Gives back the shard lock of `id`. */
  function Release(s: State, id: int): State
  {
    s.(held := s.held - {id})
  }

  /**
   * createShard(id): refuse on a closed index; take the shard lock (refused
   * when the lock is already held or the lock manager refuses it); then run
   * the guarded body `CreateLocked`, and give the lock back when the body
   * did not succeed. `lockGranted` is what the lock manager answers, `build`
   * what the subsystem factory does, and `throwing` the listener calls that
   * throw.
   */
  function Create(s: State, id: int, lockGranted: bool, build: Build, throwing: set<Action>)
    : (State, Result<IndexShard>)
  {
    var sid := ShardId(s.index, id);
    if s.closed then (s, Failure(IndexClosed(sid)))
    else if id in s.held || !lockGranted then (s, Failure(ShardCreationFailed(sid, LockUnavailable)))
    else
      var (s', r) := CreateLocked(s.(held := s.held + {id}), id, build, throwing);
      (if r.Success? then s' else Release(s', id), r)
  }

  /**
   * The body of createShard once the lock is held: refuse an ordinal whose
   * injector is registered; call the before-create listener; build the
   * shard's subsystems (a failure is wrapped as a creation error); register
   * the injector; call the state-changed and after-create listeners; publish
   * the shard.
   */
  function CreateLocked(s: State, id: int, build: Build, throwing: set<Action>): (State, Result<IndexShard>)
  {
    var sid := ShardId(s.index, id);
    if id in s.injectors then (s, Failure(ShardAlreadyExists(sid)))
    else
      var s1 := Perform(s, Action(id, BeforeCreated), throwing);
      if Action(id, BeforeCreated) in throwing then (s1, Failure(Rethrown(sid, BeforeCreated)))
      else
        match build
        case ConfigurationFailed(e) => (s1, Failure(ShardCreationFailed(sid, Thrown(e))))
        case BuildThrew(e) => (s1, Failure(ShardCreationFailed(sid, Thrown(e))))
        case Built(h) => Wire(s1, id, h, throwing)
  }

  /**
   * The last part of createShard once the factory has built the shard:
   * register its injector, call the state-changed and after-create
   * listeners, and publish the shard.
   */
  function Wire(s: State, id: int, h: nat, throwing: set<Action>): (State, Result<IndexShard>)
  {
    var sid := ShardId(s.index, id);
    var shard := IndexShard(sid, h);
    var s2 := s.(injectors := s.injectors[id := Injector(h, shard)]);
    var s3 := Perform(s2, Action(id, StateChanged), throwing);
    if Action(id, StateChanged) in throwing then (s3, Failure(Rethrown(sid, StateChanged)))
    else
      var s4 := Perform(s3, Action(id, AfterCreated), throwing);
      if Action(id, AfterCreated) in throwing then (s4, Failure(Rethrown(sid, AfterCreated)))
      else (s4.(shards := s4.shards[id := shard]), Success(shard))
  }

  /** A closed index refuses creation before it takes any lock, and nothing changes. */
  lemma CreateOnClosedIndex(s: State, id: int, lockGranted: bool, build: Build, throwing: set<Action>)
    requires s.closed
    ensures Create(s, id, lockGranted, build, throwing) == (s, Failure(IndexClosed(ShardId(s.index, id))))
  {
  }

  /**
   * When the lock cannot be obtained, the failure is reported as a creation
   * error, nothing is registered and no lock is given back.
   */
  lemma CreateLockRefused(s: State, id: int, lockGranted: bool, build: Build, throwing: set<Action>)
    requires !s.closed && (id in s.held || !lockGranted)
    ensures Create(s, id, lockGranted, build, throwing)
         == (s, Failure(ShardCreationFailed(ShardId(s.index, id), LockUnavailable)))
  {
  }

  /**
   * The already-exists check is made on the injector map, after the lock is
   * taken; the lock just taken is given back and nothing else changes.
   */
  lemma CreateAlreadyExists(s: State, id: int, build: Build, throwing: set<Action>)
    requires !s.closed && id !in s.held && id in s.injectors
    ensures Create(s, id, true, build, throwing) == (s, Failure(ShardAlreadyExists(ShardId(s.index, id))))
  {
    assert s.(held := s.held + {id}).(held := s.held + {id} - {id}) == s;
  }

  /**
   * When the factory fails, the failure is wrapped as a creation error of
   * this shard; neither map changes, the lock is given back and the only call
   * made is the before-create listener.
   */
  lemma CreateBuildFails(s: State, id: int, build: Build, throwing: set<Action>)
    requires !s.closed && id !in s.held && id !in s.injectors
    requires Action(id, BeforeCreated) !in throwing && !build.Built?
    ensures var (s', r) := Create(s, id, true, build, throwing);
      && r == Failure(ShardCreationFailed(ShardId(s.index, id),
                      Thrown(if build.ConfigurationFailed? then build.firstFailure else build.failure)))
      && s'.injectors == s.injectors && s'.shards == s.shards && s'.held == s.held && s'.closed == s.closed
      && s'.trace == s.trace + [Observe(s, Action(id, BeforeCreated), throwing)]
  {
  }

  /**
   * On success the shard is built for `id` of this index, `shards` is the old
   * map plus the new shard, `shardsInjectors` the old map plus its injector,
   * the lock stays held, and the three listener calls were made in order, the
   * last two with the injector registered and the shard not yet published.
   */
  lemma CreateSucceeds(s: State, id: int, h: nat, throwing: set<Action>)
    requires Inv(s) && !s.closed && id !in s.held && id !in s.injectors
    requires Action(id, BeforeCreated) !in throwing
    requires Action(id, StateChanged) !in throwing && Action(id, AfterCreated) !in throwing
    ensures var (s', r) := Create(s, id, true, Built(h), throwing);
      var shard := IndexShard(ShardId(s.index, id), h);
      && r == Success(shard)
      && s'.shards == s.shards[id := shard]
      && s'.injectors == s.injectors[id := Injector(h, shard)]
      && s'.held == s.held + {id} && s'.closed == s.closed
      && s'.trace == s.trace + [Event(Action(id, BeforeCreated), false, false, false),
                                Event(Action(id, StateChanged), false, false, true),
                                Event(Action(id, AfterCreated), false, false, true)]
  {
  }

  /**
   * createShard succeeds exactly when the index is open, the lock is
   * obtained, no injector is registered for the ordinal, the factory builds
   * the shard and none of the three listener calls throws.
   */
  lemma CreateSucceedsIff(s: State, id: int, lockGranted: bool, build: Build, throwing: set<Action>)
    ensures Create(s, id, lockGranted, build, throwing).1.Success? <==>
      && !s.closed && id !in s.held && lockGranted && id !in s.injectors && build.Built?
      && Action(id, BeforeCreated) !in throwing
      && Action(id, StateChanged) !in throwing && Action(id, AfterCreated) !in throwing
  {
  }

  /**
   * A listener that throws after the injector was registered leaves that
   * injector registered, while the shard is not published and its lock is
   * given back; the throw reaches the caller unwrapped.
   */
  lemma CreateListenerThrowsAfterRegistration(s: State, id: int, h: nat, throwing: set<Action>)
    requires !s.closed && id !in s.held && id !in s.injectors
    requires Action(id, BeforeCreated) !in throwing
    requires Action(id, StateChanged) in throwing || Action(id, AfterCreated) in throwing
    ensures var (s', r) := Create(s, id, true, Built(h), throwing);
      && r == Failure(Rethrown(ShardId(s.index, id),
                               if Action(id, StateChanged) in throwing then StateChanged else AfterCreated))
      && s'.injectors == s.injectors[id := Injector(h, IndexShard(ShardId(s.index, id), h))]
      && s'.shards == s.shards && s'.held == s.held
  {
  }

  /**
   * Whatever happens, createShard leaves every other ordinal untouched; it
   * only grows the trace; and when it fails, `shards` and the held locks are
   * as before, while `shardsInjectors` differs only when a listener threw
   * after the injector was registered.
   */
  lemma CreateFrame(s: State, id: int, lockGranted: bool, build: Build, throwing: set<Action>)
    ensures var (s', r) := Create(s, id, lockGranted, build, throwing);
      && s'.index == s.index && s'.plugins == s.plugins && s'.closed == s.closed
      && s'.shards - {id} == s.shards - {id}
      && s'.injectors - {id} == s.injectors - {id}
      && s'.held - {id} == s.held - {id}
      && |s.trace| <= |s'.trace| && s'.trace[..|s.trace|] == s.trace
      && (r.Failure? ==> s'.shards == s.shards && s'.held == s.held)
      && (r.Failure? && s'.injectors != s.injectors ==>
            && build.Built? && id !in s.injectors
            && (r.error == Rethrown(ShardId(s.index, id), StateChanged) ||
                r.error == Rethrown(ShardId(s.index, id), AfterCreated)))
  {
    if !s.closed && id !in s.held && lockGranted {
      CreateLockedFrame(s.(held := s.held + {id}), id, build, throwing);
    }
  }

  /** What the body of createShard changes, once the lock is held. */
  lemma CreateLockedFrame(s: State, id: int, build: Build, throwing: set<Action>)
    ensures var (s', r) := CreateLocked(s, id, build, throwing);
      && s'.index == s.index && s'.plugins == s.plugins && s'.closed == s.closed && s'.held == s.held
      && s'.shards - {id} == s.shards - {id}
      && s'.injectors - {id} == s.injectors - {id}
      && |s.trace| <= |s'.trace| && s'.trace[..|s.trace|] == s.trace
      && (r.Failure? ==> s'.shards == s.shards)
      && (r.Failure? && s'.injectors != s.injectors ==>
            && build.Built? && id !in s.injectors
            && (r.error == Rethrown(ShardId(s.index, id), StateChanged) ||
                r.error == Rethrown(ShardId(s.index, id), AfterCreated)))
  {
    if id !in s.injectors && Action(id, BeforeCreated) !in throwing && build.Built? {
      var s1 := Perform(s, Action(id, BeforeCreated), throwing);
      WireFrame(s1, id, build.handle, throwing);
    }
  }

  /** What registering and publishing a built shard changes. */
  lemma WireFrame(s: State, id: int, h: nat, throwing: set<Action>)
    ensures var (s', r) := Wire(s, id, h, throwing);
      && s'.index == s.index && s'.plugins == s.plugins && s'.closed == s.closed && s'.held == s.held
      && s'.shards - {id} == s.shards - {id}
      && s'.injectors == s.injectors[id := Injector(h, IndexShard(ShardId(s.index, id), h))]
      && |s.trace| <= |s'.trace| && s'.trace[..|s.trace|] == s.trace
      && (r.Failure? ==> s'.shards == s.shards)
      && (r.Failure? ==>
            r.error == Rethrown(ShardId(s.index, id), StateChanged) ||
            r.error == Rethrown(ShardId(s.index, id), AfterCreated))
  {
  }

  /** createShard keeps the invariant. */
  lemma CreatePreservesInv(s: State, id: int, lockGranted: bool, build: Build, throwing: set<Action>)
    requires Inv(s)
    ensures Inv(Create(s, id, lockGranted, build, throwing).0)
  {
  }

  /**
   * A second createShard for a published ordinal fails and changes nothing:
   * the published shard holds its lock, so the lock is refused before the
   * already-exists check is reached.
   */
  lemma CreatePublishedOrdinalRefused(s: State, id: int, lockGranted: bool, build: Build, throwing: set<Action>)
    requires Inv(s) && !s.closed && id in s.shards
    ensures Create(s, id, lockGranted, build, throwing)
         == (s, Failure(ShardCreationFailed(ShardId(s.index, id), LockUnavailable)))
  {
  }

  /**
   * The injector left behind by a listener that threw refuses the next
   * creation of that ordinal whose lock is granted with already-exists, and
   * that creation changes nothing.
   */
  lemma LeftoverInjectorBlocksCreate(s: State, id: int, h: nat, throwing: set<Action>,
                                      build: Build, throwing': set<Action>)
    requires Inv(s) && !s.closed && id !in s.held && id !in s.injectors
    requires Action(id, BeforeCreated) !in throwing
    requires Action(id, StateChanged) in throwing || Action(id, AfterCreated) in throwing
    ensures var s' := Create(s, id, true, Built(h), throwing).0;
      Create(s', id, true, build, throwing') == (s', Failure(ShardAlreadyExists(ShardId(s.index, id))))
  {
    var s' := Create(s, id, true, Built(h), throwing).0;
    CreateListenerThrowsAfterRegistration(s, id, h, throwing);
    CreateAlreadyExists(s', id, build, throwing');
  }

  /**
   * removeShard finds a leftover injector in the injector map and drops it;
   * its lock is already free, so whatever the removal throws, the ordinal
   * can then be created again.
   */
  lemma RemoveClearsLeftover(s: State, id: int, h: nat, throwing: set<Action>,
                             reason: string, throwing': set<Action>, h': nat, throwing'': set<Action>)
    requires Inv(s) && !s.closed && id !in s.held && id !in s.injectors
    requires Action(id, BeforeCreated) !in throwing
    requires Action(id, StateChanged) in throwing || Action(id, AfterCreated) in throwing
    requires Action(id, BeforeCreated) !in throwing''
    requires Action(id, StateChanged) !in throwing'' && Action(id, AfterCreated) !in throwing''
    ensures var s1 := Create(s, id, true, Built(h), throwing).0;
      var s2 := Remove(s1, id, reason, throwing').0;
      Create(s2, id, true, Built(h'), throwing'').1 == Success(IndexShard(ShardId(s.index, id), h'))
  {
    var s1 := Create(s, id, true, Built(h), throwing).0;
    CreateListenerThrowsAfterRegistration(s, id, h, throwing);
    CreateFrame(s, id, true, Built(h), throwing);
    RemoveUnregistersFirst(s1, id, reason, throwing');
    RemoveReleasesLock(s1, id, reason, throwing');
  }

  /**
   * Under the invariant, already-exists is reported only for an injector
   * whose shard is not published and whose lock is free: for a published
   * ordinal the lock is refused first. Such an injector is what a throw
   * between registration and publication leaves behind.
   */
  lemma AlreadyExistsOnlyForLeftover(s: State, id: int, lockGranted: bool, build: Build, throwing: set<Action>)
    requires Inv(s)
    ensures Create(s, id, lockGranted, build, throwing).1 == Failure(ShardAlreadyExists(ShardId(s.index, id))) <==>
      && !s.closed && lockGranted && id in s.injectors && id !in s.shards
  {
  }

  // ---------------------------------------------------------------------
  // removeShard
  // ---------------------------------------------------------------------

  /** Takes `id` out of both maps, as removeShard does before any call. */
  function Unregister(s: State, id: int): State
  {
    s.(injectors := s.injectors - {id}, shards := s.shards - {id})
  }

  /**
   * removeShard(id): nothing for an ordinal without a registered injector;
   * otherwise take it out of both maps and then run the teardown plan. The
   * removal reports the throw of the first unguarded call, if any.
   */
  function Remove(s: State, id: int, reason: string, throwing: set<Action>): (State, Outcome)
  {
    if id !in s.injectors then (s, Pass)
    else
      var r := Execute(Unregister(s, id), TeardownPlan(id, s.plugins, id in s.shards, reason), throwing);
      (r.state, if r.failed.Some? then Fail(Rethrown(ShardId(s.index, id), r.failed.value.step)) else Pass)
  }

  /** The unguarded calls of the teardown of `id`, none of which throws. */
  predicate ListenersQuiet(id: int, throwing: set<Action>)
  {
    && Action(id, BeforeClosed) !in throwing
    && Action(id, AfterClosed) !in throwing
    && Action(id, StoreLookup) !in throwing
    && Action(id, IndexInjectorClose) !in throwing
  }

  /** Removing an ordinal without a registered injector changes nothing and makes no call. */
  lemma RemoveUnknownIsNoop(s: State, id: int, reason: string, throwing: set<Action>)
    requires id !in s.injectors
    ensures Remove(s, id, reason, throwing) == (s, Pass)
  {
  }

  /**
   * Removal takes the ordinal out of both maps, whatever throws, and
   * touches no other ordinal; the calls it makes are a non-empty prefix of
   * the teardown plan, in order, and every one of them is made when the
   * ordinal is already in neither map.
   */
  lemma RemoveUnregistersFirst(s: State, id: int, reason: string, throwing: set<Action>)
    requires id in s.injectors
    ensures var s' := Remove(s, id, reason, throwing).0;
      var plan := TeardownPlan(id, s.plugins, id in s.shards, reason);
      && s'.injectors == s.injectors - {id} && s'.shards == s.shards - {id}
      && s'.index == s.index && s'.plugins == s.plugins && s'.closed == s.closed
      && s'.held - {id} == s.held - {id}
      && |s.trace| < |s'.trace| <= |s.trace| + |plan|
      && s'.trace[..|s.trace|] == s.trace
      && forall j :: |s.trace| <= j < |s'.trace| ==>
           s'.trace[j] == Event(plan[j - |s.trace|], plan[j - |s.trace|] in throwing, false, false)
  {
    var u := Unregister(s, id);
    var plan := TeardownPlan(id, s.plugins, id in s.shards, reason);
    TeardownPlanShape(id, s.plugins, id in s.shards, reason);
    ExecuteForOne(u, plan, id, throwing);
    var r := Execute(u, plan, throwing).state;
    forall j | |s.trace| <= j < |r.trace|
      ensures r.trace[j] == Event(plan[j - |s.trace|], plan[j - |s.trace|] in throwing, false, false)
    {
      assert plan[j - |s.trace|] in plan;
    }
  }

  /**
   * With no unguarded call throwing, removal makes every call of the plan
   * in order, the guarded ones that throw included, gives the lock back and
   * reports success.
   */
  lemma RemoveCompletes(s: State, id: int, reason: string, throwing: set<Action>)
    requires id in s.injectors && ListenersQuiet(id, throwing)
    ensures var plan := TeardownPlan(id, s.plugins, id in s.shards, reason);
      var (s', outcome) := Remove(s, id, reason, throwing);
      && outcome == Pass
      && s'.trace == s.trace + Attempts(Unregister(s, id), plan, throwing)
      && s'.held == s.held - {id}
  {
    var u := Unregister(s, id);
    var plan := TeardownPlan(id, s.plugins, id in s.shards, reason);
    TeardownQuiet(id, s.plugins, id in s.shards, reason, throwing);
    TeardownPlanShape(id, s.plugins, id in s.shards, reason);
    ExecuteWithoutAbort(u, plan, throwing);
    PerformAllEffect(u, plan, throwing);
    ReleasedByOne(plan, id);
    assert Action(id, StoreClose) in plan;
  }

  /** When none of its unguarded calls throws, no call ends the teardown early. */
  lemma TeardownQuiet(id: int, plugins: nat, hasShard: bool, reason: string, throwing: set<Action>)
    requires ListenersQuiet(id, throwing)
    ensures NoAbort(TeardownPlan(id, plugins, hasShard, reason), throwing)
  {
    var services := ServicePlan(id, plugins, hasShard, reason);
    var tail := [Action(id, AfterClosed), Action(id, StoreLookup), Action(id, StoreClose), Action(id, IndexInjectorClose)];
    TeardownPlanSpelled(id, plugins, hasShard, reason);
    ServicePlanQuiet(id, plugins, hasShard, reason, throwing);
    assert NoAbort([Action(id, BeforeClosed)], throwing);
    assert NoAbort(tail, throwing);
    NoAbortAppend(services, tail, throwing);
    NoAbortAppend([Action(id, BeforeClosed)], services + tail, throwing);
  }

  /**
   * Which throw removeShard reports: that of the first of its unguarded
   * calls that throws (the two listener calls, the store lookup and the
   * trailing injector close), or none.
   */
  lemma RemoveOutcome(s: State, id: int, reason: string, throwing: set<Action>)
    requires id in s.injectors
    ensures Remove(s, id, reason, throwing).1 ==
      var sid := ShardId(s.index, id);
      if Action(id, BeforeClosed) in throwing then Fail(Rethrown(sid, BeforeClosed))
      else if Action(id, AfterClosed) in throwing then Fail(Rethrown(sid, AfterClosed))
      else if Action(id, StoreLookup) in throwing then Fail(Rethrown(sid, StoreLookup))
      else if Action(id, IndexInjectorClose) in throwing then Fail(Rethrown(sid, IndexInjectorClose))
      else Pass
  {
    RemoveStops(s, id, reason, throwing);
  }

  /**
   * The lock is given back exactly when the removal gets as far as the store
   * close: a throw from a listener call or from the store lookup ends the
   * removal with the lock still held.
   */
  lemma RemoveReleasesLock(s: State, id: int, reason: string, throwing: set<Action>)
    requires id in s.injectors
    ensures Remove(s, id, reason, throwing).0.held ==
      if Action(id, BeforeClosed) in throwing || Action(id, AfterClosed) in throwing
         || Action(id, StoreLookup) in throwing
      then s.held else s.held - {id}
  {
    RemoveStops(s, id, reason, throwing);
  }

  /** Where the teardown stops, case by case; shared by the two lemmas above. */
  lemma RemoveStops(s: State, id: int, reason: string, throwing: set<Action>)
    requires id in s.injectors
    ensures var (s', outcome) := Remove(s, id, reason, throwing);
      var sid := ShardId(s.index, id);
      if Action(id, BeforeClosed) in throwing then
        outcome == Fail(Rethrown(sid, BeforeClosed)) && s'.held == s.held
      else if Action(id, AfterClosed) in throwing then
        outcome == Fail(Rethrown(sid, AfterClosed)) && s'.held == s.held
      else if Action(id, StoreLookup) in throwing then
        outcome == Fail(Rethrown(sid, StoreLookup)) && s'.held == s.held
      else if Action(id, IndexInjectorClose) in throwing then
        outcome == Fail(Rethrown(sid, IndexInjectorClose)) && s'.held == s.held - {id}
      else
        outcome == Pass && s'.held == s.held - {id}
  {
    if Action(id, BeforeClosed) in throwing {
      RemoveStopsAtBeforeClosed(s, id, reason, throwing);
    } else if Action(id, AfterClosed) in throwing {
      RemoveStopsAtAfterClosed(s, id, reason, throwing);
    } else if Action(id, StoreLookup) in throwing {
      RemoveStopsAtStoreLookup(s, id, reason, throwing);
    } else if Action(id, IndexInjectorClose) in throwing {
      RemoveStopsAtInjectorClose(s, id, reason, throwing);
    } else {
      RemoveCompletes(s, id, reason, throwing);
    }
  }

  /** The removal when the before-close listener (the first call) throws. */
  lemma RemoveStopsAtBeforeClosed(s: State, id: int, reason: string, throwing: set<Action>)
    requires id in s.injectors && Action(id, BeforeClosed) in throwing
    ensures var (s', outcome) := Remove(s, id, reason, throwing);
      outcome == Fail(Rethrown(ShardId(s.index, id), BeforeClosed)) && s'.held == s.held
  {
    var services := ServicePlan(id, s.plugins, id in s.shards, reason);
    var tail := [Action(id, AfterClosed), Action(id, StoreLookup), Action(id, StoreClose), Action(id, IndexInjectorClose)];
    TeardownPlanSpelled(id, s.plugins, id in s.shards, reason);
    assert [] + [Action(id, BeforeClosed)] + (services + tail) == [Action(id, BeforeClosed)] + (services + tail);
    RemoveStopsAt(s, id, reason, throwing, [], Action(id, BeforeClosed), services + tail);
  }

  /** The removal when the after-close listener is the first unguarded call that throws. */
  lemma RemoveStopsAtAfterClosed(s: State, id: int, reason: string, throwing: set<Action>)
    requires id in s.injectors && Action(id, BeforeClosed) !in throwing && Action(id, AfterClosed) in throwing
    ensures var (s', outcome) := Remove(s, id, reason, throwing);
      outcome == Fail(Rethrown(ShardId(s.index, id), AfterClosed)) && s'.held == s.held
  {
    var head := TeardownHead(id, s.plugins, id in s.shards, reason, throwing);
    SplitFour(head, Action(id, AfterClosed), Action(id, StoreLookup), Action(id, StoreClose), Action(id, IndexInjectorClose));
    TeardownHeadShape(id, s.plugins, id in s.shards, reason);
    RemoveStopsAt(s, id, reason, throwing, head, Action(id, AfterClosed),
      [Action(id, StoreLookup), Action(id, StoreClose), Action(id, IndexInjectorClose)]);
  }

  /** The removal when the store lookup is the first unguarded call that throws. */
  lemma RemoveStopsAtStoreLookup(s: State, id: int, reason: string, throwing: set<Action>)
    requires id in s.injectors && Action(id, BeforeClosed) !in throwing && Action(id, AfterClosed) !in throwing
    requires Action(id, StoreLookup) in throwing
    ensures var (s', outcome) := Remove(s, id, reason, throwing);
      outcome == Fail(Rethrown(ShardId(s.index, id), StoreLookup)) && s'.held == s.held
  {
    var head := TeardownHead(id, s.plugins, id in s.shards, reason, throwing);
    SplitFour(head, Action(id, AfterClosed), Action(id, StoreLookup), Action(id, StoreClose), Action(id, IndexInjectorClose));
    assert NoAbort([Action(id, AfterClosed)], throwing);
    NoAbortAppend(head, [Action(id, AfterClosed)], throwing);
    TeardownHeadShape(id, s.plugins, id in s.shards, reason);
    assert Action(id, StoreClose) !in head + [Action(id, AfterClosed)];
    RemoveStopsAt(s, id, reason, throwing, head + [Action(id, AfterClosed)],
      Action(id, StoreLookup), [Action(id, StoreClose), Action(id, IndexInjectorClose)]);
  }

  /** The removal when the trailing injector close is the only unguarded call that throws. */
  lemma RemoveStopsAtInjectorClose(s: State, id: int, reason: string, throwing: set<Action>)
    requires id in s.injectors && Action(id, BeforeClosed) !in throwing && Action(id, AfterClosed) !in throwing
    requires Action(id, StoreLookup) !in throwing && Action(id, IndexInjectorClose) in throwing
    ensures var (s', outcome) := Remove(s, id, reason, throwing);
      outcome == Fail(Rethrown(ShardId(s.index, id), IndexInjectorClose)) && s'.held == s.held - {id}
  {
    var head := TeardownHead(id, s.plugins, id in s.shards, reason, throwing);
    SplitFour(head, Action(id, AfterClosed), Action(id, StoreLookup), Action(id, StoreClose), Action(id, IndexInjectorClose));
    var middle := [Action(id, StoreLookup), Action(id, StoreClose)];
    assert NoAbort([Action(id, AfterClosed)] + middle, throwing);
    NoAbortAppend(head, [Action(id, AfterClosed)] + middle, throwing);
    assert head + [Action(id, AfterClosed)] + middle == head + ([Action(id, AfterClosed)] + middle);
    var before := head + [Action(id, AfterClosed)] + middle;
    assert Action(id, StoreClose) in before by { assert before[|before| - 1] == Action(id, StoreClose); }
    RemoveStopsAt(s, id, reason, throwing, before, Action(id, IndexInjectorClose), []);
  }

  /**
   * The teardown up to the after-close listener: the before-close listener
   * and the guarded closes. When the first of them does not throw, none of
   * them ends the teardown.
   */
  lemma TeardownHead(id: int, plugins: nat, hasShard: bool, reason: string, throwing: set<Action>)
    returns (head: seq<Action>)
    requires Action(id, BeforeClosed) !in throwing
    ensures head == [Action(id, BeforeClosed)] + ServicePlan(id, plugins, hasShard, reason)
    ensures NoAbort(head, throwing)
    ensures TeardownPlan(id, plugins, hasShard, reason)
         == head + [Action(id, AfterClosed), Action(id, StoreLookup), Action(id, StoreClose), Action(id, IndexInjectorClose)]
  {
    head := [Action(id, BeforeClosed)] + ServicePlan(id, plugins, hasShard, reason);
    TeardownPlanSpelled(id, plugins, hasShard, reason);
    ServicePlanQuiet(id, plugins, hasShard, reason, throwing);
    assert NoAbort([Action(id, BeforeClosed)], throwing);
    NoAbortAppend([Action(id, BeforeClosed)], ServicePlan(id, plugins, hasShard, reason), throwing);
  }

  /** Before the after-close listener no store is closed. */
  lemma TeardownHeadShape(id: int, plugins: nat, hasShard: bool, reason: string)
    ensures Action(id, StoreClose) !in [Action(id, BeforeClosed)] + ServicePlan(id, plugins, hasShard, reason)
  {
    ServicePlanShape(id, plugins, hasShard, reason);
  }

  /**
   * The removal of `id` whose plan is `before + [a] + after`, where `a` is
   * the first call that throws past its guard, reports `a`'s throw and gives
   * the lock back exactly when `before` closed the store.
   */
  lemma RemoveStopsAt(s: State, id: int, reason: string, throwing: set<Action>,
                      before: seq<Action>, a: Action, after: seq<Action>)
    requires id in s.injectors
    requires TeardownPlan(id, s.plugins, id in s.shards, reason) == before + [a] + after
    requires NoAbort(before, throwing) && Aborts(a, throwing)
    ensures var (s', outcome) := Remove(s, id, reason, throwing);
      && outcome == Fail(Rethrown(ShardId(s.index, id), a.step))
      && s'.held == if Action(id, StoreClose) in before then s.held - {id} else s.held
  {
    var u := Unregister(s, id);
    TeardownPlanShape(id, s.plugins, id in s.shards, reason);
    ExecuteStopsAt(u, before, a, after, throwing);
    PerformAllEffect(u, before + [a], throwing);
    forall b | b in before + [a] ensures b.shard == id {
      assert b in before + [a] + after;
    }
    ReleasedByOne(before + [a], id);
  }

  /** removeShard keeps the invariant. */
  lemma RemovePreservesInv(s: State, id: int, reason: string, throwing: set<Action>)
    requires Inv(s)
    ensures Inv(Remove(s, id, reason, throwing).0)
  {
    if id in s.injectors {
      RemoveUnregistersFirst(s, id, reason, throwing);
      var s' := Remove(s, id, reason, throwing).0;
      forall x | x in s'.shards ensures x in s'.held {
        assert x in s.shards && x != id;
        assert x in s.held - {id};
      }
      forall x | x in s'.injectors && x !in s'.shards ensures x !in s'.held {
        assert x in s.injectors && x !in s.shards && x != id;
        assert x !in s.held;
        assert x !in s.held - {id};
      }
    }
  }

  /** A second removal of the same ordinal changes nothing and makes no call. */
  lemma RemoveTwiceIsNoop(s: State, id: int, reason: string, throwing: set<Action>,
                          reason': string, throwing': set<Action>)
    ensures var s' := Remove(s, id, reason, throwing).0;
      Remove(s', id, reason', throwing') == (s', Pass)
  {
    if id in s.injectors {
      RemoveUnregistersFirst(s, id, reason, throwing);
    }
  }

  /**
   * After a removal that made it to the end, the ordinal can be created
   * again; after one whose before-close listener threw, the lock is still
   * held and every later creation of the ordinal is refused.
   */
  lemma RecreateAfterRemove(s: State, id: int, reason: string, throwing: set<Action>,
                            h: nat, throwing': set<Action>)
    requires Inv(s) && !s.closed && id in s.shards
    requires Action(id, BeforeCreated) !in throwing'
    requires Action(id, StateChanged) !in throwing' && Action(id, AfterCreated) !in throwing'
    ensures var s' := Remove(s, id, reason, throwing).0;
      ListenersQuiet(id, throwing) ==> Create(s', id, true, Built(h), throwing').1.Success?
    ensures var s' := Remove(s, id, reason, throwing).0;
      Action(id, BeforeClosed) in throwing ==>
        Create(s', id, true, Built(h), throwing').1 == Failure(ShardCreationFailed(ShardId(s.index, id), LockUnavailable))
  {
    RemoveUnregistersFirst(s, id, reason, throwing);
    RemoveReleasesLock(s, id, reason, throwing);
  }

  // ---------------------------------------------------------------------
  // close
  // ---------------------------------------------------------------------

  /** The removals close makes, one per ordinal of `ids`, in order; their outcomes are ignored. */
  function RemoveEach(s: State, ids: seq<int>, reason: string, throwing: set<Action>): State
    decreases |ids|
  {
    if ids == [] then s
    else Remove(RemoveEach(s, ids[..|ids| - 1], reason, throwing), ids[|ids| - 1], reason, throwing).0
  }

  /**
   * close(): nothing when the index is already closed; otherwise set the
   * flag and remove every ordinal of the snapshot `order` of the published
   * shards, going on past failures.
   */
  function Close(s: State, order: seq<int>, reason: string, throwing: set<Action>): State
  {
    if s.closed then s else RemoveEach(s.(closed := true), order, reason, throwing)
  }

  /** The ordinals that a sequence of calls begins removing. */
  function Attempted(events: seq<Event>): set<int>
  {
    set j | 0 <= j < |events| && events[j].action.step == BeforeClosed :: events[j].action.shard
  }

  /**
   * The removals of `ids` take all of them out of both maps, keep the
   * invariant and the closed flag, and only grow the trace.
   */
  lemma {:induction false} RemoveEachEffect(s: State, ids: seq<int>, reason: string, throwing: set<Action>)
    requires Inv(s)
    ensures var s' := RemoveEach(s, ids, reason, throwing);
      && Inv(s')
      && s'.injectors == s.injectors - (set x | x in ids)
      && s'.shards == s.shards - (set x | x in ids)
      && s'.index == s.index && s'.plugins == s.plugins && s'.closed == s.closed
      && |s.trace| <= |s'.trace| && s'.trace[..|s.trace|] == s.trace
    decreases |ids|
  {
    if ids != [] {
      var init := ids[..|ids| - 1];
      var x := ids[|ids| - 1];
      RemoveEachEffect(s, init, reason, throwing);
      var m := RemoveEach(s, init, reason, throwing);
      RemovePreservesInv(m, x, reason, throwing);
      assert forall y :: y in ids <==> y in init || y == x;
      if x in m.injectors {
        RemoveUnregistersFirst(m, x, reason, throwing);
      }
    }
  }

  /**
   * The removals of `ids` begin the teardown of every one of them that had
   * a registered injector, even when the removal of an earlier one failed.
   */
  lemma {:induction false} RemoveEachAttemptsAll(s: State, ids: seq<int>, reason: string, throwing: set<Action>)
    requires Inv(s)
    ensures var s' := RemoveEach(s, ids, reason, throwing);
      && |s.trace| <= |s'.trace|
      && (set x | x in ids && x in s.injectors) <= Attempted(s'.trace[|s.trace|..])
    decreases |ids|
  {
    RemoveEachEffect(s, ids, reason, throwing);
    if ids != [] {
      var init := ids[..|ids| - 1];
      var x := ids[|ids| - 1];
      RemoveEachAttemptsAll(s, init, reason, throwing);
      RemoveEachEffect(s, init, reason, throwing);
      var m := RemoveEach(s, init, reason, throwing);
      var s' := Remove(m, x, reason, throwing).0;
      assert forall y :: y in ids <==> y in init || y == x;
      if x in m.injectors {
        RemoveUnregistersFirst(m, x, reason, throwing);
      }
      var before := m.trace[|s.trace|..];
      var after := s'.trace[|s.trace|..];
      assert after[..|before|] == before;
      forall y | y in ids && y in s.injectors ensures y in Attempted(after) {
        if y in init {
          assert y in (set z | z in init && z in s.injectors);
          assert y in Attempted(before);
          var j :| 0 <= j < |before| && before[j].action.step == BeforeClosed && before[j].action.shard == y;
          assert after[j] == before[j];
        } else {
          assert y == x && x in m.injectors;
          assert after[|before|] == s'.trace[|m.trace|];
        }
      }
    }
  }

  /**
   * The removals of `ids`, when only guarded calls throw, give back the lock
   * of every ordinal of `ids` that had an injector, and no other lock.
   */
  lemma {:induction false} RemoveEachReleasesLocks(s: State, ids: seq<int>, reason: string, throwing: set<Action>)
    requires Inv(s)
    requires forall a :: a in throwing ==> Guarded(a.step)
    ensures RemoveEach(s, ids, reason, throwing).held == s.held - (set x | x in ids && x in s.injectors)
    decreases |ids|
  {
    if ids != [] {
      var init := ids[..|ids| - 1];
      var x := ids[|ids| - 1];
      RemoveEachReleasesLocks(s, init, reason, throwing);
      RemoveEachEffect(s, init, reason, throwing);
      var m := RemoveEach(s, init, reason, throwing);
      GuardedRemoveReleasesLock(m, x, reason, throwing);
      var before := set y | y in init && y in s.injectors;
      var after := set y | y in ids && y in s.injectors;
      assert ids == init + [x];
      if x in m.injectors {
        assert after == before + {x};
      } else {
        assert after == before;
      }
    }
  }

  /** When only guarded calls throw, a removal gives back the lock of a registered ordinal. */
  lemma GuardedRemoveReleasesLock(s: State, id: int, reason: string, throwing: set<Action>)
    requires forall a :: a in throwing ==> Guarded(a.step)
    ensures Remove(s, id, reason, throwing).0.held == if id in s.injectors then s.held - {id} else s.held
  {
    if id in s.injectors {
      assert Action(id, BeforeClosed) !in throwing;
      assert Action(id, AfterClosed) !in throwing;
      assert Action(id, StoreLookup) !in throwing;
      RemoveReleasesLock(s, id, reason, throwing);
    }
  }

  /**
   * The first close sets the flag and empties the published map; it removes
   * exactly the published ordinals from the injector map (an injector left
   * behind by a failed creation stays), and begins the teardown of every
   * published shard, whatever earlier removals threw.
   */
  lemma CloseDrains(s: State, order: seq<int>, reason: string, throwing: set<Action>)
    requires Inv(s) && !s.closed
    requires forall x :: x in order <==> x in s.shards
    ensures var s' := Close(s, order, reason, throwing);
      && s'.closed && Inv(s')
      && s'.shards == map[]
      && s'.injectors == s.injectors - s.shards.Keys
      && |s.trace| <= |s'.trace| && s'.trace[..|s.trace|] == s.trace
      && s.shards.Keys <= Attempted(s'.trace[|s.trace|..])
  {
    var c := s.(closed := true);
    RemoveEachEffect(c, order, reason, throwing);
    RemoveEachAttemptsAll(c, order, reason, throwing);
    SnapshotCovers(s, order, c);
  }

  /** The ordinals of a snapshot of the published shards, all of which have an injector. */
  lemma SnapshotCovers(s: State, order: seq<int>, c: State)
    requires Inv(s) && c.injectors == s.injectors
    requires forall x :: x in order <==> x in s.shards
    ensures (set x | x in order) == s.shards.Keys
    ensures (set x | x in order && x in c.injectors) == s.shards.Keys
  {
    forall x | x in s.shards.Keys ensures x in (set y | y in order) && x in (set y | y in order && y in c.injectors) {
      assert x in order;
    }
    forall x | x in (set y | y in order) ensures x in s.shards.Keys {
      assert x in order;
    }
    forall x | x in (set y | y in order && y in c.injectors) ensures x in s.shards.Keys {
      assert x in order;
    }
  }

  /** When only guarded calls throw, the first close gives back every published shard's lock. */
  lemma CloseReleasesLocks(s: State, order: seq<int>, reason: string, throwing: set<Action>)
    requires Inv(s) && !s.closed
    requires forall x :: x in order <==> x in s.shards
    requires forall a :: a in throwing ==> Guarded(a.step)
    ensures Close(s, order, reason, throwing).held == s.held - s.shards.Keys
  {
    var c := s.(closed := true);
    RemoveEachReleasesLocks(c, order, reason, throwing);
    SnapshotCovers(s, order, c);
  }

  /** A second close changes nothing and removes nothing. */
  lemma CloseIsIdempotent(s: State, order: seq<int>, order': seq<int>, reason: string, reason': string,
                          throwing: set<Action>, throwing': set<Action>)
    requires Inv(s)
    ensures var s' := Close(s, order, reason, throwing);
      Close(s', order', reason', throwing') == s'
  {
    if !s.closed {
      RemoveEachEffect(s.(closed := true), order, reason, throwing);
    }
  }

  /** After close, every createShard is refused as on a closed index, and nothing changes. */
  lemma ClosedIndexRefusesCreate(s: State, order: seq<int>, reason: string, throwing: set<Action>,
                                 id: int, lockGranted: bool, build: Build, throwing': set<Action>)
    requires Inv(s)
    ensures var s' := Close(s, order, reason, throwing);
      Create(s', id, lockGranted, build, throwing') == (s', Failure(IndexClosed(ShardId(s.index, id))))
  {
    if !s.closed {
      RemoveEachEffect(s.(closed := true), order, reason, throwing);
    }
  }
}
