# IndexService shard registry and lifecycle, in Dafny

This project models the part of Elasticsearch's `IndexService` that owns the shards of one
index (`src/main/java/org/elasticsearch/index/IndexService.java`). It keeps two
copy-on-write maps: `shardsInjectors`, from ordinal to the per-shard child injector, and
`shards`, from ordinal to the published `IndexShard`. It also keeps the index-level
`closed` flag. On top of these three fields it runs three state-changing operations:

- `createShard` refuses a closed index, then takes the shard lock and refuses an ordinal
  whose injector is registered. It calls the before-create listener, builds the shard's
  subsystems, registers the injector and calls the state-changed and after-create
  listeners. Only then does it publish the shard; every failure after the lock gives the
  lock back.
- `removeShard` unregisters the ordinal from both maps first. It then calls the
  before-close listener and closes the plugin shard services and the subsystems, each
  close guarded so that its throw is swallowed. After that it calls the after-close
  listener, obtains and closes the store, and closes the index-level injector.
- `close` sets the flag once and removes every ordinal of a snapshot of the published
  shards, going on past failures.

The read accessors `shard`, `shardSafe`, `hasShard`, `shardIds`, `numberOfShards`,
`shardInjector` and `shardInjectorSafe` read the two maps.

The project has four modules, one file each:

- `ShardTypes` (`shard_types.dfy`) holds the values. These are shard identifiers and
  handles, the outcome of the subsystem factory and the errors the owner raises. They
  also include the calls the owner makes into listeners and subsystems (`Step`,
  `Action`) and the record of such a call (`Event`). An event says whether the call
  threw, and whether the shard was visible in `shards` and in `shardsInjectors` at that
  moment.
- `ServiceState` (`service_state.dfy`) holds the owner's state as a value (`State`) and
  the invariant every operation keeps (`Inv`). It also holds `Execute`, which runs a
  sequence of calls in order. A throw from a guarded call is ignored; a throw from an
  unguarded call ends the run and is passed on.
- `Lifecycle` (`lifecycle.dfy`) holds `createShard`, `removeShard` and `close` as
  functions of the state (`Create`, `Remove`, `Close`) and the properties proved about
  them.
- `IndexServices` (`index_service.dfy`) holds the class `IndexService`. Its fields are
  the source's fields, and its methods perform the operations step by step, with the
  plugin-service loop and the loop of `close` as `while` loops. Each method is proved to
  leave `Model()` (the fields as a `State`) where the matching `Lifecycle` function says.

Two collaborators become state of the owner:

- The node's shard-lock manager becomes the field `held`, the ordinals whose lock this
  index holds.
- The listeners become the field `trace`, the calls made so far.

What the environment does is passed in by the caller of each operation:

- whether the lock manager grants the lock in time (`lockGranted`);
- what the subsystem factory does (`Build`);
- which calls throw (`throwing`, a set of `Action`s).

Some behaviour of the code is worth knowing. Each point names the lemma that proves it of the
model:

- A second `createShard` for a published ordinal never reaches the already-exists check
  (lines 290-292). The published shard still holds its shard lock, so the lock taken at
  line 289 is refused, and the caller sees a creation error (`LockUnavailable`), not the
  `IndexShardAlreadyExistsException` of line 291 (`Lifecycle.CreatePublishedOrdinalRefused`).
- The already-exists check throws only for an injector that is registered while its
  shard is not published and its lock is free (`Lifecycle.AlreadyExistsOnlyForLeftover`,
  resting on the invariant `ServiceState.Inv`). Only a throw between registration (line
  329) and publication (line 335) leaves such an injector behind; the finally block then
  gives the lock back. The model covers the two listener throws at lines 332-333, not a
  throw from the lookup at line 331. While the lock manager grants the lock, a later
  creation of that ordinal is refused as already-exists
  (`Lifecycle.LeftoverInjectorBlocksCreate`). This lasts until `removeShard` drops the
  injector, which it finds at lines 352-353; the ordinal can then be created again
  (`Lifecycle.RemoveClearsLeftover`). `close` does not drop it, because it visits only
  published ordinals (`Lifecycle.CloseDrains`).
- A throw from the before-close listener, the after-close listener or the store lookup
  ends the removal before the store is closed. The lock then stays held, so the ordinal
  cannot be created again (`Lifecycle.RemoveReleasesLock`,
  `Lifecycle.RecreateAfterRemove`).

## Model

| member | source | states |
|---|---|---|
| ShardTypes.Guarded | src/main/java/org/elasticsearch/index/IndexService.java:364-436 | definition: the calls that sit in their own try/catch (each plugin service, translog service, shard, engine, merge scheduler, merge policy, gateway, translog, percolator registry, store close), as opposed to the listener calls at 363 and 428, the store lookup at 430 and the injector close at 437 |
| ServiceState.Inv | src/main/java/org/elasticsearch/index/IndexService.java:276-444 | definition: the relations every operation keeps: a published ordinal has a registered injector, a published ordinal holds its lock, a published shard is its injector's shard, every injector was built for its own ordinal of this index, and an injector without a published shard does not hold its lock; it is kept by `CreatePreservesInv` and `RemovePreservesInv` |
| ServiceState.Perform | src/main/java/org/elasticsearch/index/IndexService.java:304-433 | definition: one call into a collaborator appends its event; the store close (433) ends this index's hold on the lock handed to the store at 304; its properties are the `PerformAllEffect` lemma |
| ServiceState.Execute | src/main/java/org/elasticsearch/index/IndexService.java:349-442 | definition: calls are made in order, a guarded throw is swallowed and an unguarded one ends the run and is rethrown (440-441); its properties are the `ExecuteRunsToFirstAbort` and `ExecuteForOne` lemmas |
| Lifecycle.TeardownPlan | src/main/java/org/elasticsearch/index/IndexService.java:363-437 | definition: the removal's calls in source order, the shard close only when the shard was published; its properties are the `PluginPlanShape`, `ServicePlanShape` and `TeardownQuiet` lemmas |
| Lifecycle.Create | src/main/java/org/elasticsearch/index/IndexService.java:276-345 | definition: closed check, lock, body, lock given back on failure in the finally block; its properties are the `Create*` lemmas |
| Lifecycle.CreateLocked | src/main/java/org/elasticsearch/index/IndexService.java:288-337 | definition: the try body once the lock is held; its properties are the `CreateLockedFrame` lemma and the `Create*` lemmas |
| Lifecycle.Wire | src/main/java/org/elasticsearch/index/IndexService.java:329-336 | definition: registration, the two listener calls, publication; its properties are the `WireFrame` lemma |
| Lifecycle.Remove | src/main/java/org/elasticsearch/index/IndexService.java:347-444 | definition: no-op without an injector, unregistration, then `Execute` of the teardown; its properties are the `Remove*` lemmas |
| Lifecycle.RemoveEach | src/main/java/org/elasticsearch/index/IndexService.java:243-249 | definition: one removal per ordinal of the snapshot, outcomes ignored; its properties are the `RemoveEach*` lemmas |
| Lifecycle.Close | src/main/java/org/elasticsearch/index/IndexService.java:240-251 | definition: nothing on a closed index, otherwise set the flag and remove every snapshot ordinal; its properties are the `Close*` lemmas and `ClosedIndexRefusesCreate` |
| IndexServices.IndexService.Invoke | src/main/java/org/elasticsearch/index/IndexService.java:294-437 | one call into a listener or subsystem: it throws exactly when it is in `throwing`, and the new state is `ServiceState.Perform` of the old |
| IndexServices.IndexService.constructor | src/main/java/org/elasticsearch/index/IndexService.java:125-129 | a new owner starts with both maps empty, not closed, holding no lock; the invariant holds |
| IndexServices.IndexService.Shard | src/main/java/org/elasticsearch/index/IndexService.java:174-180 | a shard is returned exactly for a published ordinal, and it is the published one; under the invariant it carries the ordinal's shard id and is the shard of the ordinal's registered injector |
| IndexServices.IndexService.ShardSafe | src/main/java/org/elasticsearch/index/IndexService.java:181-190 | fails exactly when `HasShard` is false, with a missing-shard error naming this index and ordinal; otherwise returns what `Shard` returns |
| IndexServices.IndexService.HasShard | src/main/java/org/elasticsearch/index/IndexService.java:170-172 | true exactly for the members of `ShardIds` |
| IndexServices.IndexService.ShardIds | src/main/java/org/elasticsearch/index/IndexService.java:192-194 | an ordinal is a member exactly when `Shard` returns a shard for it |
| IndexServices.IndexService.NumberOfShards | src/main/java/org/elasticsearch/index/IndexService.java:161-163 | the number of published ordinals, the size of `ShardIds` |
| IndexServices.IndexService.ShardInjector | src/main/java/org/elasticsearch/index/IndexService.java:253-259 | an injector is returned exactly for a registered ordinal; under the invariant it was built for that ordinal, and an ordinal without one has no published shard |
| IndexServices.IndexService.ShardInjectorSafe | src/main/java/org/elasticsearch/index/IndexService.java:261-270 | fails exactly when `ShardInjector` returns none, with a missing-shard error naming this index and ordinal; otherwise returns what `ShardInjector` returns |
| IndexServices.IndexService.AcquireLock | src/main/java/org/elasticsearch/index/IndexService.java:289 | the lock is obtained exactly when it is not held and the lock manager grants it, and then it is held |
| IndexServices.IndexService.CreateShard | src/main/java/org/elasticsearch/index/IndexService.java:276-345 | keeps the invariant and ends in the state and result `Lifecycle.Create` gives: closed check, lock, guarded body, lock given back on every failure |
| IndexServices.IndexService.CreateLocked | src/main/java/org/elasticsearch/index/IndexService.java:288-337 | the body of the try block, equal to `Lifecycle.CreateLocked`: already-exists check, before-create listener, factory outcome wrapped as a creation error, then registration |
| IndexServices.IndexService.Wire | src/main/java/org/elasticsearch/index/IndexService.java:329-336 | registers the injector before the two listener calls and publishes the shard only after both returned, as `Lifecycle.Wire` |
| IndexServices.IndexService.CloseServices | src/main/java/org/elasticsearch/index/IndexService.java:364-425 | makes every guarded close in order (each plugin service in turn, translog service, the shard if it was published, engine, merge scheduler, merge policy, gateway, translog, percolator registry), whatever throws |
| IndexServices.IndexService.CloseStore | src/main/java/org/elasticsearch/index/IndexService.java:427-437 | after-close listener, store lookup, store close (its throw swallowed), injector close, stopping at the first unguarded throw, as `Execute` does |
| IndexServices.IndexService.Teardown | src/main/java/org/elasticsearch/index/IndexService.java:363-437 | the calls of a removal after unregistration are exactly the run of `Lifecycle.TeardownPlan` stopped at its first unguarded throw |
| IndexServices.IndexService.RemoveShard | src/main/java/org/elasticsearch/index/IndexService.java:347-444 | keeps the invariant and ends in the state and outcome `Lifecycle.Remove` gives |
| IndexServices.IndexService.Close | src/main/java/org/elasticsearch/index/IndexService.java:240-251 | keeps the invariant; ends where `Lifecycle.Close` gives for the order in which the snapshot was visited; on the first close that order is a permutation of the published ordinals and the published map ends empty |
| IndexServices.CreateTwoShards | src/main/java/org/elasticsearch/index/IndexService.java:276-337 | two creations of distinct ordinals on a fresh owner publish both, and the count is two |
| IndexServices.RemoveOneOfTwo | src/main/java/org/elasticsearch/index/IndexService.java:347-362 | removing one of two published shards leaves the other published and the removed ordinal reported missing by `shardSafe` |
| ServiceState.ExecuteRunsToFirstAbort | src/main/java/org/elasticsearch/index/IndexService.java:349-442 | a run makes the calls up to and including the first unguarded throw and no further; it reports that call, or none exactly when no call aborts |
| ServiceState.PerformAllEffect | src/main/java/org/elasticsearch/index/IndexService.java:363-437 | making calls changes neither map nor the flag; it appends one event per call and gives back exactly the locks of the stores closed |
| ServiceState.ExecuteForOne | src/main/java/org/elasticsearch/index/IndexService.java:363-437 | a run of calls for one ordinal makes a non-empty prefix of them, observed against the registry it started from, and touches no other ordinal's lock |
| Lifecycle.PluginPlanShape | src/main/java/org/elasticsearch/index/IndexService.java:364-370 | one close per plugin shard service, in the plugins' order |
| Lifecycle.ServicePlanShape | src/main/java/org/elasticsearch/index/IndexService.java:364-425 | every close between the two listener calls is guarded, for the removed ordinal, and none is the store close |
| Lifecycle.ServicePlanQuiet | src/main/java/org/elasticsearch/index/IndexService.java:364-425 | no throw from those closes ends a removal |
| Lifecycle.TeardownQuiet | src/main/java/org/elasticsearch/index/IndexService.java:363-437 | when the two listener calls, the store lookup and the injector close do not throw, no call ends the teardown early |
| Lifecycle.CreateOnClosedIndex | src/main/java/org/elasticsearch/index/IndexService.java:282-284 | on a closed index creation fails with the closed-index error before any lock is taken, and nothing changes |
| Lifecycle.CreateLockRefused | src/main/java/org/elasticsearch/index/IndexService.java:289-339 | when the lock cannot be obtained, creation fails with a creation error whose cause is the lock, and nothing changes |
| Lifecycle.CreateAlreadyExists | src/main/java/org/elasticsearch/index/IndexService.java:290-292 | with the lock obtained and an injector registered, creation fails with already-exists and the lock just taken is given back; nothing changes |
| Lifecycle.CreateBuildFails | src/main/java/org/elasticsearch/index/IndexService.java:320-327 | a factory failure (configuration error or other throw) becomes a creation error carrying that failure; neither map changes, the lock is given back, only the before-create listener was called |
| Lifecycle.CreateSucceeds | src/main/java/org/elasticsearch/index/IndexService.java:294-337 | on success both maps gain the ordinal, the lock stays held, and the three listener calls happened in order, the last two with the injector registered and the shard not yet published |
| Lifecycle.CreateSucceedsIff | src/main/java/org/elasticsearch/index/IndexService.java:276-345 | creation succeeds exactly when the index is open, the lock is obtained, no injector is registered, the factory builds and no listener throws |
| Lifecycle.CreateListenerThrowsAfterRegistration | src/main/java/org/elasticsearch/index/IndexService.java:329-343 | a listener throw after registration reaches the caller; the injector stays registered, the shard is not published, the lock is given back |
| Lifecycle.CreateFrame | src/main/java/org/elasticsearch/index/IndexService.java:276-345 | creation touches no other ordinal and only appends to the trace; on failure `shards` and the locks are as before, and `shardsInjectors` differs only after a listener throw following registration |
| Lifecycle.CreateLockedFrame | src/main/java/org/elasticsearch/index/IndexService.java:288-337 | the same frame for the body of the try block, where the locks do not change |
| Lifecycle.WireFrame | src/main/java/org/elasticsearch/index/IndexService.java:329-336 | registration adds exactly the new injector; a failure there leaves `shards` as before and is one of the two listener throws |
| Lifecycle.CreatePreservesInv | src/main/java/org/elasticsearch/index/IndexService.java:276-345 | creation keeps the invariant |
| Lifecycle.CreatePublishedOrdinalRefused | src/main/java/org/elasticsearch/index/IndexService.java:289-292 | creation of a published ordinal fails at the lock with a creation error and changes nothing |
| Lifecycle.LeftoverInjectorBlocksCreate | src/main/java/org/elasticsearch/index/IndexService.java:290-333 | after a state-changed or after-create listener throw, the next creation of that ordinal whose lock is granted fails with already-exists and changes nothing |
| Lifecycle.RemoveClearsLeftover | src/main/java/org/elasticsearch/index/IndexService.java:347-362 | after a listener throw leaves an injector behind, a removal drops it whatever throws, and a quiet creation of the ordinal then succeeds |
| Lifecycle.AlreadyExistsOnlyForLeftover | src/main/java/org/elasticsearch/index/IndexService.java:289-292 | under the invariant, creation reports already-exists exactly when the index is open, the lock manager grants the lock, and the ordinal has an injector but no published shard |
| Lifecycle.RemoveUnknownIsNoop | src/main/java/org/elasticsearch/index/IndexService.java:352-356 | removing an ordinal without an injector changes nothing and makes no call |
| Lifecycle.RemoveUnregistersFirst | src/main/java/org/elasticsearch/index/IndexService.java:352-363 | removal takes the ordinal out of both maps whatever throws; the calls it makes are a non-empty prefix of the teardown, each made with the ordinal in neither map; no other ordinal is touched |
| Lifecycle.RemoveCompletes | src/main/java/org/elasticsearch/index/IndexService.java:363-437 | with no unguarded throw, every call of the teardown is made in order, the outcome is success and the lock is given back |
| Lifecycle.RemoveOutcome | src/main/java/org/elasticsearch/index/IndexService.java:440-441 | the removal reports the throw of the first of the before-close listener, after-close listener, store lookup and injector close that throws, or success |
| Lifecycle.RemoveReleasesLock | src/main/java/org/elasticsearch/index/IndexService.java:427-437 | the lock is given back exactly when the removal reaches the store close |
| Lifecycle.RemoveStops | src/main/java/org/elasticsearch/index/IndexService.java:363-441 | which throw is reported and whether the lock is given back, case by case |
| Lifecycle.RemoveStopsAt | src/main/java/org/elasticsearch/index/IndexService.java:363-441 | a teardown whose first unguarded throw is a given call reports it and gives the lock back exactly when the store was closed before it |
| Lifecycle.RemovePreservesInv | src/main/java/org/elasticsearch/index/IndexService.java:347-444 | removal keeps the invariant |
| Lifecycle.RemoveTwiceIsNoop | src/main/java/org/elasticsearch/index/IndexService.java:352-356 | a second removal of the same ordinal changes nothing |
| Lifecycle.RecreateAfterRemove | src/main/java/org/elasticsearch/index/IndexService.java:289-437 | after a removal with quiet listeners the ordinal can be created again; after one whose before-close listener threw, creation is refused at the lock |
| Lifecycle.RemoveEachEffect | src/main/java/org/elasticsearch/index/IndexService.java:243-249 | the removals of `close` keep the invariant, take every visited ordinal out of both maps, and only grow the trace |
| Lifecycle.RemoveEachAttemptsAll | src/main/java/org/elasticsearch/index/IndexService.java:243-249 | every visited ordinal that had an injector gets its teardown begun, whatever earlier removals threw |
| Lifecycle.RemoveEachReleasesLocks | src/main/java/org/elasticsearch/index/IndexService.java:243-249 | when only guarded calls throw, the removals give back exactly the locks of the visited ordinals that had a registered injector; no other lock changes |
| Lifecycle.CloseDrains | src/main/java/org/elasticsearch/index/IndexService.java:240-251 | the first close sets the flag, empties `shards`, removes exactly the published ordinals from `shardsInjectors`, and begins the teardown of every published shard |
| Lifecycle.CloseReleasesLocks | src/main/java/org/elasticsearch/index/IndexService.java:240-251 | when only guarded calls throw, the first close gives back every published shard's lock |
| Lifecycle.CloseIsIdempotent | src/main/java/org/elasticsearch/index/IndexService.java:241 | a second close changes nothing |
| Lifecycle.ClosedIndexRefusesCreate | src/main/java/org/elasticsearch/index/IndexService.java:282-284 | after close every creation fails with the closed-index error and changes nothing |

## Left out

- The subsystem wiring (lines 298-318 and `createChildInjector` at 320-327) is one
  factory outcome, `Build`. It yields an injector, a configuration error (whose first
  failure the owner keeps) or a throw. The order in which the subsystems are built is
  not modelled.
- `shardInjector.getInstance(IndexShard.class)` (line 331) is part of the factory: the
  injector carries its shard from the moment it is built, and a throw from that lookup
  is not modelled.
- The lock manager (`NodeEnvironment.shardLock`, line 289) is not part of this model. It
  is taken to be exclusive and not re-entrant per shard id. Its 5-second wait is the
  caller's `lockGranted` answer, and its failure is an I/O error, which line 338 wraps
  as a creation error.
- The lock is handed to the store module when the shard is wired (line 304). The model
  takes the store close (line 433) as the point where this index stops holding it,
  whether or not that close reports a failure.
- `Injectors.close(injector)` (line 437) is one opaque, unguarded call. Its effect on
  the index-level injector is not modelled.
- What each subsystem's `close` does is not modelled; each close is one recorded call
  that throws or not. The removal reason is passed only to the shard's own close.
- Concurrency: `synchronized` serialises the three operations, and `volatile` and
  `AtomicBoolean` make the maps and flag visible to lock-free readers. The model runs
  each operation as one step.
- Logging and the text of exception messages are not modelled. The error kinds are.
- The constructor's dependency wiring and the cyclic-dependency workarounds (lines
  131-159) are not modelled; the constructor only sets up the registry.
- The plain getters (lines 196-238), `indexUUID` (lines 272-274) and `iterator` (lines
  165-168) are not modelled.
- IndexServices.IndexService.Close: the order in which the snapshot is visited is left
  open. The contract says it is some permutation of the published ordinals, as the
  source leaves it to the set's iteration order.
