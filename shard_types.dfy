/**
 * Values shared by the model of the per-index shard owner: shard identifiers,
 * shard and injector handles, the outcome of the subsystem factory, the error
 * kinds the owner raises, and the listener calls and subsystem closes that it
 * performs, which the model records as events.
 */
module ShardTypes {

  datatype Option<T> = None | Some(value: T)

  /** A shard identifier: the name of the owning index and the shard ordinal. */
  datatype ShardId = ShardId(index: string, id: int)

  /** A live shard. `handle` stands for the object's identity. */
  datatype IndexShard = IndexShard(shardId: ShardId, handle: nat)

  /**
   * The per-shard child injector: the bundle of subsystems built for one shard.
   * The only subsystem the model keeps as data is the shard itself; the others
   * are reached through recorded calls.
   */
  datatype Injector = Injector(handle: nat, shard: IndexShard)

  /** Something thrown by a collaborator. Its content is opaque to the owner. */
  datatype Throwable = Throwable(description: string)

  /**
   * What the subsystem factory (`createChildInjector`) does when asked to wire
   * a shard: it yields an injector, fails with a configuration error (for which
   * the owner keeps the failure behind the first error message), or throws.
   */
  datatype Build =
    | Built(handle: nat)
    | ConfigurationFailed(firstFailure: Throwable)
    | BuildThrew(failure: Throwable)

  /** Why a shard could not be created. */
  datatype Cause =
    | LockUnavailable             // the shard lock could not be obtained
    | Thrown(failure: Throwable)  // the subsystem factory failed

  /** The errors the owner raises to its callers. */
  datatype Error =
    | IndexClosed(shardId: ShardId)                   // creation on a closed index
    | ShardAlreadyExists(shardId: ShardId)
    | ShardCreationFailed(shardId: ShardId, cause: Cause)
    | ShardMissing(shardId: ShardId)                  // from the `...Safe` accessors
    | Rethrown(shardId: ShardId, step: Step)          // an unguarded call threw

  datatype Result<T> = Success(value: T) | Failure(error: Error)

  datatype Outcome = Pass | Fail(error: Error)

  /** The calls into collaborators that the owner makes for one shard. */
  datatype Step =
    // listener hooks of the creation path
    | BeforeCreated | StateChanged | AfterCreated
    // removal path, in the order the owner performs them
    | BeforeClosed
    | PluginService(index: nat)   // the index-th plugin-provided shard service
    | TranslogService
    | ShardClose(reason: string)
    | Engine
    | MergeScheduler
    | MergePolicy
    | Gateway
    | Translog
    | Percolator
    | AfterClosed
    | StoreLookup                 // obtaining the store from the shard injector
    | StoreClose
    | IndexInjectorClose          // the trailing close of the index-level injector

  /**
   * True of the removal steps that the owner wraps in their own try/catch, so
   * that a throw is logged and removal goes on.
   */
  predicate Guarded(step: Step)
  {
    step.PluginService? || step.TranslogService? || step.ShardClose? ||
    step.Engine? || step.MergeScheduler? || step.MergePolicy? ||
    step.Gateway? || step.Translog? || step.Percolator? || step.StoreClose?
  }

  /** One call into a collaborator, on behalf of one shard ordinal. */
  datatype Action = Action(shard: int, step: Step)

  /**
   * A call as it happened: whether it threw, and whether, at that moment,
   * the shard ordinal was visible in the published shard map and in the
   * injector map (which is what a listener reading the owner would see).
   */
  datatype Event = Event(action: Action, threw: bool, shardVisible: bool, injectorVisible: bool)

  /** True when `a` throws and nothing around it catches the throw. */
  predicate Aborts(a: Action, throwing: set<Action>)
  {
    a in throwing && !Guarded(a.step)
  }
}
