/**
 * The state of one index's shard owner as a value, and the execution of a
 * sequence of collaborator calls in which some calls are guarded (a throw is
 * caught and the sequence goes on) and the others are not (a throw ends the
 * sequence and is passed to the caller).
 */
module ServiceState {
  import opened ShardTypes

  /**
   * `injectors` and `shards` are the two copy-on-write maps from ordinal to
   * handle, `closed` the index-level closed flag, `held` the ordinals whose
   * shard lock this index holds, and `trace` the collaborator calls made so
   * far. `index` and `plugins` (the number of plugin-provided shard
   * services) do not change.
   */
  datatype State = State(
    index: string,
    plugins: nat,
    injectors: map<int, Injector>,
    shards: map<int, IndexShard>,
    closed: bool,
    held: set<int>,
    trace: seq<Event>)

  /**
   * The invariant every public operation keeps: a published shard has its
   * injector registered and holds its lock, it is the shard of that injector,
   * and every injector was built for its own ordinal of this index. An
   * injector whose shard is not published (one left behind by a failed
   * creation) does not hold its lock.
   */
  ghost predicate Inv(s: State)
  {
    && s.shards.Keys <= s.injectors.Keys
    && s.shards.Keys <= s.held
    && (forall id :: id in s.injectors && id !in s.shards ==> id !in s.held)
    && (forall id :: id in s.shards ==> s.injectors[id].shard == s.shards[id])
    && (forall id :: id in s.injectors ==> s.injectors[id].shard.shardId == ShardId(s.index, id))
  }

  /** The event a call `a` leaves when it is made in state `s`. */
  function Observe(s: State, a: Action, throwing: set<Action>): Event
  {
    Event(a, a in throwing, a.shard in s.shards, a.shard in s.injectors)
  }

  /**
   * Makes one call. Closing the store is the step that ends this index's
   * ownership of the shard lock: the lock was handed to the store when the
   * shard was wired, so the model releases it here, whether or not the close
   * reports a failure. This is an abstraction of what the store does.
   */
  function Perform(s: State, a: Action, throwing: set<Action>): (r: State)
  {
    var s' := s.(trace := s.trace + [Observe(s, a, throwing)]);
    if a.step == StoreClose then s'.(held := s.held - {a.shard}) else s'
  }

  /** Makes every call of `plan`, in order, ignoring throws. */
  function PerformAll(s: State, plan: seq<Action>, throwing: set<Action>): State
    decreases |plan|
  {
    if plan == [] then s
    else Perform(PerformAll(s, plan[..|plan| - 1], throwing), plan[|plan| - 1], throwing)
  }

  /** The events of the calls of `plan`, all made in state `s`. */
  function Attempts(s: State, plan: seq<Action>, throwing: set<Action>): (r: seq<Event>)
    ensures |r| == |plan|
    ensures forall j :: 0 <= j < |plan| ==> r[j] == Observe(s, plan[j], throwing)
  {
    seq(|plan|, j requires 0 <= j < |plan| => Observe(s, plan[j], throwing))
  }

  /** The ordinals whose store `plan` closes. */
  function ReleasedBy(plan: seq<Action>): set<int>
  {
    set a | a in plan && a.step == StoreClose :: a.shard
  }

  /** True when no call of `plan` throws past its own guard. */
  ghost predicate NoAbort(plan: seq<Action>, throwing: set<Action>)
  {
    forall j :: 0 <= j < |plan| ==> !Aborts(plan[j], throwing)
  }

  /** Two runs without an unguarded throw make one. */
  lemma NoAbortAppend(p: seq<Action>, q: seq<Action>, throwing: set<Action>)
    requires NoAbort(p, throwing) && NoAbort(q, throwing)
    ensures NoAbort(p + q, throwing)
  {
    forall j | 0 <= j < |p + q| ensures !Aborts((p + q)[j], throwing) {
      if j < |p| {
        assert (p + q)[j] == p[j];
      } else {
        assert (p + q)[j] == q[j - |p|];
      }
    }
  }

  /** Proof helper: the ways of regrouping a run of four calls after a prefix `h` that the proofs use. */
  lemma SplitFour(h: seq<Action>, a: Action, b: Action, c: Action, d: Action)
    ensures h + [a, b, c, d] == h + [a] + [b, c, d]
    ensures h + [a, b, c, d] == (h + [a]) + [b, c, d]
    ensures h + [a, b, c, d] == h + [a] + [b] + [c, d]
    ensures h + [a, b, c, d] == (h + [a] + [b]) + [c, d]
    ensures h + [a, b, c, d] == h + [a] + [b, c] + [d] + []
    ensures h + [a, b, c, d] == h + [a] + [b] + [c] + [d]
  {
  }

  /**
   * The result of running a plan: the state reached, the call that aborted
   * the run if one did, and how many calls were made.
   */
  datatype Exec = Exec(state: State, failed: Option<Action>, ran: nat)

  /**
   * Runs `plan`: each call is made in turn; a guarded call that throws is
   * ignored, an unguarded one that throws ends the run.
   */
  function Execute(s: State, plan: seq<Action>, throwing: set<Action>): Exec
    decreases |plan|
  {
    if plan == [] then Exec(s, None, 0)
    else
      var r := Execute(s, plan[..|plan| - 1], throwing);
      var a := plan[|plan| - 1];
      if r.failed.Some? then r
      else Exec(Perform(r.state, a, throwing), if Aborts(a, throwing) then Some(a) else None, r.ran + 1)
  }

  /**
   * What a run of calls changes: only the trace, which grows by one event
   * per call, all observed against the registry of `s`, and the held locks,
   * which lose the ordinals whose store was closed.
   */
  lemma {:induction false} PerformAllEffect(s: State, plan: seq<Action>, throwing: set<Action>)
    ensures var r := PerformAll(s, plan, throwing);
      && r.index == s.index && r.plugins == s.plugins
      && r.injectors == s.injectors && r.shards == s.shards && r.closed == s.closed
      && r.trace == s.trace + Attempts(s, plan, throwing)
      && r.held == s.held - ReleasedBy(plan)
    decreases |plan|
  {
    if plan != [] {
      var init := plan[..|plan| - 1];
      var a := plan[|plan| - 1];
      PerformAllEffect(s, init, throwing);
      assert plan == init + [a];
      var m := PerformAll(s, init, throwing);
      assert Observe(m, a, throwing) == Observe(s, a, throwing);
      assert Attempts(s, plan, throwing) == Attempts(s, init, throwing) + [Observe(s, a, throwing)];
      assert ReleasedBy(plan) == ReleasedBy(init) + (if a.step == StoreClose then {a.shard} else {});
    }
  }

  /**
   * A run makes the calls of `plan` up to and including the first call that
   * throws past its guard and no further; it reports that call, or nothing
   * when there is none.
   */
  lemma {:induction false} ExecuteRunsToFirstAbort(s: State, plan: seq<Action>, throwing: set<Action>)
    ensures var r := Execute(s, plan, throwing);
      && r.ran <= |plan|
      && r.state == PerformAll(s, plan[..r.ran], throwing)
      && (r.failed.None? <==> NoAbort(plan, throwing))
      && (r.failed.None? ==> r.ran == |plan|)
      && (r.failed.Some? ==>
            && 0 < r.ran
            && r.failed.value == plan[r.ran - 1]
            && Aborts(plan[r.ran - 1], throwing)
            && NoAbort(plan[..r.ran - 1], throwing))
    decreases |plan|
  {
    if plan != [] {
      var init := plan[..|plan| - 1];
      var a := plan[|plan| - 1];
      ExecuteRunsToFirstAbort(s, init, throwing);
      var r0 := Execute(s, init, throwing);
      if r0.failed.Some? {
        assert plan[..r0.ran] == init[..r0.ran];
        assert plan[..r0.ran - 1] == init[..r0.ran - 1];
        assert plan[r0.ran - 1] == init[r0.ran - 1];
      } else {
        assert init[..r0.ran] == init;
        assert plan[..|plan|] == plan;
        assert plan[..|plan| - 1] == init;
        if !Aborts(a, throwing) {
          forall j | 0 <= j < |plan| ensures !Aborts(plan[j], throwing) {
            if j < |init| { assert plan[j] == init[j]; }
          }
        }
      }
    }
  }

  /** A run with no unguarded throw makes every call of its plan. */
  lemma ExecuteWithoutAbort(s: State, plan: seq<Action>, throwing: set<Action>)
    requires NoAbort(plan, throwing)
    ensures Execute(s, plan, throwing) == Exec(PerformAll(s, plan, throwing), None, |plan|)
  {
    ExecuteRunsToFirstAbort(s, plan, throwing);
    assert plan[..|plan|] == plan;
  }

  /**
   * The run of `before + [a] + after`, when `a` is the first call that throws
   * past its guard, ends at `a`: the calls of `after` are never made.
   */
  lemma ExecuteStopsAt(s: State, before: seq<Action>, a: Action, after: seq<Action>, throwing: set<Action>)
    requires NoAbort(before, throwing) && Aborts(a, throwing)
    ensures Execute(s, before + [a] + after, throwing)
         == Exec(PerformAll(s, before + [a], throwing), Some(a), |before| + 1)
  {
    var plan := before + [a] + after;
    ExecuteRunsToFirstAbort(s, plan, throwing);
    var r := Execute(s, plan, throwing);
    assert plan[|before|] == a;
    assert plan[..|before| + 1] == before + [a];
  }

  /** Once a run has ended, appending calls to its plan changes nothing. */
  lemma {:induction false} ExecuteStopped(s: State, plan: seq<Action>, rest: seq<Action>, throwing: set<Action>)
    requires Execute(s, plan, throwing).failed.Some?
    ensures Execute(s, plan + rest, throwing) == Execute(s, plan, throwing)
    decreases |rest|
  {
    if rest != [] {
      var init := rest[..|rest| - 1];
      ExecuteStopped(s, plan, init, throwing);
      assert (plan + rest)[..|plan + rest| - 1] == plan + init;
    } else {
      assert plan + rest == plan;
    }
  }

  /** Extending a run that has not ended by one call. */
  lemma ExecuteSnoc(s: State, plan: seq<Action>, a: Action, throwing: set<Action>)
    ensures var r := Execute(s, plan, throwing);
      r.failed.None? ==>
        Execute(s, plan + [a], throwing)
          == Exec(Perform(r.state, a, throwing), if Aborts(a, throwing) then Some(a) else None, r.ran + 1)
  {
    assert (plan + [a])[..|plan + [a]| - 1] == plan;
  }

  /**
   * A run of calls all made for ordinal `id`: the calls actually made are a
   * prefix of the plan, at least one when the plan is not empty, each
   * observed against the registry of `s`; the registry, the flag and every
   * other ordinal's lock are untouched.
   */
  lemma ExecuteForOne(s: State, plan: seq<Action>, id: int, throwing: set<Action>)
    requires forall a :: a in plan ==> a.shard == id
    ensures var r := Execute(s, plan, throwing).state;
      && r.index == s.index && r.plugins == s.plugins
      && r.injectors == s.injectors && r.shards == s.shards && r.closed == s.closed
      && r.held - {id} == s.held - {id}
      && |s.trace| + (if plan == [] then 0 else 1) <= |r.trace| <= |s.trace| + |plan|
      && r.trace[..|s.trace|] == s.trace
      && forall j :: |s.trace| <= j < |r.trace| ==> r.trace[j] == Observe(s, plan[j - |s.trace|], throwing)
  {
    ExecuteRunsToFirstAbort(s, plan, throwing);
    var e := Execute(s, plan, throwing);
    var done := plan[..e.ran];
    PerformAllEffect(s, done, throwing);
    assert ReleasedBy(done) <= {id} by {
      forall x | x in ReleasedBy(done) ensures x == id {
        var a :| a in done && a.step == StoreClose && a.shard == x;
        assert a in plan;
      }
    }
  }

  /** Continuing a run that has not ended with calls none of which throws past its guard. */
  lemma {:induction false} ExecuteAppendQuiet(s: State, plan: seq<Action>, rest: seq<Action>, throwing: set<Action>)
    requires Execute(s, plan, throwing).failed.None? && NoAbort(rest, throwing)
    ensures var r := Execute(s, plan, throwing);
      Execute(s, plan + rest, throwing) == Exec(PerformAll(r.state, rest, throwing), None, r.ran + |rest|)
    decreases |rest|
  {
    if rest == [] {
      assert plan + rest == plan;
    } else {
      var init := rest[..|rest| - 1];
      assert NoAbort(init, throwing) by {
        forall j | 0 <= j < |init| ensures !Aborts(init[j], throwing) { assert init[j] == rest[j]; }
      }
      ExecuteAppendQuiet(s, plan, init, throwing);
      assert (plan + rest)[..|plan + rest| - 1] == plan + init;
      assert !Aborts(rest[|rest| - 1], throwing);
    }
  }
}
