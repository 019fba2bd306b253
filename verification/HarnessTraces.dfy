// What a harness run decides, read off the adapter alone: a run is a sequence of states in which every
// step executed, updated the shadow model and passed every check, up to its end or to the step that ends it.

module HarnessTraces {
  import opened Prelude
  import opened AddressPools
  import opened Harness

  // The ledger time at which a step executes.
  function StepTime(time: nat, seconds: Option<nat>): nat {
    if seconds.None? then time
    else if time + seconds.value <= U64_MAX then time + seconds.value
    else U64_MAX
  }

  // What the adapter makes of a step's command.
  function Executed<C, K, M>(a: Adapter<C, K, M>, pool: Pool, step: Step<C>, world: World<K>): (World<K>, Execution) {
    a.execute(World(StepTime(world.time, step.advanceTime), world.contract), pool, step.command,
              Resolved(pool, step.authorized))
  }

  // The command unwound, or returned an undeclared panic, with this message.
  predicate Panics(execution: Execution, message: string) {
    || execution == Unwound(Some(message))
    || (execution == Unwound(None) && message == "non-string panic payload")
    || execution == Finished(UndeclaredPanic(message))
  }

  predicate ReturnsQuietly(execution: Execution) {
    execution.Finished? && !execution.outcome.UndeclaredPanic?
  }

  // What check `j` says after step `k`.
  function CheckAt<C, K, M>(a: Adapter<C, K, M>, pool: Pool, k: nat, step: Step<C>, world: World<K>, model: M,
                            outcome: Outcome, j: nat): Check
    requires j < |a.invariants|
  {
    a.invariants[j](InvariantCtx(world, model, step.command, outcome, Resolved(pool, step.authorized), pool, k))
  }

  // Step `k` leads from one state to the next: it returned without a panic, the shadow model did not
  // overflow, and every registered check passed.
  ghost predicate Passes<C, K, M>(a: Adapter<C, K, M>, pool: Pool, k: nat, step: Step<C>, before: (World<K>, M),
                                  after: (World<K>, M))
  {
    var (world, execution) := Executed(a, pool, step, before.0);
    && ReturnsQuietly(execution)
    && after.0 == world
    && a.apply(before.1, pool, step.command, execution.outcome) == Some(after.1)
    && forall j: nat :: j < |a.invariants| ==> CheckAt(a, pool, k, step, world, after.1, execution.outcome, j).Pass?
  }

  // Check `j` is the first that does not pass.
  ghost predicate FailsFirst<C, K, M>(a: Adapter<C, K, M>, pool: Pool, k: nat, step: Step<C>, world: World<K>, model: M,
                                      outcome: Outcome, j: nat)
    requires j < |a.invariants|
  {
    && !CheckAt(a, pool, k, step, world, model, outcome, j).Pass?
    && forall i: nat :: i < j ==> CheckAt(a, pool, k, step, world, model, outcome, i).Pass?
  }

  // Step `k` ends the run with `verdict`: the command panicked, the shadow model overflowed, or the first
  // check that did not pass failed or overflowed.
  ghost predicate Ends<C, K, M>(a: Adapter<C, K, M>, pool: Pool, k: nat, step: Step<C>, before: (World<K>, M),
                                verdict: Verdict)
  {
    var (world, execution) := Executed(a, pool, step, before.0);
    if ReturnsQuietly(execution) then
      var applied := a.apply(before.1, pool, step.command, execution.outcome);
      if applied.None? then verdict == Crashed
      else
        exists j: nat ::
          && j < |a.invariants| && FailsFirst(a, pool, k, step, world, applied.value, execution.outcome, j)
          && var check := CheckAt(a, pool, k, step, world, applied.value, execution.outcome, j);
             if check.Fail? then verdict == Found(check.violation) else verdict == Crashed
    else
      && verdict.Found? && Panics(execution, verdict.violation.message)
      && verdict.violation.invariantName == "no-undeclared-panic" && verdict.violation.stepIndex == k
  }

  // The states a run goes through, from the set-up on, as long as its steps pass.
  ghost predicate Trace<C, K, M>(a: Adapter<C, K, M>, pool: Pool, run: seq<Step<C>>, states: seq<(World<K>, M)>) {
    && 1 <= |states| <= |run| + 1
    && states[0] == a.setup(pool)
    && forall k: nat :: k + 1 < |states| ==> Passes(a, pool, k, run[k], states[k], states[k + 1])
  }

  // The steps of a run that are executed.
  function Bounded<C>(steps: seq<Step<C>>, bound: nat): seq<Step<C>> {
    steps[..if |steps| < bound then |steps| else bound]
  }

  // ----- one step -----

  lemma ChecksPass<C, K, M>(a: Adapter<C, K, M>, pool: Pool, k: nat, step: Step<C>, world: World<K>, model: M,
                            outcome: Outcome)
    ensures var ctx := InvariantCtx(world, model, step.command, outcome, Resolved(pool, step.authorized), pool, k);
            CheckAll(a.invariants, ctx).Pass?
            <==> forall j: nat :: j < |a.invariants| ==> CheckAt(a, pool, k, step, world, model, outcome, j).Pass?
  {
    var ctx := InvariantCtx(world, model, step.command, outcome, Resolved(pool, step.authorized), pool, k);
    CheckAllIsFirstFailure(a.invariants, ctx);
    if forall j: nat :: j < |a.invariants| ==> CheckAt(a, pool, k, step, world, model, outcome, j).Pass? {
      forall j | 0 <= j < |a.invariants| ensures a.invariants[j](ctx).Pass? {
        assert CheckAt(a, pool, k, step, world, model, outcome, j).Pass?;
      }
    }
  }

  lemma ChecksFail<C, K, M>(a: Adapter<C, K, M>, pool: Pool, k: nat, step: Step<C>, world: World<K>, model: M,
                            outcome: Outcome, j: nat)
    requires j < |a.invariants| && FailsFirst(a, pool, k, step, world, model, outcome, j)
    ensures var ctx := InvariantCtx(world, model, step.command, outcome, Resolved(pool, step.authorized), pool, k);
            CheckAll(a.invariants, ctx) == CheckAt(a, pool, k, step, world, model, outcome, j)
  {
    var ctx := InvariantCtx(world, model, step.command, outcome, Resolved(pool, step.authorized), pool, k);
    CheckAllIsFirstFailure(a.invariants, ctx);
    assert !a.invariants[j](ctx).Pass?;
    var i :| 0 <= i < |a.invariants| && CheckAll(a.invariants, ctx) == a.invariants[i](ctx)
             && !a.invariants[i](ctx).Pass?
             && forall l :: 0 <= l < i ==> a.invariants[l](ctx).Pass?;
    assert CheckAt(a, pool, k, step, world, model, outcome, i) == a.invariants[i](ctx);
    assert i == j;
  }

  lemma FirstFailure<C, K, M>(a: Adapter<C, K, M>, pool: Pool, k: nat, step: Step<C>, world: World<K>, model: M,
                              outcome: Outcome) returns (j: nat)
    requires var ctx := InvariantCtx(world, model, step.command, outcome, Resolved(pool, step.authorized), pool, k);
             !CheckAll(a.invariants, ctx).Pass?
    ensures j < |a.invariants| && FailsFirst(a, pool, k, step, world, model, outcome, j)
  {
    var ctx := InvariantCtx(world, model, step.command, outcome, Resolved(pool, step.authorized), pool, k);
    CheckAllIsFirstFailure(a.invariants, ctx);
    j :| 0 <= j < |a.invariants| && CheckAll(a.invariants, ctx) == a.invariants[j](ctx) && !a.invariants[j](ctx).Pass?
         && forall l :: 0 <= l < j ==> a.invariants[l](ctx).Pass?;
  }

  lemma PassesIsContinue<C, K, M>(a: Adapter<C, K, M>, pool: Pool, k: nat, step: Step<C>, before: (World<K>, M),
                                  after: (World<K>, M))
    ensures Passes(a, pool, k, step, before, after)
            <==> RunStep(a, pool, k, step, before.0, before.1) == Continue(after.0, after.1)
  {
    var (world, execution) := Executed(a, pool, step, before.0);
    if ReturnsQuietly(execution) {
      var applied := a.apply(before.1, pool, step.command, execution.outcome);
      if applied.Some? {
        ChecksPass(a, pool, k, step, world, applied.value, execution.outcome);
      }
    }
  }

  lemma EndsIsStop<C, K, M>(a: Adapter<C, K, M>, pool: Pool, k: nat, step: Step<C>, before: (World<K>, M),
                            verdict: Verdict)
    ensures Ends(a, pool, k, step, before, verdict)
            <==> RunStep(a, pool, k, step, before.0, before.1) == StepResult<K, M>.Stop(verdict)
  {
    var (world, execution) := Executed(a, pool, step, before.0);
    if ReturnsQuietly(execution) {
      var applied := a.apply(before.1, pool, step.command, execution.outcome);
      if applied.Some? {
        EndsByCheck(a, pool, k, step, before, verdict);
      }
    }
  }

  lemma EndsByCheck<C, K, M>(a: Adapter<C, K, M>, pool: Pool, k: nat, step: Step<C>, before: (World<K>, M),
                             verdict: Verdict)
    requires var (world, execution) := Executed(a, pool, step, before.0);
             && ReturnsQuietly(execution) && a.apply(before.1, pool, step.command, execution.outcome).Some?
    ensures Ends(a, pool, k, step, before, verdict)
            <==> RunStep(a, pool, k, step, before.0, before.1) == StepResult<K, M>.Stop(verdict)
  {
    var (world, execution) := Executed(a, pool, step, before.0);
    var outcome := execution.outcome;
    var model := a.apply(before.1, pool, step.command, outcome).value;
    var ctx := InvariantCtx(world, model, step.command, outcome, Resolved(pool, step.authorized), pool, k);
    if CheckAll(a.invariants, ctx).Pass? {
      ChecksPass(a, pool, k, step, world, model, outcome);
    } else {
      var first := FirstFailure(a, pool, k, step, world, model, outcome);
      ChecksFail(a, pool, k, step, world, model, outcome, first);
      forall j: nat | j < |a.invariants| && FailsFirst(a, pool, k, step, world, model, outcome, j) ensures j == first {
        assert !(j < first) && !(first < j);
      }
    }
  }

  // ----- whole runs -----

  lemma {:induction false} TraceIsAfter<C, K, M>(a: Adapter<C, K, M>, pool: Pool, run: seq<Step<C>>,
                                                    states: seq<(World<K>, M)>, k: nat)
    requires Trace(a, pool, run, states) && k < |states|
    ensures After(a, pool, run, k) == Some(states[k])
  {
    if k > 0 {
      TraceIsAfter(a, pool, run, states, k - 1);
      assert Passes(a, pool, k - 1, run[k - 1], states[k - 1], states[k]);
      PassesIsContinue(a, pool, k - 1, run[k - 1], states[k - 1], states[k]);
    }
  }

  lemma {:induction false} AfterHasTrace<C, K, M>(a: Adapter<C, K, M>, pool: Pool, run: seq<Step<C>>, k: nat)
    returns (states: seq<(World<K>, M)>)
    requires k <= |run| && After(a, pool, run, k).Some?
    ensures Trace(a, pool, run, states) && |states| == k + 1
  {
    if k == 0 {
      states := [a.setup(pool)];
    } else {
      var front := AfterHasTrace(a, pool, run, k - 1);
      TraceIsAfter(a, pool, run, front, k - 1);
      states := front + [After(a, pool, run, k).value];
      PassesIsContinue(a, pool, k - 1, run[k - 1], front[k - 1], states[k]);
      forall i: nat | i + 1 < |states| ensures Passes(a, pool, i, run[i], states[i], states[i + 1]) {
        if i + 1 < |front| {
          assert Passes(a, pool, i, run[i], front[i], front[i + 1]);
        }
      }
    }
  }

  // A run is clean if and only if it has a trace through all its executed steps: at none of them did the
  // command unwind or panic, the shadow model overflow or a registered check not pass.
  lemma CleanIff<C, K, M>(a: Adapter<C, K, M>, pool: Pool, steps: seq<Step<C>>, bound: nat)
    ensures var run := Bounded(steps, bound);
            RunAll(a, pool, steps, bound) == Clean
            <==> exists states :: Trace(a, pool, run, states) && |states| == |run| + 1
  {
    var run := Bounded(steps, bound);
    assert run == Truncated(steps, bound);
    VerdictIsFirstStop(a, pool, steps, bound);
    if RunAll(a, pool, steps, bound) == Clean {
      var states := AfterHasTrace(a, pool, run, |run|);
    }
    forall states | Trace(a, pool, run, states) && |states| == |run| + 1 ensures After(a, pool, run, |run|).Some? {
      TraceIsAfter(a, pool, run, states, |run|);
    }
  }

  // And it ends with a verdict if and only if the step after some trace ends it with that verdict.
  lemma EndIff<C, K, M>(a: Adapter<C, K, M>, pool: Pool, steps: seq<Step<C>>, bound: nat, verdict: Verdict)
    requires verdict != Clean
    ensures var run := Bounded(steps, bound);
            RunAll(a, pool, steps, bound) == verdict
            <==> exists states :: Trace(a, pool, run, states) && |states| <= |run|
                                  && Ends(a, pool, |states| - 1, run[|states| - 1], states[|states| - 1], verdict)
  {
    var run := Bounded(steps, bound);
    if RunAll(a, pool, steps, bound) == verdict {
      var states := EndHasTrace(a, pool, steps, bound);
    }
    forall states | Trace(a, pool, run, states) && |states| <= |run|
                    && Ends(a, pool, |states| - 1, run[|states| - 1], states[|states| - 1], verdict)
      ensures RunAll(a, pool, steps, bound) == verdict
    {
      EndIsVerdict(a, pool, steps, bound, states, verdict);
    }
  }

  lemma EndHasTrace<C, K, M>(a: Adapter<C, K, M>, pool: Pool, steps: seq<Step<C>>, bound: nat)
    returns (states: seq<(World<K>, M)>)
    requires RunAll(a, pool, steps, bound) != Clean
    ensures var run := Bounded(steps, bound);
            && Trace(a, pool, run, states) && |states| <= |run|
            && Ends(a, pool, |states| - 1, run[|states| - 1], states[|states| - 1], RunAll(a, pool, steps, bound))
  {
    var run, verdict := Bounded(steps, bound), RunAll(a, pool, steps, bound);
    assert run == Truncated(steps, bound);
    VerdictIsFirstStop(a, pool, steps, bound);
    var k: nat, v :| k < |run| && StopsAt(a, pool, run, k, v);
    states := AfterHasTrace(a, pool, run, k);
    TraceIsAfter(a, pool, run, states, k);
    EndsIsStop(a, pool, k, run[k], states[k], verdict);
  }

  lemma EndIsVerdict<C, K, M>(a: Adapter<C, K, M>, pool: Pool, steps: seq<Step<C>>, bound: nat,
                              states: seq<(World<K>, M)>, verdict: Verdict)
    requires var run := Bounded(steps, bound);
             && Trace(a, pool, run, states) && |states| <= |run|
             && Ends(a, pool, |states| - 1, run[|states| - 1], states[|states| - 1], verdict)
    ensures RunAll(a, pool, steps, bound) == verdict
  {
    var run, k := Bounded(steps, bound), |states| - 1;
    assert run == Truncated(steps, bound);
    TraceIsAfter(a, pool, run, states, k);
    EndsIsStop(a, pool, k, run[k], states[k], verdict);
    assert StopsAt(a, pool, run, k, verdict);
    VerdictIsFirstStop(a, pool, steps, bound);
  }

  // A command that unwinds or panics at a reached step is the run's verdict.
  lemma PanicIsFound<C, K, M>(a: Adapter<C, K, M>, pool: Pool, steps: seq<Step<C>>, bound: nat,
                              states: seq<(World<K>, M)>, message: string)
    requires var run := Bounded(steps, bound);
             && Trace(a, pool, run, states) && |states| <= |run|
             && Panics(Executed(a, pool, run[|states| - 1], states[|states| - 1].0).1, message)
    ensures RunAll(a, pool, steps, bound) == Found(Violation("no-undeclared-panic", message, |states| - 1))
  {
    EndIsVerdict(a, pool, steps, bound, states, Found(Violation("no-undeclared-panic", message, |states| - 1)));
  }
}
