// The run loop that turns a generated sequence of steps into executions against a contract, updates of
// a shadow model and invariant checks, for any contract: an adapter supplies the pieces as functions.

module Harness {
  import opened Prelude
  import opened AddressPools

  datatype Violation = Violation(invariantName: string, message: string, stepIndex: nat)

  datatype Outcome = Ok | DeclaredError(code: nat) | Rejected(detail: string) | UndeclaredPanic(message: string)

  // What a generated `try_*` client call returns.
  datatype CallResult = Returned | ContractError(code: nat) | Abort

  // An abort can only be blamed on a failed `require_auth` when the step withheld that authorization.
  function FromTryResult(result: CallResult, authSatisfied: bool): Outcome {
    match result
    case Returned => Ok
    case ContractError(code) => DeclaredError(code)
    case Abort => if authSatisfied then UndeclaredPanic("host aborted the call") else Rejected("Abort")
  }

  // `Command::execute` either returns an outcome or unwinds; a payload that is no string has no message.
  datatype Execution = Finished(outcome: Outcome) | Unwound(payload: Option<string>)

  function Caught(execution: Execution): Outcome {
    match execution
    case Finished(outcome) => outcome
    case Unwound(Some(message)) => UndeclaredPanic(message)
    case Unwound(None) => UndeclaredPanic("non-string panic payload")
  }

  datatype Step<C> = Step(command: C, authorized: seq<nat>, advanceTime: Option<nat>)

  // The ledger clock and the contract's storage.
  datatype World<K> = World(time: nat, contract: K)

  datatype InvariantCtx<C, K, M> = InvariantCtx(
    world: World<K>,
    model: M,
    command: C,
    lastOutcome: Outcome,
    authorizers: seq<Address>,
    pool: Pool,
    stepIndex: nat)

  // An invariant holds, is violated, or overflows while it is computed.
  datatype Check = Pass | Fail(violation: Violation) | Overflow

  // How a run ends: no violation, the first violation, or a panic outside `catch_unwind` (arithmetic
  // overflow in the shadow model or in an invariant).
  datatype Verdict = Clean | Found(violation: Violation) | Crashed

  // `apply` is None when unchecked arithmetic on the shadow model overflows.
  datatype Adapter<!C, !K, !M> = Adapter(
    setup: Pool -> (World<K>, M),
    execute: (World<K>, Pool, C, seq<Address>) -> (World<K>, Execution),
    apply: (M, Pool, C, Outcome) -> Option<M>,
    invariants: seq<InvariantCtx<C, K, M> -> Check>)

  // The verdict names an invariant, at step `k`, in a message that begins with the given words.
  predicate Reports(verdict: Verdict, invariantName: string, words: string, k: nat) {
    && verdict.Found? && verdict.violation.invariantName == invariantName
    && words <= verdict.violation.message && verdict.violation.stepIndex == k
  }

  const PANIC_INVARIANT: string := "no-undeclared-panic"

  function Advance<K>(world: World<K>, seconds: Option<nat>): World<K> {
    match seconds
    case None => world
    case Some(s) => World(SaturatingAddU64(world.time, s), world.contract)
  }

  // The checks run in registration order and stop at the first that does not pass.
  function CheckAll<C, K, M>(invariants: seq<InvariantCtx<C, K, M> -> Check>, ctx: InvariantCtx<C, K, M>): Check {
    if invariants == [] then Pass
    else if invariants[0](ctx).Pass? then CheckAll(invariants[1..], ctx)
    else invariants[0](ctx)
  }

  datatype StepResult<K, M> = Continue(world: World<K>, model: M) | Stop(verdict: Verdict)

  function RunStep<C, K, M>(a: Adapter<C, K, M>, pool: Pool, i: nat, step: Step<C>, world: World<K>,
                            model: M): StepResult<K, M>
  {
    var advanced := Advance(world, step.advanceTime);
    var authorizers := Resolved(pool, step.authorized);
    var (world', execution) := a.execute(advanced, pool, step.command, authorizers);
    var outcome := Caught(execution);
    if outcome.UndeclaredPanic? then Stop(Found(Violation(PANIC_INVARIANT, outcome.message, i)))
    else
      match a.apply(model, pool, step.command, outcome)
      case None => Stop(Crashed)
      case Some(model') =>
        match CheckAll(a.invariants, InvariantCtx(world', model', step.command, outcome, authorizers, pool, i))
        case Pass => Continue(world', model')
        case Fail(violation) => Stop(Found(violation))
        case Overflow => Stop(Crashed)
  }

  // The rest of a run, from step `i` on.
  function RunFrom<C, K, M>(a: Adapter<C, K, M>, pool: Pool, steps: seq<Step<C>>, i: nat, world: World<K>,
                            model: M): Verdict
    requires i <= |steps|
    decreases |steps| - i
  {
    if i == |steps| then Clean
    else
      match RunStep(a, pool, i, steps[i], world, model)
      case Continue(world', model') => RunFrom(a, pool, steps, i + 1, world', model')
      case Stop(verdict) => verdict
  }

  function Truncated<C>(steps: seq<Step<C>>, commandsPerRun: nat): seq<Step<C>> {
    if |steps| <= commandsPerRun then steps else steps[..commandsPerRun]
  }

  function RunAll<C, K, M>(a: Adapter<C, K, M>, pool: Pool, steps: seq<Step<C>>, commandsPerRun: nat): Verdict {
    var (world, model) := a.setup(pool);
    RunFrom(a, pool, Truncated(steps, commandsPerRun), 0, world, model)
  }

  class Harness<C, K, M> {
    const adapter: Adapter<C, K, M>
    var commandsPerRun: nat
    var addressPoolSize: nat
    var invariants: seq<InvariantCtx<C, K, M> -> Check>

    constructor (adapter: Adapter<C, K, M>)
      ensures this.adapter == adapter
      ensures commandsPerRun == 32 && addressPoolSize == 4 && invariants == []
    {
      this.adapter := adapter;
      commandsPerRun, addressPoolSize, invariants := 32, 4, [];
    }

    method CommandsPerRun(n: nat)
      modifies this`commandsPerRun
      ensures commandsPerRun == if n == 0 then 1 else n
    {
      commandsPerRun := if n == 0 then 1 else n;
    }

    method AddressPoolSize(n: nat)
      modifies this`addressPoolSize
      ensures addressPoolSize == if n == 0 then 1 else n
    {
      addressPoolSize := if n == 0 then 1 else n;
    }

    method WithInvariant(check: InvariantCtx<C, K, M> -> Check)
      modifies this`invariants
      ensures invariants == old(invariants) + [check]
    {
      invariants := invariants + [check];
    }

    method CheckInvariants(ctx: InvariantCtx<C, K, M>) returns (check: Check)
      ensures check == CheckAll(invariants, ctx)
    {
      var j := 0;
      while j < |invariants|
        invariant 0 <= j <= |invariants|
        invariant CheckAll(invariants[j..], ctx) == CheckAll(invariants, ctx)
      {
        check := invariants[j](ctx);
        assert invariants[j..][1..] == invariants[j + 1..];
        if !check.Pass? {
          return;
        }
        j := j + 1;
      }
      check := Pass;
    }

    // The body of the run loop for one step.
    method TakeStep(pool: Pool, i: nat, step: Step<C>, world: World<K>, model: M) returns (result: StepResult<K, M>)
      ensures result == RunStep(adapter.(invariants := invariants), pool, i, step, world, model)
    {
      var authorizers := Resolve(pool, step.authorized);
      var (world', execution) := adapter.execute(Advance(world, step.advanceTime), pool, step.command, authorizers);
      var outcome := Caught(execution);
      if outcome.UndeclaredPanic? {
        return Stop(Found(Violation(PANIC_INVARIANT, outcome.message, i)));
      }
      var applied := adapter.apply(model, pool, step.command, outcome);
      if applied.None? {
        return Stop(Crashed);
      }
      var check := CheckInvariants(InvariantCtx(world', applied.value, step.command, outcome, authorizers, pool, i));
      if check.Fail? {
        return Stop(Found(check.violation));
      }
      if check.Overflow? {
        return Stop(Crashed);
      }
      return Continue(world', applied.value);
    }

    method Run(steps: seq<Step<C>>) returns (verdict: Verdict)
      ensures verdict == RunAll(adapter.(invariants := invariants), Generate(addressPoolSize), steps, commandsPerRun)
    {
      var truncated := Truncated(steps, commandsPerRun);
      var pool := Generate(addressPoolSize);
      var (world, model) := adapter.setup(pool);
      ghost var a := adapter.(invariants := invariants);
      ghost var whole := RunFrom(a, pool, truncated, 0, world, model);
      var i := 0;
      while i < |truncated|
        invariant 0 <= i <= |truncated|
        invariant RunFrom(a, pool, truncated, i, world, model) == whole
      {
        var result := TakeStep(pool, i, truncated[i], world, model);
        if result.Stop? {
          return result.verdict;
        }
        world, model := result.world, result.model;
        i := i + 1;
      }
      verdict := Clean;
    }
  }

  // ----- outcomes and time -----

  // A returning call is Ok and a contract error is declared with its code; an abort is an undeclared panic
  // exactly if the authorization it could be blamed on was granted.
  lemma OutcomeDecides(result: CallResult, authSatisfied: bool)
    ensures var outcome := FromTryResult(result, authSatisfied);
            && (outcome == Ok <==> result == Returned)
            && (forall code :: outcome == DeclaredError(code) <==> result == ContractError(code))
            && (outcome.UndeclaredPanic? <==> result == Abort && authSatisfied)
            && (outcome.Rejected? <==> result == Abort && !authSatisfied)
  {
  }

  // Time moves by the seconds asked for and stops at the last u64; the contract stands still meanwhile.
  lemma AdvanceDecides<K>(world: World<K>, seconds: Option<nat>)
    ensures var world' := Advance(world, seconds);
            && world'.contract == world.contract
            && (seconds == None ==> world'.time == world.time)
            && forall s :: seconds == Some(s) ==>
                 world'.time == if world.time + s <= 0xFFFF_FFFF_FFFF_FFFF then world.time + s
                                else 0xFFFF_FFFF_FFFF_FFFF
  {
  }

  // ----- the verdict -----

  // The state after the first `k` steps, if none of them stopped the run.
  function After<C, K, M>(a: Adapter<C, K, M>, pool: Pool, steps: seq<Step<C>>, k: nat): Option<(World<K>, M)>
    requires k <= |steps|
  {
    if k == 0 then Some(a.setup(pool))
    else
      match After(a, pool, steps, k - 1)
      case None => None
      case Some((world, model)) =>
        match RunStep(a, pool, k - 1, steps[k - 1], world, model)
        case Continue(world', model') => Some((world', model'))
        case Stop(_) => None
  }

  // Step `k` is reached and stops the run with `verdict`.
  predicate StopsAt<C, K, M>(a: Adapter<C, K, M>, pool: Pool, steps: seq<Step<C>>, k: nat, verdict: Verdict)
    requires k < |steps|
  {
    match After(a, pool, steps, k)
    case None => false
    case Some((world, model)) => RunStep(a, pool, k, steps[k], world, model) == StepResult<K, M>.Stop(verdict)
  }

  // Follows a run to the step that stops it, or to its end.
  lemma {:induction false} FindStop<C, K, M>(a: Adapter<C, K, M>, pool: Pool, steps: seq<Step<C>>, i: nat,
                                             world: World<K>, model: M)
    returns (k: nat)
    requires i <= |steps| && After(a, pool, steps, i) == Some((world, model))
    ensures i <= k <= |steps|
    ensures k == |steps| ==> After(a, pool, steps, |steps|).Some? && RunFrom(a, pool, steps, i, world, model) == Clean
    ensures k < |steps| ==> StopsAt(a, pool, steps, k, RunFrom(a, pool, steps, i, world, model))
    decreases |steps| - i
  {
    k := i;
    if i < |steps| {
      var result := RunStep(a, pool, i, steps[i], world, model);
      if result.Continue? {
        k := FindStop(a, pool, steps, i + 1, result.world, result.model);
      }
    }
  }

  lemma StopIsNotClean<C, K, M>(a: Adapter<C, K, M>, pool: Pool, steps: seq<Step<C>>, k: nat, verdict: Verdict)
    requires k < |steps| && StopsAt(a, pool, steps, k, verdict)
    ensures verdict != Clean && After(a, pool, steps, k + 1).None?
  {
  }

  lemma {:induction false} StoppedStaysStopped<C, K, M>(a: Adapter<C, K, M>, pool: Pool, steps: seq<Step<C>>, i: nat,
                                                        j: nat)
    requires i <= j <= |steps| && After(a, pool, steps, i).None?
    ensures After(a, pool, steps, j).None?
    decreases j
  {
    if i < j {
      StoppedStaysStopped(a, pool, steps, i, j - 1);
    }
  }

  lemma OneStop<C, K, M>(a: Adapter<C, K, M>, pool: Pool, steps: seq<Step<C>>, j: nat, v: Verdict, k: nat, w: Verdict)
    requires j < |steps| && StopsAt(a, pool, steps, j, v)
    requires k < |steps| && StopsAt(a, pool, steps, k, w)
    ensures j == k && v == w
  {
    if j < k {
      StoppedStaysStopped(a, pool, steps, j + 1, k);
    } else if k < j {
      StoppedStaysStopped(a, pool, steps, k + 1, j);
    }
  }

  // A step that stops the run decides the verdict.
  lemma StopIsVerdict<C, K, M>(a: Adapter<C, K, M>, pool: Pool, steps: seq<Step<C>>, k: nat, v: Verdict)
    requires k < |steps| && StopsAt(a, pool, steps, k, v)
    ensures v == RunFrom(a, pool, steps, 0, a.setup(pool).0, a.setup(pool).1) && v != Clean
      && After(a, pool, steps, |steps|).None?
  {
    var (world, model) := a.setup(pool);
    StopIsNotClean(a, pool, steps, k, v);
    StoppedStaysStopped(a, pool, steps, k + 1, |steps|);
    var stop := FindStop(a, pool, steps, 0, world, model);
    OneStop(a, pool, steps, k, v, stop, RunFrom(a, pool, steps, 0, world, model));
  }

  // A run within the bound is clean exactly when no step stops it; otherwise its verdict is that of the
  // one step that does, and every earlier step passed.
  lemma VerdictIsFirstStop<C, K, M>(a: Adapter<C, K, M>, pool: Pool, steps: seq<Step<C>>, bound: nat)
    ensures var run := Truncated(steps, bound);
            var verdict := RunAll(a, pool, steps, bound);
            && (verdict == Clean <==> After(a, pool, run, |run|).Some?)
            && (verdict == Clean <==> forall k: nat, v :: k < |run| ==> !StopsAt(a, pool, run, k, v))
            && (forall k: nat, v ::
                  k < |run| && StopsAt(a, pool, run, k, v) ==>
                    v == verdict && k < bound && After(a, pool, run, k).Some?)
            && (forall j: nat, k: nat, v ::
                  j < |run| && k < |run| && StopsAt(a, pool, run, j, v) && StopsAt(a, pool, run, k, v) ==> j == k)
  {
    var run := Truncated(steps, bound);
    var (world, model) := a.setup(pool);
    var stop := FindStop(a, pool, run, 0, world, model);
    if stop < |run| {
      StopIsVerdict(a, pool, run, stop, RunAll(a, pool, steps, bound));
    }
    forall k: nat, v | k < |run| && StopsAt(a, pool, run, k, v)
      ensures v == RunAll(a, pool, steps, bound) && stop < |run| && After(a, pool, run, k).Some?
    {
      StopIsVerdict(a, pool, run, k, v);
    }
    forall j: nat, k: nat, v
      | j < |run| && k < |run| && StopsAt(a, pool, run, j, v) && StopsAt(a, pool, run, k, v)
      ensures j == k
    {
      OneStop(a, pool, run, j, v, k, v);
    }
  }

  // Within a step, the reported check is the first registered one that does not pass.
  lemma {:induction false} CheckAllIsFirstFailure<C, K, M>(invariants: seq<InvariantCtx<C, K, M> -> Check>,
                                                           ctx: InvariantCtx<C, K, M>)
    ensures var result := CheckAll(invariants, ctx);
            if forall i :: 0 <= i < |invariants| ==> invariants[i](ctx).Pass? then result == Pass
            else exists i :: 0 <= i < |invariants| && result == invariants[i](ctx) && !result.Pass?
                             && forall j :: 0 <= j < i ==> invariants[j](ctx).Pass?
  {
    if invariants != [] && invariants[0](ctx).Pass? {
      var rest := invariants[1..];
      CheckAllIsFirstFailure(rest, ctx);
      if !(forall i :: 0 <= i < |rest| ==> rest[i](ctx).Pass?) {
        var i :| 0 <= i < |rest| && CheckAll(rest, ctx) == rest[i](ctx) && !CheckAll(rest, ctx).Pass?
                 && forall j :: 0 <= j < i ==> rest[j](ctx).Pass?;
        assert invariants[i + 1] == rest[i];
        forall j | 0 <= j < i + 1 ensures invariants[j](ctx).Pass? {
          assert j > 0 ==> invariants[j] == rest[j - 1];
        }
      }
    }
  }

  // A run that stops is unchanged by whatever follows and by a larger bound.
  lemma StopIsUnchangedByContinuation<C, K, M>(a: Adapter<C, K, M>, pool: Pool, steps: seq<Step<C>>,
                                               more: seq<Step<C>>, bound: nat, larger: nat)
    requires RunAll(a, pool, steps, bound) != Clean && bound <= larger
    ensures RunAll(a, pool, steps + more, larger) == RunAll(a, pool, steps, bound)
  {
    var (world, model) := a.setup(pool);
    var run, longer := Truncated(steps, bound), Truncated(steps + more, larger);
    assert |run| <= |longer| && run == longer[..|run|];
    PrefixStops(a, pool, run, longer, 0, world, model);
  }

  lemma {:induction false} PrefixStops<C, K, M>(a: Adapter<C, K, M>, pool: Pool, run: seq<Step<C>>,
                                                longer: seq<Step<C>>, i: nat, world: World<K>, model: M)
    requires |run| <= |longer| && run == longer[..|run|] && i <= |run|
    requires RunFrom(a, pool, run, i, world, model) != Clean
    ensures RunFrom(a, pool, longer, i, world, model) == RunFrom(a, pool, run, i, world, model)
    decreases |run| - i
  {
    if i < |run| {
      assert longer[i] == run[i];
      match RunStep(a, pool, i, run[i], world, model)
      case Continue(world', model') => PrefixStops(a, pool, run, longer, i + 1, world', model');
      case Stop(_) =>
    }
  }

  // ----- induction along a run -----

  // Every step that passes from a state satisfying `inv` leads to one that does.
  ghost predicate StepsKeep<C, K(!new), M(!new)>(a: Adapter<C, K, M>, pool: Pool, steps: seq<Step<C>>,
                                                 inv: (World<K>, M) -> bool)
  {
    forall i: nat, world, model ::
      i < |steps| && inv(world, model) && RunStep(a, pool, i, steps[i], world, model).Continue? ==>
        inv(RunStep(a, pool, i, steps[i], world, model).world, RunStep(a, pool, i, steps[i], world, model).model)
  }

  lemma {:induction false} InvariantBetween<C, K(!new), M(!new)>(a: Adapter<C, K, M>, pool: Pool, steps: seq<Step<C>>,
                                                                 inv: (World<K>, M) -> bool, i: nat, k: nat)
    requires i <= k <= |steps| && After(a, pool, steps, i).Some? && StepsKeep(a, pool, steps, inv)
    requires inv(After(a, pool, steps, i).value.0, After(a, pool, steps, i).value.1)
    ensures After(a, pool, steps, k).Some? ==> inv(After(a, pool, steps, k).value.0, After(a, pool, steps, k).value.1)
    decreases k
  {
    if k > i {
      InvariantBetween(a, pool, steps, inv, i, k - 1);
    }
  }

  lemma InvariantAlong<C, K(!new), M(!new)>(a: Adapter<C, K, M>, pool: Pool, steps: seq<Step<C>>,
                                            inv: (World<K>, M) -> bool, k: nat)
    requires inv(a.setup(pool).0, a.setup(pool).1) && StepsKeep(a, pool, steps, inv) && k <= |steps|
    ensures After(a, pool, steps, k).Some? ==> inv(After(a, pool, steps, k).value.0, After(a, pool, steps, k).value.1)
  {
    InvariantBetween(a, pool, steps, inv, 0, k);
  }

  // The sum of `f` over the first `k` steps, each taken in the state it starts from.
  function SumAlong<C, K, M>(a: Adapter<C, K, M>, pool: Pool, steps: seq<Step<C>>, k: nat,
                             f: (Step<C>, World<K>, M) -> int): int
    requires k <= |steps| && After(a, pool, steps, k).Some?
  {
    if k == 0 then 0
    else
      var (world, model) := After(a, pool, steps, k - 1).value;
      SumAlong(a, pool, steps, k - 1, f) + f(steps[k - 1], world, model)
  }

  // `g` changes by `f` at every step that passes from a state satisfying `inv`.
  ghost predicate StepsAdd<C, K(!new), M(!new)>(a: Adapter<C, K, M>, pool: Pool, steps: seq<Step<C>>,
                                                inv: (World<K>, M) -> bool,
                                                g: (World<K>, M) -> int, f: (Step<C>, World<K>, M) -> int)
  {
    forall i: nat, world, model ::
      i < |steps| && inv(world, model) && RunStep(a, pool, i, steps[i], world, model).Continue? ==>
        g(RunStep(a, pool, i, steps[i], world, model).world, RunStep(a, pool, i, steps[i], world, model).model)
        == g(world, model) + f(steps[i], world, model)
  }

  lemma {:induction false} Telescopes<C, K(!new), M(!new)>(a: Adapter<C, K, M>, pool: Pool, steps: seq<Step<C>>,
                                                           inv: (World<K>, M) -> bool, g: (World<K>, M) -> int,
                                                           f: (Step<C>, World<K>, M) -> int, k: nat)
    requires inv(a.setup(pool).0, a.setup(pool).1) && StepsKeep(a, pool, steps, inv)
      && StepsAdd(a, pool, steps, inv, g, f)
    requires k <= |steps| && After(a, pool, steps, k).Some?
    ensures var (world, model) := After(a, pool, steps, k).value;
            g(world, model) == g(a.setup(pool).0, a.setup(pool).1) + SumAlong(a, pool, steps, k, f)
    decreases k
  {
    if k > 0 {
      Telescopes(a, pool, steps, inv, g, f, k - 1);
      InvariantAlong(a, pool, steps, inv, k - 1);
    }
  }

  // `f` is zero at step `i`, if that is reached.
  predicate ZeroAt<C, K, M>(a: Adapter<C, K, M>, pool: Pool, steps: seq<Step<C>>, f: (Step<C>, World<K>, M) -> int,
                            i: nat)
  {
    i < |steps| ==>
      match After(a, pool, steps, i)
      case None => true
      case Some((world, model)) => f(steps[i], world, model) == 0
  }

  lemma {:induction false} SumOfZeros<C, K, M>(a: Adapter<C, K, M>, pool: Pool, steps: seq<Step<C>>, k: nat,
                                               f: (Step<C>, World<K>, M) -> int)
    requires k <= |steps| && After(a, pool, steps, k).Some?
    requires forall i: nat :: i < k ==> ZeroAt(a, pool, steps, f, i)
    ensures SumAlong(a, pool, steps, k, f) == 0
    decreases k
  {
    if k > 0 {
      SumOfZeros(a, pool, steps, k - 1, f);
      assert ZeroAt(a, pool, steps, f, k - 1);
    }
  }

  // `f` is not negative at step `i`, if that is reached.
  predicate NotNegativeAt<C, K, M>(a: Adapter<C, K, M>, pool: Pool, steps: seq<Step<C>>,
                                   f: (Step<C>, World<K>, M) -> int, i: nat)
  {
    i < |steps| ==>
      match After(a, pool, steps, i)
      case None => true
      case Some((world, model)) => f(steps[i], world, model) >= 0
  }

  // A sum of terms that are not negative is zero exactly when each of them is.
  lemma {:induction false} SumIsZeroIff<C, K, M>(a: Adapter<C, K, M>, pool: Pool, steps: seq<Step<C>>, k: nat,
                                                 f: (Step<C>, World<K>, M) -> int)
    requires k <= |steps| && After(a, pool, steps, k).Some?
    requires forall i: nat :: i < k ==> NotNegativeAt(a, pool, steps, f, i)
    ensures SumAlong(a, pool, steps, k, f) >= 0
    ensures SumAlong(a, pool, steps, k, f) == 0 <==> forall i: nat :: i < k ==> ZeroAt(a, pool, steps, f, i)
    decreases k
  {
    if k > 0 {
      SumIsZeroIff(a, pool, steps, k - 1, f);
      assert NotNegativeAt(a, pool, steps, f, k - 1);
      assert ZeroAt(a, pool, steps, f, k - 1) <==> SumAlong(a, pool, steps, k, f) == SumAlong(a, pool, steps, k - 1, f);
    }
  }
}
