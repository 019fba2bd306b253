// From a harness verdict to the server's finding: a fuzz target panics with the violation its harness
// returns, and the server parses the log that panic ends up in.

module FuzzTargets {
  import opened Prelude
  import opened AddressPools
  import opened Harness
  import opened Invariants
  import opened FuzzerOutput
  import opened Utf8
  import TokenHarness
  import TokenSafety
  import Counter

  // `Harness::new()` leaves runs at 32 commands over a pool of 4 addresses.
  const COMMANDS_PER_RUN: nat := 32
  const POOL_SIZE: nat := 4

  function TokenTarget(show: Address -> string, steps: seq<TokenSafety.TokenStep>): Verdict {
    RunAll(TokenHarness.TokenAdapter(show), Generate(POOL_SIZE), steps, COMMANDS_PER_RUN)
  }

  function CounterTarget(bump: int, steps: seq<Counter.CounterStep>): Verdict {
    RunAll(Counter.CounterAdapter(bump), Generate(POOL_SIZE), steps, COMMANDS_PER_RUN)
  }

  // A violation with a plain name and a message that begins with plain words is recorded as it was
  // returned, in any log that does not say "invariant `" earlier.
  lemma {:induction false} ReportIsRecorded(verdict: Verdict, name: string, words: string, k: nat, prefix: string,
                                            suffix: string, exitCode: int)
    requires Reports(verdict, name, words, k) && k <= I32_MAX
    requires name != [] && '`' !in name && words != [] && words[0] != '\n'
    requires !Mentions(prefix, VIOLATION_RE.opening) && exitCode != 0
    ensures ParsedFinding(InLog(prefix, verdict.violation, suffix), Some(exitCode), false)
            == Some(ParsedViolation(name, k, Trim(FirstLine(verdict.violation.message))))
  {
    var message := verdict.violation.message;
    assert message[0] == words[0];
    assert RunEnd(message, 0, NotNewline) > 0;
    CrashedRunFinding(prefix, verdict.violation, suffix, Some(exitCode), false);
  }

  // The token target panics exactly when a step of the run overdraws, and the server then records a
  // negative balance at that step.
  lemma TokenFindingIsRecorded(show: Address -> string, steps: seq<TokenSafety.TokenStep>, prefix: string,
                               suffix: string, exitCode: int, k: nat)
    requires k < |Truncated(steps, COMMANDS_PER_RUN)|
    requires TokenSafety.OverdrawsAt(show, Generate(POOL_SIZE), Truncated(steps, COMMANDS_PER_RUN), k)
    requires !Mentions(prefix, VIOLATION_RE.opening) && exitCode != 0
    ensures var verdict := TokenTarget(show, steps);
            && verdict.Found?
            && ParsedFinding(InLog(prefix, verdict.violation, suffix), Some(exitCode), false)
               == Some(ParsedViolation(NO_NEGATIVE_BALANCE, k, Trim(FirstLine(verdict.violation.message))))
  {
    TokenSafety.TokenVerdict(show, Generate(POOL_SIZE), steps, COMMANDS_PER_RUN);
    ReportIsRecorded(TokenTarget(show, steps), NO_NEGATIVE_BALANCE, BALANCE_OF, k, prefix, suffix, exitCode);
  }

  // The counter target never panics.
  lemma CounterTargetIsSilent(steps: seq<Counter.CounterStep>)
    ensures CounterTarget(1, steps) == Clean
  {
    Counter.CorrectCounterIsClean(Generate(POOL_SIZE), steps, COMMANDS_PER_RUN);
  }

  // No target fuzzes the broken counter, which only exists as a test. One that did, built like the counter
  // target, would have its mismatch recorded at the diverging step.
  lemma CounterFindingIsRecorded(steps: seq<Counter.CounterStep>, prefix: string, suffix: string, exitCode: int, k: nat)
    requires k < |Truncated(steps, COMMANDS_PER_RUN)|
    requires Counter.DivergesAt(2, Generate(POOL_SIZE), Truncated(steps, COMMANDS_PER_RUN), k)
    requires !Mentions(prefix, VIOLATION_RE.opening) && exitCode != 0
    ensures var verdict := CounterTarget(2, steps);
            && verdict.Found?
            && ParsedFinding(InLog(prefix, verdict.violation, suffix), Some(exitCode), false)
               == Some(ParsedViolation(Counter.VALUE_MATCHES_MODEL, k, Trim(FirstLine(verdict.violation.message))))
  {
    Counter.CounterVerdict(2, Generate(POOL_SIZE), steps, COMMANDS_PER_RUN);
    ReportIsRecorded(CounterTarget(2, steps), Counter.VALUE_MATCHES_MODEL, Counter.ON_CHAIN_COUNT, k, prefix, suffix,
                     exitCode);
  }
}
