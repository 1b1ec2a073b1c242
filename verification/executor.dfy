/**
 * `CodeExecutor.execute`: runs the test cases in the given order, accumulates
 * the results, the passed count, the summed runtime and the maximum memory,
 * stops after a failed `runtime_error` or `compile_error`, and folds the results
 * into one status.
 *
 * `Trace` is the reference definition of which tests are attempted and what each
 * yields; `Execute` is the accumulating loop, proved to agree with it.
 */
module Executor {
  import opened Wrappers
  import opened PyJson
  import opened Runners
  import CodeModels

  type TestCase = CodeModels.TestCase
  type Status = CodeModels.Status

  /** The dict the loop's `except` appends when `_run_test_case` raises. */
  function SystemErrorResult(tc: TestCase, message: string): TestResult
  {
    TestResult(JInt(tc.id), false, Some(message), Some(SystemError), None, None, None, None)
  }

  /** One attempted test: the entry appended for it and the subprocesses it started. */
  datatype Step = Step(result: TestResult, invoked: seq<Invocation>)

  function StepAt(py: Py, code: string, language: string, tests: seq<TestCase>, timeLimit: int,
                  procs: nat -> Process, i: nat): Step
    requires i < |tests|
  {
    var a := RunTestCase(py, code, language, tests[i], timeLimit, procs(i));
    match a.outcome
    case Ok(r) => Step(r, a.invoked)
    case Err(m) => Step(SystemErrorResult(tests[i], m), a.invoked)
  }

  /** What every test would yield if the loop never stopped. */
  function AllSteps(py: Py, code: string, language: string, tests: seq<TestCase>, timeLimit: int,
                    procs: nat -> Process): (all: seq<Step>)
    ensures |all| == |tests|
  {
    seq(|tests|, i requires 0 <= i < |tests| => StepAt(py, code, language, tests, timeLimit, procs, i))
  }

  /** The steps actually taken from position `i` on: each in turn, up to and including the first that halts. */
  function Taken(all: seq<Step>, i: nat): seq<Step>
    requires i <= |all|
    decreases |all| - i
  {
    if i == |all| then []
    else if all[i].result.Halts() then [all[i]]
    else [all[i]] + Taken(all, i + 1)
  }

  /** The reference definition of a judging run. */
  function Trace(py: Py, code: string, language: string, tests: seq<TestCase>, timeLimit: int,
                 procs: nat -> Process): seq<Step>
  {
    Taken(AllSteps(py, code, language, tests, timeLimit, procs), 0)
  }

  function Results(steps: seq<Step>): (rs: seq<TestResult>)
    ensures |rs| == |steps|
    ensures forall k | 0 <= k < |steps| :: rs[k] == steps[k].result
  {
    seq(|steps|, k requires 0 <= k < |steps| => steps[k].result)
  }

  /** Every subprocess started, in order. */
  function Invocations(steps: seq<Step>): seq<Invocation>
  {
    if |steps| == 0 then [] else Invocations(steps[..|steps| - 1]) + steps[|steps| - 1].invoked
  }

  function CountPassed(rs: seq<TestResult>): nat
  {
    if |rs| == 0 then 0
    else CountPassed(rs[..|rs| - 1]) + (if rs[|rs| - 1].passed then 1 else 0)
  }

  /** Sum of `result.get('runtime', 0)`. */
  function TotalRuntime(rs: seq<TestResult>): int
  {
    if |rs| == 0 then 0 else TotalRuntime(rs[..|rs| - 1]) + rs[|rs| - 1].runtime.GetOr(0)
  }

  /** `max` of `result.get('memory', 0)`, starting from 0. */
  function MaxMemory(rs: seq<TestResult>): (m: int)
    ensures m >= 0
  {
    if |rs| == 0 then 0
    else
      var prev := MaxMemory(rs[..|rs| - 1]);
      var cur := rs[|rs| - 1].memory.GetOr(0);
      if cur > prev then cur else prev
  }

  predicate HasErrorType(rs: seq<TestResult>, et: ErrorType)
  {
    exists k | 0 <= k < |rs| :: rs[k].errorType == Some(et)
  }

  /** The status chain: all passed, then TLE, MLE, runtime error, compile error, else wrong answer. */
  function OverallStatus(passed: nat, total: nat, rs: seq<TestResult>): Status
  {
    if passed == total then CodeModels.Accepted
    else if HasErrorType(rs, TimeLimitExceeded) then CodeModels.TimeLimitExceeded
    else if HasErrorType(rs, MemoryLimitExceeded) then CodeModels.MemoryLimitExceeded
    else if HasErrorType(rs, RuntimeError) then CodeModels.RuntimeError
    else if HasErrorType(rs, CompileError) then CodeModels.CompileError
    else CodeModels.WrongAnswer
  }

  /** The dict `execute` returns, plus the subprocesses it started. */
  datatype Execution = Execution(
    status: Status,
    passedTestCases: nat,
    totalTestCases: nat,
    runtime: int,
    memory: int,
    testCaseResults: seq<TestResult>,
    invoked: seq<Invocation>)

  /** `execute`; `procs(i)` is what the subprocesses of the `i`-th test reported. */
  method Execute(py: Py, code: string, language: string, tests: seq<TestCase>, timeLimit: int,
                 memoryLimit: int, procs: nat -> Process) returns (e: Execution)
    ensures e.testCaseResults == Results(Trace(py, code, language, tests, timeLimit, procs))
    ensures e.invoked == Invocations(Trace(py, code, language, tests, timeLimit, procs))
    ensures e.passedTestCases == CountPassed(e.testCaseResults)
    ensures e.runtime == TotalRuntime(e.testCaseResults)
    ensures e.memory == MaxMemory(e.testCaseResults)
    ensures e.totalTestCases == |tests|
    ensures e.status == OverallStatus(e.passedTestCases, |tests|, e.testCaseResults)
    ensures e.passedTestCases <= |e.testCaseResults| <= e.totalTestCases
  {
    ghost var all := AllSteps(py, code, language, tests, timeLimit, procs);
    var results, passedCount, totalRuntime, maxMemory, invoked :=
      JudgeLoop(all, |tests|, (i: nat) requires i < |tests| => StepAt(py, code, language, tests, timeLimit, procs, i));
    TakenShape(all, 0);
    CountPassedBound(results);
    e := Execution(OverallStatus(passedCount, |tests|, results), passedCount, |tests|,
                   totalRuntime, maxMemory, results, invoked);
  }

  /**
   * The `for` loop of `execute`, with its accumulators: `judge(i)` judges the `i`-th
   * test, which `all[i]` records.
   */
  method JudgeLoop(ghost all: seq<Step>, n: nat, judge: nat --> Step)
    returns (results: seq<TestResult>, passedCount: nat, totalRuntime: int, maxMemory: int, invoked: seq<Invocation>)
    requires n == |all|
    requires forall i | 0 <= i < n :: judge.requires(i) && judge(i) == all[i]
    ensures results == Results(Taken(all, 0))
    ensures invoked == Invocations(Taken(all, 0))
    ensures passedCount == CountPassed(results)
    ensures totalRuntime == TotalRuntime(results)
    ensures maxMemory == MaxMemory(results)
  {
    results, passedCount, totalRuntime, maxMemory, invoked := [], 0, 0, 0, [];
    ghost var steps: seq<Step> := [];
    var i := 0;
    while i < n
      invariant 0 <= i <= n
      invariant steps + Taken(all, i) == Taken(all, 0)
      invariant results == Results(steps)
      invariant invoked == Invocations(steps)
      invariant passedCount == CountPassed(results)
      invariant totalRuntime == TotalRuntime(results)
      invariant maxMemory == MaxMemory(results)
    {
      var step := judge(i);
      TakenStep(all, steps, i);
      var result := step.result;
      var mem := result.memory.GetOr(0);
      ghost var before := results;
      results := results + [result];
      invoked := invoked + step.invoked;
      AppendStep(steps, step);
      steps := steps + [step];
      if result.passed {
        passedCount := passedCount + 1;
      }
      totalRuntime := totalRuntime + result.runtime.GetOr(0);
      maxMemory := if mem > maxMemory then mem else maxMemory;
      Accumulate(before, result, results);
      if result.Halts() {
        break;
      }
      i := i + 1;
    }
    assert steps == Taken(all, 0);
  }

  /** Appending one step appends its entry and its subprocesses. */
  lemma AppendStep(steps: seq<Step>, s: Step)
    ensures Results(steps + [s]) == Results(steps) + [s.result]
    ensures Invocations(steps + [s]) == Invocations(steps) + s.invoked
  {
    assert (steps + [s])[..|steps|] == steps;
  }

  /** Appending one entry extends every accumulator by that entry's contribution. */
  lemma Accumulate(rs: seq<TestResult>, r: TestResult, extended: seq<TestResult>)
    requires extended == rs + [r]
    ensures CountPassed(extended) == CountPassed(rs) + (if r.passed then 1 else 0)
    ensures TotalRuntime(extended) == TotalRuntime(rs) + r.runtime.GetOr(0)
    ensures MaxMemory(extended)
         == (var m := r.memory.GetOr(0); if m > MaxMemory(rs) then m else MaxMemory(rs))
  {
    assert extended[..|rs|] == rs;
  }

  /** One more step of the loop keeps the prefix invariant, or completes the trace when it halts. */
  lemma TakenStep(all: seq<Step>, steps: seq<Step>, i: nat)
    requires i < |all|
    requires steps + Taken(all, i) == Taken(all, 0)
    ensures all[i].result.Halts() ==> steps + [all[i]] == Taken(all, 0)
    ensures !all[i].result.Halts() ==> (steps + [all[i]]) + Taken(all, i + 1) == Taken(all, 0)
  {
    if !all[i].result.Halts() {
      assert Taken(all, i) == [all[i]] + Taken(all, i + 1);
      assert steps + ([all[i]] + Taken(all, i + 1)) == (steps + [all[i]]) + Taken(all, i + 1);
    }
  }

  lemma {:induction false} CountPassedBound(rs: seq<TestResult>)
    ensures CountPassed(rs) <= |rs|
    ensures CountPassed(rs) == |rs| <==> forall k | 0 <= k < |rs| :: rs[k].passed
    decreases |rs|
  {
    if |rs| > 0 {
      var init := rs[..|rs| - 1];
      CountPassedBound(init);
      assert forall k | 0 <= k < |init| :: init[k] == rs[k];
    }
  }

  /**
   * Exactly one entry per attempted test, in input order; at most as many as there
   * are tests and at least one when there is a test; only the last can halt, and the
   * loop stops before the end only because the last one did.
   */
  lemma {:induction false} TakenShape(all: seq<Step>, i: nat)
    requires i <= |all|
    ensures var t := Taken(all, i);
      && |t| <= |all| - i
      && (i < |all| ==> |t| >= 1)
      && (forall k | 0 <= k < |t| :: t[k] == all[i + k])
      && (forall k | 0 <= k < |t| - 1 :: !t[k].result.Halts())
      && (|t| < |all| - i ==> t[|t| - 1].result.Halts())
    decreases |all| - i
  {
    if i < |all| && !all[i].result.Halts() {
      TakenShape(all, i + 1);
      var t := Taken(all, i);
      var rest := Taken(all, i + 1);
      assert t == [all[i]] + rest;
      forall k | 1 <= k < |t|
        ensures t[k] == all[i + k]
      {
        assert t[k] == rest[k - 1];
      }
    }
  }

  /**
   * `execute` judges the tests in the order given, one entry each; every entry but the
   * last lets judging go on, and judging ends before the last test only because the
   * last entry halted it.
   */
  lemma TraceShape(py: Py, code: string, language: string, tests: seq<TestCase>, timeLimit: int,
                   procs: nat -> Process)
    ensures var t := Trace(py, code, language, tests, timeLimit, procs);
      && |t| <= |tests|
      && (|tests| > 0 ==> |t| >= 1)
      && (forall k | 0 <= k < |t| :: t[k] == StepAt(py, code, language, tests, timeLimit, procs, k))
      && (forall k | 0 <= k < |t| - 1 :: !t[k].result.Halts())
      && (|t| < |tests| ==> t[|t| - 1].result.Halts())
  {
    var all := AllSteps(py, code, language, tests, timeLimit, procs);
    TakenShape(all, 0);
    var t := Taken(all, 0);
    forall k | 0 <= k < |t|
      ensures t[k] == StepAt(py, code, language, tests, timeLimit, procs, k)
    {
      assert t[k] == all[0 + k];
    }
  }

  /** A timed-out test never ends judging: the test after it is judged too. */
  lemma TimeoutDoesNotStop(py: Py, code: string, language: string, tests: seq<TestCase>, timeLimit: int,
                           procs: nat -> Process, k: nat)
    requires var t := Trace(py, code, language, tests, timeLimit, procs);
      k < |t| && k + 1 < |tests| && t[k].result.errorType == Some(TimeLimitExceeded)
    ensures k + 1 < |Trace(py, code, language, tests, timeLimit, procs)|
  {
    TraceShape(py, code, language, tests, timeLimit, procs);
  }

  /** No runner measures memory: every entry reports 0 or nothing, so the maximum stays 0 and no entry is `memory_limit_exceeded`. */
  lemma MemoryNeverMeasured(py: Py, code: string, language: string, tests: seq<TestCase>, timeLimit: int,
                            procs: nat -> Process)
    ensures var rs := Results(Trace(py, code, language, tests, timeLimit, procs));
      MaxMemory(rs) == 0 && !HasErrorType(rs, MemoryLimitExceeded)
  {
    var t := Trace(py, code, language, tests, timeLimit, procs);
    TraceShape(py, code, language, tests, timeLimit, procs);
    var rs := Results(t);
    forall k | 0 <= k < |rs|
      ensures rs[k].memory.GetOr(0) == 0 && rs[k].errorType != Some(MemoryLimitExceeded)
    {
      assert rs[k] == StepAt(py, code, language, tests, timeLimit, procs, k).result;
      MemoryNotMeasured(py, code, language, tests[k], timeLimit, procs(k));
    }
    MaxMemoryZero(rs);
  }

  lemma {:induction false} MaxMemoryZero(rs: seq<TestResult>)
    requires forall k | 0 <= k < |rs| :: rs[k].memory.GetOr(0) == 0
    ensures MaxMemory(rs) == 0
    decreases |rs|
  {
    if |rs| > 0 {
      var init := rs[..|rs| - 1];
      assert forall k | 0 <= k < |init| :: init[k] == rs[k];
      MaxMemoryZero(init);
    }
  }

  /**
   * The status chain: `accepted` exactly when every test was judged and passed;
   * otherwise the first of time limit, memory limit, runtime error and compile error
   * that some entry carries, else `wrong_answer`. It is never `system_error`, even
   * when every entry is one.
   */
  lemma StatusLaws(rs: seq<TestResult>, total: nat)
    requires |rs| <= total
    ensures var st := OverallStatus(CountPassed(rs), total, rs);
      && (st == CodeModels.Accepted <==> |rs| == total && forall k | 0 <= k < |rs| :: rs[k].passed)
      && st.IsOutcome() && st != CodeModels.SystemError
      && (st != CodeModels.Accepted && st != CodeModels.WrongAnswer ==>
            exists k | 0 <= k < |rs| :: rs[k].errorType.Some? && rs[k].errorType.value.AsStatus() == st)
      && (st != CodeModels.Accepted && HasErrorType(rs, TimeLimitExceeded) ==> st == CodeModels.TimeLimitExceeded)
      && (st == CodeModels.WrongAnswer ==>
            forall k | 0 <= k < |rs| :: rs[k].errorType.None? || rs[k].errorType == Some(SystemError))
  {
    CountPassedBound(rs);
    var st := OverallStatus(CountPassed(rs), total, rs);
    if st == CodeModels.WrongAnswer {
      forall k | 0 <= k < |rs|
        ensures rs[k].errorType.None? || rs[k].errorType == Some(SystemError)
      {
        if rs[k].errorType.Some? {
          assert rs[k].errorType.value == SystemError;
        }
      }
    }
  }

  /** With no test cases the run is accepted with nothing judged. */
  lemma NoTestsAccepted(py: Py, code: string, language: string, timeLimit: int, procs: nat -> Process)
    ensures Trace(py, code, language, [], timeLimit, procs) == []
    ensures OverallStatus(CountPassed([]), 0, []) == CodeModels.Accepted
  {
  }

  /**
   * A first test that ends in `compile_error` (an unbuildable submission, Java source
   * without `public class`, an unknown language) is the only one judged, and the
   * status is `compile_error` whenever there is a test.
   */
  lemma CompileErrorStopsAtFirstTest(py: Py, code: string, language: string, tests: seq<TestCase>, timeLimit: int,
                                     procs: nat -> Process)
    requires |tests| > 0
    requires StepAt(py, code, language, tests, timeLimit, procs, 0).result.errorType == Some(CompileError)
    ensures var rs := Results(Trace(py, code, language, tests, timeLimit, procs));
      && rs == [StepAt(py, code, language, tests, timeLimit, procs, 0).result]
      && OverallStatus(CountPassed(rs), |tests|, rs) == CodeModels.CompileError
  {
    var first := StepAt(py, code, language, tests, timeLimit, procs, 0);
    assert !first.result.passed by {
      if first.result.passed {
        var a := RunTestCase(py, code, language, tests[0], timeLimit, procs(0));
        assert a.outcome.Ok? && a.outcome.value == first.result;
        PassedNeedsCleanExit(py, code, language, tests[0], timeLimit, procs(0));
      }
    }
    TraceShape(py, code, language, tests, timeLimit, procs);
    var rs := Results(Trace(py, code, language, tests, timeLimit, procs));
    assert rs == [first.result];
    assert HasErrorType(rs, CompileError);
    assert !HasErrorType(rs, TimeLimitExceeded);
    assert CountPassed(rs) == 0 by {
      assert rs[..0] == [];
    }
  }

  /** Compiler invocations in a list of started processes. */
  function Compilations(inv: seq<Invocation>): (n: nat)
    ensures n <= |inv|
  {
    if |inv| == 0 then 0 else Compilations(inv[..|inv| - 1]) + (if inv[|inv| - 1] == CompilerInvoked then 1 else 0)
  }

  lemma {:induction false} CompilationsAppend(a: seq<Invocation>, b: seq<Invocation>)
    ensures Compilations(a + b) == Compilations(a) + Compilations(b)
    decreases |b|
  {
    if |b| > 0 {
      var b' := b[..|b| - 1];
      assert (a + b)[..|a + b| - 1] == a + b';
      CompilationsAppend(a, b');
    } else {
      assert a + b == a;
    }
  }

  /** A compiled language rebuilds the submission for every judged test: one compiler run per entry. */
  lemma RecompilesPerTest(py: Py, code: string, l: CodeModels.Language, tests: seq<TestCase>, timeLimit: int,
                          procs: nat -> Process)
    requires l.IsCompiled() && (!l.Java? || JavaClassName.ExtractClassName(code).Some?)
    requires forall k | 0 <= k < |tests| :: WellFormed(py, tests[k])
    ensures var t := Trace(py, code, l.Id(), tests, timeLimit, procs);
      Compilations(Invocations(t)) == |t|
  {
    var t := Trace(py, code, l.Id(), tests, timeLimit, procs);
    TraceShape(py, code, l.Id(), tests, timeLimit, procs);
    forall k | 0 <= k < |t|
      ensures Compilations(t[k].invoked) == 1
    {
      assert CodeModels.ParseLanguage(l.Id()) == Some(l);
      assert WellFormed(py, tests[k]);
      var inv := t[k].invoked;
      assert inv == [CompilerInvoked] || inv == [CompilerInvoked, ProgramInvoked];
      assert [CompilerInvoked, ProgramInvoked][..1] == [CompilerInvoked];
    }
    CompilationsPerStep(t);
  }

  lemma {:induction false} CompilationsPerStep(steps: seq<Step>)
    requires forall k | 0 <= k < |steps| :: Compilations(steps[k].invoked) == 1
    ensures Compilations(Invocations(steps)) == |steps|
    decreases |steps|
  {
    if |steps| > 0 {
      var init := steps[..|steps| - 1];
      assert forall k | 0 <= k < |init| :: init[k] == steps[k];
      CompilationsPerStep(init);
      CompilationsAppend(Invocations(init), steps[|steps| - 1].invoked);
    }
  }
}
