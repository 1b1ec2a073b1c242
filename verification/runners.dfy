/**
 * One test case through one language runner: the JSON decoding of the test's data,
 * the per-language dispatch, the classification of the compile and run steps,
 * and the comparison of the program's output with the expected value.
 *
 * Processes are not run: every subprocess call is replaced by the outcome it
 * reported (a `Process`), and `json.loads`, `str()` and the text of a decoding
 * error are the parameters bundled in `Py`.
 */
module Runners {
  import opened Wrappers
  import opened Text
  import opened PyJson
  import CodeModels
  type Language = CodeModels.Language
  type TestCase = CodeModels.TestCase
  import JavaClassName

  /** What the compiler invocation reported. */
  datatype CompileStep =
    | Compiled
    | CompileFailed(stderr: string)
    | CompileTimedOut
    | CompileCrashed(message: string)

  /** What the program invocation reported; `elapsedMs` is `int((end - start) * 1000)`. */
  datatype RunStep =
    | Exited(returnCode: int, stdout: string, stderr: string, elapsedMs: nat)
    | RunTimedOut
    | RunCrashed(message: string)

  /** The outcomes of the subprocesses one test case would start. */
  datatype Process = Process(compile: CompileStep, run: RunStep)

  /** A subprocess the runner starts. */
  datatype Invocation = CompilerInvoked | ProgramInvoked

  /** The Python built-ins the runners call but this model does not define. */
  datatype Py = Py(
    loads: string -> Option<Json>,
    str: Json -> string,
    decodeErrorText: string -> string)

  /** The `error_type` values a runner or the judge loop writes. */
  datatype ErrorType = RuntimeError | CompileError | TimeLimitExceeded | MemoryLimitExceeded | SystemError
  {
    function AsStatus(): CodeModels.Status
    {
      match this
      case RuntimeError => CodeModels.Status.RuntimeError
      case CompileError => CodeModels.Status.CompileError
      case TimeLimitExceeded => CodeModels.Status.TimeLimitExceeded
      case MemoryLimitExceeded => CodeModels.Status.MemoryLimitExceeded
      case SystemError => CodeModels.Status.SystemError
    }
  }

  /** The recorded `output`: the decoded value, or the stripped text when decoding failed. */
  datatype Output = Decoded(value: Json) | PlainText(text: string)

  /** One entry of `test_case_results`; an absent dict key is `None`. */
  datatype TestResult = TestResult(
    testCaseId: Json,
    passed: bool,
    error: Option<string>,
    errorType: Option<ErrorType>,
    output: Option<Output>,
    expectedOutput: Option<Json>,
    runtime: Option<int>,
    memory: Option<int>)
  {
    /** A failure that ends the judge loop. */
    predicate Halts()
    {
      !passed && (errorType == Some(RuntimeError) || errorType == Some(CompileError))
    }
  }

  /** A runner's verdict before the test-case id is attached. */
  datatype Classified =
    | Failed(errorType: ErrorType, message: string, runtime: Option<int>)
    | Finished(passed: bool, output: Output, runtimeMs: nat)

  const TimeoutMessage := "执行超时"
  const NoClassNameMessage := "无法找到 Java 类名"
  const UnsupportedPrefix := "不支持的语言: "

  /** Decode stdout as JSON and compare with `==`; failing that, compare the stripped text with `str(expected)`. */
  function CompareOutput(py: Py, stdout: string, expected: Json): (Output, bool)
  {
    match py.loads(stdout)
    case Some(v) => (Decoded(v), PyEq(v, expected))
    case None => (PlainText(Strip(stdout)), Strip(stdout) == py.str(expected))
  }

  /** A program that prints the expected value as JSON passes, whatever the key order or numeric spelling. */
  lemma CompareOutputRoundTrip(py: Py, stdout: string, expected: Json, printed: Json)
    requires py.loads(stdout) == Some(printed)
    requires PyEq(printed, expected) || printed == expected
    ensures CompareOutput(py, stdout, expected) == (Decoded(printed), true)
  {
    if printed == expected {
      PyEqReflexive(expected);
    }
  }

  /**
   * When stdout is not JSON, only its stripped text matters: surrounding
   * whitespace never changes the verdict, and the text of `str(expected)` passes.
   */
  lemma CompareOutputPlainText(py: Py, stdout: string, expected: Json)
    requires py.loads(stdout).None?
    ensures CompareOutput(py, stdout, expected).1 <==> Strip(stdout) == py.str(expected)
    ensures forall pad: string | AllSpace(pad) && py.loads(pad + stdout + pad).None? ::
      CompareOutput(py, pad + stdout + pad, expected).1 == CompareOutput(py, stdout, expected).1
  {
    forall pad: string | AllSpace(pad) && py.loads(pad + stdout + pad).None?
      ensures Strip(pad + stdout + pad) == Strip(stdout)
    {
      StripIgnoresPadding(pad, stdout);
    }
  }

  /** The program step shared by every runner. */
  function ClassifyRun(py: Py, run: RunStep, expected: Json, timeLimit: int): Classified
  {
    match run
    case RunTimedOut => Failed(TimeLimitExceeded, TimeoutMessage, Some(timeLimit))
    case RunCrashed(m) => Failed(SystemError, m, None)
    case Exited(code, stdout, stderr, ms) =>
      if code != 0 then Failed(RuntimeError, stderr, Some(ms))
      else
        var (out, passed) := CompareOutput(py, stdout, expected);
        Finished(passed, out, ms)
  }

  /** A compiled runner: the compiler first, the program only after a successful build. */
  function ClassifyCompiled(py: Py, p: Process, expected: Json, timeLimit: int): (Classified, seq<Invocation>)
  {
    match p.compile
    case CompileTimedOut => (Failed(TimeLimitExceeded, TimeoutMessage, Some(timeLimit)), [CompilerInvoked])
    case CompileCrashed(m) => (Failed(SystemError, m, None), [CompilerInvoked])
    case CompileFailed(stderr) => (Failed(CompileError, stderr, None), [CompilerInvoked])
    case Compiled => (ClassifyRun(py, p.run, expected, timeLimit), [CompilerInvoked, ProgramInvoked])
  }

  /** `_run_<language>` without the test-case id. */
  function RunLanguage(py: Py, language: Language, code: string, p: Process, expected: Json, timeLimit: int)
    : (Classified, seq<Invocation>)
  {
    match language
    case Python => (ClassifyRun(py, p.run, expected, timeLimit), [ProgramInvoked])
    case JavaScript => (ClassifyRun(py, p.run, expected, timeLimit), [ProgramInvoked])
    case Java =>
      if JavaClassName.ExtractClassName(code).None? then (Failed(CompileError, NoClassNameMessage, None), [])
      else ClassifyCompiled(py, p, expected, timeLimit)
    case Cpp => ClassifyCompiled(py, p, expected, timeLimit)
    case Go => ClassifyCompiled(py, p, expected, timeLimit)
    case Rust => ClassifyCompiled(py, p, expected, timeLimit)
  }

  /** The source node runs: the submission between a leading newline and the stdin/stdout harness. */
  const JsHarnessSuffix :=
    "\n\nconst input = require('fs').readFileSync(0, 'utf-8');\nconst inputData = JSON.parse(input);\nconsole.log(JSON.stringify(solution(inputData)));\n"

  function JsHarness(code: string): (full: string)
    ensures |full| == |code| + 1 + |JsHarnessSuffix|
  {
    "\n" + code + JsHarnessSuffix
  }

  /** The harness keeps the submission verbatim, so different submissions give different scripts. */
  lemma JsHarnessEmbedsCode(code: string, other: string)
    ensures JsHarness(code)[1..1 + |code|] == code
    ensures JsHarness(code)[1 + |code|..] == JsHarnessSuffix
    ensures JsHarness(code) == JsHarness(other) ==> code == other
  {
    if JsHarness(code) == JsHarness(other) {
      assert |code| == |other|;
      assert JsHarness(code)[1..1 + |code|] == JsHarness(other)[1..1 + |other|];
    }
  }

  /** `input_data.get('id', 0)`, which raises `AttributeError` unless the input decoded to a dict. */
  function InputId(input: Json): Result<Json, string>
  {
    match input
    case JObj(m) => Ok(if "id" in m then m["id"] else JInt(0))
    case _ => Err("'" + input.TypeName() + "' object has no attribute 'get'")
  }

  /** The runner's returned dict, or the exception escaping it. */
  function AttachId(input: Json, c: Classified, expected: Json): Result<TestResult, string>
  {
    match InputId(input)
    case Err(e) => Err(e)
    case Ok(id) =>
      match c
      case Failed(et, msg, rt) => Ok(TestResult(id, false, Some(msg), Some(et), None, None, rt, None))
      case Finished(passed, out, ms) => Ok(TestResult(id, passed, None, None, Some(out), Some(expected), Some(ms), Some(0)))
  }

  /** What `_run_test_case` did: its result or escaping exception, and the subprocesses it started. */
  datatype Attempt = Attempt(outcome: Result<TestResult, string>, invoked: seq<Invocation>)

  /** `_run_test_case`. */
  function RunTestCase(py: Py, code: string, language: string, tc: TestCase, timeLimit: int, p: Process): Attempt
  {
    match py.loads(tc.inputData)
    case None => Attempt(Err(py.decodeErrorText(tc.inputData)), [])
    case Some(input) =>
      match py.loads(tc.expectedOutput)
      case None => Attempt(Err(py.decodeErrorText(tc.expectedOutput)), [])
      case Some(expected) =>
        match CodeModels.ParseLanguage(language)
        case None =>
          Attempt(Ok(TestResult(JInt(tc.id), false, Some(UnsupportedPrefix + language), Some(CompileError),
                                None, None, None, None)), [])
        case Some(l) =>
          var (c, invoked) := RunLanguage(py, l, code, p, expected, timeLimit);
          Attempt(AttachId(input, c, expected), invoked)
  }

  /** The test's input and expected output both decode, and the input is a dict. */
  predicate WellFormed(py: Py, tc: TestCase)
  {
    && py.loads(tc.inputData).Some?
    && py.loads(tc.expectedOutput).Some?
    && py.loads(tc.inputData).value.JObj?
  }

  /**
   * A timeout of the compile or the run step is `time_limit_exceeded` with the time
   * limit as runtime; a non-zero exit is `runtime_error` carrying stderr and no output;
   * any other exception is `system_error` carrying its message.
   */
  lemma FailureClassification(py: Py, code: string, l: Language, tc: TestCase, timeLimit: int, p: Process)
    requires WellFormed(py, tc)
    requires !l.Java? || JavaClassName.ExtractClassName(code).Some?
    ensures var a := RunTestCase(py, code, l.Id(), tc, timeLimit, p);
      && a.outcome.Ok?
      && ((l.IsCompiled() && p.compile == CompileTimedOut) || ((!l.IsCompiled() || p.compile == Compiled) && p.run == RunTimedOut)
          ==> a.outcome.value.errorType == Some(TimeLimitExceeded) && a.outcome.value.runtime == Some(timeLimit) && !a.outcome.value.passed)
      && ((!l.IsCompiled() || p.compile == Compiled) && p.run.Exited? && p.run.returnCode != 0
          ==> a.outcome.value == TestResult(InputId(py.loads(tc.inputData).value).value, false, Some(p.run.stderr),
                                            Some(RuntimeError), None, None, Some(p.run.elapsedMs), None))
      && ((l.IsCompiled() && p.compile.CompileCrashed?) || ((!l.IsCompiled() || p.compile == Compiled) && p.run.RunCrashed?)
          ==> a.outcome.value.errorType == Some(SystemError) && !a.outcome.value.passed)
  {
    assert CodeModels.ParseLanguage(l.Id()) == Some(l);
  }

  /**
   * Classification order of a compiled runner: a failed build is `compile_error`
   * with the compiler's stderr and the program is never started; Java source without
   * `public class` is `compile_error` before any process starts.
   */
  lemma CompileGate(py: Py, code: string, l: Language, tc: TestCase, timeLimit: int, p: Process)
    requires WellFormed(py, tc) && l.IsCompiled()
    ensures var a := RunTestCase(py, code, l.Id(), tc, timeLimit, p);
      && (l.Java? && JavaClassName.ExtractClassName(code).None? ==>
            a.invoked == [] && a.outcome.Ok? && a.outcome.value.errorType == Some(CompileError)
            && a.outcome.value.error == Some(NoClassNameMessage))
      && ((!l.Java? || JavaClassName.ExtractClassName(code).Some?) ==>
            && |a.invoked| > 0 && a.invoked[0] == CompilerInvoked
            && (ProgramInvoked in a.invoked <==> p.compile == Compiled)
            && (p.compile.CompileFailed? ==>
                  a.outcome.Ok? && a.outcome.value.errorType == Some(CompileError)
                  && a.outcome.value.error == Some(p.compile.stderr)))
  {
    assert CodeModels.ParseLanguage(l.Id()) == Some(l);
  }

  /** An interpreted runner starts exactly one process and never reports `compile_error`. */
  lemma InterpretedRunsOnce(py: Py, code: string, l: Language, tc: TestCase, timeLimit: int, p: Process)
    requires WellFormed(py, tc) && !l.IsCompiled()
    ensures var a := RunTestCase(py, code, l.Id(), tc, timeLimit, p);
      && a.invoked == [ProgramInvoked]
      && a.outcome.Ok? && a.outcome.value.errorType != Some(CompileError)
  {
    assert CodeModels.ParseLanguage(l.Id()) == Some(l);
  }

  /** Only a clean exit is compared with the expected output, and only then can a test pass. */
  lemma PassedNeedsCleanExit(py: Py, code: string, language: string, tc: TestCase, timeLimit: int, p: Process)
    requires RunTestCase(py, code, language, tc, timeLimit, p).outcome.Ok?
    requires RunTestCase(py, code, language, tc, timeLimit, p).outcome.value.passed
    ensures p.run.Exited? && p.run.returnCode == 0
    ensures var r := RunTestCase(py, code, language, tc, timeLimit, p).outcome.value;
      && r.errorType.None? && r.memory == Some(0) && r.runtime == Some(p.run.elapsedMs)
      && r.output == Some(CompareOutput(py, p.run.stdout, py.loads(tc.expectedOutput).value).0)
  {
  }

  /** No runner measures memory: an entry reports 0 or nothing, and never `memory_limit_exceeded`. */
  lemma MemoryNotMeasured(py: Py, code: string, language: string, tc: TestCase, timeLimit: int, p: Process)
    ensures var a := RunTestCase(py, code, language, tc, timeLimit, p);
      a.outcome.Ok? ==> a.outcome.value.memory.GetOr(0) == 0 && a.outcome.value.errorType != Some(MemoryLimitExceeded)
  {
  }

  /**
   * A language outside the six choices is `compile_error` carrying the language and the
   * test's own id, without starting a process; a malformed test or a non-dict input raises.
   */
  lemma DispatchErrors(py: Py, code: string, language: string, tc: TestCase, timeLimit: int, p: Process)
    ensures var a := RunTestCase(py, code, language, tc, timeLimit, p);
      && (py.loads(tc.inputData).None? || py.loads(tc.expectedOutput).None? ==> a.outcome.Err? && a.invoked == [])
      && (py.loads(tc.inputData).Some? && py.loads(tc.expectedOutput).Some? && CodeModels.ParseLanguage(language).None? ==>
            && a.invoked == []
            && a.outcome == Ok(TestResult(JInt(tc.id), false, Some(UnsupportedPrefix + language),
                                          Some(CompileError), None, None, None, None)))
      && ((py.loads(tc.inputData).Some? && !py.loads(tc.inputData).value.JObj?
           && py.loads(tc.expectedOutput).Some? && CodeModels.ParseLanguage(language).Some?)
          ==> a.outcome.Err?)
  {
  }
}
