/**
 * The code-question data model: supported languages, submission statuses, the
 * defaults a fresh question, test case and submission start with, and the
 * `(order, id)` ordering that fixes the sequence in which test cases are judged.
 */
module CodeModels {
  import opened Wrappers
  import opened PyJson

  /** `LANGUAGE_CHOICES`. */
  datatype Language = Python | Java | JavaScript | Cpp | Go | Rust
  {
    /** The stored choice value. */
    function Id(): string
    {
      match this
      case Python => "python"
      case Java => "java"
      case JavaScript => "javascript"
      case Cpp => "cpp"
      case Go => "go"
      case Rust => "rust"
    }

    /** The human-readable choice label. */
    function Label(): string
    {
      match this
      case Python => "Python"
      case Java => "Java"
      case JavaScript => "JavaScript"
      case Cpp => "C++"
      case Go => "Go"
      case Rust => "Rust"
    }

    /** Languages built into an executable before every run. */
    predicate IsCompiled()
    {
      Java? || Cpp? || Go? || Rust?
    }
  }

  /** The choices in declaration order. */
  const Languages: seq<Language> := [Python, Java, JavaScript, Cpp, Go, Rust]

  const DefaultLanguage: Language := Python

  /** The language a stored string names, if it names one. */
  function ParseLanguage(s: string): (r: Option<Language>)
    ensures r.Some? ==> r.value.Id() == s
    ensures r.None? ==> forall l: Language :: l.Id() != s
  {
    if s == "python" then Some(Python)
    else if s == "java" then Some(Java)
    else if s == "javascript" then Some(JavaScript)
    else if s == "cpp" then Some(Cpp)
    else if s == "go" then Some(Go)
    else if s == "rust" then Some(Rust)
    else None
  }

  /** The supported languages are exactly the six choices, each named once. */
  lemma LanguageChoices()
    ensures |Languages| == 6
    ensures forall l: Language :: l in Languages
    ensures forall i, j | 0 <= i < j < |Languages| :: Languages[i].Id() != Languages[j].Id()
    ensures forall l: Language :: ParseLanguage(l.Id()) == Some(l)
    ensures DefaultLanguage.Id() == "python"
  {
    forall l: Language ensures l in Languages {
      match l
      case Python => assert Languages[0] == l;
      case Java => assert Languages[1] == l;
      case JavaScript => assert Languages[2] == l;
      case Cpp => assert Languages[3] == l;
      case Go => assert Languages[4] == l;
      case Rust => assert Languages[5] == l;
    }
  }

  /** `STATUS_CHOICES`. */
  datatype Status =
    | Pending | Running
    | Accepted | WrongAnswer | TimeLimitExceeded | MemoryLimitExceeded
    | RuntimeError | CompileError | SystemError
  {
    function Id(): string
    {
      match this
      case Pending => "pending"
      case Running => "running"
      case Accepted => "accepted"
      case WrongAnswer => "wrong_answer"
      case TimeLimitExceeded => "time_limit_exceeded"
      case MemoryLimitExceeded => "memory_limit_exceeded"
      case RuntimeError => "runtime_error"
      case CompileError => "compile_error"
      case SystemError => "system_error"
    }

    /** An outcome of judging rather than a stage before it. */
    predicate IsOutcome()
    {
      !(Pending? || Running?)
    }
  }

  const Statuses: seq<Status> :=
    [Pending, Running, Accepted, WrongAnswer, TimeLimitExceeded, MemoryLimitExceeded,
     RuntimeError, CompileError, SystemError]

  /** Nine statuses: the two stages before judging and seven outcomes. */
  lemma StatusChoices()
    ensures |Statuses| == 9
    ensures forall s: Status :: s in Statuses
    ensures forall i, j | 0 <= i < j < |Statuses| :: Statuses[i].Id() != Statuses[j].Id()
    ensures forall s: Status :: s.IsOutcome() <==> s in Statuses[2..]
    ensures |Statuses[2..]| == 7
  {
    forall s: Status ensures s in Statuses {
      match s
      case Pending => assert Statuses[0] == s;
      case Running => assert Statuses[1] == s;
      case Accepted => assert Statuses[2] == s;
      case WrongAnswer => assert Statuses[3] == s;
      case TimeLimitExceeded => assert Statuses[4] == s;
      case MemoryLimitExceeded => assert Statuses[5] == s;
      case RuntimeError => assert Statuses[6] == s;
      case CompileError => assert Statuses[7] == s;
      case SystemError => assert Statuses[8] == s;
    }
  }

  /** A `CodeQuestion` row, without its relations and timestamps. */
  datatype CodeQuestion = CodeQuestion(
    language: string,
    templateCode: string,
    starterCode: string,
    functionSignature: string,
    timeLimit: int,
    memoryLimit: int,
    isPublic: bool)

  /** A question created with only its required fields set. */
  function NewCodeQuestion(templateCode: string, functionSignature: string): (q: CodeQuestion)
    ensures ParseLanguage(q.language) == Some(DefaultLanguage)
    ensures q.timeLimit == 1000 && q.memoryLimit == 256
    ensures q.isPublic && q.starterCode == ""
    ensures q.templateCode == templateCode && q.functionSignature == functionSignature
  {
    CodeQuestion(DefaultLanguage.Id(), templateCode, "", functionSignature, 1000, 256, true)
  }

  /** A `TestCase` row: input and expected output are JSON text. */
  datatype TestCase = TestCase(
    id: int,
    inputData: string,
    expectedOutput: string,
    isHidden: bool,
    isSample: bool,
    order: int)

  function NewTestCase(id: int, inputData: string, expectedOutput: string): (t: TestCase)
    ensures !t.isHidden && !t.isSample && t.order == 0
    ensures t.id == id && t.inputData == inputData && t.expectedOutput == expectedOutput
  {
    TestCase(id, inputData, expectedOutput, false, false, 0)
  }

  /** `Meta.ordering = ['order', 'id']`: `a` may come before `b`. */
  predicate JudgedNoLater(a: TestCase, b: TestCase)
  {
    a.order < b.order || (a.order == b.order && a.id <= b.id)
  }

  predicate SortedForJudging(ts: seq<TestCase>)
  {
    forall i, j | 0 <= i < j < |ts| :: JudgedNoLater(ts[i], ts[j])
  }

  /** Test-case ids are primary keys: no two rows share one. */
  predicate DistinctIds(ts: seq<TestCase>)
  {
    forall i, j | 0 <= i < j < |ts| :: ts[i].id != ts[j].id
  }

  /** Places `t` in front of the first element it is judged before. */
  function Insert(t: TestCase, ts: seq<TestCase>): (r: seq<TestCase>)
    requires SortedForJudging(ts)
    ensures SortedForJudging(r)
    ensures multiset(r) == multiset(ts) + multiset{t}
  {
    if |ts| == 0 then [t]
    else if JudgedNoLater(t, ts[0]) then [t] + ts
    else
      var rest := Insert(t, ts[1..]);
      assert multiset(ts) == multiset{ts[0]} + multiset(ts[1..]) by {
        assert ts == [ts[0]] + ts[1..];
      }
      assert forall x | x in multiset(rest) :: JudgedNoLater(ts[0], x);
      [ts[0]] + rest
  }

  /** The queryset order of a question's test cases. */
  function OrderForJudging(ts: seq<TestCase>): (r: seq<TestCase>)
    ensures SortedForJudging(r)
    ensures multiset(r) == multiset(ts)
  {
    if |ts| == 0 then []
    else
      assert ts == [ts[0]] + ts[1..];
      Insert(ts[0], OrderForJudging(ts[1..]))
  }

  /** With distinct ids, `(order, id)` leaves exactly one possible judging sequence. */
  lemma {:induction false} JudgingOrderIsDetermined(a: seq<TestCase>, b: seq<TestCase>)
    requires SortedForJudging(a) && SortedForJudging(b)
    requires multiset(a) == multiset(b)
    requires DistinctIds(a)
    ensures a == b
    decreases |a|
  {
    assert |a| == |multiset(a)| == |b|;
    if |a| > 0 {
      HeadsAgree(a, b);
      assert a == [a[0]] + a[1..] && b == [b[0]] + b[1..];
      assert multiset(a) == multiset{a[0]} + multiset(a[1..]);
      assert multiset(b) == multiset{b[0]} + multiset(b[1..]);
      assert multiset(a[1..]) == multiset(a) - multiset{a[0]};
      assert multiset(b[1..]) == multiset(b) - multiset{b[0]};
      JudgingOrderIsDetermined(a[1..], b[1..]);
    }
  }

  lemma HeadsAgree(a: seq<TestCase>, b: seq<TestCase>)
    requires SortedForJudging(a) && SortedForJudging(b)
    requires multiset(a) == multiset(b)
    requires DistinctIds(a)
    requires |a| > 0 && |b| > 0
    ensures a[0] == b[0]
  {
    assert a[0] in multiset(a);
    assert b[0] in multiset(b);
    var j :| 0 <= j < |b| && b[j] == a[0];
    var i :| 0 <= i < |a| && a[i] == b[0];
    assert JudgedNoLater(b[0], a[0]) by {
      if j > 0 { assert JudgedNoLater(b[0], b[j]); }
    }
  }

  /** A `CodeSubmission` row, without its relations and timestamp. */
  datatype CodeSubmission = CodeSubmission(
    code: string,
    language: string,
    status: Status,
    runtime: Option<int>,
    memory: Option<int>,
    passedTestCases: int,
    totalTestCases: int,
    errorMessage: string,
    testCaseResults: Json)

  /** A submission no judge has touched: nothing measured, nothing passed. */
  predicate Untouched(s: CodeSubmission)
  {
    && !s.status.IsOutcome()
    && s.runtime.None? && s.memory.None?
    && 0 == s.passedTestCases <= s.totalTestCases
  }

  /** A submission created with only its code and language given. */
  function NewSubmission(code: string, language: string): (s: CodeSubmission)
    ensures Untouched(s) && s.status == Pending
    ensures s.totalTestCases == 0 && s.errorMessage == ""
    ensures s.testCaseResults == JObj(map[])
    ensures s.code == code && s.language == language
  {
    CodeSubmission(code, language, Pending, None, None, 0, 0, "", JObj(map[]))
  }
}
