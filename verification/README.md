# Interview system core: code judge, answer scoring and model rules, in Dafny

This project models the core of an interview-practice back end (Python and Django).
It proves properties of that model.

- **Code judge.** `CodeExecutor` takes a submission, its language and the question's
  test cases. It runs each test in a per-language runner: Python, Java, JavaScript,
  C++, Go or Rust. A failed build or a failed run ends judging early. The per-test
  results are folded into one submission status.
- **Code-question data model.** Six languages, nine submission statuses, and the
  field defaults. Test cases are ordered `(order, id)`, which fixes the order they
  are judged in.
- **Answer scoring.** Two helpers shared by all strategies: `preprocess` and
  `normalize_score`. The LLM strategy: input validation, the grading prompt,
  parsing the score out of the model's reply, and the error-to-zero handling. The
  strategy factory: registry, per-name instance cache, and the scoring context.
- **Record-keeping models.**
  - Soft delete: a delete only flags the row.
  - Token blacklist: revoked JWT ids, plus cleanup of expired ones.
  - Wrong-question book: a user's wrongly answered questions.
  - Audit-log save hook.
- **Importer difficulty mapping.** Chinese difficulty labels become the numbers 1–3.

Modules, one per source component:

| module | file | models |
|---|---|---|
| `Wrappers`, `Db` | wrappers.dfy, db.dfy | `Option`/`Result`, and the database errors and timestamps |
| `Text` | text.dfy | `str.isspace`, `\w`, `\d`, `strip`, `split()`, `' '.join`, `lower`, `in` |
| `PyJson` | json.dfy | decoded JSON values and Python's `==` on them |
| `CodeModels` | code_models.dfy | `CodeQuestion`, `TestCase`, `CodeSubmission` |
| `JavaClassName` | java_class_name.dfy | `_extract_java_class_name` |
| `Runners` | runners.dfy | `_run_test_case` and the six `_run_<language>` runners |
| `Executor` | executor.dfy | `execute` |
| `Scoring`, `LlmScoring`, `ScoringFactory` | scoring.dfy, llm_scoring.dfy, scoring_factory.dfy | the scoring package |
| `SoftDelete`, `TokenBlacklist`, `WrongQuestions`, `AuditLog` | soft_delete.dfy, token_blacklist.dfy, wrong_questions.dfy, audit_log.dfy | the models of the same names |
| `Difficulty` | difficulty.dfy | `get_difficulty_value` |

How the model is built:

- **Subprocesses are oracles.** Every `subprocess.run` is replaced by the outcome it
  reported (a `Runners.Process`). The judge takes one such outcome per test
  position.
- **Python built-ins are parameters.** `json.loads`, `str()` and the text of a
  JSON decoding error are passed in as the `Runners.Py` record.
- **The HTTP call is an oracle.** The LLM request is the function
  `api: string -> ApiReply`.
- **Timestamps are parameters.** `timezone.now()` and the values `auto_now` writes
  are explicit `now` arguments.
- **Reference definitions.** The judge loop is a `while` loop with accumulators
  (`Executor.JudgeLoop`). It is proved equal to a recursive reference definition
  of which tests are attempted (`Executor.Trace`).
- **Lemmas for the source's promises.** Each operation has a lemma relating it to
  an inverse, an invariant or a declarative reading: round trips, idempotence,
  order, "nothing else changes", and the error paths.

### Behaviour of the judge

- **Status chain.** It checks time limit, then memory limit, runtime error and
  compile error. It never yields `system_error`: a run whose every entry is a
  system error is `wrong_answer`.
- **`system_error` entries do not stop judging.** Only failed `runtime_error` and
  `compile_error` entries do.
- **Memory is never measured.** Every successful entry reports memory 0, so
  `memory_limit_exceeded` never occurs.
- **Timeouts do not stop judging.** A timed-out test is followed by the next test.
- **Tests pass through the runners.** Only a clean exit (code 0) is compared with
  the expected output.

## Model

| member | source | states |
|---|---|---|
| Executor.Execute | backend/code_questions/services.py:19-94 | the returned results are exactly the entries of the tests attempted, in order; passed count, summed runtime and max memory are the folds of those entries; total is the number of tests; status is the chain over them; passed <= judged <= total |
| Executor.JudgeLoop | backend/code_questions/services.py:43-69 | the accumulating `for` loop produces the entries, started processes and the three accumulators of the reference trace: each test in turn, up to and including the first failed runtime/compile error |
| Executor.TraceShape | backend/code_questions/services.py:48-61 | tests are judged in the order given, one entry each; at least one when there is a test; only the last entry can halt judging, and judging ends early only because it did |
| Executor.TakenShape | backend/code_questions/services.py:48-61 | the halting prefix of a step list: contiguous from the start, at most the remaining length, only its last element halts, shorter only when that one halts |
| Executor.TimeoutDoesNotStop | backend/code_questions/services.py:59-61 | an entry with `time_limit_exceeded` is never the last judged when a test follows it |
| Executor.MemoryNeverMeasured | backend/code_questions/services.py:57 | the reported maximum memory is always 0 and no entry is `memory_limit_exceeded` |
| Executor.StatusLaws | backend/code_questions/services.py:71-85 | `accepted` iff every test was judged and passed; otherwise the first error type of the chain present among the entries; time limit wins over everything else; never `system_error`; `wrong_answer` only when no entry carries a non-system error type |
| Executor.NoTestsAccepted | backend/code_questions/services.py:72-73 | with no test cases nothing is judged and the status is `accepted` |
| Executor.CompileErrorStopsAtFirstTest | backend/code_questions/services.py:59-61 | a first test ending in `compile_error` is the only one judged and the status is `compile_error` |
| Executor.RecompilesPerTest | backend/code_questions/services.py:233-246 | for a compiled language the compiler is started once per judged test |
| Executor.CountPassedBound | backend/code_questions/services.py:53-54 | the passed count never exceeds the entries, and equals it iff every entry passed |
| Executor.MaxMemoryZero | backend/code_questions/services.py:57 | the running `max` starting from 0 over entries reporting 0 is 0 |
| Executor.Accumulate | backend/code_questions/services.py:53-57 | one more entry adds its pass to the count, its runtime to the sum and raises the maximum to its memory |
| Executor.CompilationsPerStep | backend/code_questions/services.py:233-246 | one compiler run in every step makes as many compiler runs as steps |
| Executor.CompilationsAppend | backend/code_questions/services.py:233-246 | compiler runs of two process lists add up |
| Runners.CompareOutputRoundTrip | backend/code_questions/services.py:173-178 | a program printing a JSON value Python-equal to the expected one passes, whatever its key order or numeric spelling |
| Runners.CompareOutputPlainText | backend/code_questions/services.py:173-178 | non-JSON output passes iff its stripped text is `str(expected)`; whitespace around it never changes the verdict |
| Runners.FailureClassification | backend/code_questions/services.py:164-203 | timeouts of the build or the run are `time_limit_exceeded` with the time limit as runtime; a non-zero exit is `runtime_error` with stderr and the elapsed time; any other exception is `system_error` |
| Runners.CompileGate | backend/code_questions/services.py:218-246 | Java without `public class` is `compile_error` before any process; otherwise the compiler runs first, the program runs iff the build succeeded, and a failed build is `compile_error` with the compiler's stderr |
| Runners.InterpretedRunsOnce | backend/code_questions/services.py:129-203 | Python and JavaScript start exactly one process and never report `compile_error` |
| Runners.PassedNeedsCleanExit | backend/code_questions/services.py:164-187 | a passed entry comes only from exit code 0, carries no error type, memory 0, the measured runtime and the compared output |
| Runners.MemoryNotMeasured | backend/code_questions/services.py:180-187 | an entry reports memory 0 or none and never `memory_limit_exceeded` |
| Runners.DispatchErrors | backend/code_questions/services.py:96-127 | undecodable test data raises before any process; an unknown language is `compile_error` with the language named and the test's own id; a non-dict input raises |
| Runners.JsHarnessEmbedsCode | backend/code_questions/services.py:317-323 | the node script holds the submission verbatim after one newline and before the fixed stdin/stdout harness, so different submissions give different scripts |
| JavaClassName.ExtractClassNameSpec | backend/code_questions/services.py:655-663 | `None` iff no offset has the shape `public\s+class\s+(\w+)`; otherwise the maximal word run at the leftmost offset that has it |
| JavaClassName.SearchFromLeftmost | backend/code_questions/services.py:655-663 | the search reports the first matching offset at or after its start, or that none matches |
| JavaClassName.MatchAtSound | backend/code_questions/services.py:657-660 | what matches at one offset has the pattern's shape there |
| JavaClassName.MatchAtComplete | backend/code_questions/services.py:657-660 | every shape at an offset is found by the matcher there |
| JavaClassName.SpaceRunSpec | backend/code_questions/services.py:657 | the `\s+` run is all whitespace and maximal |
| JavaClassName.WordRunSpec | backend/code_questions/services.py:657 | the `(\w+)` run is all word characters and maximal |
| JavaClassName.ExtractClassNameFindsHeader | backend/code_questions/services.py:655-663 | `public class Main {` yields `Main` |
| JavaClassName.ExtractClassNameNeedsPublic | backend/code_questions/services.py:655-663 | source without `public` yields no class name |
| PyJson.PyEqReflexive | backend/code_questions/services.py:175 | Python `==` on decoded JSON is reflexive |
| PyJson.PyEqSymmetric | backend/code_questions/services.py:175 | and symmetric |
| PyJson.PyEqTransitive | backend/code_questions/services.py:175 | and transitive |
| PyJson.PyEqExamples | backend/code_questions/services.py:175 | `True == 1`, `1 == 1.0`, lists compare in order, strings never equal numbers, `None` equals only `None` |
| PyJson.DictEqIgnoresOrder | backend/code_questions/services.py:175 | dicts equal entry by entry are equal whatever order their keys arrived in |
| CodeModels.ParseLanguage | backend/code_questions/models.py:10-17 | a stored string names a language iff it is that language's choice value |
| CodeModels.LanguageChoices | backend/code_questions/models.py:10-28 | exactly six languages with distinct values, each parsed back to itself; the default is `python` |
| CodeModels.StatusChoices | backend/code_questions/models.py:107-117 | nine statuses with distinct values: two before judging and seven outcomes |
| CodeModels.NewCodeQuestion | backend/code_questions/models.py:24-51 | a fresh question is Python, 1000 ms, 256 MB, public, with empty starter code |
| CodeModels.NewTestCase | backend/code_questions/models.py:79-90 | a fresh test case is neither hidden nor a sample and has order 0 |
| CodeModels.NewSubmission | backend/code_questions/models.py:129-162 | a fresh submission is pending, unmeasured, with nothing passed, no error and an empty result dict |
| CodeModels.OrderForJudging | backend/code_questions/models.py:97 | the queryset order is sorted by `(order, id)` and a permutation of the test cases |
| CodeModels.Insert | backend/code_questions/models.py:97 | inserting into a sorted list keeps it sorted and adds exactly that element |
| CodeModels.JudgingOrderIsDetermined | backend/code_questions/models.py:97 | with distinct ids, two sorted permutations of the same test cases are equal: the judging order is unique |
| CodeModels.HeadsAgree | backend/code_questions/models.py:97 | two such orders start with the same test case |
| Scoring.FilterFixpoint | backend/scoring/strategies.py:72 | the regex deletion leaves text unchanged iff every character is kept by the class |
| Scoring.FilterAppend | backend/scoring/strategies.py:72 | the deletion distributes over concatenation |
| Scoring.Preprocess | backend/scoring/strategies.py:61-74 | the result has single spaces between words, none at the ends, only word characters and spaces, and no capitals |
| Scoring.PreprocessIdempotent | backend/scoring/strategies.py:61-74 | preprocessing a preprocessed text changes nothing |
| Scoring.PreprocessWords | backend/scoring/strategies.py:72-74 | the result's words are the filtered text's words, lower-cased, none lost, merged or reordered |
| Scoring.SplitWords | backend/scoring/strategies.py:72-73 | every word of kept text is a non-empty run of word characters |
| Scoring.JoinWords | backend/scoring/strategies.py:73 | joining word tokens with spaces yields only word characters and spaces |
| Scoring.NormalizeScore | backend/scoring/strategies.py:76-89 | the score is clamped to 0..100, 95 and above become 100, 0..94 is kept |
| Scoring.NormalizeMonotone | backend/scoring/strategies.py:76-89 | a higher raw score never normalizes lower |
| Scoring.NormalizeIdempotent | backend/scoring/strategies.py:76-89 | a normalized score normalizes to itself |
| Text.StripIsTrimmedSlice | backend/import_data.py:35 | `strip()` yields a slice of its input with only whitespace around it |
| Text.StripEnds | backend/import_data.py:35 | a stripped text neither starts nor ends with whitespace |
| Text.StripIgnoresPadding | backend/import_data.py:35 | equal whitespace padding on both sides does not change the stripped text |
| Text.SplitJoin | backend/scoring/strategies.py:73 | `split()` of single-space-joined tokens gives the tokens back |
| Text.CollapsedFixpoint | backend/scoring/strategies.py:73 | `' '.join(s.split())` is the identity on already collapsed text |
| Text.JoinCollapsed | backend/scoring/strategies.py:73 | joining tokens gives collapsed text with no space at either end |
| Text.LowerJoin | backend/scoring/strategies.py:73-74 | lower-casing the joined text lower-cases each word |
| LlmScoring.NewLlmStrategy | backend/scoring/llm_strategy.py:17-20 | a missing or empty key or URL falls back to the environment, the URL finally to the public endpoint |
| LlmScoring.PromptLayout | backend/scoring/llm_strategy.py:38-59 | the prompt holds title, standard answer and user answer verbatim, in that order, each after its label, between the fixed introduction and rubric |
| LlmScoring.FindDigitsSpec | backend/scoring/llm_strategy.py:97-107 | `\d+` finds a run iff the reply has a digit; the run is the leftmost and maximal |
| LlmScoring.ParseScore | backend/scoring/llm_strategy.py:97-107 | the parsed score is in 0..100 and never 95..99 |
| LlmScoring.ParseScoreExamples | backend/scoring/llm_strategy.py:97-107 | sign, fraction and leading zeros are ignored; `分数：97` is 100; a reply without digits is 0 |
| LlmScoring.Score | backend/scoring/llm_strategy.py:109-151 | method `llm`; score in 0..100; a prompt is sent iff the input is valid; every error detail scores 0 |
| LlmScoring.ScoreGate | backend/scoring/llm_strategy.py:109-130 | invalid input or a missing key is refused with the fixed message before any prompt; valid input sends exactly the prompt for the given or placeholder title |
| LlmScoring.ScoreOutcomes | backend/scoring/llm_strategy.py:130-151 | a reply is scored by its stripped content and reported with model and title; a failed request or other exception scores 0 with its message |
| LlmScoring.ScoreIgnoresReplyPadding | backend/scoring/llm_strategy.py:88 | whitespace around the reply never changes the score |
| ScoringFactory.RegisterSpec | backend/scoring/factory.py:21-30 | registering lists the name once, in place when known, last when new, and keeps the registry well-formed |
| ScoringFactory.UnregisterSpec | backend/scoring/factory.py:33-42 | an unknown name changes nothing; a known one leaves the list, every other entry kept |
| ScoringFactory.RemoveAppend | backend/scoring/factory.py:40-41 | unregistering keeps the other names in their registration order |
| ScoringFactory.RemoveKeepsDistinct | backend/scoring/factory.py:40-41 | deleting a key keeps the registry's names distinct |
| ScoringFactory.Create | backend/scoring/factory.py:45-65 | `ValueError` with the name iff unregistered; otherwise a new object of the registered class |
| ScoringFactory.CreateIsFresh | backend/scoring/factory.py:45-65 | a created object is never one already cached |
| ScoringFactory.Get | backend/scoring/factory.py:68-82 | a cached name returns its object unchanged; otherwise create and cache, failing iff unregistered |
| ScoringFactory.GetIsCached | backend/scoring/factory.py:68-82 | a second `get_strategy` returns the same object and changes nothing |
| ScoringFactory.UnregisterKeepsCachedInstance | backend/scoring/factory.py:33-82 | unregistering does not evict: the cached object is still returned, though creation now fails |
| ScoringFactory.ClearInstances | backend/scoring/factory.py:95-100 | only the cache is emptied |
| ScoringFactory.ClearGivesNewInstance | backend/scoring/factory.py:95-100 | after clearing, `get_strategy` builds an object unlike any handed out before |
| ScoringFactory.DefaultsRegistered | backend/scoring/factory.py:104-105 | out of the box `embedding` then `llm` are registered and nothing is cached |
| ScoringFactory.ContextDefaults | backend/scoring/factory.py:104-121 | without a name, a context and `create_scorer` both use `embedding`, a strategy the registry starts with |
| ScoringFactory.ContextSpec | backend/scoring/factory.py:108-198 | the context reports its configured name; switching drops the resolved strategy so the next resolution asks the factory for the new name; a resolved strategy is kept |
| SoftDelete.ViewsPartition | backend/core/models.py:5-23 | the default manager and `deleted_only` split `all_with_deleted` |
| SoftDelete.SoftDeleteHides | backend/core/models.py:40-60 | a soft-deleted record leaves the default view, joins `deleted_only` and stays in `all_with_deleted`; `delete()` does the same |
| SoftDelete.RestoreShows | backend/core/models.py:48-54 | a restored record is back in the default view with its data |
| SoftDelete.SoftDeleteThenRestore | backend/core/models.py:40-54 | soft delete then restore of a live saved record gives back the same table and instance |
| SoftDelete.HardDeleteRemoves | backend/core/models.py:62-66 | a hard-deleted record is gone from every view; other rows are untouched |
| TokenBlacklist.Add | backend/users/models_blacklist.py:15-18 | a token already present violates uniqueness; otherwise exactly its row is added, stamped now |
| TokenBlacklist.CleanupSpec | backend/users/models_blacklist.py:32-47 | after cleanup exactly the unexpired tokens are blacklisted, rows unchanged, and the count is the number of expired tokens |
| TokenBlacklist.CleanupIdempotent | backend/users/models_blacklist.py:39-47 | a second cleanup at the same instant removes nothing |
| TokenBlacklist.AddThenCleanup | backend/users/models_blacklist.py:15-47 | an added token is blacklisted at once and survives cleanup until it expires |
| WrongQuestions.Create | backend/practice/models_extended.py:65-76 | a second record for the same user and question violates uniqueness; a new one has count 1, is not mastered and carries the score |
| WrongQuestions.IncrementWrongCount | backend/practice/models_extended.py:85-93 | one more wrong answer with its score; mastery revoked; the wrong time restamped |
| WrongQuestions.MarkAsMasteredAsWritten | backend/practice/models_extended.py:95-102 | mastered from now, count and score kept |
| WrongQuestions.MasteringRestampsLastWrong | backend/practice/models_extended.py:66 | mastering as written moves `last_wrong_at` to the moment of mastering |
| WrongQuestions.MarkAsMastered | backend/practice/models_extended.py:95-102 | mastered from now and nothing else changed |
| WrongQuestions.ReplaySpec | backend/practice/models_extended.py:85-102 | with mastering corrected as under Findings, after any history: count is the start plus the wrong answers, `last_wrong_at` the last wrong answer's time, and mastered iff the last event was a mastering |
| WrongQuestions.ReplayAsWrittenSpec | backend/practice/models_extended.py:66-102 | the same history as the source runs it: count and mastered as in the corrected history, but `last_wrong_at` is the time of the last event of either kind |
| WrongQuestions.NewRecordDefaults | backend/practice/models_extended.py:65-76 | a new record holds one wrong answer, is stored under its pair and blocks a second create |
| AuditLog.DiffAppend | backend/audit/models.py:83-92 | changes are recorded in field order: the diff of two runs of fields is the first run's diff followed by the second's |
| AuditLog.DiffSpec | backend/audit/models.py:82-92 | a field is recorded iff it is not a timestamp and its loaded value differs from its current one; the pair recorded is exactly that; no change iff no field differs |
| AuditLog.SaveAsWritten | backend/audit/models.py:60-112 | when it succeeds, at most one entry is logged and the row is written last |
| AuditLog.NewObjectNeverSaved | backend/audit/models.py:102-112 | a new object without a key is never saved: logging its creation fails on the non-null `object_id` |
| AuditLog.Save | backend/audit/models.py:60-112 | the row is always written, with at most one entry |
| AuditLog.SaveSpec | backend/audit/models.py:78-112 | a new object is saved, then its creation logged under its key; a loaded object logs exactly its changed fields, nothing when none changed |
| AuditLog.SaveAgreesWhenKeyed | backend/audit/models.py:94-112 | where the object already has a key, the corrected save logs the same entry as the original |
| Difficulty.FirstMatchSpec | backend/import_data.py:36-41 | the value is that of the earliest key matching either way, or 1 when no key matches |
| Difficulty.EasyCharacterWins | backend/import_data.py:23-38 | any label containing 易 is 1, since 易 is tried first |
| Difficulty.BlankIsEasy | backend/import_data.py:35-38 | an empty or blank label strips to '' and every key contains it, so it is 1 |
| Difficulty.AsciiFallsBack | backend/import_data.py:36-41 | a non-empty all-ASCII label matches no key and falls back to 1 |
| Difficulty.DisjointNoMatch | backend/import_data.py:37 | a key and a label sharing no character never match |
| Difficulty.Decided | backend/import_data.py:35-38 | a label already in normal form gets the value of the earliest key it matches |
| Difficulty.MediumExample | backend/import_data.py:23-38 | 中等 is 2 |
| Difficulty.HardExample | backend/import_data.py:23-38 | 较难 is 3 |
| Difficulty.FragmentExample | backend/import_data.py:23-38 | 容, a fragment of the key 容易, is 1 |
| Difficulty.PaddingIgnored | backend/import_data.py:35 | equal whitespace on both sides of a label never changes its value |

## Left out

- **Running processes.** Temporary files, `subprocess.run`, timing and the
  compiler and interpreter command lines are not modelled. Each test's compile and
  run outcomes, including the elapsed milliseconds, are an input (`Runners.Process`).
  Only the classification of those outcomes is modelled.
- **Python built-ins.** `json.loads`, `str()` of a decoded value and the text of
  `JSONDecodeError` are uninterpreted parameters (`Runners.Py`). A JSON decoder is
  not part of this model.
- **`memory_limit`.** It is stored by `execute` but never used by any runner, so
  it is accepted and ignored.
- **Dict key order.** Decoded dicts are maps, so key order is not represented.
  Python's `==` ignores it anyway.
- **Numbers in scoring.** Floating-point scores are not modelled.
  `Scoring.NormalizeScore` works on whole numbers, where `round(·, 1)` changes
  nothing. The LLM reply's score is always a whole number (`\d+`). NaN and
  infinities are not modelled.
- **Character classes.** Unicode character classes are approximated. `\w` is ASCII
  letters, digits and `_` plus CJK U+4E00–U+9FFF. `\d` is ASCII digits. `lower()`
  folds ASCII only. Other scripts' letters and digits, such as full-width digits,
  are therefore not treated as Python treats them.
- **The HTTP request.** Headers, payload, timeout and the JSON response's shape are
  not modelled. `_call_llm_api` is the oracle `api`, which yields the reply text, a
  request failure (its reason) or another exception (its message). Logging is left
  out everywhere.
- **The embedding strategy.** `EmbeddingScoringStrategy` is not part of this model.
  The factory only registers its class.
- **Keyword arguments.** `ScoringContext.score` and `validate` only delegate to the
  resolved strategy. They are not modelled beyond resolving it
  (`ScoringFactory.ContextStrategy`). `**kwargs` of `create_strategy`,
  `get_strategy` and `create_scorer` are dropped.
- **Column sizes and relations.** Django field types, `max_length`, indexes,
  cascades, `__str__` and `Meta` verbose names are not modelled.
  `auto_now_add`/`auto_now` timestamps are explicit `now` parameters.
- **Audit details.**
  - The audit log's acting user is always `None`: `threading.local` as a class has
    no `user` attribute. So the user is not modelled.
  - Serializing values into the `changes` JSON is not modelled. Changes are kept
    as `Json` pairs.
  - The `delete`, `soft_delete` and `restore` actions are declared choices that the
    mixin never writes.
- **Non-string difficulty labels.** `str(difficulty_str)` of a non-string value
  (a number, NaN from pandas) is not modelled. The label is taken as a string.
  The warning `print` is left out.
- **`WrongQuestion.notes`.** It is carried along but no operation touches it.
- **Views and surrounding code.** Views, serializers, URLs, admin, the recommender,
  analytics and the rest of the importer script are not part of this model.
- SoftDelete.Delete: has no contract of its own. `SoftDelete.SoftDeleteHides`
  proves that it equals `soft_delete`.
- Difficulty.PaddingIgnored: covers only the same whitespace on both sides. Any
  leading and trailing whitespace is ignored by `strip()`. `Text.StripIsTrimmedSlice`
  states the general property.
- PyJson.PyEqReflexive: holds only for the values `Json` can hold. `json.loads`
  also accepts `NaN`, `Infinity` and `-Infinity`, which are outside `Json`. A
  decoded `NaN` is not equal to itself in Python. So a program printing `NaN`
  against an expected `NaN` fails the comparison at services.py:175, and an audited
  field holding `NaN` is recorded as changed by the `!=` at audit/models.py:88.
- Runners.CompareOutputRoundTrip: its `printed == expected` case inherits the same
  gap. It covers finite values only, because `Json` has no `NaN`.
- Scoring.PreprocessIdempotent: rests on the ASCII-only `lower()` of `Text`.
  Python's `'İ'.lower()` is `i` followed by U+0307, a combining mark that a second
  pass deletes. So preprocessing twice can change such a text in the source.
- Runners.CompareOutputPlainText: states padding invariance only for padded outputs
  that also fail to decode. The decoder is a parameter, so it is not known whether
  padding changes decodability.

## Findings

| source | as written | input that shows it | evidently intended | confidence | as-written member | corrected member |
|---|---|---|---|---|---|---|
| backend/practice/models_extended.py:66 | `mark_as_mastered` ends in a plain `save()`, and `last_wrong_at` is `auto_now`, so mastering a question restamps "last answered wrong" with the mastering time | a record last answered wrong on day 1 and marked mastered on day 5 reports `last_wrong_at` = day 5 | mastering sets `mastered` and `mastered_at` and leaves `last_wrong_at` at the last wrong answer | medium, not executed | WrongQuestions.MasteringRestampsLastWrong | WrongQuestions.MarkAsMastered |
| backend/audit/models.py:102-112 | `save` of a new object creates the `create` entry with `object_id=self.pk` before `super().save()`; with an auto-increment key `pk` is still `None`, and `object_id` is a non-null integer column | saving any new, unkeyed instance of a model using the mixin: the entry insert raises `IntegrityError` and the row is never written | write the row first, then log its creation under the assigned key | high for auto-increment keys, not executed | AuditLog.NewObjectNeverSaved | AuditLog.SaveSpec |
