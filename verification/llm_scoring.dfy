/**
 * `LLMScoringStrategy`: validation of the answers and the API key, the grading
 * prompt, the score parsed from the model's reply, and `score`, which turns every
 * failure into a zero score with an `error` detail.
 *
 * The HTTP call is an oracle: `api(prompt)` says what `_call_llm_api` saw.
 */
module LlmScoring {
  import opened Wrappers
  import opened Text
  import opened Scoring

  const DefaultModel := "deepseek-chat"
  const DefaultApiUrl := "https://api.deepseek.com/chat/completions"
  const MethodName := "llm"
  const DefaultTitle := "未知题目"
  const InvalidInputMessage := "无效的输入或未配置 API 密钥"
  const RequestFailedPrefix := "LLM API 请求失败: "

  datatype LlmStrategy = LlmStrategy(apiKey: Option<string>, apiUrl: string, model: string)

  /** Python truthiness of an optional string: present and non-empty. */
  predicate Truthy(s: Option<string>)
  {
    s.Some? && |s.value| > 0
  }

  /**
   * `__init__`: an argument that is missing or empty falls back to the environment
   * (`DEEPSEEK_API_KEY`, `DEEPSEEK_API_URL`), the URL finally to the public endpoint.
   */
  function NewLlmStrategy(apiKey: Option<string>, apiUrl: Option<string>, model: string,
                          envKey: Option<string>, envUrl: Option<string>): (s: LlmStrategy)
    ensures Truthy(apiKey) ==> s.apiKey == apiKey
    ensures !Truthy(apiKey) ==> s.apiKey == envKey
    ensures Truthy(apiUrl) ==> s.apiUrl == apiUrl.value
    ensures !Truthy(apiUrl) ==> s.apiUrl == envUrl.GetOr(DefaultApiUrl)
    ensures s.model == model
  {
    LlmStrategy(if Truthy(apiKey) then apiKey else envKey,
                if Truthy(apiUrl) then apiUrl.value else envUrl.GetOr(DefaultApiUrl),
                model)
  }

  /** `validate`: both answers non-empty and an API key configured. */
  predicate Validate(s: LlmStrategy, userAnswer: string, standardAnswer: string)
  {
    |userAnswer| > 0 && |standardAnswer| > 0 && Truthy(s.apiKey)
  }

  const PromptIntro := "\n你是一个严格的评分助手。请评估用户答案的分数。\n\n问题："
  const StandardLabel := "\n标准答案："
  const UserLabel := "\n用户答案："
  const PromptRubric :=
    "\n\n评分标准：\n- 0-20分：答案完全错误或无关\n- 21-40分：答案部分正确，但缺少关键点\n- 41-60分：答案基本正确，但表述不够完整\n- 61-80分：答案正确，表述清晰\n- 81-95分：答案非常准确，表述优秀\n- 96-100分：答案完美，完全匹配标准答案\n\n请只输出分数（整数），不要添加任何解释。\n"

  /** `_build_prompt`. */
  function BuildPrompt(title: string, userAnswer: string, standardAnswer: string): (p: string)
    ensures |p| == |PromptIntro| + |title| + |StandardLabel| + |standardAnswer| + |UserLabel| + |userAnswer| + |PromptRubric|
  {
    PromptIntro + title + StandardLabel + standardAnswer + UserLabel + userAnswer + PromptRubric
  }

  /**
   * The prompt holds the title, the standard answer and the user's answer verbatim,
   * in that order, each right after its label, between the fixed introduction and rubric.
   */
  lemma PromptLayout(title: string, userAnswer: string, standardAnswer: string)
    ensures var p := BuildPrompt(title, userAnswer, standardAnswer);
      var t := |PromptIntro|;
      var sa := t + |title| + |StandardLabel|;
      var ua := sa + |standardAnswer| + |UserLabel|;
      && OccursAt(p, PromptIntro, 0)
      && OccursAt(p, title, t)
      && OccursAt(p, StandardLabel, t + |title|)
      && OccursAt(p, standardAnswer, sa)
      && OccursAt(p, UserLabel, sa + |standardAnswer|)
      && OccursAt(p, userAnswer, ua)
      && OccursAt(p, PromptRubric, ua + |userAnswer|)
  {
    Layout(PromptIntro, title, StandardLabel, standardAnswer, UserLabel, userAnswer, PromptRubric);
  }

  /** Where each of seven concatenated pieces sits. */
  lemma Layout(a: string, b: string, c: string, d: string, e: string, f: string, g: string)
    ensures var p := a + b + c + d + e + f + g;
      && OccursAt(p, a, 0)
      && OccursAt(p, b, |a|)
      && OccursAt(p, c, |a| + |b|)
      && OccursAt(p, d, |a| + |b| + |c|)
      && OccursAt(p, e, |a| + |b| + |c| + |d|)
      && OccursAt(p, f, |a| + |b| + |c| + |d| + |e|)
      && OccursAt(p, g, |a| + |b| + |c| + |d| + |e| + |f|)
  {
    var p1 := a + b;
    var p2 := p1 + c;
    var p3 := p2 + d;
    var p4 := p3 + e;
    var p5 := p4 + f;
    var p := p5 + g;
    AppendedAt("", a);
    AppendedAt(a, b);
    AppendedAt(p1, c);
    AppendedAt(p2, d);
    AppendedAt(p3, e);
    AppendedAt(p4, f);
    AppendedAt(p5, g);
    assert "" + a == a;
    StillAt(a, a, 0, b);
    StillAt(p1, a, 0, c);
    StillAt(p1, b, |a|, c);
    StillAt(p2, a, 0, d);
    StillAt(p2, b, |a|, d);
    StillAt(p2, c, |p1|, d);
    StillAt(p3, a, 0, e);
    StillAt(p3, b, |a|, e);
    StillAt(p3, c, |p1|, e);
    StillAt(p3, d, |p2|, e);
    StillAt(p4, a, 0, f);
    StillAt(p4, b, |a|, f);
    StillAt(p4, c, |p1|, f);
    StillAt(p4, d, |p2|, f);
    StillAt(p4, e, |p3|, f);
    StillAt(p5, a, 0, g);
    StillAt(p5, b, |a|, g);
    StillAt(p5, c, |p1|, g);
    StillAt(p5, d, |p2|, g);
    StillAt(p5, e, |p3|, g);
    StillAt(p5, f, |p4|, g);
  }

  lemma AppendedAt(h: string, y: string)
    ensures OccursAt(h + y, y, |h|)
  {
    assert (h + y)[|h|..|h| + |y|] == y;
  }

  lemma StillAt(h: string, n: string, i: int, y: string)
    requires OccursAt(h, n, i)
    ensures OccursAt(h + y, n, i)
  {
    assert (h + y)[i..i + |n|] == h[i..i + |n|];
  }

  /** The first position at or after `i` holding a digit, or `|s|`. */
  function NextDigit(s: string, i: nat): (j: nat)
    requires i <= |s|
    ensures i <= j <= |s|
    ensures j < |s| ==> IsDigit(s[j])
    ensures forall k | i <= k < j :: !IsDigit(s[k])
    decreases |s| - i
  {
    if i == |s| || IsDigit(s[i]) then i else NextDigit(s, i + 1)
  }

  /** The length of the run of digits starting at `i`. */
  function DigitRun(s: string, i: nat): (n: nat)
    requires i <= |s|
    ensures i + n <= |s|
    ensures forall k | i <= k < i + n :: IsDigit(s[k])
    ensures i + n == |s| || !IsDigit(s[i + n])
    decreases |s| - i
  {
    if i < |s| && IsDigit(s[i]) then 1 + DigitRun(s, i + 1) else 0
  }

  /** `re.search(r'\d+', s)`: the leftmost maximal run of digits, if any. */
  function FindDigits(s: string): Option<string>
  {
    var i := NextDigit(s, 0);
    if i == |s| then None else Some(s[i..i + DigitRun(s, i)])
  }

  predicate AllDigits(d: string)
  {
    forall k | 0 <= k < |d| :: IsDigit(d[k])
  }

  /**
   * The decimal value of a string of digits, `int(d)`. `float(d)` rounds past
   * 2^53 and becomes infinity for very long runs, but every value above 100
   * normalizes to 100, so the resulting score is the same.
   */
  function DecimalValue(d: string): (v: nat)
    requires AllDigits(d)
  {
    if |d| == 0 then 0
    else DecimalValue(d[..|d| - 1]) * 10 + (d[|d| - 1] as int - '0' as int)
  }

  /** `_parse_score`: the first run of digits, normalized; 0 when the reply holds no digit. */
  function ParseScore(output: string): (score: int)
    ensures 0 <= score <= 100
    ensures score <= 94 || score == 100
  {
    match FindDigits(output)
    case None => 0
    case Some(d) => NormalizeScore(DecimalValue(d))
  }

  /**
   * The search finds a digit run exactly when the text has a digit, and what it finds
   * is non-empty, all digits, preceded by no digit and not followed by one.
   */
  lemma FindDigitsSpec(s: string)
    ensures FindDigits(s).None? <==> forall k | 0 <= k < |s| :: !IsDigit(s[k])
    ensures FindDigits(s).Some? ==> exists i | 0 <= i < |s| ::
      var d := FindDigits(s).value;
      && OccursAt(s, d, i) && |d| > 0 && AllDigits(d)
      && (forall k | 0 <= k < i :: !IsDigit(s[k]))
      && (i + |d| == |s| || !IsDigit(s[i + |d|]))
  {
    var i := NextDigit(s, 0);
    if i < |s| {
      var n := DigitRun(s, i);
      var d := s[i..i + n];
      assert n >= 1;
      assert forall k | 0 <= k < |d| :: d[k] == s[i + k];
      assert OccursAt(s, d, i);
    }
  }

  /** Sample replies: the sign, the fraction and leading zeros are ignored, and a reply without digits scores 0. */
  lemma ParseScoreExamples()
    ensures ParseScore("-5") == 5
    ensures ParseScore("85.5") == 85
    ensures ParseScore("007") == 7
    ensures ParseScore("分数：97") == 100
    ensures ParseScore("优秀") == 0
  {
    assert NextDigit("-5", 0) == 1;
    assert DigitRun("-5", 1) == 1;
    assert "-5"[1..2] == "5";
    assert DigitRun("85.5", 0) == 2;
    assert "85.5"[0..2] == "85";
    assert DecimalValue("85") == 85 by {
      assert "85"[..1] == "8";
      assert "8"[..0] == "";
    }
    assert DigitRun("007", 0) == 3;
    assert "007"[0..3] == "007";
    assert DecimalValue("007") == 7 by {
      assert "007"[..2] == "00";
      assert "00"[..1] == "0";
      assert "0"[..0] == "";
    }
    assert NextDigit("分数：97", 0) == 3;
    assert DigitRun("分数：97", 3) == 2;
    assert "分数：97"[3..5] == "97";
    assert DecimalValue("97") == 97 by {
      assert "97"[..1] == "9";
      assert "9"[..0] == "";
    }
    assert NextDigit("优秀", 0) == 2;
  }

  /** What `_call_llm_api` ended with: the reply's content, a failed request, or another exception. */
  datatype ApiReply = Reply(content: string) | RequestFailed(reason: string) | OtherFailure(message: string)

  datatype Details =
    | ErrorDetail(error: string)
    | LlmDetails(llmOutput: string, model: string, questionTitle: string)

  datatype ScoreResult = ScoreResult(score: int, details: Details, methodName: string)

  /** The dict `score` returns, and the prompt it sent, if any. */
  datatype Scored = Scored(result: ScoreResult, sent: Option<string>)

  /** `score`; `title` is the `question_title` keyword argument, if given. */
  function Score(s: LlmStrategy, userAnswer: string, standardAnswer: string, title: Option<string>,
                 api: string -> ApiReply): (r: Scored)
    ensures r.result.methodName == MethodName
    ensures 0 <= r.result.score <= 100
    ensures r.sent.Some? <==> Validate(s, userAnswer, standardAnswer)
    ensures r.result.details.ErrorDetail? ==> r.result.score == 0
  {
    if !Validate(s, userAnswer, standardAnswer) then
      Scored(ScoreResult(0, ErrorDetail(InvalidInputMessage), MethodName), None)
    else
      var questionTitle := title.GetOr(DefaultTitle);
      var prompt := BuildPrompt(questionTitle, userAnswer, standardAnswer);
      var result :=
        match api(prompt)
        case Reply(content) =>
          var output := Strip(content);
          ScoreResult(ParseScore(output), LlmDetails(output, s.model, questionTitle), MethodName)
        case RequestFailed(reason) => ScoreResult(0, ErrorDetail(RequestFailedPrefix + reason), MethodName)
        case OtherFailure(message) => ScoreResult(0, ErrorDetail(message), MethodName);
      Scored(result, Some(prompt))
  }

  /**
   * Invalid input is refused before any prompt is built; valid input sends exactly the
   * prompt for the given title, or for the placeholder title when none is given.
   */
  lemma ScoreGate(s: LlmStrategy, userAnswer: string, standardAnswer: string, title: Option<string>,
                  api: string -> ApiReply)
    ensures var r := Score(s, userAnswer, standardAnswer, title, api);
      && (!Validate(s, userAnswer, standardAnswer) ==>
            r == Scored(ScoreResult(0, ErrorDetail(InvalidInputMessage), MethodName), None))
      && (Validate(s, userAnswer, standardAnswer) ==>
            r.sent == Some(BuildPrompt(title.GetOr(DefaultTitle), userAnswer, standardAnswer)))
  {
  }

  /**
   * A reply is scored by its stripped content and reported with the model and title;
   * a failed request or any other exception scores 0 with the message as `error`.
   */
  lemma ScoreOutcomes(s: LlmStrategy, userAnswer: string, standardAnswer: string, title: Option<string>,
                      api: string -> ApiReply)
    requires Validate(s, userAnswer, standardAnswer)
    ensures var r := Score(s, userAnswer, standardAnswer, title, api).result;
      var reply := api(BuildPrompt(title.GetOr(DefaultTitle), userAnswer, standardAnswer));
      && (reply.Reply? ==>
            r.score == ParseScore(Strip(reply.content))
            && r.details == LlmDetails(Strip(reply.content), s.model, title.GetOr(DefaultTitle)))
      && (reply.RequestFailed? ==> r == ScoreResult(0, ErrorDetail(RequestFailedPrefix + reply.reason), MethodName))
      && (reply.OtherFailure? ==> r == ScoreResult(0, ErrorDetail(reply.message), MethodName))
  {
  }

  /** The reply's surrounding whitespace never changes the score. */
  lemma ScoreIgnoresReplyPadding(content: string, pad: string)
    requires AllSpace(pad)
    ensures ParseScore(Strip(pad + content + pad)) == ParseScore(Strip(content))
  {
    StripIgnoresPadding(pad, content);
  }
}
