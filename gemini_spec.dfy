/** The pure specification of `call_gemini_api` and of the two callers that
    turn its errors into fallbacks (`translate_text_with_gemini`,
    `get_summary_from_gemini`): what each returns and what the process-wide
    `GEMINI_DIAGNOSTICS` record holds afterwards. The imperative versions in
    module GeminiClient are proved equal to these functions. */
module GeminiSpec {
  import opened Optional
  import opened PyStrings
  import opened GeminiApi

  const DEFAULT_GEMINI_MODEL: string := "gemini-1.5-flash"
  const FALLBACK_GEMINI_MODELS: seq<string> := ["gemini-pro"]

  /** The environment variables one call reads: `GEMINI_API_KEY` and
      `GEMINI_MODEL` (None when unset). */
  datatype Env = Env(apiKey: Option<string>, modelOverride: Option<string>)

  /** Python truthiness of an `os.environ.get` result: set and non-empty. */
  predicate Truthy(v: Option<string>) {
    v.Some? && v.value != ""
  }

  predicate NoDuplicates<T(==)>(s: seq<T>) {
    forall i, j :: 0 <= i < j < |s| ==> s[i] != s[j]
  }

  function Last<T>(s: seq<T>): T
    requires s != []
  {
    s[|s| - 1]
  }

  // ---------------------------------------------------------------------
  // "append if not already present", used for models_to_try and for
  // GEMINI_DIAGNOSTICS["attempted_models"]

  /** `for x in xs: if x not in acc: acc.append(x)`, as a value. */
  function AppendNew<T(==)>(acc: seq<T>, xs: seq<T>): seq<T>
    decreases |xs|
  {
    if xs == [] then acc
    else AppendNew(if xs[0] in acc then acc else acc + [xs[0]], xs[1..])
  }

  /** The position of the first occurrence of `x` in `xs`. */
  function FirstIndex<T(==)>(xs: seq<T>, x: T): (k: nat)
    requires x in xs
    ensures k < |xs| && xs[k] == x && x !in xs[..k]
    decreases |xs|
  {
    if xs[0] == x then 0 else 1 + FirstIndex(xs[1..], x)
  }

  /** The earlier entries stay where they were. */
  lemma {:induction false} AppendNewKeepsPrefix<T>(acc: seq<T>, xs: seq<T>)
    ensures |acc| <= |AppendNew(acc, xs)| && AppendNew(acc, xs)[..|acc|] == acc
    decreases |xs|
  {
    if xs != [] {
      var acc' := if xs[0] in acc then acc else acc + [xs[0]];
      AppendNewKeepsPrefix(acc', xs[1..]);
      assert AppendNew(acc, xs)[..|acc|] == AppendNew(acc', xs[1..])[..|acc'|][..|acc|];
    }
  }

  /** The result holds exactly the old entries and the new ones. */
  lemma {:induction false} AppendNewMembers<T>(acc: seq<T>, xs: seq<T>)
    ensures forall x :: x in AppendNew(acc, xs) <==> x in acc || x in xs
    decreases |xs|
  {
    if xs != [] {
      var acc' := if xs[0] in acc then acc else acc + [xs[0]];
      AppendNewMembers(acc', xs[1..]);
      assert forall x :: x in xs <==> x == xs[0] || x in xs[1..];
    }
  }

  /** Each entry after the old ones is new and comes from `xs`. */
  lemma {:induction false} AppendNewFresh<T>(acc: seq<T>, xs: seq<T>)
    ensures var r := AppendNew(acc, xs);
      |acc| <= |r| && forall i :: |acc| <= i < |r| ==> r[i] !in acc && r[i] in xs
    decreases |xs|
  {
    if xs != [] {
      var acc' := if xs[0] in acc then acc else acc + [xs[0]];
      var r := AppendNew(acc, xs);
      assert r == AppendNew(acc', xs[1..]);
      AppendNewFresh(acc', xs[1..]);
      AppendNewKeepsPrefix(acc', xs[1..]);
      forall i | |acc| <= i < |r| ensures r[i] !in acc && r[i] in xs {
        if i >= |acc'| {
          assert r[i] !in acc' && r[i] in xs[1..];
        } else {
          assert r[i] == r[..|acc'|][i] == xs[0];
        }
      }
    }
  }

  /** A duplicate-free list stays duplicate-free. */
  lemma {:induction false} AppendNewNoDuplicates<T>(acc: seq<T>, xs: seq<T>)
    requires NoDuplicates(acc)
    ensures NoDuplicates(AppendNew(acc, xs))
    decreases |xs|
  {
    if xs != [] {
      var acc' := if xs[0] in acc then acc else acc + [xs[0]];
      assert NoDuplicates(acc') by {
        forall i, j | 0 <= i < j < |acc'| ensures acc'[i] != acc'[j] {
          if j == |acc| {
            assert acc'[i] == acc[i] && acc'[j] == xs[0] && xs[0] !in acc;
          }
        }
      }
      AppendNewNoDuplicates(acc', xs[1..]);
    }
  }

  /** The new entries keep the order of their first occurrences in `xs`. */
  lemma {:induction false} AppendNewOrder<T>(acc: seq<T>, xs: seq<T>)
    ensures var r := AppendNew(acc, xs);
      forall i, j :: |acc| <= i < j < |r| ==>
        r[i] in xs && r[j] in xs && FirstIndex(xs, r[i]) < FirstIndex(xs, r[j])
    decreases |xs|
  {
    var r := AppendNew(acc, xs);
    AppendNewFresh(acc, xs);
    if xs != [] {
      var acc' := if xs[0] in acc then acc else acc + [xs[0]];
      assert r == AppendNew(acc', xs[1..]);
      AppendNewOrder(acc', xs[1..]);
      AppendNewFresh(acc', xs[1..]);
      AppendNewKeepsPrefix(acc', xs[1..]);
      forall i, j | |acc| <= i < j < |r|
        ensures FirstIndex(xs, r[i]) < FirstIndex(xs, r[j])
      {
        assert r[j] != xs[0] by {
          assert j >= |acc'|;
          assert r[j] !in acc';
        }
        if i >= |acc'| {
          assert r[i] != xs[0] by { assert r[i] !in acc'; }
          assert FirstIndex(xs[1..], r[i]) < FirstIndex(xs[1..], r[j]);
        } else {
          assert r[i] == r[..|acc'|][i] == xs[0];
        }
      }
    }
  }

  // ---------------------------------------------------------------------
  // the candidate list (send_report.py:79-87)

  /** `models_to_try`: the stripped `GEMINI_MODEL` alone when it is set,
      otherwise the default followed by the fallbacks not yet listed. */
  function ModelsToTry(modelOverride: Option<string>, defaultModel: string, fallbacks: seq<string>): seq<string>
  {
    if Truthy(modelOverride) then [Strip(modelOverride.value)]
    else AppendNew([defaultModel], fallbacks)
  }

  /** The list is never empty. */
  lemma ModelsToTryNonEmpty(modelOverride: Option<string>, defaultModel: string, fallbacks: seq<string>)
    ensures ModelsToTry(modelOverride, defaultModel, fallbacks) != []
  {
    if !Truthy(modelOverride) {
      AppendNewKeepsPrefix([defaultModel], fallbacks);
    }
  }

  // ---------------------------------------------------------------------
  // GEMINI_DIAGNOSTICS and one call

  /** The value of `GEMINI_DIAGNOSTICS`. */
  datatype Snapshot = Snapshot(
    attemptedModels: seq<string>,
    successfulModel: Option<string>,
    translationErrors: nat,
    summaryError: Option<ApiError>,
    lastError: Option<ApiError>)

  /** `GEMINI_DIAGNOSTICS` as the script starts. */
  const INITIAL: Snapshot := Snapshot([], None, 0, None, None)

  /** What the record keeps in every state a run can reach: no model listed
      twice, and never NO_API_KEY as the last error (that code is returned
      but not recorded). */
  predicate Consistent(s: Snapshot) {
    NoDuplicates(s.attemptedModels) && s.lastError != Some(NoApiKey)
  }

  /** The run of the fallback loop (send_report.py:97-142): the models it
      requested, the text or error it returned, and whether it wrote
      `successful_model` (then with the last model requested). */
  datatype Trace = Trace(requested: seq<string>, result: Option<string>, error: Option<ApiError>, marked: bool)

  /** The trace of a loop that stopped after requesting `requested`, whose
      last model came back with `step`. */
  function StopTrace(requested: seq<string>, step: Step): Trace {
    match step
    case Replied(text) => Trace(requested, Some(text), None, true)
    case Halted(e, marked) => Trace(requested, None, Some(e), marked)
    case Missing(e) => Trace(requested, None, Some(e), false)
  }

  /** The loop from candidate `i` on: request model `i`; a 404 moves on to
      the next candidate unless `i` is the last, anything else stops. */
  function RunFrom(models: seq<string>, i: nat, prompt: string, network: (string, string) -> Outcome): Trace
    requires i < |models|
    decreases |models| - i
  {
    var step := Classify(models[i], network(models[i], prompt));
    if step.Missing? && i < |models| - 1 then RunFrom(models, i + 1, prompt, network)
    else StopTrace(models[..i + 1], step)
  }

  /** One step of the loop: after the round for candidate `i` ended with
      `step`, the loop goes on from `i + 1` or stops with `models[..i + 1]`
      requested. */
  lemma RunFromStep(models: seq<string>, i: nat, prompt: string, network: (string, string) -> Outcome, step: Step)
    requires i < |models| && step == Classify(models[i], network(models[i], prompt))
    ensures step.Missing? && i < |models| - 1 ==> RunFrom(models, i, prompt, network) == RunFrom(models, i + 1, prompt, network)
    ensures !step.Missing? || i == |models| - 1 ==> RunFrom(models, i, prompt, network) == StopTrace(models[..i + 1], step)
  {
  }

  function RunModels(models: seq<string>, prompt: string, network: (string, string) -> Outcome): Trace
    requires models != []
  {
    RunFrom(models, 0, prompt, network)
  }

  /** From candidate `i` on, the loop requests a prefix of the candidates
      that reaches past `i`; every model before the last one requested
      answered 404, and the trace is what the last one's outcome says. A
      404 from that last one means there were no candidates left. */
  lemma {:induction false} RunFromShape(models: seq<string>, i: nat, prompt: string, network: (string, string) -> Outcome)
    requires i < |models|
    ensures var t := RunFrom(models, i, prompt, network);
      && i < |t.requested| <= |models| && t.requested == models[..|t.requested|]
      && (forall j :: i <= j < |t.requested| - 1 ==> network(models[j], prompt) == HttpFailure(404))
      && var m := Last(t.requested); var step := Classify(m, network(m, prompt));
        && t == StopTrace(t.requested, step)
        && (step.Missing? ==> |t.requested| == |models|)
    decreases |models| - i
  {
    var step := Classify(models[i], network(models[i], prompt));
    if step.Missing? && i < |models| - 1 {
      RunFromShape(models, i + 1, prompt, network);
    }
  }

  /** The whole loop: see RunFromShape. Exactly one of text and error comes
      back, and `marked` holds exactly when the last model requested
      answered with a first part or with one whose text could not be read. */
  lemma RunModelsShape(models: seq<string>, prompt: string, network: (string, string) -> Outcome)
    requires models != []
    ensures var t := RunModels(models, prompt, network);
      && 1 <= |t.requested| <= |models| && t.requested == models[..|t.requested|]
      && (forall j :: 0 <= j < |t.requested| - 1 ==> network(models[j], prompt) == HttpFailure(404))
      && var m := Last(t.requested); var step := Classify(m, network(m, prompt));
        && t == StopTrace(t.requested, step)
        && (step.Missing? ==> |t.requested| == |models|)
        && t.result.Some? != t.error.Some?
        && (t.marked <==> step.Replied? || (step.Halted? && step.marked))
  {
    RunFromShape(models, 0, prompt, network);
  }

  /** What one `call_gemini_api(prompt)` returns and does to the record. */
  datatype CallEffect = CallEffect(after: Snapshot, result: Option<string>, error: Option<ApiError>, requested: seq<string>)

  function GeminiCall(before: Snapshot, prompt: string, env: Env, network: (string, string) -> Outcome): (c: CallEffect)
    ensures c.result.Some? != c.error.Some?
    ensures c.requested != [] <==> Truthy(env.apiKey)
    ensures c.after.translationErrors == before.translationErrors
    ensures c.after.summaryError == before.summaryError
  {
    if !Truthy(env.apiKey) then CallEffect(before, None, Some(NoApiKey), [])
    else
      var models := ModelsToTry(env.modelOverride, DEFAULT_GEMINI_MODEL, FALLBACK_GEMINI_MODELS);
      ModelsToTryNonEmpty(env.modelOverride, DEFAULT_GEMINI_MODEL, FALLBACK_GEMINI_MODELS);
      RunModelsShape(models, prompt, network);
      var t := RunModels(models, prompt, network);
      var after := before.(
        attemptedModels := AppendNew(before.attemptedModels, models),
        successfulModel := if t.marked then Some(Last(t.requested)) else before.successfulModel,
        lastError := t.error);
      CallEffect(after, t.result, t.error, t.requested)
  }

  // ---------------------------------------------------------------------
  // translate_text_with_gemini (send_report.py:144-159)

  /** The instructions in front of the text to translate, for a news
      headline and for a weather-alert term. */
  const NEWS_PROMPT: string := "Translate the following news headline into Korean. Do not add any explanation, romanization, or markdown formatting. Input: '"
  const ALERT_PROMPT: string := "Translate the following single weather alert term into a single, official Korean equivalent. Do not add any explanation, romanization, or markdown formatting. For example, if the input is \"Thunderstorm gale\", the output should be just \"뇌우 강풍\". Input: '"

  function TranslationPrompt(text: string, context: string): string {
    if context == "news" then NEWS_PROMPT + text + "'" else ALERT_PROMPT + text + "'"
  }

  /** The text a translation yields from the caller's `(result, error)`:
      the input on any error or empty reply, else the reply without `*`. */
  function TranslatedText(text: string, result: Option<string>, error: Option<ApiError>): (r: string)
    ensures error.Some? ==> r == text
    ensures r == text || '*' !in r
    ensures error.None? && Truthy(result) ==> forall c :: c != '*' ==> multiset(r)[c] == multiset(result.value)[c]
  {
    if error.Some? then text
    else if Truthy(result) then RemoveStars(result.value)
    else text
  }

  datatype Translated = Translated(after: Snapshot, text: string)

  function Translation(before: Snapshot, text: string, context: string, env: Env, network: (string, string) -> Outcome): Translated {
    var c := GeminiCall(before, TranslationPrompt(text, context), env, network);
    var after := if c.error.Some? then c.after.(translationErrors := c.after.translationErrors + 1) else c.after;
    Translated(after, TranslatedText(text, c.result, c.error))
  }

  // ---------------------------------------------------------------------
  // get_summary_from_gemini (send_report.py:204-229)

  /** The analyst instructions in front of the raw report (the source's
      triple-quoted string, line breaks and indentation included). */
  const SUMMARY_PROMPT: string :=
    "You are an analyst summarizing overnight global events for a mobile game manager. Based on the following raw report, please create a concise summary in Korean with a maximum of 3 bullet points.\n"
    + "    Please use a hyphen (-) for bullet points, not an asterisk (*).\n"
    + "    Focus only on the most critical issues that could impact game traffic. If there are no significant events, simply state that.\n"
    + "\n"
    + "    Raw Report: --- "

  function SummaryPrompt(reportText: string): string {
    SUMMARY_PROMPT + reportText + " --- Summary:"
  }

  const SUMMARY_NO_ACCESS: string := "- Gemini 모델 권한이 없어 자동 요약을 생략합니다. API 키는 정상 인식되었으며 번역은 영어 원문으로 제공됩니다."
  const SUMMARY_NO_KEY: string := "- Gemini API 키가 설정되지 않아 자동 요약을 생략합니다. 번역은 영어 원문으로 제공됩니다."
  const SUMMARY_RATE_LIMITED: string := "- Gemini 호출 한도가 초과되어 요약을 잠시 생략합니다. 번역은 영어 원문으로 제공됩니다."
  const SUMMARY_NO_CONNECTION: string := "- Gemini 서버에 연결하지 못해 요약을 생략합니다. 번역은 영어 원문으로 제공됩니다."
  const SUMMARY_DELAYED: string := "- Gemini 요약 생성이 지연되어 상세 리포트를 먼저 확인해주세요."
  const SUMMARY_NOTHING: string := "- 주요 이슈가 없어 자동 요약을 건너뛰었습니다."

  /** The fixed line that stands in for the summary, chosen by error code. */
  function SummaryPlaceholder(e: ApiError): string {
    var code := e.Code();
    if code == "NOT_FOUND" then SUMMARY_NO_ACCESS
    else if code == "NO_API_KEY" then SUMMARY_NO_KEY
    else if code == "RATE_LIMIT" then SUMMARY_RATE_LIMITED
    else if code == "CONNECTION" then SUMMARY_NO_CONNECTION
    else SUMMARY_DELAYED
  }

  /** The summary from the caller's `(result, error)`. */
  function SummaryText(result: Option<string>, error: Option<ApiError>): string {
    if error.Some? then SummaryPlaceholder(error.value)
    else if Truthy(result) then result.value
    else SUMMARY_NOTHING
  }

  datatype Summarized = Summarized(after: Snapshot, summary: string)

  function Summary(before: Snapshot, reportText: string, env: Env, network: (string, string) -> Outcome): Summarized {
    var c := GeminiCall(before, SummaryPrompt(reportText), env, network);
    var after := if c.error.Some? then c.after.(summaryError := c.error) else c.after;
    Summarized(after, SummaryText(c.result, c.error))
  }
}
