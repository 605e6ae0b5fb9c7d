/** The Gemini caller as send_report.py runs it: the process-wide
    `GEMINI_DIAGNOSTICS` record is an object whose fields the calls update
    in place, and `call_gemini_api` builds its candidate list and records
    its attempts with loops, then walks the candidates with a `for` loop
    that `continue`s only after a 404. Each method is proved to do what
    its specification function in module GeminiSpec says. */
module GeminiClient {
  import opened Optional
  import opened PyStrings
  import opened GeminiApi
  import opened GeminiSpec
  import opened GeminiProperties

  /** `for x in xs: if x not in acc: acc.append(x)` over a copy of `acc`. */
  method AppendMissing(acc: seq<string>, xs: seq<string>) returns (r: seq<string>)
    ensures r == AppendNew(acc, xs)
  {
    r := acc;
    for i := 0 to |xs|
      invariant AppendNew(r, xs[i..]) == AppendNew(acc, xs)
    {
      assert xs[i..][1..] == xs[i + 1..];
      if xs[i] !in r {
        r := r + [xs[i]];
      }
    }
    assert xs[|xs|..] == [];
  }

  /** `GEMINI_DIAGNOSTICS`. */
  class Diagnostics {
    var attemptedModels: seq<string>
    var successfulModel: Option<string>
    var translationErrors: nat
    var summaryError: Option<ApiError>
    var lastError: Option<ApiError>

    /** The record's current value. */
    function State(): Snapshot
      reads this
    {
      Snapshot(attemptedModels, successfulModel, translationErrors, summaryError, lastError)
    }

    ghost predicate Valid()
      reads this
    {
      Consistent(State())
    }

    constructor ()
      ensures Valid() && State() == INITIAL
    {
      attemptedModels := [];
      successfulModel := None;
      translationErrors := 0;
      summaryError := None;
      lastError := None;
    }

    /** `call_gemini_api(prompt)`. `env` is what `os.environ` holds for
        the call; `network` is what each model's request comes back with.
        `requested` lists the models requested, in order. */
    method CallGemini(prompt: string, env: Env, network: (string, string) -> Outcome)
      returns (result: Option<string>, error: Option<ApiError>, ghost requested: seq<string>)
      requires Valid()
      modifies this
      ensures Valid()
      ensures CallEffect(State(), result, error, requested) == GeminiCall(old(State()), prompt, env, network)
    {
      CallKeepsConsistent(old(State()), prompt, env, network);
      if !Truthy(env.apiKey) {
        return None, Some(NoApiKey), [];
      }

      var models: seq<string>;
      if Truthy(env.modelOverride) {
        models := [Strip(env.modelOverride.value)];
      } else {
        models := [DEFAULT_GEMINI_MODEL];
        models := AppendMissing(models, FALLBACK_GEMINI_MODELS);
      }
      ModelsToTryNonEmpty(env.modelOverride, DEFAULT_GEMINI_MODEL, FALLBACK_GEMINI_MODELS);

      attemptedModels := AppendMissing(attemptedModels, models);
      result, error, requested := TryModels(models, prompt, network);
    }

    /** The `for index, model in enumerate(models_to_try)` loop of
        `call_gemini_api` (send_report.py:97-142): requests each model in
        turn, moves on only after a 404 that is not from the last model, and
        leaves the outcome in `successful_model` and `last_error`. */
    method TryModels(models: seq<string>, prompt: string, network: (string, string) -> Outcome)
      returns (result: Option<string>, error: Option<ApiError>, ghost requested: seq<string>)
      requires models != []
      modifies this
      ensures var t := RunModels(models, prompt, network);
        && requested != []
        && t == Trace(requested, result, error, t.marked)
        && lastError == error
        && successfulModel == (if t.marked then Some(Last(requested)) else old(successfulModel))
      ensures attemptedModels == old(attemptedModels)
      ensures translationErrors == old(translationErrors) && summaryError == old(summaryError)
    {
      requested := [];
      for i := 0 to |models|
        invariant i < |models|
        invariant requested == models[..i]
        invariant RunModels(models, prompt, network) == RunFrom(models, i, prompt, network)
        invariant successfulModel == old(successfulModel)
        invariant attemptedModels == old(attemptedModels)
        invariant translationErrors == old(translationErrors) && summaryError == old(summaryError)
      {
        var model := models[i];
        requested := requested + [model];
        var reply, err, stop;
        ghost var step;
        reply, err, stop, step := Attempt(model, prompt, network, i == |models| - 1);
        RunFromStep(models, i, prompt, network, step);
        if stop {
          assert requested == models[..i + 1];
          return reply, err, requested;
        }
      }
      // the round for the last model always stops
      assert false;
    }

    /** One round of that loop: the `try` block and its handlers
        (send_report.py:100-140) for `model`. `stop` is false exactly when
        the round ends in `continue`; `isLast` says that `model` is the last
        candidate. */
    method Attempt(model: string, prompt: string, network: (string, string) -> Outcome, isLast: bool)
      returns (reply: Option<string>, err: Option<ApiError>, stop: bool, ghost step: Step)
      modifies this
      ensures step == Classify(model, network(model, prompt))
      ensures stop == (!step.Missing? || isLast)
      ensures step.Replied? ==> reply == Some(step.text) && err == None
      ensures !step.Replied? ==> reply == None && err == Some(step.error)
      ensures lastError == err
      ensures successfulModel == (if step.Replied? || (step.Halted? && step.marked) then Some(model) else old(successfulModel))
      ensures attemptedModels == old(attemptedModels)
      ensures translationErrors == old(translationErrors) && summaryError == old(summaryError)
    {
      match network(model, prompt) {
        case Answered(body) =>
          if body.PartUnreadable? || body.FirstPart? {
            successfulModel := Some(model);
            lastError := None;
            if body.FirstPart? {
              return Some(Strip(body.text.GetOr(""))), None, true, Classify(model, network(model, prompt));
            }
            // reading the first part's text raises, and the generic handler records it
            err := Some(Unknown(body.detail));
          } else {
            err := Some(InvalidResponse);
          }
        case HttpFailure(status) =>
          if status == 429 {
            err := Some(RateLimit);
          } else if status == 404 {
            lastError := Some(NotFound(model));
            return None, lastError, isLast, Classify(model, network(model, prompt));
          } else {
            err := Some(HttpError(status));
          }
        case NoResponse =>
          err := Some(Connection);
        case Raised(detail) =>
          err := Some(Unknown(detail));
      }
      lastError := err;
      return None, err, true, Classify(model, network(model, prompt));
    }

    /** `translate_text_with_gemini(text, context)`. */
    method TranslateText(text: string, context: string, env: Env, network: (string, string) -> Outcome)
      returns (translated: string)
      requires Valid()
      modifies this
      ensures Valid()
      ensures Translated(State(), translated) == Translation(old(State()), text, context, env, network)
    {
      var prompt := TranslationPrompt(text, context);
      var result: Option<string>;
      var error: Option<ApiError>;
      ghost var requested: seq<string>;
      result, error, requested := CallGemini(prompt, env, network);
      if error.Some? {
        translationErrors := translationErrors + 1;
        // the untranslated text keeps the report readable
        return text;
      }
      translated := if Truthy(result) then RemoveStars(result.value) else text;
    }

    /** `get_summary_from_gemini(report_text)`. */
    method SummarizeReport(reportText: string, env: Env, network: (string, string) -> Outcome)
      returns (summary: string)
      requires Valid()
      modifies this
      ensures Valid()
      ensures Summarized(State(), summary) == Summary(old(State()), reportText, env, network)
    {
      var prompt := SummaryPrompt(reportText);
      var result: Option<string>;
      var error: Option<ApiError>;
      ghost var requested: seq<string>;
      result, error, requested := CallGemini(prompt, env, network);
      if error.Some? {
        summaryError := error;
        return SummaryPlaceholder(error.value);
      }
      summary := if Truthy(result) then result.value else SUMMARY_NOTHING;
    }
  }
}
