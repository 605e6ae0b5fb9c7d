/** What `call_gemini_api`, `translate_text_with_gemini` and
    `get_summary_from_gemini` promise, proved of their specification in
    module GeminiSpec. */
module GeminiProperties {
  import opened Optional
  import opened PyStrings
  import opened GeminiApi
  import opened GeminiSpec

  // ---------------------------------------------------------------------
  // the candidate list

  /** With `GEMINI_MODEL` set the list is that name, stripped, alone.
      Otherwise it starts with the default, holds exactly the default and
      the fallbacks, lists each once, and keeps the fallbacks in the order
      of their first appearance. */
  lemma CandidateList(modelOverride: Option<string>, defaultModel: string, fallbacks: seq<string>)
    ensures var m := ModelsToTry(modelOverride, defaultModel, fallbacks);
      && m != []
      && NoDuplicates(m)
      && (Truthy(modelOverride) ==> m == [Strip(modelOverride.value)])
      && (!Truthy(modelOverride) ==>
            && m[0] == defaultModel
            && (forall x :: x in m <==> x == defaultModel || x in fallbacks)
            && (forall i, j :: 1 <= i < j < |m| ==>
                  m[i] in fallbacks && m[j] in fallbacks
                  && FirstIndex(fallbacks, m[i]) < FirstIndex(fallbacks, m[j])))
  {
    if !Truthy(modelOverride) {
      AppendNewKeepsPrefix([defaultModel], fallbacks);
      AppendNewMembers([defaultModel], fallbacks);
      AppendNewNoDuplicates([defaultModel], fallbacks);
      AppendNewOrder([defaultModel], fallbacks);
    }
  }

  /** The configured list: the default, then `gemini-pro`. */
  lemma ConfiguredCandidates(modelOverride: Option<string>)
    requires !Truthy(modelOverride)
    ensures ModelsToTry(modelOverride, DEFAULT_GEMINI_MODEL, FALLBACK_GEMINI_MODELS)
         == ["gemini-1.5-flash", "gemini-pro"]
  {
    var m := ModelsToTry(modelOverride, DEFAULT_GEMINI_MODEL, FALLBACK_GEMINI_MODELS);
    assert "gemini-pro" !in [DEFAULT_GEMINI_MODEL] by {
      assert "gemini-pro"[7] != DEFAULT_GEMINI_MODEL[7];
    }
    assert FALLBACK_GEMINI_MODELS[1..] == [];
  }

  // ---------------------------------------------------------------------
  // one call

  /** Without an API key nothing is requested and the record is left as it
      was. */
  lemma MissingKey(before: Snapshot, prompt: string, env: Env, network: (string, string) -> Outcome)
    requires !Truthy(env.apiKey)
    ensures GeminiCall(before, prompt, env, network) == CallEffect(before, None, Some(NoApiKey), [])
  {
  }

  /** After a keyed call every candidate is listed in `attempted_models`,
      nothing else is added, the earlier entries keep their places and the
      list stays duplicate-free. */
  lemma AttemptsRecorded(before: Snapshot, prompt: string, env: Env, network: (string, string) -> Outcome)
    requires Truthy(env.apiKey)
    ensures var c := GeminiCall(before, prompt, env, network);
      var models := ModelsToTry(env.modelOverride, DEFAULT_GEMINI_MODEL, FALLBACK_GEMINI_MODELS);
      var old_ := before.attemptedModels;
      var new_ := c.after.attemptedModels;
      && (forall m :: m in new_ <==> m in old_ || m in models)
      && (forall m :: m in c.requested ==> m in new_)
      && |old_| <= |new_| && new_[..|old_|] == old_
      && (NoDuplicates(old_) ==> NoDuplicates(new_))
  {
    var models := ModelsToTry(env.modelOverride, DEFAULT_GEMINI_MODEL, FALLBACK_GEMINI_MODELS);
    ModelsToTryNonEmpty(env.modelOverride, DEFAULT_GEMINI_MODEL, FALLBACK_GEMINI_MODELS);
    RunModelsShape(models, prompt, network);
    var c := GeminiCall(before, prompt, env, network);
    AppendNewMembers(before.attemptedModels, models);
    AppendNewKeepsPrefix(before.attemptedModels, models);
    if NoDuplicates(before.attemptedModels) {
      AppendNewNoDuplicates(before.attemptedModels, models);
    }
    forall m | m in c.requested ensures m in models {
      var i :| 0 <= i < |c.requested| && c.requested[i] == m;
      assert c.requested[i] == models[i];
    }
  }

  /** A keyed call requests a prefix of the candidates: a 404 on any but the
      last model moves on to the next one, and every other outcome ends the
      call after that one request. */
  lemma OnlyNotFoundAdvances(before: Snapshot, prompt: string, env: Env, network: (string, string) -> Outcome)
    requires Truthy(env.apiKey)
    ensures var c := GeminiCall(before, prompt, env, network);
      var models := ModelsToTry(env.modelOverride, DEFAULT_GEMINI_MODEL, FALLBACK_GEMINI_MODELS);
      var k := |c.requested|;
      && 1 <= k <= |models| && c.requested == models[..k]
      && (forall i :: 0 <= i < k && i < |models| - 1 && network(models[i], prompt) == HttpFailure(404) ==> i + 1 < k)
      && (forall i :: 0 <= i < k && network(models[i], prompt) != HttpFailure(404) ==> i == k - 1)
  {
    var models := ModelsToTry(env.modelOverride, DEFAULT_GEMINI_MODEL, FALLBACK_GEMINI_MODELS);
    ModelsToTryNonEmpty(env.modelOverride, DEFAULT_GEMINI_MODEL, FALLBACK_GEMINI_MODELS);
    RunModelsShape(models, prompt, network);
  }

  /** A 404 on the last candidate ends the call with NOT_FOUND for that
      model, recorded as the last error, and its message names the model. */
  lemma NotFoundOnLastModel(before: Snapshot, prompt: string, env: Env, network: (string, string) -> Outcome)
    requires Truthy(env.apiKey)
    ensures var c := GeminiCall(before, prompt, env, network);
      var models := ModelsToTry(env.modelOverride, DEFAULT_GEMINI_MODEL, FALLBACK_GEMINI_MODELS);
      network(Last(c.requested), prompt) == HttpFailure(404) ==>
        && c.requested == models
        && c.result == None
        && c.error == Some(NotFound(Last(models)))
        && c.after.lastError == c.error
        && c.after.successfulModel == before.successfulModel
        && Contains(c.error.value.Message(), Quoted(Last(models)))
  {
    var models := ModelsToTry(env.modelOverride, DEFAULT_GEMINI_MODEL, FALLBACK_GEMINI_MODELS);
    ModelsToTryNonEmpty(env.modelOverride, DEFAULT_GEMINI_MODEL, FALLBACK_GEMINI_MODELS);
    RunModelsShape(models, prompt, network);
    NotFoundNamesModel(Last(models));
  }

  /** Exactly one of result and error is set; NO_API_KEY comes back exactly
      when the key is missing, and every other error is also the recorded
      `last_error`. */
  lemma ResultXorError(before: Snapshot, prompt: string, env: Env, network: (string, string) -> Outcome)
    ensures var c := GeminiCall(before, prompt, env, network);
      && (c.result.Some? <==> c.error.None?)
      && (c.error == Some(NoApiKey) <==> !Truthy(env.apiKey))
      && (c.error.Some? && c.error != Some(NoApiKey) ==> c.after.lastError == c.error)
  {
    if Truthy(env.apiKey) {
      var models := ModelsToTry(env.modelOverride, DEFAULT_GEMINI_MODEL, FALLBACK_GEMINI_MODELS);
      ModelsToTryNonEmpty(env.modelOverride, DEFAULT_GEMINI_MODEL, FALLBACK_GEMINI_MODELS);
      RunModelsShape(models, prompt, network);
    }
  }

  /** A reply sets `successful_model` to the model that answered, clears
      `last_error`, and returns the stripped text of the first part. */
  lemma SuccessBookkeeping(before: Snapshot, prompt: string, env: Env, network: (string, string) -> Outcome)
    ensures var c := GeminiCall(before, prompt, env, network);
      c.result.Some? ==>
        var m := Last(c.requested);
        var o := network(m, prompt);
        && o.Answered? && o.body.FirstPart?
        && c.result == Some(Strip(o.body.text.GetOr("")))
        && c.after.successfulModel == Some(m)
        && c.after.lastError == None
  {
    if Truthy(env.apiKey) {
      var models := ModelsToTry(env.modelOverride, DEFAULT_GEMINI_MODEL, FALLBACK_GEMINI_MODELS);
      ModelsToTryNonEmpty(env.modelOverride, DEFAULT_GEMINI_MODEL, FALLBACK_GEMINI_MODELS);
      RunModelsShape(models, prompt, network);
    }
  }

  /** A first part whose text cannot be read (an empty `parts` list, say):
      `successful_model` has already been written and stays, while the call
      fails with UNKNOWN carrying the exception's text. */
  lemma UnreadablePartQuirk(before: Snapshot, prompt: string, env: Env, network: (string, string) -> Outcome)
    ensures var c := GeminiCall(before, prompt, env, network);
      c.requested != [] && UnreadablePart(network(Last(c.requested), prompt)) ==>
        && c.result == None
        && c.error == Some(Unknown(network(Last(c.requested), prompt).body.detail))
        && c.after.lastError == c.error
        && c.after.successfulModel == Some(Last(c.requested))
  {
    if Truthy(env.apiKey) {
      var models := ModelsToTry(env.modelOverride, DEFAULT_GEMINI_MODEL, FALLBACK_GEMINI_MODELS);
      ModelsToTryNonEmpty(env.modelOverride, DEFAULT_GEMINI_MODEL, FALLBACK_GEMINI_MODELS);
      RunModelsShape(models, prompt, network);
    }
  }

  /** Apart from that quirk, a failed call leaves `successful_model` alone,
      and no call ever clears it. */
  lemma FailureKeepsSuccessfulModel(before: Snapshot, prompt: string, env: Env, network: (string, string) -> Outcome)
    ensures var c := GeminiCall(before, prompt, env, network);
      && ((c.error.Some? && (c.requested == [] || !UnreadablePart(network(Last(c.requested), prompt))))
          ==> c.after.successfulModel == before.successfulModel)
      && (before.successfulModel.Some? ==> c.after.successfulModel.Some?)
  {
    if Truthy(env.apiKey) {
      var models := ModelsToTry(env.modelOverride, DEFAULT_GEMINI_MODEL, FALLBACK_GEMINI_MODELS);
      ModelsToTryNonEmpty(env.modelOverride, DEFAULT_GEMINI_MODEL, FALLBACK_GEMINI_MODELS);
      RunModelsShape(models, prompt, network);
    }
  }

  /** Every call keeps the record consistent. */
  lemma CallKeepsConsistent(before: Snapshot, prompt: string, env: Env, network: (string, string) -> Outcome)
    requires Consistent(before)
    ensures Consistent(GeminiCall(before, prompt, env, network).after)
  {
    if Truthy(env.apiKey) {
      AttemptsRecorded(before, prompt, env, network);
      ResultXorError(before, prompt, env, network);
    }
  }

  // ---------------------------------------------------------------------
  // the two-model fallback with the configured models

  /** Both configured models answer 404: NOT_FOUND for `gemini-pro`, both
      recorded as attempted, none as successful. */
  lemma BothModelsNotFound(key: string, prompt: string, network: (string, string) -> Outcome)
    requires key != ""
    requires network("gemini-1.5-flash", prompt) == HttpFailure(404)
    requires network("gemini-pro", prompt) == HttpFailure(404)
    ensures var c := GeminiCall(INITIAL, prompt, Env(Some(key), None), network);
      && c.result == None
      && c.error == Some(NotFound("gemini-pro"))
      && c.requested == ["gemini-1.5-flash", "gemini-pro"]
      && c.after.attemptedModels == ["gemini-1.5-flash", "gemini-pro"]
      && c.after.successfulModel == None
  {
    ConfiguredCandidates(None);
    var models := ["gemini-1.5-flash", "gemini-pro"];
    assert AppendNew([], models) == models by {
      assert "gemini-pro" != "gemini-1.5-flash" by { assert "gemini-pro"[7] != "gemini-1.5-flash"[7]; }
      assert models[1..][1..] == [];
    }
    assert models[1..] == ["gemini-pro"];
  }

  /** The default answers 404 and the fallback replies: its text is
      returned and `gemini-pro` is recorded as the model used. */
  lemma FallbackAnswers(key: string, prompt: string, text: string, network: (string, string) -> Outcome)
    requires key != ""
    requires network("gemini-1.5-flash", prompt) == HttpFailure(404)
    requires network("gemini-pro", prompt) == Answered(FirstPart(Some(text)))
    ensures var c := GeminiCall(INITIAL, prompt, Env(Some(key), None), network);
      && c.result == Some(Strip(text))
      && c.error == None
      && c.requested == ["gemini-1.5-flash", "gemini-pro"]
      && c.after.successfulModel == Some("gemini-pro")
      && c.after.lastError == None
  {
    ConfiguredCandidates(None);
    var models := ["gemini-1.5-flash", "gemini-pro"];
    assert RunModels(models, prompt, network) == RunFrom(models, 1, prompt, network);
    assert models[..2] == models;
    assert RunFrom(models, 1, prompt, network) == Trace(models, Some(Strip(text)), None, true);
  }

  /** A 429 on the default ends the call: `gemini-pro` is never requested,
      though it is already listed as attempted. */
  lemma RateLimitStops(key: string, prompt: string, network: (string, string) -> Outcome)
    requires key != ""
    requires network("gemini-1.5-flash", prompt) == HttpFailure(429)
    ensures var c := GeminiCall(INITIAL, prompt, Env(Some(key), None), network);
      && c.error == Some(RateLimit)
      && c.requested == ["gemini-1.5-flash"]
      && c.after.attemptedModels == ["gemini-1.5-flash", "gemini-pro"]
      && c.after.lastError == Some(RateLimit)
  {
    ConfiguredCandidates(None);
    var models := ["gemini-1.5-flash", "gemini-pro"];
    assert AppendNew([], models) == models by {
      assert "gemini-pro" != "gemini-1.5-flash" by { assert "gemini-pro"[7] != "gemini-1.5-flash"[7]; }
      assert models[1..][1..] == [];
    }
  }

  /** A 2xx body without the expected fields ends the call with
      INVALID_RESPONSE after the first request. */
  lemma MalformedBodyStops(key: string, prompt: string, network: (string, string) -> Outcome)
    requires key != ""
    requires network("gemini-1.5-flash", prompt).Answered?
    requires network("gemini-1.5-flash", prompt).body in {NoCandidates, NoContent, NoParts}
    ensures var c := GeminiCall(INITIAL, prompt, Env(Some(key), None), network);
      && c.error == Some(InvalidResponse)
      && c.requested == ["gemini-1.5-flash"]
      && c.after.successfulModel == None
  {
    ConfiguredCandidates(None);
  }

  /** With `GEMINI_MODEL` set only that model is requested, even when it
      answers 404. */
  lemma OverrideOnly(before: Snapshot, prompt: string, key: string, model: string, network: (string, string) -> Outcome)
    requires key != "" && model != ""
    ensures var c := GeminiCall(before, prompt, Env(Some(key), Some(model)), network);
      && c.requested == [Strip(model)]
      && (network(Strip(model), prompt) == HttpFailure(404) ==> c.error == Some(NotFound(Strip(model))))
  {
    var models := [Strip(model)];
    assert ModelsToTry(Some(model), DEFAULT_GEMINI_MODEL, FALLBACK_GEMINI_MODELS) == models;
    assert models[..1] == models;
    assert RunModels(models, prompt, network) == StopTrace(models, Classify(Strip(model), network(Strip(model), prompt)));
  }

  // ---------------------------------------------------------------------
  // translate_text_with_gemini

  /** On an error the input comes back unchanged and `translation_errors`
      goes up by exactly one; otherwise the counter is untouched and the
      reply comes back without asterisks (the input when the reply is
      empty). Nothing else in the record differs from the call's own
      effect. */
  lemma TranslationFallback(before: Snapshot, text: string, context: string, env: Env, network: (string, string) -> Outcome)
    ensures var c := GeminiCall(before, TranslationPrompt(text, context), env, network);
      var tr := Translation(before, text, context, env, network);
      && (c.error.Some? ==> tr.text == text && tr.after == c.after.(translationErrors := before.translationErrors + 1))
      && (c.error.None? ==> tr.after == c.after && tr.after.translationErrors == before.translationErrors)
      && (c.error.None? && c.result.value != "" ==> tr.text == RemoveStars(c.result.value) && '*' !in tr.text)
      && (c.error.None? && c.result.value == "" ==> tr.text == text)
  {
  }

  /** Without an API key the input comes back as it is and the only change
      to the record is one more translation error. */
  lemma TranslationWithoutKey(before: Snapshot, text: string, context: string, env: Env, network: (string, string) -> Outcome)
    requires !Truthy(env.apiKey)
    ensures Translation(before, text, context, env, network)
         == Translated(before.(translationErrors := before.translationErrors + 1), text)
  {
  }

  /** Translating keeps the record consistent. */
  lemma TranslationKeepsConsistent(before: Snapshot, text: string, context: string, env: Env, network: (string, string) -> Outcome)
    requires Consistent(before)
    ensures Consistent(Translation(before, text, context, env, network).after)
  {
    CallKeepsConsistent(before, TranslationPrompt(text, context), env, network);
  }

  // ---------------------------------------------------------------------
  // get_summary_from_gemini

  /** The placeholder for each kind of error: one line for NOT_FOUND
      whatever the model, one each for NO_API_KEY, RATE_LIMIT and
      CONNECTION, and one shared by every other code. */
  lemma PlaceholderByKind(e: ApiError)
    ensures e.NotFound? ==> SummaryPlaceholder(e) == SUMMARY_NO_ACCESS
    ensures e.NoApiKey? ==> SummaryPlaceholder(e) == SUMMARY_NO_KEY
    ensures e.RateLimit? ==> SummaryPlaceholder(e) == SUMMARY_RATE_LIMITED
    ensures e.Connection? ==> SummaryPlaceholder(e) == SUMMARY_NO_CONNECTION
    ensures e.InvalidResponse? || e.HttpError? || e.Unknown? ==> SummaryPlaceholder(e) == SUMMARY_DELAYED
  {
  }

  /** On an error the summary is that error's placeholder and the error is
      recorded as `summary_error`; otherwise the record is the call's own
      and the summary is the reply, or the "nothing to report" line when
      the reply is empty. The summary is never empty. */
  lemma SummaryFallback(before: Snapshot, reportText: string, env: Env, network: (string, string) -> Outcome)
    ensures var c := GeminiCall(before, SummaryPrompt(reportText), env, network);
      var s := Summary(before, reportText, env, network);
      && (c.error.Some? ==> s.summary == SummaryPlaceholder(c.error.value) && s.after == c.after.(summaryError := c.error))
      && (c.error.None? ==> s.after == c.after && s.summary == if c.result.value == "" then SUMMARY_NOTHING else c.result.value)
      && s.summary != ""
  {
  }

  /** Without an API key the summary is the "key not set" line, and
      `summary_error` is the only field that changes. */
  lemma SummaryWithoutKey(before: Snapshot, reportText: string, env: Env, network: (string, string) -> Outcome)
    requires !Truthy(env.apiKey)
    ensures Summary(before, reportText, env, network)
         == Summarized(before.(summaryError := Some(NoApiKey)), SUMMARY_NO_KEY)
  {
  }

  /** Summarising keeps the record consistent. */
  lemma SummaryKeepsConsistent(before: Snapshot, reportText: string, env: Env, network: (string, string) -> Outcome)
    requires Consistent(before)
    ensures Consistent(Summary(before, reportText, env, network).after)
  {
    CallKeepsConsistent(before, SummaryPrompt(reportText), env, network);
  }
}
