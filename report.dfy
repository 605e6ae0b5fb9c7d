/** The end-of-run console report: which lines `print_gemini_diagnostics`
    prints about the Gemini calls, and which advice
    `print_followup_instructions` gives, both decided from the
    `GEMINI_DIAGNOSTICS` record alone. Each line is a constructor; its
    wording is not modelled. */
module RunReport {
  import opened Optional
  import opened GeminiApi
  import opened GeminiSpec
  import opened GeminiProperties

  /** The lines under "[Gemini 호출 진단]". */
  datatype DiagnosticsLine =
    | Attempted(models: seq<string>)               // the models tried, comma-joined
    | UsedModel(model: string)                     // the model actually used
    | CallFailed(code: string, message: string)    // the last call's error
    | AccessHint                                   // how to get access to a refused model
    | NotCalled                                    // Gemini was never called
    | SummaryFailed(message: string, code: string) // the summary fell back to a placeholder
    | SummaryFine                                  // the summary was made or not needed
    | TranslationFailures(count: nat)              // that many texts went out in English
    | AllTranslated                                // every translation succeeded

  /** `print_gemini_diagnostics()`: its four blocks, in order. */
  function DiagnosticsReport(s: Snapshot): seq<DiagnosticsLine> {
    AttemptedSection(s) + ModelSection(s) + SummarySection(s) + TranslationSection(s)
  }

  function AttemptedSection(s: Snapshot): seq<DiagnosticsLine> {
    if s.attemptedModels != [] then [Attempted(s.attemptedModels)] else []
  }

  function ModelSection(s: Snapshot): seq<DiagnosticsLine> {
    if Truthy(s.successfulModel) then [UsedModel(s.successfulModel.value)]
    else if s.lastError.Some? then
      var e := s.lastError.value;
      [CallFailed(e.Code(), e.Message())] + (if e.Code() == "NOT_FOUND" then [AccessHint] else [])
    else [NotCalled]
  }

  function SummarySection(s: Snapshot): seq<DiagnosticsLine> {
    if s.summaryError.Some? then [SummaryFailed(s.summaryError.value.Message(), s.summaryError.value.Code())]
    else [SummaryFine]
  }

  function TranslationSection(s: Snapshot): seq<DiagnosticsLine> {
    if s.translationErrors != 0 then [TranslationFailures(s.translationErrors)] else [AllTranslated]
  }

  /** The lines under "[다음 단계 안내]". */
  datatype Advice =
    | SomeTranslationsInEnglish  // translations resume once the model is granted
    | SummaryReplaced            // rerun once the model is granted
    | AllCallsSucceeded          // nothing to fix
    | UpdateByPull               // the repository does not update itself: pull, then rerun
    | NoCallsMade                // check the API key and environment, then rerun
    | NoModelAccess              // the key is recognised but the model is refused
    | RequestModelAccess         // ask for access or set GEMINI_MODEL
    | RerunAfterPull             // pull, then rerun once access is sorted
    | SetApiKey                  // set GEMINI_API_KEY, then rerun
    | RateLimited                // quota exceeded: rerun later
    | ConnectionFailed           // check the network, then rerun
    | OtherError                 // read the console log

  /** `print_followup_instructions()`. */
  function Followup(s: Snapshot): seq<Advice> {
    if Truthy(s.successfulModel) then
      (if s.summaryError.Some? || s.translationErrors != 0 then
         (if s.translationErrors != 0 then [SomeTranslationsInEnglish] else [])
         + (if s.summaryError.Some? then [SummaryReplaced] else [])
       else [AllCallsSucceeded])
      + [UpdateByPull]
    else if s.lastError.None? then [NoCallsMade]
    else
      var code := s.lastError.value.Code();
      if code == "NOT_FOUND" then [NoModelAccess, RequestModelAccess, RerunAfterPull]
      else if code == "NO_API_KEY" then [SetApiKey]
      else if code == "RATE_LIMIT" then [RateLimited]
      else if code == "CONNECTION" then [ConnectionFailed]
      else [OtherError]
  }

  // ---------------------------------------------------------------------
  // the diagnostics lines

  /** The attempted list is shown exactly when a model was attempted; one
      line tells which model was used, or, when none was, the last error's
      code and message (with the access hint exactly after a NOT_FOUND), or
      that Gemini was never called; one line tells whether the summary fell
      back, and with which error; the last line tells how many translations
      failed. */
  lemma DiagnosticsSections(s: Snapshot)
    ensures var r := DiagnosticsReport(s);
      && (Attempted(s.attemptedModels) in r <==> s.attemptedModels != [])
      && (forall m :: UsedModel(m) in r <==> Truthy(s.successfulModel) && m == s.successfulModel.value)
      && (forall code, message :: CallFailed(code, message) in r <==>
            && !Truthy(s.successfulModel) && s.lastError.Some?
            && code == s.lastError.value.Code() && message == s.lastError.value.Message())
      && (NotCalled in r <==> !Truthy(s.successfulModel) && s.lastError.None?)
      && (AccessHint in r <==> !Truthy(s.successfulModel) && s.lastError.Some? && s.lastError.value.NotFound?)
      && (SummaryFine in r <==> s.summaryError.None?)
      && (forall message, code :: SummaryFailed(message, code) in r <==>
            && s.summaryError.Some?
            && message == s.summaryError.value.Message() && code == s.summaryError.value.Code())
      && r[|r| - 1] == (if s.translationErrors == 0 then AllTranslated else TranslationFailures(s.translationErrors))
  {
    var a, m, y, t := AttemptedSection(s), ModelSection(s), SummarySection(s), TranslationSection(s);
    assert forall x :: x in DiagnosticsReport(s) <==> x in a || x in m || x in y || x in t;
    ModelLines(s);
  }

  /** The model block: the model used, or the last error's code and message
      followed by the access hint exactly for NOT_FOUND, or "not called". */
  lemma ModelLines(s: Snapshot)
    ensures var m := ModelSection(s);
      && (forall x :: UsedModel(x) in m <==> Truthy(s.successfulModel) && x == s.successfulModel.value)
      && (forall code, message :: CallFailed(code, message) in m <==>
            && !Truthy(s.successfulModel) && s.lastError.Some?
            && code == s.lastError.value.Code() && message == s.lastError.value.Message())
      && (NotCalled in m <==> !Truthy(s.successfulModel) && s.lastError.None?)
      && (AccessHint in m <==> !Truthy(s.successfulModel) && s.lastError.Some? && s.lastError.value.NotFound?)
  {
    if !Truthy(s.successfulModel) && s.lastError.Some? {
      CodesIdentifyKinds(s.lastError.value);
    }
  }

  // ---------------------------------------------------------------------
  // the follow-up advice

  /** Once some model has answered, the advice always ends with the reminder
      to pull and rerun; it says everything succeeded exactly when neither
      the summary nor any translation fell back, and names each kind of
      fallback that happened. */
  lemma AdviceAfterSuccess(s: Snapshot)
    requires Truthy(s.successfulModel)
    ensures var f := Followup(s);
      && 2 <= |f| <= 3 && f[|f| - 1] == UpdateByPull
      && (AllCallsSucceeded in f <==> s.summaryError.None? && s.translationErrors == 0)
      && (SomeTranslationsInEnglish in f <==> s.translationErrors != 0)
      && (SummaryReplaced in f <==> s.summaryError.Some?)
      && NoCallsMade !in f && OtherError !in f
  {
  }

  /** Without a model that answered, the advice is about the last error
      alone: none recorded means no call was made; NOT_FOUND gives three
      lines about model access; every other code, NO_API_KEY included, gives
      one line. */
  lemma AdviceAfterFailure(s: Snapshot)
    requires !Truthy(s.successfulModel)
    ensures var f := Followup(s);
      && UpdateByPull !in f && AllCallsSucceeded !in f
      && (s.lastError.None? ==> f == [NoCallsMade])
      && (s.lastError.Some? && s.lastError.value.NotFound? ==> f == [NoModelAccess, RequestModelAccess, RerunAfterPull])
      && (s.lastError == Some(RateLimit) ==> f == [RateLimited])
      && (s.lastError == Some(Connection) ==> f == [ConnectionFailed])
      && (s.lastError == Some(NoApiKey) ==> f == [SetApiKey])
      && (s.lastError.Some? && (s.lastError.value.InvalidResponse? || s.lastError.value.HttpError? || s.lastError.value.Unknown?)
          ==> f == [OtherError])
  {
    if s.lastError.Some? {
      CodesIdentifyKinds(s.lastError.value);
    }
  }

  /** The advice to set `GEMINI_API_KEY` is never given: `call_gemini_api`
      returns NO_API_KEY without recording it, so no reachable record has
      it as the last error. */
  lemma ApiKeyAdviceUnreachable(s: Snapshot)
    requires Consistent(s)
    ensures SetApiKey !in Followup(s)
  {
    if !Truthy(s.successfulModel) && s.lastError.Some? {
      CodesIdentifyKinds(s.lastError.value);
    }
  }

  /** A run without an API key: one translation and the summary each fall
      back, yet the advice is the generic "no call was made" line, and the
      diagnostics say Gemini was never called, the summary failed with
      NO_API_KEY and one more translation failed. */
  lemma KeylessRun(before: Snapshot, text: string, context: string, reportText: string, env: Env,
                   network: (string, string) -> Outcome)
    requires !Truthy(env.apiKey) && !Truthy(before.successfulModel) && before.lastError.None?
    ensures var after := Summary(Translation(before, text, context, env, network).after, reportText, env, network).after;
      var r := DiagnosticsReport(after);
      && Followup(after) == [NoCallsMade]
      && NotCalled in r
      && SummaryFailed(NoApiKey.Message(), "NO_API_KEY") in r
      && r[|r| - 1] == TranslationFailures(before.translationErrors + 1)
  {
    TranslationWithoutKey(before, text, context, env, network);
    var mid := Translation(before, text, context, env, network).after;
    SummaryWithoutKey(mid, reportText, env, network);
    var after := Summary(mid, reportText, env, network).after;
    assert after == before.(translationErrors := before.translationErrors + 1, summaryError := Some(NoApiKey));
    DiagnosticsSections(after);
  }

  /** After a keyed call that failed, with no model having answered before
      (and not a first part that could not be read, which records a model), the advice
      is the one for the error the call returned. */
  lemma AdviceForFailedCall(before: Snapshot, prompt: string, env: Env, network: (string, string) -> Outcome)
    requires Truthy(env.apiKey) && !Truthy(before.successfulModel)
    ensures var c := GeminiCall(before, prompt, env, network);
      c.error.Some? && !UnreadablePart(network(Last(c.requested), prompt)) ==>
        var f := Followup(c.after);
        && (c.error.value.NotFound? ==> f == [NoModelAccess, RequestModelAccess, RerunAfterPull])
        && (c.error == Some(RateLimit) ==> f == [RateLimited])
        && (c.error == Some(Connection) ==> f == [ConnectionFailed])
        && (c.error.value.InvalidResponse? || c.error.value.HttpError? || c.error.value.Unknown? ==> f == [OtherError])
        && SetApiKey !in f && NoCallsMade !in f
  {
    var c := GeminiCall(before, prompt, env, network);
    ResultXorError(before, prompt, env, network);
    FailureKeepsSuccessfulModel(before, prompt, env, network);
    if c.error.Some? && !UnreadablePart(network(Last(c.requested), prompt)) {
      AdviceAfterFailure(c.after);
      CodesIdentifyKinds(c.error.value);
    }
  }

  /** A first part that cannot be read (an empty `parts` list, say) makes
      the record look like a success: the model is reported as used and the
      advice is the success advice; neither the diagnostics nor the advice
      mention the call's UNKNOWN error. */
  lemma UnreadablePartReportedAsSuccess(before: Snapshot, prompt: string, env: Env, network: (string, string) -> Outcome)
    ensures var c := GeminiCall(before, prompt, env, network);
      c.requested != [] && Last(c.requested) != "" && UnreadablePart(network(Last(c.requested), prompt)) ==>
        && c.error == Some(Unknown(network(Last(c.requested), prompt).body.detail))
        && UsedModel(Last(c.requested)) in DiagnosticsReport(c.after)
        && Followup(c.after)[|Followup(c.after)| - 1] == UpdateByPull
        && OtherError !in Followup(c.after)
        && forall code, message :: CallFailed(code, message) !in DiagnosticsReport(c.after)
  {
    var c := GeminiCall(before, prompt, env, network);
    UnreadablePartQuirk(before, prompt, env, network);
    if c.requested != [] && Last(c.requested) != "" && UnreadablePart(network(Last(c.requested), prompt)) {
      DiagnosticsSections(c.after);
      AdviceAfterSuccess(c.after);
    }
  }
}
