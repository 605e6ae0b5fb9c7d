# Gemini caller and report decisions of send_report.py

`send_report.py` collects news, weather alerts, holidays and earthquakes for
a fixed list of countries and posts a report to Slack. It translates
headlines and summarises the report through the Gemini `generateContent`
API. This project models the part of the script that makes decisions:

- `call_gemini_api`:
  - It builds the candidate model list: the stripped `GEMINI_MODEL`
    override alone, or `gemini-1.5-flash` followed by the fallbacks that
    are not yet listed.
  - It records every candidate in the process-wide `GEMINI_DIAGNOSTICS`
    record.
  - It requests the candidates in turn. A 404 moves on to the next model;
    every other outcome ends the call.
  - It leaves the outcome in `successful_model` and `last_error`.
- `translate_text_with_gemini` and `get_summary_from_gemini`: turn a failed
  call into a fallback (the untranslated text plus a counter, or a fixed
  placeholder line chosen by error code plus `summary_error`).
- `is_content_noteworthy`: decides whether a report value is worth sending.
- `print_gemini_diagnostics` and `print_followup_instructions`: which lines
  and which advice the end-of-run report prints, as data.

The model has these modules:

- `Optional`: the `Option` type.
- `PyStrings`: the Python string operations the code relies on:
  - `str.strip()`, with the characters `str.isspace()` accepts;
  - the substring test `sub in s`;
  - `replace("*", "")`;
  - `f"{n}"` for a status code.
- `GeminiApi`: the error records (`code` and `message`) and what one
  request can come back with. The request outcome is a datatype chosen by
  an oracle `network(model, prompt)`: a 2xx body of one of five shapes, an
  HTTP status, no response, or another exception. `Classify` is the `try`
  block and its handlers for one model.
- `GeminiSpec`: the pure specification of the Gemini calls:
  - a whole `call_gemini_api` call (`GeminiCall`), with its candidate list
    and its loop (`RunFrom`, one candidate at a time);
  - translation (`Translation`) and summary (`Summary`);
  - `Snapshot`, the value of `GEMINI_DIAGNOSTICS`.
- `GeminiProperties`: what these functions promise, as lemmas.
- `GeminiClient`: `GEMINI_DIAGNOSTICS` as a class whose fields the methods
  update in place:
  - `CallGemini` builds the lists with loops (`AppendMissing`).
  - `TryModels` walks the candidates with a `for` loop that stops unless
    the round ended in a 404 that was not on the last model.
  - `Attempt` is one round of that loop.
  - Each method is proved equal to its specification function (`Attempt`
    to `GeminiApi.Classify`, the others to `GeminiSpec` functions), and
    `CallGemini`, `TranslateText` and `SummarizeReport` keep the record
    `Valid`.
- `Noteworthy`: `is_content_noteworthy`.
- `RunReport`: the diagnostics lines and the follow-up advice, each line a
  constructor of a datatype.

Environment variables are parameters (`Env`): the API key and the model
override, where `None` means unset and the empty string counts as unset, as
in Python. The network is the `network` parameter.

Three behaviours of the code are modelled as written and stated as lemmas:

- A 2xx body can pass the shape test and still make reading the first
  part's text raise. Examples are an empty `parts` list, `parts` that is
  not a list, a `content` that is not a dictionary but still contains
  "parts", a first part that is not a dictionary, or a `text` that is not
  a string.
  The code has already set `successful_model` and cleared `last_error`. The
  generic handler then records UNKNOWN with the exception's text, and
  `successful_model` stays set (`UnreadablePartQuirk`). The report then
  names that model as used and gives the success advice
  (`UnreadablePartReportedAsSuccess`).
- A call without an API key returns NO_API_KEY but never records it. So no
  reachable record has NO_API_KEY as its last error, and the advice to set
  `GEMINI_API_KEY` is never printed (`ApiKeyAdviceUnreachable`). A run
  without a key gets the generic "no call was made" advice (`KeylessRun`).
- Every candidate is recorded as attempted before the first request. So a
  429 on the default still lists `gemini-pro` as attempted
  (`RateLimitStops`).

## Model

| member | source | states |
|---|---|---|
| PyStrings.TrimStart | send_report.py:337 | the first half of `strip()`: drops a whitespace-only prefix and nothing else, so the result is a suffix starting with a non-whitespace character |
| PyStrings.TrimEnd | send_report.py:337 | the second half of `strip()`: drops a whitespace-only suffix and nothing else, so the result is a prefix ending with a non-whitespace character |
| PyStrings.Contains | send_report.py:340-342 | Python's `sub in s`, defined by recursion on `s`; `ContainsAtSomePosition` ties it to "occurs at some position" |
| GeminiApi.ApiError.Code | send_report.py:77-138 | the `code` field of each error record the caller builds; `CodesIdentifyKinds` shows each code names one kind |
| GeminiApi.ApiError.Message | send_report.py:77-138 | the `message` field of each error record: the fixed texts, the quoted model for NOT_FOUND, the status for HTTP_ERROR and `str(e)` for UNKNOWN; `NotFoundNamesModel` and `DecimalStringValue` state the two built ones |
| GeminiSpec.AppendNew | send_report.py:85-87 | appending each name not yet listed, as both loops do; its properties are the `AppendNew*` lemmas |
| GeminiSpec.ModelsToTry | send_report.py:79-87 | the candidate list: the stripped override alone, or the default then the missing fallbacks; `CandidateList` states it |
| GeminiSpec.RunFrom | send_report.py:97-142 | the loop from candidate i: request it, go on after a 404 that is not on the last candidate, stop otherwise; `RunFromShape` states the whole run |
| GeminiSpec.RunFromStep | send_report.py:127-140 | the loop's one-step rule: `RunFrom` unfolded once, used as the proof step for `TryModels`; after the round for candidate i the loop continues at i + 1 exactly on a 404 with candidates left, and otherwise stops with the first i + 1 candidates requested (the whole-run statements are `RunFromShape` and `OnlyNotFoundAdvances`) |
| GeminiSpec.RunModels | send_report.py:97-142 | the loop over all candidates; `RunModelsShape` states it |
| GeminiSpec.TranslationPrompt | send_report.py:145-148 | the news prompt for the "news" context and the weather-alert prompt for every other, each around the quoted text |
| GeminiSpec.Translation | send_report.py:144-159 | what `translate_text_with_gemini` returns and leaves in the record; `TranslationFallback` states it |
| GeminiSpec.SummaryPrompt | send_report.py:205-209 | the analyst instructions followed by the raw report and the closing marker |
| GeminiSpec.SummaryPlaceholder | send_report.py:219-228 | the fixed line chosen by error code; `PlaceholderByKind` states it per kind |
| GeminiSpec.SummaryText | send_report.py:217-229 | the placeholder on an error, otherwise the reply, or the "no issues" line for an empty reply |
| GeminiSpec.Summary | send_report.py:216-229 | what `get_summary_from_gemini` returns and leaves in the record; `SummaryFallback` states it |
| RunReport.DiagnosticsReport | send_report.py:232-259 | the four blocks of the diagnostics report in order; `DiagnosticsSections` states which lines appear |
| RunReport.AttemptedSection | send_report.py:235-237 | the attempted-models line, present exactly when the list is not empty |
| RunReport.ModelSection | send_report.py:239-247 | the used model, or the last error with the access hint for NOT_FOUND, or "not called"; `ModelLines` states it |
| RunReport.SummarySection | send_report.py:249-253 | the summary failure with its message and code, or the "fine" line |
| RunReport.TranslationSection | send_report.py:255-259 | the count of failed translations, or "all translated" when it is zero |
| RunReport.Followup | send_report.py:262-305 | the advice lines chosen from the record; `AdviceAfterSuccess`, `AdviceAfterFailure` and `ApiKeyAdviceUnreachable` state them |
| PyStrings.Strip | send_report.py:335-337 | `strip()` gives the empty string exactly when the value is blank; otherwise the result starts and ends with a non-whitespace character and is a contiguous slice of the input with only whitespace cut from each side |
| PyStrings.StripPadded | send_report.py:335-337 | whitespace added around a string never changes what `strip()` returns |
| PyStrings.StripIdempotent | send_report.py:337 | stripping twice gives what stripping once gives |
| PyStrings.StripAroundWord | send_report.py:337-343 | `strip()` keeps a word whose ends are not whitespace intact, with only the surrounding whitespace removed |
| PyStrings.ContainsAtSomePosition | send_report.py:340-342 | `sub in s` holds exactly when `sub` occurs at some position of `s` |
| PyStrings.ContainsInfix | send_report.py:340-342 | a string contains every string spliced into it |
| PyStrings.RemoveStars | send_report.py:159 | `replace("*", "")` leaves no asterisk and keeps every other character with its multiplicity |
| PyStrings.RemoveStarsConcat | send_report.py:159 | removing asterisks distributes over concatenation |
| PyStrings.RemoveStarsNoStar | send_report.py:159 | a text without asterisks is returned unchanged |
| PyStrings.IsSpace | send_report.py:335-337 | the `str.isspace()` set that `strip()` removes: tab to carriage return, U+001C-U+001F, space, U+0085, U+00A0, U+1680, U+2000-U+200A, U+2028, U+2029, U+202F, U+205F and U+3000 |
| PyStrings.DecimalString | send_report.py:132 | `f"{status}"` in the HTTP_ERROR message: a non-empty string of decimal digits that starts with '0' only for 0, so it has no leading zero; `DecimalStringValue` shows the digits read back as the status |
| PyStrings.DecimalStringValue | send_report.py:132 | the status code in an HTTP_ERROR message is the decimal spelling of the status: its digits read back as the number |
| GeminiApi.Classify | send_report.py:100-140 | one attempt moves on exactly on a 404, which is NOT_FOUND for that model; it replies exactly on a body with a readable first part; it has written `successful_model` before failing exactly when reading that part raised, and then the error is UNKNOWN with the exception's text; it never yields NO_API_KEY |
| GeminiApi.NotFoundNamesModel | send_report.py:122-125 | the NOT_FOUND message names the refused model in quotes |
| GeminiApi.CodesIdentifyKinds | send_report.py:111-138 | each `code` string belongs to exactly one kind of error, so a test on the code is a test on the kind |
| GeminiSpec.AppendNewKeepsPrefix | send_report.py:93-95 | appending the missing models keeps the earlier entries in their places |
| GeminiSpec.AppendNewMembers | send_report.py:93-95 | afterwards the list holds exactly the old entries and the candidates |
| GeminiSpec.AppendNewFresh | send_report.py:85-87 | every entry past the old ones is a new name taken from the appended list |
| GeminiSpec.AppendNewNoDuplicates | send_report.py:93-95 | a duplicate-free list stays duplicate-free |
| GeminiSpec.AppendNewOrder | send_report.py:85-87 | the new entries keep the order of their first occurrences |
| GeminiSpec.ModelsToTryNonEmpty | send_report.py:79-87 | the candidate list is never empty |
| GeminiSpec.RunFromShape | send_report.py:97-142 | from candidate i on, the loop requests a prefix of the candidates reaching past i; every model before the last one requested answered 404; the outcome is the last one's; a 404 there means no candidates were left |
| GeminiSpec.RunModelsShape | send_report.py:97-142 | the whole loop requests at least one model, returns exactly one of text and error, and writes `successful_model` exactly when the last model answered with a first part, readable or not |
| GeminiSpec.GeminiCall | send_report.py:73-142 | a call returns exactly one of result and error, requests some model exactly when the key is set, and never touches `translation_errors` or `summary_error` |
| GeminiSpec.TranslatedText | send_report.py:154-159 | the translation is the input on any error, and otherwise either the input or a text without asterisks that keeps every other character of the reply |
| GeminiProperties.CandidateList | send_report.py:79-87 | with `GEMINI_MODEL` set the list is that name, stripped, alone; otherwise it starts with the default, holds exactly the default and the fallbacks, lists each once, and keeps the fallbacks in order |
| GeminiProperties.ConfiguredCandidates | send_report.py:61-62 | without an override the list is `gemini-1.5-flash`, then `gemini-pro` |
| GeminiProperties.MissingKey | send_report.py:75-77 | without a key the call returns NO_API_KEY, requests nothing and leaves the whole record unchanged |
| GeminiProperties.AttemptsRecorded | send_report.py:93-95 | after a keyed call every candidate and every requested model is in `attempted_models`, nothing else is added, earlier entries keep their places, and the list stays duplicate-free |
| GeminiProperties.OnlyNotFoundAdvances | send_report.py:97-142 | a keyed call requests a prefix of the candidates; a 404 on any but the last moves on to the next; any other outcome is the last request |
| GeminiProperties.NotFoundOnLastModel | send_report.py:121-131 | a 404 from the last model requested means every candidate was requested; the call returns NOT_FOUND for the last candidate, records it as `last_error`, leaves `successful_model` alone, and the message names that model |
| GeminiProperties.ResultXorError | send_report.py:80-142 | exactly one of result and error is returned; NO_API_KEY comes back exactly when the key is missing; every other error is also the recorded `last_error` |
| GeminiProperties.SuccessBookkeeping | send_report.py:105-109 | a result comes only from a body with a first part; it is that part's stripped text, the answering model becomes `successful_model` and `last_error` is cleared |
| GeminiProperties.UnreadablePartQuirk | send_report.py:106-139 | a first part whose text cannot be read fails with UNKNOWN and the exception's text, recorded as `last_error`, while `successful_model` keeps the model that answered |
| GeminiProperties.FailureKeepsSuccessfulModel | send_report.py:97-142 | apart from an unreadable first part, a failed call leaves `successful_model` alone, and no call clears it |
| GeminiProperties.CallKeepsConsistent | send_report.py:73-142 | every call keeps `attempted_models` duplicate-free and never records NO_API_KEY |
| GeminiProperties.BothModelsNotFound | send_report.py:121-131 | both configured models answering 404 gives NOT_FOUND for `gemini-pro`, both attempted, no successful model |
| GeminiProperties.FallbackAnswers | send_report.py:121-131 | a 404 on the default and a reply from `gemini-pro` returns that reply and records `gemini-pro` as used |
| GeminiProperties.RateLimitStops | send_report.py:117-120 | a 429 on the default ends the call after one request, with RATE_LIMIT recorded and both models listed as attempted |
| GeminiProperties.MalformedBodyStops | send_report.py:110-113 | a 2xx body without candidates, content or parts ends the call after one request with INVALID_RESPONSE |
| GeminiProperties.OverrideOnly | send_report.py:81-82 | with `GEMINI_MODEL` set only that model is requested, even when it answers 404 |
| GeminiProperties.TranslationFallback | send_report.py:154-159 | on an error the input comes back and `translation_errors` grows by exactly one; otherwise the counter is untouched and the reply comes back without asterisks, or the input when the reply is empty |
| GeminiProperties.TranslationWithoutKey | send_report.py:154-158 | without a key the input comes back and the only change to the record is one more translation error |
| GeminiProperties.TranslationKeepsConsistent | send_report.py:144-159 | translating keeps the record consistent |
| GeminiProperties.PlaceholderByKind | send_report.py:217-228 | each error kind gets its placeholder: one for NOT_FOUND, NO_API_KEY, RATE_LIMIT and CONNECTION each, and one shared by the rest |
| GeminiProperties.SummaryFallback | send_report.py:216-229 | on an error the summary is that error's placeholder and the error is recorded as `summary_error`; otherwise the record is the call's and the summary is the reply, or the "no issues" line for an empty reply; the summary is never empty |
| GeminiProperties.SummaryWithoutKey | send_report.py:216-223 | without a key the summary is the "key not set" line and `summary_error` is the only field that changes |
| GeminiProperties.SummaryKeepsConsistent | send_report.py:204-229 | summarising keeps the record consistent |
| GeminiClient.AppendMissing | send_report.py:85-87 | the append-if-missing loop yields the list `AppendNew` describes |
| GeminiClient.Diagnostics.constructor | send_report.py:64-70 | the record starts empty: no models, no successful model, no errors, a zero counter |
| GeminiClient.Diagnostics.CallGemini | send_report.py:73-142 | the call returns, and leaves in the record, exactly what `GeminiCall` says, and keeps the record valid |
| GeminiClient.Diagnostics.TryModels | send_report.py:97-142 | the loop requests the models `RunModels` lists and returns its text or error; `last_error` is that error; `successful_model` is the last model requested if it was written; nothing else changes |
| GeminiClient.Diagnostics.Attempt | send_report.py:100-140 | one round ends as `Classify` says, and stops unless it was a 404 on a model that is not the last |
| GeminiClient.Diagnostics.TranslateText | send_report.py:144-159 | the translation and the new record are what `Translation` says, and the record stays valid |
| GeminiClient.Diagnostics.SummarizeReport | send_report.py:204-229 | the summary and the new record are what `Summary` says, and the record stays valid |
| Noteworthy.IsNoteworthy | send_report.py:334-344 | only a present, non-blank value can be noteworthy |
| Noteworthy.PaddingIrrelevant | send_report.py:335-337 | whitespace around a value never changes the verdict |
| Noteworthy.OnlyStrippedMatters | send_report.py:337 | the verdict depends only on the stripped value |
| Noteworthy.MarkedWordSilences | send_report.py:340-343 | a value containing "특보 없음", "에러" or "실패" anywhere is never noteworthy |
| Noteworthy.IgnorePhraseSilences | send_report.py:338-339 | an ignore phrase, with or without whitespace around it, is not noteworthy |
| Noteworthy.ListedSilences | send_report.py:338-339 | a value whose stripped form is an ignore phrase is not noteworthy |
| Noteworthy.BlankSilences | send_report.py:335-336 | `None`, the empty string and blank values are not noteworthy |
| Noteworthy.UnmarkedIsNoteworthy | send_report.py:334-344 | every other value, non-blank, not listed and without a marked word, is noteworthy |
| RunReport.DiagnosticsSections | send_report.py:232-259 | the attempted list is shown exactly when a model was attempted; a used-model line exactly for the recorded model; a failure line exactly when no model answered and an error is recorded, with that error's code and message; "not called" exactly when there is neither a model nor an error; the access hint exactly after a NOT_FOUND; the summary failure line exactly for the recorded summary error, else the "fine" line; the last line counts failed translations |
| RunReport.ModelLines | send_report.py:239-247 | the model block shows the used model, or else the last error's code and message followed by the access hint exactly for NOT_FOUND, or else "not called" |
| RunReport.AdviceAfterSuccess | send_report.py:270-279 | once a model answered the advice ends with the pull reminder, says all succeeded exactly when nothing fell back, and names each kind of fallback |
| RunReport.AdviceAfterFailure | send_report.py:281-305 | without a model the advice is "no call made" for no error, three access lines for NOT_FOUND, and one line for each other code: the set-key line for NO_API_KEY, the rate-limit line, the connection line, and the generic line for INVALID_RESPONSE, HTTP_ERROR and UNKNOWN |
| RunReport.ApiKeyAdviceUnreachable | send_report.py:293-295 | no reachable record makes the advice to set `GEMINI_API_KEY` appear |
| RunReport.KeylessRun | send_report.py:232-283 | a run without a key reports "not called", a NO_API_KEY summary failure and one more failed translation, and its only advice is "no call was made" |
| RunReport.AdviceForFailedCall | send_report.py:285-305 | after a keyed call that failed other than on an unreadable first part, with no earlier success, the advice is the one for the error the call returned, never the API-key advice |
| RunReport.UnreadablePartReportedAsSuccess | send_report.py:239-279 | after a first part that could not be read the report names the model as used and gives the success advice; the diagnostics have no failed-call line and the advice has no line for the UNKNOWN error |

## Left out

- HTTP requests, URLs, headers, the JSON request body and `timeout=30`
  (send_report.py:89-90, 98-103) are not modelled. The outcome of each
  request is the `network` parameter.
- JSON decoding of the reply is not modelled. A body the code cannot read
  is whichever outcome the installed `requests` version makes of it: no
  response, or another exception. The oracle can return either.
- Exceptions raised before the body's shape is accepted are the `Raised`
  outcome and leave `successful_model` alone. Examples are a JSON reply
  that is not an object, or a `candidates` entry that cannot be searched
  for `content`. Exceptions raised while reading the first part's text
  are the `PartUnreadable` body.
- The console line printed before retrying after a 404 (send_report.py:128-129)
  and all other `print` wording are left out. Diagnostics and advice lines
  are constructors, and the `', '.join` of the attempted list is the list
  itself.
- `os.environ` and `.env` loading (send_report.py:12-17) are not
  modelled. The API key and the model override are the `Env` parameter.
- The data-source fetchers, `get_report_data`, Slack posting, the
  top-level script and the country and keyword tables (send_report.py:20-26,
  161-202, 308-331, 349 onwards) are outside the Gemini caller and the
  report decisions.
- Noteworthy.IsNoteworthy: values other than `None` and strings are not
  modelled. The callers only pass the fetchers' strings.
- `print_gemini_diagnostics` falls back to a default when an error record
  has no `message`. That branch is left out: every record the caller
  builds has one.
