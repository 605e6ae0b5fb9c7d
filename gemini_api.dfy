/** What one request to the Gemini `generateContent` endpoint can come back
    with, how `call_gemini_api` classifies it, and the error records it
    hands back (`{"code": ..., "message": ...}` in send_report.py). */
module GeminiApi {
  import opened Optional
  import opened PyStrings

  /** The error records `call_gemini_api` returns, one constructor per
      `code`; the fields are what the record's `message` is built from. */
  datatype ApiError =
    | NoApiKey
    | InvalidResponse
    | RateLimit
    | NotFound(model: string)
    | HttpError(status: nat)
    | Connection
    | Unknown(detail: string)
  {
    /** The record's `code` field. */
    function Code(): string {
      match this
      case NoApiKey => "NO_API_KEY"
      case InvalidResponse => "INVALID_RESPONSE"
      case RateLimit => "RATE_LIMIT"
      case NotFound(_) => "NOT_FOUND"
      case HttpError(_) => "HTTP_ERROR"
      case Connection => "CONNECTION"
      case Unknown(_) => "UNKNOWN"
    }

    /** The record's `message` field. */
    function Message(): string {
      match this
      case NoApiKey => "(API 키 없음)"
      case InvalidResponse => "API 응답 구조 오류"
      case RateLimit => "API 한도 초과"
      case NotFound(model) => NOT_FOUND_HEAD + Quoted(model) + NOT_FOUND_TAIL
      case HttpError(status) => "API 요청 실패: " + DecimalString(status)
      case Connection => "API 연결 실패"
      case Unknown(detail) => "알 수 없는 에러: " + detail
    }
  }

  /** `f"'{s}'"`. */
  function Quoted(s: string): string {
    "'" + s + "'"
  }

  /** The text around the quoted model name in the NOT_FOUND message. */
  const NOT_FOUND_HEAD: string := "모델 "
  const NOT_FOUND_TAIL: string := "에 대한 접근 권한이 없어 404가 발생했습니다. API 키 자체는 인식되었습니다."

  /** The shape of a 2xx JSON body, as far as the caller looks into it:
      `candidates` missing or empty, the first candidate without `content`,
      that content without `parts`, a first part whose text cannot be read,
      or the first part's `text` (None when the field is missing).
      `PartUnreadable` is every body that passes the shape test of
      send_report.py:106 but makes line 109 raise, with `str(e)` as its
      detail. Examples are an empty `parts` list ("list index out of
      range"), `parts` that is not a list, a `content` that is not a
      dictionary but contains "parts" (a string or a list), a first part
      that is not a dictionary, or a `text` that is not a string. */
  datatype Body =
    | NoCandidates
    | NoContent
    | NoParts
    | PartUnreadable(detail: string)
    | FirstPart(text: Option<string>)

  /** How one `requests.post` to a model ends: a parsed 2xx body, a
      `RequestException` that carries a response with this status, a
      `RequestException` without a response (DNS, refused connection,
      timeout), or any other exception raised before the body's shape is
      accepted, described by `str(e)`. */
  datatype Outcome =
    | Answered(body: Body)
    | HttpFailure(status: nat)
    | NoResponse
    | Raised(detail: string)

  /** The request was answered, but reading the first part's text raised,
      after `successful_model` had been written. */
  predicate UnreadablePart(o: Outcome) {
    o.Answered? && o.body.PartUnreadable?
  }

  /** The verdict on one attempt: a reply text; a 404, the one outcome after
      which the loop may try the next model; or an error that ends the call.
      `marked` says that `successful_model` was written before the error. */
  datatype Step =
    | Replied(text: string)
    | Missing(error: ApiError)
    | Halted(error: ApiError, marked: bool)

  /** The body of the `try` and its handlers (send_report.py:100-140), for
      one model and the outcome of its request. */
  function Classify(model: string, outcome: Outcome): (s: Step)
    ensures s.Missing? <==> outcome == HttpFailure(404)
    ensures s.Missing? ==> s.error == NotFound(model)
    ensures s.Replied? <==> outcome.Answered? && outcome.body.FirstPart?
    ensures s.Halted? && s.marked <==> UnreadablePart(outcome)
    ensures s.Halted? && s.marked ==> s.error == Unknown(outcome.body.detail)
    ensures !s.Replied? ==> s.error != NoApiKey
  {
    match outcome
    case Answered(body) =>
      (match body
       case FirstPart(text) => Replied(Strip(text.GetOr("")))
       case PartUnreadable(detail) => Halted(Unknown(detail), true)
       case _ => Halted(InvalidResponse, false))
    case HttpFailure(status) =>
      if status == 429 then Halted(RateLimit, false)
      else if status == 404 then Missing(NotFound(model))
      else Halted(HttpError(status), false)
    case NoResponse => Halted(Connection, false)
    case Raised(detail) => Halted(Unknown(detail), false)
  }

  /** The NOT_FOUND message names the model that was refused. */
  lemma NotFoundNamesModel(model: string)
    ensures Contains(NotFound(model).Message(), Quoted(model))
  {
    ContainsInfix(NOT_FOUND_HEAD, Quoted(model), NOT_FOUND_TAIL);
  }

  /** Each error code is carried by exactly one kind of error, so a test
      on the code is a test on the kind. */
  lemma CodesIdentifyKinds(e: ApiError)
    ensures e.Code() == "NO_API_KEY" <==> e.NoApiKey?
    ensures e.Code() == "INVALID_RESPONSE" <==> e.InvalidResponse?
    ensures e.Code() == "RATE_LIMIT" <==> e.RateLimit?
    ensures e.Code() == "NOT_FOUND" <==> e.NotFound?
    ensures e.Code() == "HTTP_ERROR" <==> e.HttpError?
    ensures e.Code() == "CONNECTION" <==> e.Connection?
    ensures e.Code() == "UNKNOWN" <==> e.Unknown?
  {
  }
}
