/** app/utils/errorMessages.ts: turning a rejected request into the text shown to the user. */
module ErrorMessages {
  import opened Wrappers
  import opened Strings
  import opened Json

  /** The `response` a fetch error may carry. `None` stands for null or undefined. */
  datatype Response = Response(status: Option<int>, privateData: Option<Value>, data: Option<Value>)

  /** The shape of whatever was thrown, as `toUiError` reads it; anything that is not an
    * object reads as every property undefined. */
  datatype FetchError = FetchError(
    status: Option<int>,
    statusMessage: Option<Value>,
    data: Option<Value>,
    response: Option<Response>)

  datatype UiError = UiError(title: string, message: string, code: Option<string>)

  const NetworkError := UiError("Connection problem",
    "We couldn\U{2019}t reach the server. Check your internet connection and try again.", Some("NETWORK"))
  const UnauthorizedError := UiError("Sign-in failed",
    "That email or password isn\U{2019}t correct. Please try again.", Some("UNAUTHORIZED"))
  const ForbiddenError := UiError("Access denied",
    "Your account doesn\U{2019}t have permission to sign in here.", Some("FORBIDDEN"))
  const RateLimitError := UiError("Too many attempts",
    "Please wait a moment and try again.", Some("RATE_LIMIT"))
  const ServerError := UiError("Server error",
    "Something went wrong on our side. Please try again in a bit.", Some("SERVER_ERROR"))
  const FallbackTitle := "Couldn\U{2019}t sign in"
  const GenericMessage := "Please check your details and try again."
  const MaxMessageLength := 160

  /** `e?.status ?? e?.response?.status`. */
  function Status(e: FetchError): (r: Option<int>)
    ensures e.status.Some? ==> r == e.status
    ensures e.status.None? && e.response.Some? ==> r == e.response.value.status
    ensures e.status.None? && e.response.None? ==> r.None?
  {
    if e.status.Some? then e.status
    else if e.response.Some? then e.response.value.status
    else None
  }

  /** `e?.data ?? e?.response?._data ?? e?.response?.data`. */
  function Data(e: FetchError): (r: Option<Value>)
    ensures e.data.Some? && e.data.value != Null ==> r == e.data
    ensures (e.data.None? || e.data == Some(Null)) && e.response.None? ==> r.None?
    ensures (e.data.None? || e.data == Some(Null)) && e.response.Some? ==>
      r == Coalesce(e.response.value.privateData, e.response.value.data)
  {
    var inner := if e.response.Some? then Coalesce(e.response.value.privateData, e.response.value.data) else None;
    Coalesce(e.data, inner)
  }

  /** The backend's own message: `data.message` if it is a string, else `e.statusMessage`
    * if that is a string. */
  function BackendMessage(e: FetchError): (r: Option<string>)
    ensures Data(e).Some? && StringAt(Data(e).value, "message").Some? ==>
      r == StringAt(Data(e).value, "message")
    ensures r.Some? ==>
      || (Data(e).Some? && Get(Data(e).value, "message") == Some(Str(r.value)))
      || e.statusMessage == Some(Str(r.value))
    ensures r.None? ==> e.statusMessage.None? || !e.statusMessage.value.Str?
  {
    var fromData := if Data(e).Some? then StringAt(Data(e).value, "message") else None;
    if fromData.Some? then fromData
    else if e.statusMessage.Some? && e.statusMessage.value.Str? then Some(e.statusMessage.value.s)
    else None
  }

  /** The backend message is shown when it is non-empty and at most 160 UTF-16 units long. */
  predicate Presentable(message: Option<string>)
    ensures Presentable(message) ==> message.Some? && 1 <= |message.value| <= MaxMessageLength
    ensures
      && message.Some? && message.value != "" && |message.value| <= MaxMessageLength
      && (forall k :: 0 <= k < |message.value| ==> message.value[k] as int <= 0xFFFF)
      ==> Presentable(message)
  {
    message.Some? && message.value != "" && Utf16Length(message.value) <= MaxMessageLength
  }

  /** `toUiError(err)`. It is total, always gives a title and a message, and classifies by
    * status: none or 0 is a network problem; 401, 403 and 429 have their own text; any
    * other status from 500 up is a server error; every other status shows the backend's
    * message when presentable, else a generic one, coded with the status in decimal. */
  function ToUiError(e: FetchError): (r: UiError)
    ensures r.title != "" && r.message != "" && r.code.Some?
    ensures r.code == Some("NETWORK") <==> Status(e).None? || Status(e) == Some(0)
    ensures r.code == Some("UNAUTHORIZED") <==> Status(e) == Some(401)
    ensures r.code == Some("FORBIDDEN") <==> Status(e) == Some(403)
    ensures r.code == Some("RATE_LIMIT") <==> Status(e) == Some(429)
    ensures r.code == Some("SERVER_ERROR") <==>
      Status(e).Some? && Status(e).value >= 500
    ensures Status(e).None? || Status(e) == Some(0) ==> r == NetworkError
    ensures Status(e) == Some(401) ==> r == UnauthorizedError
    ensures Status(e) == Some(403) ==> r == ForbiddenError
    ensures Status(e) == Some(429) ==> r == RateLimitError
    ensures Status(e).Some? && Status(e).value >= 500 ==> r == ServerError
    ensures r.title == FallbackTitle <==>
      Status(e).Some? && Status(e).value !in {0, 401, 403, 429} && Status(e).value < 500
    ensures r.title == FallbackTitle ==>
      && r.code == Some(IntToString(Status(e).value))
      && r.message == (if Presentable(BackendMessage(e)) then BackendMessage(e).value else GenericMessage)
  {
    var status := Status(e);
    if status.None? || status.value == 0 then NetworkError
    else if status.value == 401 then UnauthorizedError
    else if status.value == 403 then ForbiddenError
    else if status.value == 429 then RateLimitError
    else if status.value >= 500 then ServerError
    else
      var message := BackendMessage(e);
      if Presentable(message) then UiError(FallbackTitle, message.value, Some(IntToString(status.value)))
      else UiError(FallbackTitle, GenericMessage, Some(IntToString(status.value)))
  }

  /** A message over the limit is replaced, counting UTF-16 units: 81 characters outside
    * the Basic Multilingual Plane are 162 units long, too long to show. */
  lemma LongMessageHidden(e: FetchError)
    requires Status(e) == Some(400)
    requires BackendMessage(e).Some? && |BackendMessage(e).value| == 81
    requires forall k :: 0 <= k < 81 ==> BackendMessage(e).value[k] as int > 0xFFFF
    ensures ToUiError(e).message == GenericMessage
  {
    var m := BackendMessage(e).value;
    WideLength(m);
  }

  lemma {:induction false} WideLength(s: string)
    requires forall k :: 0 <= k < |s| ==> s[k] as int > 0xFFFF
    ensures Utf16Length(s) == 2 * |s|
    decreases |s|
  {
    if s != [] {
      WideLength(s[1..]);
    }
  }
}
