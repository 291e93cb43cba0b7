/** The status tags carried in every JSON body (`utils/HTTPStatusText`). The
    module defining them is not part of this model, so SUCCESS, FAIL and ERROR
    are three distinct abstract constants, each a non-empty string; `Text`
    stands for any other string a caller passes as a status tag. */
module HttpStatusText {

  datatype StatusText = SUCCESS | FAIL | ERROR | Text(text: string)

  /** JavaScript truthiness of a status tag: only the empty string is falsy. */
  predicate IsTruthy(t: StatusText) {
    !(t.Text? && t.text == "")
  }
}

/** The error record thrown by the handlers (`utils/customError.js`). */
module CustomError {
  import opened Wrappers
  import opened HttpStatusText

  /** Any error that reaches the central formatter. Fields that a thrown value
      may lack are options; a `CustomError` always has all three. */
  datatype AppError = AppError(message: string, statusCode: Option<int>, statusText: Option<StatusText>)

  /** The literal default of the constructor's third parameter. */
  const DefaultStatusText: StatusText := Text("fail")

  /** `new CustomError(message, statusCode, statusText = "fail")`. */
  function NewCustomError(message: string, statusCode: int, statusText: StatusText := DefaultStatusText): (e: AppError)
    ensures e.message == message
    ensures e.statusCode == Some(statusCode)
    ensures e.statusText == Some(statusText)
  {
    AppError(message, Some(statusCode), Some(statusText))
  }

  /** Leaving the third argument out gives the literal status tag "fail". */
  lemma OmittedStatusTextIsFail(message: string, statusCode: int)
    ensures NewCustomError(message, statusCode).statusText == Some(Text("fail"))
    ensures NewCustomError(message, statusCode) == NewCustomError(message, statusCode, Text("fail"))
  {
  }
}

/** The central error formatter (`utils/errorHandler.js`): every failure path
    of every handler ends here. */
module ErrorHandler {
  import opened Wrappers
  import opened HttpStatusText
  import opened CustomError

  /** The HTTP status code and JSON body `{status, message}` sent for an error. */
  datatype ErrorResponse = ErrorResponse(statusCode: int, status: StatusText, message: string)

  const DefaultStatusCode := 500
  const DefaultMessage := "Internal server error"

  /** Each field of the response is the error's own field when that field is
      truthy (`a || b`), and the default otherwise, so the response never
      carries a falsy field. */
  function FormatError(e: AppError): (r: ErrorResponse)
    ensures r.statusCode != 0 && IsTruthy(r.status) && r.message != ""
    ensures e.statusCode.Some? && e.statusCode.value != 0 ==> r.statusCode == e.statusCode.value
    ensures e.statusCode.None? || e.statusCode.value == 0 ==> r.statusCode == 500
    ensures e.statusText.Some? && IsTruthy(e.statusText.value) ==> r.status == e.statusText.value
    ensures e.statusText.None? || !IsTruthy(e.statusText.value) ==> r.status == FAIL
    ensures e.message != "" ==> r.message == e.message
    ensures e.message == "" ==> r.message == "Internal server error"
  {
    var code := if e.statusCode.Some? && e.statusCode.value != 0 then e.statusCode.value else DefaultStatusCode;
    var text := if e.statusText.Some? && IsTruthy(e.statusText.value) then e.statusText.value else FAIL;
    var message := if e.message != "" then e.message else DefaultMessage;
    ErrorResponse(code, text, message)
  }

  /** An error carrying a status code and a status tag is reported exactly as
      it is when, and only when, its code, tag and message are all truthy. */
  lemma FormatKeepsTruthyFields(e: AppError, code: int, text: StatusText)
    requires e.statusCode == Some(code) && e.statusText == Some(text)
    ensures FormatError(e) == ErrorResponse(code, text, e.message) <==> (code != 0 && IsTruthy(text) && e.message != "")
  {
  }

  /** A `CustomError` built with a non-zero code, a non-empty message and a
      non-empty status tag is reported as exactly those three values; built
      without a status tag it is reported with the literal tag "fail". */
  lemma CustomErrorFormatsAsGiven(message: string, statusCode: int, statusText: StatusText)
    requires statusCode != 0 && message != "" && IsTruthy(statusText)
    ensures FormatError(NewCustomError(message, statusCode, statusText)) == ErrorResponse(statusCode, statusText, message)
    ensures FormatError(NewCustomError(message, statusCode)) == ErrorResponse(statusCode, Text("fail"), message)
  {
  }
}
