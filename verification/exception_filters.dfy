/** The back end's exception filters: how a database error, an HTTP
  * exception or a Cloudinary failure becomes the status and message of the
  * error response, and when it is logged as fatal. */
module ExceptionFilters {
  import opened Wrappers
  import opened JsStrings
  import opened Seqs
  import opened JsonValues
  import opened HttpErrors

  // ------------------------------------------------------------- database

  // The messages the database filter answers with.
  const DuplicateRecordMessage := "A record with this value already exists"
  const RecordNotFoundMessage := "Record not found"
  const ForeignKeyMessage := "Foreign key constraint failed"
  const InvalidIdMessage := "Invalid ID provided"
  const InvalidDataMessage := "Invalid data provided"
  const ConnectionFailedMessage := "Database connection failed"
  const OperationFailedMessage := "Database operation failed"
  const DatabaseErrorMessage := "Database error occurred"

  /** The Prisma error classes the filter catches; a known request error
    * carries its code. */
  datatype PrismaError =
    | KnownRequest(code: string)
    | UnknownRequest
    | RustPanic
    | Initialization
    | Validation

  /** The status and message the database filter answers with. */
  function PrismaMapping(e: PrismaError): (r: HttpError)
    ensures r.status in {400, 404, 409, 500, 503}
    ensures e == KnownRequest("P2002") <==> r == HttpError(409, DuplicateRecordMessage)
    ensures e == KnownRequest("P2025") <==> r == HttpError(404, RecordNotFoundMessage)
    ensures e == KnownRequest("P2003") <==> r == HttpError(400, ForeignKeyMessage)
    ensures e == KnownRequest("P2014") <==> r == HttpError(400, InvalidIdMessage)
    ensures e.Validation? <==> r == HttpError(400, InvalidDataMessage)
    ensures e.Initialization? <==> r.status == 503
    ensures e.KnownRequest? && e.code !in {"P2002", "P2025", "P2003", "P2014"} <==>
            r == HttpError(500, OperationFailedMessage)
    ensures e.UnknownRequest? || e.RustPanic? <==> r == HttpError(500, DatabaseErrorMessage)
  {
    match e
    case KnownRequest(code) =>
      if code == "P2002" then HttpError(409, DuplicateRecordMessage)
      else if code == "P2025" then HttpError(404, RecordNotFoundMessage)
      else if code == "P2003" then HttpError(400, ForeignKeyMessage)
      else if code == "P2014" then HttpError(400, InvalidIdMessage)
      else HttpError(500, OperationFailedMessage)
    case Validation => HttpError(400, InvalidDataMessage)
    case Initialization => HttpError(503, ConnectionFailedMessage)
    case _ => HttpError(500, DatabaseErrorMessage)
  }

  /** The database filter's `catch`: `status` and `message` start at 500
    * and "Database error occurred" and are overwritten by the branch for
    * the error. Only an error of no known class is logged as fatal. */
  method PrismaCatch(e: PrismaError) returns (response: HttpError, fatal: bool)
    ensures response == PrismaMapping(e)
    ensures fatal <==> e.UnknownRequest? || e.RustPanic?
  {
    var status := 500;
    var message := DatabaseErrorMessage;
    fatal := false;
    if e.KnownRequest? {
      if e.code == "P2002" {
        status, message := 409, DuplicateRecordMessage;
      } else if e.code == "P2025" {
        status, message := 404, RecordNotFoundMessage;
      } else if e.code == "P2003" {
        status, message := 400, ForeignKeyMessage;
      } else if e.code == "P2014" {
        status, message := 400, InvalidIdMessage;
      } else {
        message := OperationFailedMessage;
      }
    } else if e.Validation? {
      status, message := 400, InvalidDataMessage;
    } else if e.Initialization? {
      status, message := 503, ConnectionFailedMessage;
    } else {
      fatal := true;
    }
    response := HttpError(status, message);
  }

  // ------------------------------------------------------ HTTP exceptions

  /** What `getResponse()` of an HTTP exception returns: a plain string, or
    * an object whose `message` property may be missing. */
  datatype ExceptionBody =
    | StringBody(text: string)
    | ObjectBody(message: Option<Json>)

  /** One element of an array as `join` prints it. */
  function ElementText(v: Json): string {
    if v.JNull? then "" else ToJsString(v)
  }

  /** The response of the HTTP exception filter: the exception's own status,
    * the message, and whether it is logged as fatal. */
  datatype ErrorResponse = ErrorResponse(status: int, message: Json, fatal: bool)

  /** The HTTP exception filter. A string body is the message verbatim; for
    * an object body the message is its truthy `message` property, else the
    * exception's message, with an array joined by ", ". */
  function HttpCatch(status: int, body: ExceptionBody, exceptionMessage: string): (r: ErrorResponse)
    ensures r.status == status
    ensures r.fatal <==> status >= 500
    ensures body.StringBody? ==> r.message == JString(body.text)
    ensures (&& body.ObjectBody? && body.message.Some? && body.message.value.JArray?) ==>
              r.message == JString(Join(Map(ElementText, body.message.value.items), ", "))
    ensures body.ObjectBody? && !(body.message.Some? && JsonTruthy(body.message.value)) ==>
              r.message == JString(exceptionMessage)
    ensures (&& body.ObjectBody? && body.message.Some? && JsonTruthy(body.message.value)
             && !body.message.value.JArray?) ==>
              r.message == body.message.value
  {
    var message :=
      match body
      case StringBody(text) => JString(text)
      case ObjectBody(m) =>
        var v := OrElse(m, JString(exceptionMessage));
        if v.JArray? then JString(Join(Map(ElementText, v.items), ", ")) else v;
    ErrorResponse(status, message, status >= 500)
  }

  /** The exceptions the services throw (`new BadRequestException(msg)` and
    * the like, whose body is `{ message: msg, ... }`) reach the client with
    * their own status and message, even an empty one. */
  lemma ServiceErrorsPassThrough(e: HttpError)
    ensures HttpCatch(e.status, ObjectBody(Some(JString(e.message))), e.message)
            == ErrorResponse(e.status, JString(e.message), e.status >= 500)
  {
  }

  /** A validation failure with several messages reports them all, in
    * order, separated by ", ". */
  lemma ValidationMessagesJoined(status: int, a: string, b: string, exceptionMessage: string)
    ensures HttpCatch(status, ObjectBody(Some(JArray([JString(a), JString(b)]))), exceptionMessage).message
            == JString(a + ", " + b)
  {
    assert Map(ElementText, [JString(a), JString(b)]) == [a, b];
    assert Join([a, b], ", ") == a + ", " + Join([b], ", ");
  }

  // ----------------------------------------------------------- Cloudinary

  /** The error Cloudinary reported: its `http_code` (`None` when it is not
    * a number), its message and its name. */
  datatype UploadError = UploadError(httpCode: Option<int>, message: Option<string>, name: Option<string>)

  const CloudinaryFallback := "Cloudinary operation failed"

  /** The message of `new CloudinaryException(original)`. */
  function CloudinaryExceptionMessage(original: Option<UploadError>): (m: string)
    ensures m != ""
    ensures original.Some? && Truthy(original.value.message) ==> m == original.value.message.value
  {
    if original.Some? && Truthy(original.value.message) then original.value.message.value
    else CloudinaryFallback
  }

  /** Cloudinary reported a numeric code that is an error status. */
  predicate UsableCode(original: Option<UploadError>) {
    original.Some? && original.value.httpCode.Some? && 400 <= original.value.httpCode.value < 600
  }

  /** The Cloudinary filter's `catch`: `status` is the reported code, or 502
    * when that is not a number, and is then replaced by 502 when outside
    * [400, 600). The message is the original's, else the exception's, else
    * the fallback. Statuses from 500 on are logged as fatal. */
  method CloudinaryCatch(original: Option<UploadError>, exceptionMessage: string)
    returns (status: int, message: string, fatal: bool)
    ensures 400 <= status < 600
    ensures UsableCode(original) ==> status == original.value.httpCode.value
    ensures !UsableCode(original) ==> status == 502
    ensures message != ""
    ensures original.Some? && Truthy(original.value.message) ==> message == original.value.message.value
    ensures !(original.Some? && Truthy(original.value.message)) && exceptionMessage != "" ==> message == exceptionMessage
    ensures exceptionMessage == CloudinaryExceptionMessage(original) ==> message == exceptionMessage
    ensures fatal <==> status >= 500
  {
    status := if original.Some? && original.value.httpCode.Some? then original.value.httpCode.value else 502;
    if status < 400 || status >= 600 {
      status := 502;
    }
    var own := if original.Some? then original.value.message else None;
    message := if Truthy(own) then own.value
               else if exceptionMessage != "" then exceptionMessage
               else CloudinaryFallback;
    fatal := status >= 500;
  }
}
