/** Every error of the daemon (AntdError, antd/src/error.rs) as the Go and C++
    clients see it over REST and over gRPC, where no error-code metadata is read
    (errorFromGrpc, antd-go/grpc_client.go; check_status,
    antd-cpp/src/grpc_client.cpp). */
module DaemonErrors {
  import opened Text
  import opened Decimal
  import opened JsonCount
  import opened PartialMessage
  import opened PartialErrors

  datatype Variant = RecordNotFound | Existing | InvalidRequest | PaymentFailed | NetworkFailed | TooLargeForMemory
                   | PayloadTooLarge | TimedOut | Unavailable | NotImplemented | InternalFailure | RangeRefused
                   | PointerFinal | PointerForked | Conflicting

  datatype AntdError = Of(v: Variant, text: string) | Shortfall(text: string, retain: Option<bool>)
                     | Partial(e: PartialUpload)

  // ----- the daemon's two encodings -----

  function RestStatus(e: AntdError): int {
    match e
    case Partial(_) => 502
    case Shortfall(_, _) => 503
    case Of(v, _) =>
      match v
      case RecordNotFound => 404
      case Existing => 409
      case InvalidRequest => 400
      case PaymentFailed => 402
      case NetworkFailed => 502
      case TooLargeForMemory => 413
      case PayloadTooLarge => 413
      case TimedOut => 504
      case Unavailable => 503
      case NotImplemented => 501
      case InternalFailure => 500
      case RangeRefused => 416
      case PointerFinal => 409
      case PointerForked => 409
      case Conflicting => 409
  }

  function Code(v: Variant): string {
    match v
    case RecordNotFound => "NOT_FOUND"
    case Existing => "ALREADY_EXISTS"
    case InvalidRequest => "BAD_REQUEST"
    case PaymentFailed => "PAYMENT_REQUIRED"
    case NetworkFailed => "NETWORK_ERROR"
    case TooLargeForMemory => "TOO_LARGE"
    case PayloadTooLarge => "PAYLOAD_TOO_LARGE"
    case TimedOut => "TIMEOUT"
    case Unavailable => "SERVICE_UNAVAILABLE"
    case NotImplemented => "NOT_IMPLEMENTED"
    case InternalFailure => "INTERNAL_ERROR"
    case RangeRefused => "RANGE_NOT_SATISFIABLE"
    case PointerFinal => "POINTER_FINAL"
    case PointerForked => "POINTER_FORKED"
    case Conflicting => "CONFLICT"
  }

  /** The Display text up to the error's own. */
  function Opening(v: Variant): string {
    match v
    case RecordNotFound => "Record not found: "
    case Existing => "Already exists: "
    case InvalidRequest => "Bad request: "
    case PaymentFailed => "Payment error: "
    case NetworkFailed => "Network error: "
    case TooLargeForMemory => "Too large for memory"
    case PayloadTooLarge => "Payload too large: "
    case TimedOut => "Timeout: "
    case Unavailable => "Service unavailable: "
    case NotImplemented => "Not implemented: "
    case InternalFailure => "Internal error: "
    case RangeRefused => "Range not satisfiable: " + "the object is "
    case PointerFinal => "Pointer is final: "
    case PointerForked => "Pointer is forked: "
    case Conflicting => "Conflict: "
  }

  function Display(e: AntdError): string {
    match e
    case Of(v, text) => Opening(v) + text
    case Shortfall(text, _) => "Close group shortfall: " + text
    case Partial(p) => Message(p)
  }

  /** The response body; the status goes with it. */
  function RestDocument(e: AntdError): Document {
    match e
    case Partial(p) => RestBody(p)
    case Shortfall(_, retain) =>
      Json(JObject([("error", JString(Display(e))), ("code", JString("CLOSE_GROUP_SHORTFALL"))]
                   + if retain.Some? then [("retryable", JBool(retain.value))] else []))
    case Of(v, _) => Json(JObject([("error", JString(Display(e))), ("code", JString(Code(v)))]))
  }

  /** The gRPC status code (google.rpc.Code). */
  function GrpcCode(e: AntdError): int {
    match e
    case Partial(_) => 10
    case Shortfall(_, _) => 14
    case Of(v, _) =>
      match v
      case RecordNotFound => 5
      case Existing => 6
      case InvalidRequest => 3
      case PaymentFailed => 9
      case NetworkFailed => 14
      case TooLargeForMemory => 8
      case PayloadTooLarge => 8
      case TimedOut => 4
      case Unavailable => 14
      case NotImplemented => 12
      case InternalFailure => 13
      case RangeRefused => 11
      case PointerFinal => 9
      case PointerForked => 9
      case Conflicting => 10
  }

  /** The status message: the bare text of the older errors, Display for others. */
  function GrpcMessage(e: AntdError): string {
    if e.Of? && e.v == TooLargeForMemory then "too large for memory"
    else if e.Of? && e.v !in {PayloadTooLarge, RangeRefused, PointerFinal, PointerForked, Conflicting} then e.text
    else Display(e)
  }

  // ----- the clients over gRPC -----

  /** errorFromGrpc. */
  function GoGrpcError(code: int, msg: string): ClientError {
    match code
    case 3 => StatusError(BadRequest, 400, msg)
    case 9 => StatusError(Payment, 402, msg)
    case 5 => StatusError(NotFound, 404, msg)
    case 6 => StatusError(AlreadyExists, 409, msg)
    case 8 => StatusError(TooLarge, 413, msg)
    case 11 => StatusError(RangeNotSatisfiable, 416, msg)
    case 13 => StatusError(Internal, 500, msg)
    case 14 => StatusError(Network, 502, msg)
    case 10 => ErrorFromAborted(msg)
    case _ => StatusError(Untyped, code, msg)
  }

  /** check_status. */
  function CppGrpcError(code: int, msg: string): ClientError {
    match code
    case 3 => StatusError(BadRequest, 400, msg)
    case 5 => StatusError(NotFound, 404, msg)
    case 6 => StatusError(AlreadyExists, 409, msg)
    case 8 => StatusError(TooLarge, 413, msg)
    case 13 => StatusError(Internal, 500, msg)
    case 14 => StatusError(Network, 502, msg)
    case 9 => StatusError(Payment, 402, msg)
    case 10 => CppErrorFromAborted(msg)
    case _ => StatusError(Untyped, code, msg)
  }

  // ----- the error a caller should get -----

  /** The client error that stands for the daemon's, in the client that has a
      type for each. */
  function OwnError(e: AntdError): ClientError {
    match e
    case Partial(p) => TypedError(p)
    case Shortfall(_, retain) => ShortfallError(503, Display(e), retain == Some(true))
    case Of(v, _) =>
      match v
      case RecordNotFound => StatusError(NotFound, 404, Display(e))
      case Existing => StatusError(AlreadyExists, 409, Display(e))
      case InvalidRequest => StatusError(BadRequest, 400, Display(e))
      case PaymentFailed => StatusError(Payment, 402, Display(e))
      case NetworkFailed => StatusError(Network, 502, Display(e))
      case TooLargeForMemory => StatusError(TooLarge, 413, Display(e))
      case PayloadTooLarge => StatusError(TooLarge, 413, Display(e))
      case TimedOut => StatusError(Untyped, 504, Display(e))
      case Unavailable => StatusError(ServiceUnavailable, 503, Display(e))
      case NotImplemented => StatusError(Untyped, 501, Display(e))
      case InternalFailure => StatusError(Internal, 500, Display(e))
      case RangeRefused => StatusError(RangeNotSatisfiable, 416, Display(e))
      case PointerFinal => CodedError("POINTER_FINAL", 409, Display(e))
      case PointerForked => CodedError("POINTER_FORKED", 409, Display(e))
      case Conflicting => CodedError("CONFLICT", 409, Display(e))
  }

  predicate Fits(e: AntdError) { e.Partial? ==> FitsU64(e.e) }

  function GoRest(e: AntdError, raw: string, round: real -> Float): ClientError {
    ErrorFromBody(RestStatus(e), raw, RestDocument(e), round)
  }

  function CppRest(e: AntdError, raw: string, round: real -> Float): ClientError {
    CppErrorResponse(RestStatus(e), raw, RestDocument(e), round)
  }

  function GoGrpc(e: AntdError): ClientError { GoGrpcError(GrpcCode(e), GrpcMessage(e)) }

  function CppGrpc(e: AntdError): ClientError { CppGrpcError(GrpcCode(e), GrpcMessage(e)) }

  /** Over REST the Go client builds the daemon's own error, text and flag
      included, from every error; the C++ client from all but a 416. */
  lemma RestGivesOwnError(e: AntdError, raw: string, round: real -> Float)
    requires Fits(e)
    ensures GoRest(e, raw, round) == OwnError(e)
    ensures CppRest(e, raw, round) == OwnError(e) <==> !(e.Of? && e.v == RangeRefused)
  {
    hide Message, RestBody, Display, Code, FieldsOf, HasRefused, OwnError, ErrorFromBody, CppErrorResponse;
    match e {
      case Partial(p) => PartialOverRest(p, raw, round);
      case Shortfall(_, _) => ShortfallOverRest(e, raw, round);
      case Of(v, _) => PlainOverRest(e, raw, round);
    }
  }

  lemma PartialOverRest(p: PartialUpload, raw: string, round: real -> Float)
    requires FitsU64(p)
    ensures GoRest(Partial(p), raw, round) == CppRest(Partial(p), raw, round) == OwnError(Partial(p))
  {
    hide Message, RestBody, FieldsOf, HasRefused, ErrorFromBody, CppErrorResponse;
    TransportsAgree(p, raw, round);
  }

  lemma TwoFields(error: string, code: string, round: real -> Float)
    ensures var v := JObject([("error", JString(error)), ("code", JString(code))]);
            !HasRefused(v, round) && FieldsOf(Json(v)) == map["error" := JString(error), "code" := JString(code)]
  {
    hide Fields;
    assert [("error", JString(error))] + [("code", JString(code))]
        == [("error", JString(error)), ("code", JString(code))];
    NoFields();
    OneMore([], ("error", JString(error)));
    assert [] + [("error", JString(error))] == [("error", JString(error))];
    OneMore([("error", JString(error))], ("code", JString(code)));
  }

  lemma PlainOverRest(e: AntdError, raw: string, round: real -> Float)
    requires e.Of?
    ensures GoRest(e, raw, round) == OwnError(e)
    ensures CppRest(e, raw, round) == OwnError(e) <==> e.v != RangeRefused
  {
    hide Display, FieldsOf, HasRefused, Code, ErrorForResponse, CppErrorOfBody;
    TwoFields(Display(e), Code(e.v), round);
    CodeOf(e.v);
    TwoFieldError(RestStatus(e), Display(e), Code(e.v), raw, round);
  }

  /** Which codes have their own error types. */
  lemma CodeOf(v: Variant)
    ensures Code(v) != "PARTIAL_UPLOAD" && Code(v) != "CLOSE_GROUP_SHORTFALL"
    ensures v == PointerFinal ==> Code(v) == "POINTER_FINAL"
    ensures v == PointerForked ==> Code(v) == "POINTER_FORKED"
    ensures v == Conflicting ==> Code(v) == "CONFLICT"
    ensures v !in {PointerFinal, PointerForked, Conflicting} ==>
              Code(v) !in {"POINTER_FINAL", "POINTER_FORKED", "CONFLICT"}
  {}

  lemma TwoFieldError(status: int, text: string, code: string, raw: string, round: real -> Float)
    requires code != "PARTIAL_UPLOAD" && code != "CLOSE_GROUP_SHORTFALL"
    ensures var body: JsonBody := map["error" := JString(text), "code" := JString(code)];
            var coded := code in {"POINTER_FINAL", "POINTER_FORKED", "CONFLICT"};
            && ErrorText(body, raw) == text
            && ErrorForResponse(status, text, body, round)
               == (if coded then CodedError(code, status, text) else StatusError(GoKind(status), status, text))
            && CppErrorOfBody(status, text, body)
               == (if coded then CodedError(code, 409, text) else StatusError(CppKind(status), status, text))
  {
    hide GoKind, CppKind;
  }

  lemma ShortfallOverRest(e: AntdError, raw: string, round: real -> Float)
    requires e.Shortfall?
    ensures GoRest(e, raw, round) == CppRest(e, raw, round) == OwnError(e)
  {
    hide Display, FieldsOf, HasRefused;
    var two := [("error", JString(Display(e))), ("code", JString("CLOSE_GROUP_SHORTFALL"))];
    TwoFields(Display(e), "CLOSE_GROUP_SHORTFALL", round);
    if e.retain.Some? {
      ThirdField(two, ("retryable", JBool(e.retain.value)), round);
    } else {
      assert two + [] == two;
    }
  }

  lemma ThirdField(two: seq<(string, JsonValue)>, last: (string, JsonValue), round: real -> Float)
    requires !HasRefused(JObject(two), round) && last.1.JBool?
    ensures !HasRefused(JObject(two + [last]), round)
    ensures FieldsOf(Json(JObject(two + [last]))) == FieldsOf(Json(JObject(two)))[last.0 := last.1]
  {
    OneMore(two, last);
  }

  /** An error without its text. */
  function Shape(e: ClientError): ClientError {
    match e
    case PartialUploadError(status, _, stored, failed, total, retryable, known) =>
      PartialUploadError(status, "", stored, failed, total, retryable, known)
    case ShortfallError(status, _, retryable) => ShortfallError(status, "", retryable)
    case CodedError(code, status, _) => CodedError(code, status, "")
    case StatusError(kind, status, _) => StatusError(kind, status, "")
  }

  /** The errors whose type does not survive gRPC when its metadata is not read. */
  predicate LostOverGrpc(e: AntdError) {
    e.Shortfall? || (e.Of? && e.v in {TimedOut, Unavailable, NotImplemented, PointerFinal, PointerForked, Conflicting})
  }

  /** Over gRPC a client gets the type, status and details it gets over REST
      exactly for the errors that survive; C++ also lacks a type, and so the
      status, for a refused range. */
  lemma GrpcKeepsType(e: AntdError, raw: string, round: real -> Float)
    requires Fits(e)
    ensures Shape(GoGrpc(e)) == Shape(GoRest(e, raw, round)) <==> !LostOverGrpc(e)
    ensures Shape(CppGrpc(e)) == Shape(CppRest(e, raw, round)) <==> !LostOverGrpc(e) && !(e.Of? && e.v == RangeRefused)
  {
    hide Message, GoRest, CppRest, GoGrpc, CppGrpc, Display, OwnError, Shape, LostOverGrpc;
    RestGivesOwnError(e, raw, round);
    GrpcOrOwn(e);
    if e.Of? && e.v == RangeRefused {
      RangeOverCpp(e, raw, round);
      RangeDiffers(e);
    }
  }

  lemma RangeDiffers(e: AntdError)
    requires e.Of? && e.v == RangeRefused
    ensures Shape(CppGrpc(e)) != Shape(StatusError(Untyped, 416, Display(e))) && !LostOverGrpc(e)
  {
    hide Display, CppErrorFromAborted;
  }

  lemma GrpcOrOwn(e: AntdError)
    requires Fits(e)
    ensures Shape(GoGrpc(e)) == Shape(OwnError(e)) <==> !LostOverGrpc(e)
    ensures !(e.Of? && e.v == RangeRefused) ==> (Shape(CppGrpc(e)) == Shape(OwnError(e)) <==> !LostOverGrpc(e))
  {
    hide Message, Display, ErrorFromAborted, CppErrorFromAborted;
    match e {
      case Partial(p) =>
        PartialDisplay(p);
        AbortedPartial(p);
      case Shortfall(_, _) =>
      case Of(v, _) => if v == Conflicting { ConflictIsGeneric(e); }
    }
  }

  lemma AbortedPartial(p: PartialUpload)
    requires FitsU64(p)
    ensures ErrorFromAborted(Message(p)) == CppErrorFromAborted(Message(p)) == TypedError(p)
  {
    hide Message, RestBody, ErrorFromAborted, CppErrorFromAborted;
    TransportsAgree(p, "", r => Finite(r));
  }

  lemma PartialDisplay(p: PartialUpload)
    ensures Display(Partial(p)) == Message(p)
  {}

  lemma RangeOverCpp(e: AntdError, raw: string, round: real -> Float)
    requires e.Of? && e.v == RangeRefused
    ensures CppRest(e, raw, round) == StatusError(Untyped, 416, Display(e))
  {
    hide Display, FieldsOf, HasRefused;
    TwoFields(Display(e), Code(e.v), round);
  }

  /** "Conflict: ..." is no partial upload. */
  lemma ConflictIsGeneric(e: AntdError)
    requires e.Of? && e.v == Conflicting
    ensures ErrorFromAborted(Display(e)) == CppErrorFromAborted(Display(e)) == StatusError(Untyped, 10, Display(e))
  {
    hide Parse, CppParse;
    OnlyFirstIsP();
    assert Display(e)[0] == 'C';
  }

  /** The two clients build the same error over gRPC from every error but a
      refused range. */
  lemma GrpcClientsAgree(e: AntdError)
    ensures GoGrpc(e) == CppGrpc(e) <==> !(e.Of? && e.v == RangeRefused)
  {
    hide ErrorFromAborted, CppErrorFromAborted, Display;
    AbortedAlike(GrpcMessage(e));
  }
}
