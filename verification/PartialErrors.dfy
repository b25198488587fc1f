/** The typed partial-upload error over both transports and in both clients: the
    daemon's REST body and gRPC status (antd/src/error.rs), errorForResponse and
    the ABORTED arm of errorFromGrpc (antd-go), throw_error_response and
    check_status (antd-cpp). */
module PartialErrors {
  import opened Text
  import opened Decimal
  import opened JsonCount
  import opened PartialMessage

  type Number = l: Literal | ValidLiteral(l) witness Literal(false, "0", None, None)

  datatype JsonValue = JString(s: string) | JNumber(l: Number) | JBool(b: bool) | JNull
                     | JArray(items: seq<JsonValue>) | JObject(members: seq<(string, JsonValue)>)

  type JsonBody = map<string, JsonValue>

  /** A response body: a JSON document or some other text. */
  datatype Document = NoJson | Json(v: JsonValue)

  /** An object's fields; of two with one name the later stays. */
  function Fields(members: seq<(string, JsonValue)>): JsonBody {
    if members == [] then map[]
    else
      var last := members[|members| - 1];
      Fields(members[..|members| - 1])[last.0 := last.1]
  }

  /** What find and map lookups see: no fields on anything but an object. */
  function FieldsOf(doc: Document): JsonBody {
    if doc.Json? && doc.v.JObject? then Fields(doc.v.members) else map[]
  }

  /** The error types that errorForStatus and error_for_status choose from. */
  datatype Kind = BadRequest | Payment | NotFound | AlreadyExists | TooLarge | RangeNotSatisfiable | Internal
                | Network | ServiceUnavailable | Untyped

  datatype ClientError = PartialUploadError(status: int, message: string, stored: nat, failed: nat, total: nat,
                                            retryable: bool, retentionKnown: bool)
                       | ShortfallError(status: int, message: string, retryable: bool)
                       | CodedError(code: string, status: int, message: string)
                       | StatusError(kind: Kind, status: int, message: string)

  function StringField(body: JsonBody, key: string): string {
    if key in body && body[key].JString? then body[key].s else ""
  }

  predicate IsBool(body: JsonBody, key: string) { key in body && body[key].JBool? }

  predicate IsTrue(body: JsonBody, key: string) { IsBool(body, key) && body[key].b }

  /** The `error` string, or the raw body. */
  function ErrorText(body: JsonBody, raw: string): string {
    if "error" in body && body["error"].JString? then body["error"].s else raw
  }

  // ----- the Go client -----

  /** errorForStatus's table. */
  function GoKind(status: int): Kind {
    match status
    case 400 => BadRequest
    case 402 => Payment
    case 404 => NotFound
    case 409 => AlreadyExists
    case 413 => TooLarge
    case 416 => RangeNotSatisfiable
    case 500 => Internal
    case 502 => Network
    case 503 => ServiceUnavailable
    case _ => Untyped
  }

  /** jsonCount of a field: anything but a number reads as zero. */
  function GoCount(body: JsonBody, key: string, round: real -> Float): nat {
    if key in body && body[key].JNumber? then CountOfNumber(body[key].l, round) else 0
  }

  /** errorForResponse. */
  function ErrorForResponse(status: int, message: string, body: JsonBody, round: real -> Float): ClientError {
    var code := StringField(body, "code");
    if code in {"POINTER_FINAL", "POINTER_FORKED", "CONFLICT"} then CodedError(code, status, message)
    else if code == "CLOSE_GROUP_SHORTFALL" then ShortfallError(status, message, IsTrue(body, "retryable"))
    else if code != "PARTIAL_UPLOAD" then StatusError(GoKind(status), status, message)
    else PartialUploadError(status, message, GoCount(body, "chunks_stored", round),
                            GoCount(body, "chunks_failed", round), GoCount(body, "total_chunks", round),
                            IsTrue(body, "retryable"), IsBool(body, "retryable"))
  }

  /** errorFromBody. */
  function ErrorFromBody(status: int, raw: string, doc: Document, round: real -> Float): ClientError {
    ErrorForResponse(status, ErrorText(FieldsOf(doc), raw), FieldsOf(doc), round)
  }

  const ABORTED: int := 10

  /** The ABORTED arm of errorFromGrpc. */
  function ErrorFromAborted(msg: string): ClientError {
    if IsPartialUploadMessage(msg) then
      var p := Parse(msg);
      PartialUploadError(502, msg, p.stored, p.failed, p.total, p.retryable, p.known)
    else StatusError(Untyped, ABORTED, msg)
  }

  // ----- the C++ client -----

  /** error_for_status's table, which has no 416. */
  function CppKind(status: int): Kind {
    match status
    case 400 => BadRequest
    case 402 => Payment
    case 404 => NotFound
    case 409 => AlreadyExists
    case 413 => TooLarge
    case 500 => Internal
    case 502 => Network
    case 503 => ServiceUnavailable
    case _ => Untyped
  }

  /** An integer literal that nlohmann keeps as one, in 64 bits. */
  predicate KeptAsInteger(l: Number) {
    && l.frac.None? && l.exp.None?
    && if l.negative then Value(l.int_) <= TWO_63 else Value(l.int_) < TWO_64
  }

  /** Any other number becomes a double, and json::parse throws if that is infinite. */
  predicate Refused(l: Number, round: real -> Float) {
    !KeptAsInteger(l) && var f := round(ExactValue(l)); f.PlusInf? || f.MinusInf?
  }

  /** A refused number anywhere in a document refuses the document. */
  predicate HasRefused(v: JsonValue, round: real -> Float) {
    match v
    case JNumber(l) => Refused(l, round)
    case JArray(items) => exists i :: 0 <= i < |items| && HasRefused(items[i], round)
    case JObject(members) => exists i :: 0 <= i < |members| && HasRefused(members[i].1, round)
    case _ => false
  }

  /** get<uint64_t> behind is_number_unsigned. */
  function CppCountOfNumber(l: Number): nat {
    if Plain(l) && Value(l.int_) < TWO_64 then Value(l.int_) else 0
  }

  function CppCount(body: JsonBody, key: string): nat {
    if key in body && body[key].JNumber? then CppCountOfNumber(body[key].l) else 0
  }

  /** throw_error_response: each typed error carries its own fixed status, and
      a body that json::parse refuses takes the status mapping. */
  function CppErrorResponse(status: int, raw: string, doc: Document, round: real -> Float): ClientError {
    if doc.NoJson? || HasRefused(doc.v, round) then StatusError(CppKind(status), status, raw)
    else CppErrorOfBody(status, ErrorText(FieldsOf(doc), raw), FieldsOf(doc))
  }

  function CppErrorOfBody(status: int, message: string, body: JsonBody): ClientError {
    var code := StringField(body, "code");
    var known := IsBool(body, "retryable");
    var retryable := known && body["retryable"].b;
    if code == "PARTIAL_UPLOAD" then
      PartialUploadError(502, message, CppCount(body, "chunks_stored"), CppCount(body, "chunks_failed"),
                         CppCount(body, "total_chunks"), retryable, known)
    else if code in {"POINTER_FINAL", "POINTER_FORKED", "CONFLICT"} then CodedError(code, 409, message)
    else if code == "CLOSE_GROUP_SHORTFALL" then ShortfallError(503, message, retryable)
    else StatusError(CppKind(status), status, message)
  }

  /** The ABORTED arm of check_status. */
  function CppErrorFromAborted(msg: string): ClientError {
    if !IsPartialUploadMessage(msg) then StatusError(Untyped, ABORTED, msg)
    else
      var counts := CppParse(msg);
      PartialUploadError(502, msg, counts.stored, counts.failed, counts.total, counts.retryable, counts.known)
  }

  // ----- the daemon's own errors -----

  /** ErrorBody of AntdError::PartialUpload, sent with status 502. */
  function RestBody(e: PartialUpload): Document {
    Json(JObject([("error", JString(Message(e))), ("code", JString("PARTIAL_UPLOAD")),
                  ("chunks_stored", Count(e.stored)), ("chunks_failed", Count(e.failed)),
                  ("total_chunks", Count(e.total)), ("retryable", JBool(e.retryable))]))
  }

  function Count(n: nat): (v: JsonValue)
    ensures v.JNumber?
  {
    PlainIsValid(n);
    JNumber(PlainLiteral(n))
  }

  lemma PlainIsValid(n: nat)
    ensures ValidLiteral(PlainLiteral(n))
  {
    PrintHasNoLeadingZero(n);
  }

  function TypedError(e: PartialUpload): ClientError {
    PartialUploadError(502, Message(e), e.stored, e.failed, e.total, e.retryable, true)
  }

  lemma FieldsOfRestBody(e: PartialUpload)
    ensures FieldsOf(RestBody(e))
         == map["error" := JString(Message(e)), "code" := JString("PARTIAL_UPLOAD"),
                "chunks_stored" := Count(e.stored), "chunks_failed" := Count(e.failed),
                "total_chunks" := Count(e.total), "retryable" := JBool(e.retryable)]
  {
    hide Message, Count;
    SixFields(("error", JString(Message(e))), ("code", JString("PARTIAL_UPLOAD")), ("chunks_stored", Count(e.stored)),
              ("chunks_failed", Count(e.failed)), ("total_chunks", Count(e.total)), ("retryable", JBool(e.retryable)));
  }

  lemma SixFields(a: (string, JsonValue), b: (string, JsonValue), c: (string, JsonValue),
                  d: (string, JsonValue), e: (string, JsonValue), f: (string, JsonValue))
    ensures Fields([a, b, c, d, e, f]) == map[a.0 := a.1, b.0 := b.1, c.0 := c.1, d.0 := d.1, e.0 := e.1, f.0 := f.1]
  {
    hide Fields;
    NoFields();
    assert [] + [a] == [a] && [a] + [b] == [a, b] && [a, b] + [c] == [a, b, c];
    assert [a, b, c] + [d] == [a, b, c, d] && [a, b, c, d] + [e] == [a, b, c, d, e];
    assert [a, b, c, d, e] + [f] == [a, b, c, d, e, f];
    OneMore([], a);
    OneMore([a], b);
    OneMore([a, b], c);
    OneMore([a, b, c], d);
    OneMore([a, b, c, d], e);
    OneMore([a, b, c, d, e], f);
  }

  lemma NoFields()
    ensures Fields([]) == map[]
  {}

  lemma OneMore(members: seq<(string, JsonValue)>, last: (string, JsonValue))
    ensures Fields(members + [last]) == Fields(members)[last.0 := last.1]
  {
    assert (members + [last])[..|members|] == members;
  }

  lemma CountIsKept(n: nat, round: real -> Float)
    requires n < TWO_64
    ensures !HasRefused(Count(n), round)
    ensures CountOfNumber(Count(n).l, round) == n && CppCountOfNumber(Count(n).l) == n
  {
    PlainLiteralCount(n, round);
    ValueOfPrint(n);
  }

  lemma RestBodyParses(e: PartialUpload, round: real -> Float)
    requires FitsU64(e)
    ensures RestBody(e).Json? && !HasRefused(RestBody(e).v, round)
  {
    hide Message, Count;
    CountIsKept(e.stored, round);
    CountIsKept(e.failed, round);
    CountIsKept(e.total, round);
  }

  /** Both transports give both clients the same typed error, and it says what
      the daemon said, for all counts, either hint and every reason. */
  lemma TransportsAgree(e: PartialUpload, raw: string, round: real -> Float)
    requires FitsU64(e)
    ensures ErrorFromBody(502, raw, RestBody(e), round) == TypedError(e)
    ensures CppErrorResponse(502, raw, RestBody(e), round) == TypedError(e)
    ensures ErrorFromAborted(Message(e)) == TypedError(e) && CppErrorFromAborted(Message(e)) == TypedError(e)
  {
    hide Message, Parse, CppParse, CountOfNumber, CppCountOfNumber, Count, RestBody, HasRefused, FieldsOf;
    MessageRoundTrip(e);
    ClientsParseAlike(Message(e));
    FieldsOfRestBody(e);
    RestBodyParses(e, round);
    CountIsKept(e.stored, round);
    CountIsKept(e.failed, round);
    CountIsKept(e.total, round);
  }

  // ----- any response at all -----

  /** Retryable implies RetentionKnown, for any body and any status message. */
  lemma RetryableImpliesKnown(status: int, raw: string, doc: Document, msg: string, round: real -> Float)
    ensures var e := ErrorFromBody(status, raw, doc, round);
            e.PartialUploadError? && e.retryable ==> e.retentionKnown
    ensures var e := CppErrorResponse(status, raw, doc, round);
            e.PartialUploadError? && e.retryable ==> e.retentionKnown
    ensures var e := ErrorFromAborted(msg);
            e.PartialUploadError? && e.retryable ==> e.retentionKnown
  {
    hide MatchCounts, MatchTail, FieldsOf, HasRefused;
  }

  /** The two clients build the same error from every ABORTED status. */
  lemma AbortedAlike(msg: string)
    ensures CppErrorFromAborted(msg) == ErrorFromAborted(msg)
  {
    hide Parse, CppParse;
    ClientsParseAlike(msg);
  }

  /** An ABORTED status is a partial upload to either client exactly when the
      text before its first colon is "Partial upload"; any other keeps the
      generic error with its gRPC code. */
  lemma AbortedIsPartial(msg: string)
    ensures var cut := Cut(msg, ':');
            var opens := cut.Some? && cut.value.0 == "Partial upload";
            && (ErrorFromAborted(msg).PartialUploadError? <==> opens)
            && (CppErrorFromAborted(msg).PartialUploadError? <==> opens)
            && (!opens ==> ErrorFromAborted(msg) == CppErrorFromAborted(msg) == StatusError(Untyped, 10, msg))
  {
    hide Parse, CppParse, Cut;
    PrefixHead();
    if IsPartialUploadMessage(msg) {
      var rest := msg[|PREFIX|..];
      assert msg == "Partial upload" + [':'] + rest;
      CutAt("Partial upload", ':', rest);
    }
  }

  lemma PrefixHead()
    ensures PREFIX == "Partial upload" + [':'] && ':' !in "Partial upload"
  {}

  /** The daemon's text after any other text, as a wrapped error would carry
      it, is no partial upload. */
  lemma EmbeddedStaysGeneric(before: string, e: PartialUpload)
    requires before != "" && !("Partial upload:" <= before)
    ensures ErrorFromAborted(before + Message(e)) == StatusError(Untyped, 10, before + Message(e))
    ensures CppErrorFromAborted(before + Message(e)) == StatusError(Untyped, 10, before + Message(e))
  {
    hide Parse, CppParse, Message;
    var msg := before + Message(e);
    MessageStarts(e);
    OnlyFirstIsP();
    assert Message(e)[0] == PREFIX[0];
    if |before| < |PREFIX| {
      assert msg[|before|] == PREFIX[0] != PREFIX[|before|];
    } else {
      assert msg[..|PREFIX|] == before[..|PREFIX|];
    }
  }

  lemma OnlyFirstIsP()
    ensures |PREFIX| == 15 && PREFIX == "Partial upload:"
    ensures PREFIX[0] == 'P' && forall i :: 0 < i < 15 ==> PREFIX[i] != 'P'
  {}

  /** What nlohmann makes of a count, or None when it refuses the document. */
  function CppReads(l: Number, round: real -> Float): Option<nat> {
    if Refused(l, round) then None else Some(CppCountOfNumber(l))
  }

  /** Written with a fraction or an exponent, and a positive integer as a double. */
  predicate OnlyGoCounts(l: Number, round: real -> Float) {
    && !Plain(l)
    && var f := round(ExactValue(l)); IsCount(f) && f.x > 0.0
  }

  /** The two clients read a number differently exactly when its double is
      infinite, or when only Go counts it. */
  lemma CountsDiffer(l: Number, round: real -> Float)
    requires Rounding(round)
    ensures CppReads(l, round) != Some(CountOfNumber(l, round)) <==> Refused(l, round) || OnlyGoCounts(l, round)
  {
    hide Refused;
    SameCount(l, round);
  }

  lemma SameCount(l: Number, round: real -> Float)
    requires Rounding(round)
    ensures CppCountOfNumber(l) != CountOfNumber(l, round) <==> OnlyGoCounts(l, round)
  {
    hide CountOfNumber;
    CountIsStrict(l, round);
    if Plain(l) && Value(l.int_) >= TWO_64 { PlainIsLarge(l); }
  }

  lemma PlainIsLarge(l: Number)
    requires Plain(l) && Value(l.int_) >= TWO_64
    ensures ExactValue(l) >= TWO_TO_64
  {}

  /** A number refused deep inside a document refuses all of it. */
  lemma RefusedAnywhere(v: JsonValue, key: string, a: seq<JsonValue>, b: seq<JsonValue>,
                        c: seq<(string, JsonValue)>, d: seq<(string, JsonValue)>, round: real -> Float)
    requires HasRefused(v, round)
    ensures HasRefused(JArray(a + [v] + b), round) && HasRefused(JObject(c + [(key, v)] + d), round)
  {
    assert (a + [v] + b)[|a|] == v && (c + [(key, v)] + d)[|c|] == (key, v);
    assert HasRefused((a + [v] + b)[|a|], round) && HasRefused((c + [(key, v)] + d)[|c|].1, round);
  }

  /** Only a number beyond 64 bits can be refused. */
  lemma RefusedIsLarge(l: Number, round: real -> Float)
    requires Rounding(round) && Refused(l, round)
    ensures ExactValue(l) > TWO_TO_64 || ExactValue(l) < 0.0
    ensures Plain(l) ==> Value(l.int_) > TWO_64
  {
    var v := ExactValue(l);
    assert v <= TWO_TO_64 ==> FloatLe(round(v), round(TWO_TO_64));
    assert v >= 0.0 ==> FloatLe(round(0.0), round(v));
  }

  predicate OnlyGoCountsField(body: JsonBody, key: string, round: real -> Float) {
    key in body && body[key].JNumber? && OnlyGoCounts(body[key].l, round)
  }

  lemma SameField(body: JsonBody, key: string, round: real -> Float)
    requires Rounding(round)
    ensures CppCount(body, key) == GoCount(body, key, round) <==> !OnlyGoCountsField(body, key, round)
  {
    hide CountOfNumber, CppCountOfNumber, OnlyGoCounts;
    if key in body && body[key].JNumber? { SameCount(body[key].l, round); }
  }

  predicate HasOwnType(code: string) {
    code in {"PARTIAL_UPLOAD", "POINTER_FINAL", "POINTER_FORKED", "CONFLICT", "CLOSE_GROUP_SHORTFALL"}
  }

  /** The status the daemon sends with a code that has its own error type; any
      status but 416 with another code. */
  predicate StatusFits(status: int, code: string) {
    if code == "PARTIAL_UPLOAD" then status == 502
    else if code == "CLOSE_GROUP_SHORTFALL" then status == 503
    else if HasOwnType(code) then status == 409
    else status != 416
  }

  /** When a response means the same error to both clients: nlohmann reads it,
      its status goes with its code, and no partial upload's count is one that
      only Go reads; or nlohmann refuses it, but it carries neither a code with
      a type of its own nor an error text. */
  predicate Unambiguous(status: int, raw: string, doc: Document, round: real -> Float) {
    var body := FieldsOf(doc);
    var code := StringField(body, "code");
    if doc.Json? && HasRefused(doc.v, round) then
      !HasOwnType(code) && status != 416 && ErrorText(body, raw) == raw
    else
      StatusFits(status, code) && (code == "PARTIAL_UPLOAD" ==> BothCount(body, round))
  }

  predicate BothCount(body: JsonBody, round: real -> Float) {
    && !OnlyGoCountsField(body, "chunks_stored", round) && !OnlyGoCountsField(body, "chunks_failed", round)
    && !OnlyGoCountsField(body, "total_chunks", round)
  }

  lemma KindsDiffer(status: int)
    ensures CppKind(status) == GoKind(status) <==> status != 416
  {}

  /** For every status and every body, the C++ and Go clients build the same
      error exactly when the response is unambiguous. */
  lemma ClientsBuildTheSameError(status: int, raw: string, doc: Document, round: real -> Float)
    requires Rounding(round)
    ensures CppErrorResponse(status, raw, doc, round) == ErrorFromBody(status, raw, doc, round)
       <==> Unambiguous(status, raw, doc, round)
  {
    hide HasRefused, Rounding, FieldsOf, StatusFits, BothCount, CppErrorOfBody, ErrorForResponse, CppKind, ErrorText;
    var body := FieldsOf(doc);
    if doc.NoJson? {
      NoFieldsOf(doc);
    } else if HasRefused(doc.v, round) {
      UntypedError(status, raw, ErrorText(body, raw), body, round);
    }
    if doc.NoJson? || !HasRefused(doc.v, round) { BodyAlike(status, ErrorText(body, raw), body, round); }
  }

  lemma NoFieldsOf(doc: Document)
    requires doc.NoJson?
    ensures FieldsOf(doc) == map[] && forall raw :: ErrorText(map[], raw) == raw
    ensures forall status, raw :: CppErrorOfBody(status, raw, map[]) == StatusError(CppKind(status), status, raw)
  {}

  lemma UntypedError(status: int, raw: string, message: string, body: JsonBody, round: real -> Float)
    ensures StatusError(CppKind(status), status, raw) == ErrorForResponse(status, message, body, round)
       <==> !HasOwnType(StringField(body, "code")) && status != 416 && message == raw
  {
    hide StringField, GoCount, CppKind, GoKind;
    KindsDiffer(status);
  }

  lemma BodyAlike(status: int, message: string, body: JsonBody, round: real -> Float)
    requires Rounding(round)
    ensures CppErrorOfBody(status, message, body) == ErrorForResponse(status, message, body, round)
       <==> StatusFits(status, StringField(body, "code"))
            && (StringField(body, "code") == "PARTIAL_UPLOAD" ==> BothCount(body, round))
  {
    hide StringField, CppCount, GoCount, CppKind, GoKind, OnlyGoCountsField, Rounding;
    SameField(body, "chunks_stored", round);
    SameField(body, "chunks_failed", round);
    SameField(body, "total_chunks", round);
    KindsDiffer(status);
  }
}
