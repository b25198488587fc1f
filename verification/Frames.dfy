/** Download frames and the meaning of one NDJSON line, as the C++ client
    (parse_ndjson_frame, antd-cpp/src/client.cpp) and the Go client
    (ndjsonStream.Recv, antd-go/client.go) read it. */
module Frames {
  import opened Text
  import opened Base64
  import opened Decimal

  datatype Frame = Data(bytes: seq<byte>) | Progress(phase: string, fetched: uint64, total: uint64)
                 | Meta(total: uint64)

  /** What a JSON library makes of a line; the libraries are not modelled. */
  datatype Json = NotJson | Null | NotObject | Object(fields: map<string, Field>)

  /** A field's value; a number comes with what each client's conversion to
      64 bits makes of it (nlohmann's cast, jsonCount). */
  datatype Field = Str(s: string) | Number(cpp: uint64, go: uint64) | Other

  /** A plain integer that fits 64 bits, which both conversions keep. */
  function Count(n: uint64): Field { Number(n, n) }

  datatype FrameError = BadLine | BadBase64 | Remote(message: string)

  datatype LineResult = Emit(frame: Frame) | Skip | Throw(error: FrameError)

  // ----- C++: nlohmann's value(key, default) throws on a mistyped field -----

  function CppString(fields: map<string, Field>, key: string, missing: string): Result<string, FrameError> {
    if key !in fields then Ok(missing)
    else if fields[key].Str? then Ok(fields[key].s)
    else Err(BadLine)
  }

  function CppCount(fields: map<string, Field>, key: string): Result<uint64, FrameError> {
    if key !in fields then Ok(0)
    else if fields[key].Number? then Ok(fields[key].cpp)
    else Err(BadLine)
  }

  function CppData(fields: map<string, Field>): LineResult {
    var chunk := CppString(fields, "chunk", "");
    if chunk.Err? then Throw(BadLine)
    else
      var bytes := Decoded(chunk.value);
      if bytes.Err? then Throw(BadBase64) else Emit(Data(bytes.value))
  }

  function CppProgress(fields: map<string, Field>): LineResult {
    var phase := CppString(fields, "phase", "");
    var fetched, total := CppCount(fields, "fetched"), CppCount(fields, "total");
    if phase.Err? || fetched.Err? || total.Err? then Throw(BadLine)
    else Emit(Progress(phase.value, fetched.value, total.value))
  }

  function CppMeta(fields: map<string, Field>): LineResult {
    var total := CppCount(fields, "total_size");
    if total.Err? then Throw(BadLine) else Emit(Meta(total.value))
  }

  function CppError(fields: map<string, Field>): LineResult {
    var message := CppString(fields, "message", "download failed");
    if message.Err? then Throw(BadLine) else Throw(Remote(message.value))
  }

  /** The line less one trailing carriage return. */
  function Stripped(line: string): string {
    if line != "" && line[|line| - 1] == '\r' then line[..|line| - 1] else line
  }

  /** parse_ndjson_frame on one line, without its newline. */
  function CppLine(parse: string -> Json, line: string): LineResult {
    var text := Stripped(line);
    if text == "" then Skip
    else
      var v := parse(text);
      if v.Object? then CppObject(v.fields) else Throw(BadLine)
  }

  function CppObject(fields: map<string, Field>): LineResult {
    var kind := CppString(fields, "type", "");
    if kind.Err? then Throw(BadLine)
    else if kind.value == "data" then CppData(fields)
    else if kind.value == "progress" then CppProgress(fields)
    else if kind.value == "error" then CppError(fields)
    else if kind.value == "meta" then CppMeta(fields)
    else Skip
  }

  // ----- Go: str and unum64 read a mistyped field as the zero value -----

  function GoString(fields: map<string, Field>, key: string): string {
    if key in fields && fields[key].Str? then fields[key].s else ""
  }

  function GoCount(fields: map<string, Field>, key: string): uint64 {
    if key in fields && fields[key].Number? then fields[key].go else 0
  }

  /** bytes.TrimRight(line, "\r\n"). */
  function TrimLineEnd(line: string): string {
    if line != "" && line[|line| - 1] in "\r\n" then TrimLineEnd(line[..|line| - 1]) else line
  }

  /** base64.StdEncoding: padded groups only. */
  function GoBase64(s: string): Result<seq<byte>, FrameError> {
    if WellFormed(s) && Decoded(s).Ok? then Ok(Decoded(s).value) else Err(BadBase64)
  }

  /** One turn of Recv's loop on a line as read, newline included or not. */
  function GoLine(parse: string -> Json, line: string): LineResult {
    var text := TrimLineEnd(line);
    if text == "" then Skip
    else
      var v := parse(text);
      if v.Null? then Skip
      else if v.Object? then GoObject(v.fields) else Throw(BadLine)
  }

  function GoObject(fields: map<string, Field>): LineResult {
    var kind := GoString(fields, "type");
    if kind == "data" then
      var bytes := GoBase64(GoString(fields, "chunk"));
      if bytes.Err? then Throw(BadBase64) else Emit(Data(bytes.value))
    else if kind == "progress" then
      Emit(Progress(GoString(fields, "phase"), GoCount(fields, "fetched"), GoCount(fields, "total")))
    else if kind == "error" then Throw(Remote(GoString(fields, "message")))
    else if kind == "meta" then Emit(Meta(GoCount(fields, "total_size")))
    else Skip
  }

  // ----- where the two agree -----

  predicate StringOrMissing(fields: map<string, Field>, key: string) { key in fields ==> fields[key].Str? }

  /** A number that both conversions read alike, as they do a plain 64-bit
      integer. */
  predicate CountOrMissing(fields: map<string, Field>, key: string) {
    key in fields ==> fields[key].Number? && fields[key].cpp == fields[key].go
  }

  /** The fields an object of each kind is read for have the types both clients
      take, no default is needed where the defaults differ, and a payload is
      decoded by both or by neither. */
  predicate AlikeFields(fields: map<string, Field>) {
    && StringOrMissing(fields, "type")
    && match GoString(fields, "type")
       case "data" =>
         StringOrMissing(fields, "chunk")
         && (WellFormed(GoString(fields, "chunk")) || Decoded(GoString(fields, "chunk")).Err?)
       case "progress" =>
         StringOrMissing(fields, "phase") && CountOrMissing(fields, "fetched") && CountOrMissing(fields, "total")
       case "error" => "message" in fields && fields["message"].Str?
       case "meta" => CountOrMissing(fields, "total_size")
       case _ => true
  }

  /** A line that means the same to both: blank but for one carriage return at
      most, or of a JSON value other than null whose fields are read alike. */
  predicate Alike(parse: string -> Json, line: string) {
    var core := TrimLineEnd(line);
    if core == "" then |line| <= 1
    else match parse(core)
         case Null => false
         case Object(fields) => AlikeFields(fields)
         case _ => true
  }

  /** JSON allows white space after a value, and white space alone is no value. */
  ghost predicate ReadsJson(parse: string -> Json) {
    && (forall s :: TrimLineEnd(s) != "" ==> parse(s) == parse(TrimLineEnd(s)))
    && (forall s :: s != "" && TrimLineEnd(s) == "" ==> parse(s) == NotJson)
  }

  lemma {:induction false} TrimStripped(line: string)
    requires line != "" && line[|line| - 1] == '\r'
    ensures TrimLineEnd(line[..|line| - 1]) == TrimLineEnd(line)
  {}

  /** The two clients read an object differently exactly when its fields say so. */
  lemma ObjectAgreement(fields: map<string, Field>)
    ensures CppObject(fields) == GoObject(fields) <==> AlikeFields(fields)
  {
    hide Decoded, WellFormed;
    if GoString(fields, "type") == "data" { ChunkAgreement(fields); }
  }

  lemma ChunkAgreement(fields: map<string, Field>)
    requires StringOrMissing(fields, "type") && GoString(fields, "type") == "data"
    ensures CppObject(fields) == GoObject(fields) <==> AlikeFields(fields)
  {
    hide Decoded, WellFormed;
    var s := GoString(fields, "chunk");
    if WellFormed(s) { DecodedIsPlain(s); }
    EmptyChunk();
  }

  lemma EmptyChunk()
    ensures Decoded("") == Ok([]) && WellFormed("")
  {}

  /** On every line, and whatever JSON reader the two share, the C++ and Go
      clients do the same exactly when the line is read alike. */
  lemma LineAgreement(parse: string -> Json, line: string)
    requires ReadsJson(parse) && '\n' !in line
    ensures CppLine(parse, line) == GoLine(parse, line) <==> Alike(parse, line)
  {
    hide CppObject, GoObject, AlikeFields, TrimLineEnd;
    var core := TrimLineEnd(line);
    if core != "" {
      CoreRead(parse, line);
      if parse(core).Object? { ObjectAgreement(parse(core).fields); }
    } else {
      BlankLine(parse, line);
    }
  }

  /** What either client makes of a line that is not blank. */
  lemma CoreRead(parse: string -> Json, line: string)
    requires ReadsJson(parse) && TrimLineEnd(line) != ""
    ensures var v := parse(TrimLineEnd(line));
            && CppLine(parse, line) == (if v.Object? then CppObject(v.fields) else Throw(BadLine))
            && GoLine(parse, line)
               == (if v.Object? then GoObject(v.fields) else if v.Null? then Skip else Throw(BadLine))
  {
    hide CppObject, GoObject;
    CppSeesCore(parse, line);
    TrimmedEnd(line);
  }

  /** What each client raises, or passes over, on a line that holds no frame:
      text that is no JSON, or a value that is no object; the JSON null; a
      payload that neither decodes; and an error line without its message. */
  lemma BadLines(parse: string -> Json, line: string)
    requires ReadsJson(parse) && TrimLineEnd(line) != ""
    ensures var v := parse(TrimLineEnd(line));
            && (v.NotJson? || v.NotObject? ==> CppLine(parse, line) == GoLine(parse, line) == Throw(BadLine))
            && (v.Null? ==> CppLine(parse, line) == Throw(BadLine) && GoLine(parse, line) == Skip)
            && (v.Object? && "type" in v.fields && v.fields["type"] == Str("data") && "chunk" in v.fields
                && v.fields["chunk"].Str? && Decoded(v.fields["chunk"].s).Err? ==>
                  CppLine(parse, line) == GoLine(parse, line) == Throw(BadBase64))
            && (v.Object? && "type" in v.fields && v.fields["type"] == Str("error") && "message" !in v.fields ==>
                  CppLine(parse, line) == Throw(Remote("download failed")) && GoLine(parse, line) == Throw(Remote("")))
  {
    hide Decoded, WellFormed, CppLine, GoLine, TrimLineEnd;
    CoreRead(parse, line);
  }

  /** Counts, a phase or a payload that are missing read as zero or empty. */
  lemma MissingFields(fields: map<string, Field>)
    requires "type" in fields && fields["type"].Str?
    ensures fields["type"].s == "progress" && "phase" !in fields && "fetched" !in fields && "total" !in fields ==>
              CppObject(fields) == GoObject(fields) == Emit(Progress("", 0, 0))
    ensures fields["type"].s == "meta" && "total_size" !in fields ==>
              CppObject(fields) == GoObject(fields) == Emit(Meta(0))
    ensures fields["type"].s == "data" && "chunk" !in fields ==>
              CppObject(fields) == GoObject(fields) == Emit(Data([]))
  {
    hide Decoded, WellFormed;
    EmptyChunk();
  }

  lemma EmptyTrims()
    ensures TrimLineEnd("") == ""
  {}

  lemma CppSeesCore(parse: string -> Json, line: string)
    requires ReadsJson(parse) && TrimLineEnd(line) != ""
    ensures CppLine(parse, line) == CppLine(parse, TrimLineEnd(line))
  {
    hide CppLine, TrimLineEnd;
    EmptyTrims();
    var core, text := TrimLineEnd(line), Stripped(line);
    if text != line { TrimStripped(line); }
    TrimmedEnd(line);
    CppReads(parse, line, core);
  }

  lemma CppReads(parse: string -> Json, a: string, b: string)
    requires Stripped(a) != "" && Stripped(b) != "" && parse(Stripped(a)) == parse(Stripped(b))
    ensures CppLine(parse, a) == CppLine(parse, b)
  {
    hide CppObject;
  }

  lemma BlankLine(parse: string -> Json, line: string)
    requires ReadsJson(parse) && '\n' !in line && TrimLineEnd(line) == ""
    ensures GoLine(parse, line) == Skip
    ensures CppLine(parse, line) == if |line| >= 2 then Throw(BadLine) else Skip
  {
    if line != "" {
      TrimmedLast(line);
      TrimStripped(line);
      assert |line| >= 2 ==> parse(line[..|line| - 1]) == NotJson;
    }
  }

  lemma {:induction false} TrimmedEnd(line: string)
    ensures var t := TrimLineEnd(line); t == "" || t[|t| - 1] !in "\r\n"
  {
    if line != "" && line[|line| - 1] in "\r\n" { TrimmedEnd(line[..|line| - 1]); }
  }

  lemma TrimmedLast(line: string)
    requires line != "" && TrimLineEnd(line) == "" && '\n' !in line
    ensures line[|line| - 1] == '\r'
  {
    assert line[|line| - 1] in line;
  }
}
