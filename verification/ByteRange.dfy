/** Byte-range requests: the Go client (antd-go/range.go and its two callers)
    against the daemon's parser and clamping (antd/src/range.rs). */
module ByteRange {
  import opened Text
  import opened Decimal

  // ----- the Go client -----

  const RANGE_TO_END: int64 := -1

  datatype RangeError = NegativeOffset | BadLength

  /** checkRange. */
  function CheckRange(offset: int64, length: int64): Option<RangeError> {
    if offset < 0 then Some(NegativeOffset)
    else if length <= 0 && length != RANGE_TO_END then Some(BadLength)
    else None
  }

  /** "bytes=first-last" or "bytes=first-". */
  function RangeText(first: nat, last: Option<nat>): string {
    "bytes=" + (Print(first) + ("-" + if last.Some? then Print(last.value) else ""))
  }

  /** rangeHeader. Every step stays within int64. */
  function RangeHeader(offset: int64, length: int64): Result<string, RangeError> {
    var bad := CheckRange(offset, length);
    if bad.Some? then Err(bad.value)
    else if length == RANGE_TO_END || length > MAX_INT64 - offset then Ok(RangeText(offset as nat, None))
    else
      var last: int64 := offset + length - 1;
      Ok(RangeText(offset as nat, Some(last as nat)))
  }

  datatype RangeReader = RangeReader(offset: int64, length: int64, size: int64)

  /** parseContentRange. */
  function ParseContentRange(value: string): (r: Option<RangeReader>)
    ensures r.Some? ==> r.value.offset >= 0 && r.value.length >= 1
    ensures r.Some? ==> r.value.offset as int + r.value.length as int <= r.value.size as int
  {
    var spec := CutPrefix(Trim(value), "bytes ");
    if spec.None? then None else
    var cut := Cut(spec.value, '/');
    if cut.None? then None else
    var span := Cut(cut.value.0, '-');
    if span.None? then None else
    var f, l, s := ParseInt64(span.value.0), ParseInt64(span.value.1), ParseInt64(cut.value.1);
    if f.None? || l.None? || s.None? || f.value < 0 || l.value < f.value || l.value >= s.value then None
    else Some(RangeReader(f.value, l.value - f.value + 1, s.value))
  }

  /** unsatisfiedSize. */
  function UnsatisfiedSize(value: string): (r: int64)
    ensures r >= -1
  {
    var size := CutPrefix(Trim(value), "bytes */");
    if size.None? then -1 else
    var s := ParseInt64(size.value);
    if s.None? || s.value < 0 then -1 else s.value
  }

  /** grpcRange. */
  function GrpcRange(offset: int64, length: int64): (uint64, Option<uint64>)
    requires CheckRange(offset, length).None?
  {
    (offset as uint64, if length == RANGE_TO_END then None else Some(length as uint64))
  }

  // ----- the daemon -----

  /** A half-open range [start, end) of an object. */
  datatype Span = Span(start: uint64, end: uint64)

  datatype ServerError = Invalid | Unsatisfiable

  function SaturatingAdd(a: uint64, b: uint64): uint64 {
    if a as int + b as int < TWO_64 then a + b else MAX_UINT64
  }

  function SaturatingSub(a: uint64, b: uint64): uint64 { if a >= b then a - b else 0 }

  function Smaller(a: uint64, b: uint64): uint64 { if a <= b then a else b }

  function Lower(c: char): char { if 'A' <= c <= 'Z' then c + ('a' - 'A') else c }

  predicate EqIgnoreCase(a: string, b: string) {
    |a| == |b| && forall i :: 0 <= i < |a| ==> Lower(a[i]) == Lower(b[i])
  }

  /** The digits-only position reader of parse_range_header. */
  function Position(s: string): Result<uint64, ServerError> {
    var n := ParseUint64(s);
    if n.None? then Err(Invalid) else Ok(n.value)
  }

  /** parse_range_header. */
  function ParseRangeHeader(value: string, size: uint64): (r: Result<Span, ServerError>)
    ensures r.Ok? ==> r.value.start < r.value.end <= size
  {
    var cut := Cut(value, '=');
    if cut.None? || !EqIgnoreCase(Trim(cut.value.0), "bytes") then Err(Invalid)
    else if ',' in cut.value.1 then Err(Invalid)
    else
      var span := Cut(Trim(cut.value.1), '-');
      if span.None? then Err(Invalid) else
      var first, last := Trim(span.value.0), Trim(span.value.1);
      if first == "" then
        var n := Position(last);
        if n.Err? then Err(n.error)
        else if n.value == 0 || size == 0 then Err(Unsatisfiable)
        else Ok(Span(SaturatingSub(size, n.value), size))
      else
        var start := Position(first);
        if start.Err? then Err(start.error) else
        var end := if last == "" then Ok(MAX_UINT64) else Position(last);
        if end.Err? then Err(end.error)
        else if last != "" && end.value < start.value then Err(Invalid)
        else if start.value >= size then Err(Unsatisfiable)
        else Ok(Span(start.value, if last == "" then size else Smaller(SaturatingAdd(end.value, 1), size)))
  }

  /** range_from_offset. */
  function RangeFromOffset(offset: uint64, length: Option<uint64>, size: uint64): (r: Result<Span, ServerError>)
    ensures r.Ok? ==> r.value.start < r.value.end <= size
  {
    if length == Some(0) then Err(Invalid)
    else if offset >= size then Err(Unsatisfiable)
    else Ok(Span(offset, if length.None? then size else Smaller(SaturatingAdd(offset, length.value), size)))
  }

  /** ByteRange::content_range, "bytes first-last/size". */
  function ContentRange(span: Span, size: uint64): string
    requires span.start < span.end
  {
    RangeOfSize(span.start as nat, span.end as nat - 1, size as nat)
  }

  function RangeOfSize(first: nat, last: nat, size: nat): string {
    "bytes " + (Print(first) + ("-" + Print(last)) + ("/" + Print(size)))
  }

  // The 416 header and the OUT_OF_RANGE trailer, "bytes */size".
  function UnsatisfiedRange(size: uint64): string { "bytes */" + Print(size as nat) }

  // ----- printed values read back -----

  lemma PrintEnds(n: nat)
    ensures var s := Print(n); IsDigit(s[0]) && IsDigit(s[|s| - 1])
  {
    assert Print(n)[0] in Print(n) && Print(n)[|Print(n)| - 1] in Print(n);
  }

  lemma PrintLacks(n: nat, c: char)
    requires !IsDigit(c)
    ensures c !in Print(n)
  {}

  lemma TrimText(s: string)
    requires s != "" && !IsSpace(s[0]) && !IsSpace(s[|s| - 1])
    ensures Trim(s) == s
  {
    TrimNothing(s);
  }

  lemma SpecParts(first: nat, last: Option<nat>)
    ensures var lastText := if last.Some? then Print(last.value) else "";
            var spec := Print(first) + ("-" + lastText);
            && Cut(RangeText(first, last), '=') == Some(("bytes", spec))
            && ',' !in spec && Trim(spec) == spec && Cut(spec, '-') == Some((Print(first), lastText))
            && Trim(Print(first)) == Print(first) && Trim(lastText) == lastText
  {
    hide Trim, Print, Cut;
    var lastText := if last.Some? then Print(last.value) else "";
    var spec := Print(first) + ("-" + lastText);
    PrintEnds(first);
    PrintLacks(first, '-');
    PrintLacks(first, ',');
    TrimText(Print(first));
    if last.Some? {
      PrintEnds(last.value);
      PrintLacks(last.value, ',');
      TrimText(lastText);
    } else {
      TrimEmpty();
    }
    assert spec[0] == Print(first)[0] && spec[|spec| - 1] == if last.Some? then lastText[|lastText| - 1] else '-';
    TrimText(spec);
    CutAt("bytes", '=', spec);
    assert RangeText(first, last) == "bytes" + ['='] + spec;
    CutAt(Print(first), '-', lastText);
    assert spec == Print(first) + ['-'] + lastText;
  }

  /** What the daemon makes of a header the client prints. */
  lemma ParsePrintedRange(first: nat, last: Option<nat>, size: uint64)
    requires first < TWO_64 && (last.Some? ==> first <= last.value < TWO_64)
    ensures ParseRangeHeader(RangeText(first, last), size)
         == if first >= size as nat then Err(Unsatisfiable)
            else Ok(Span(first as uint64, if last.None? then size
                                          else Smaller(SaturatingAdd(last.value as uint64, 1), size)))
  {
    hide Trim, Print, EqIgnoreCase, ParseUint64, Cut, RangeText;
    SpecParts(first, last);
    UnitIsBytes();
    ParseUint64OfPrint(first);
    if last.Some? { ParseUint64OfPrint(last.value); }
  }

  lemma UnitIsBytes()
    ensures EqIgnoreCase(Trim("bytes"), "bytes") && '=' !in "bytes"
  {
    TrimText("bytes");
  }

  lemma TrimEmpty()
    ensures Trim("") == ""
  {}

  lemma ContentRangeParts(first: nat, last: nat, size: nat)
    ensures var span := Print(first) + ("-" + Print(last));
            var spec := span + ("/" + Print(size));
            && CutPrefix(Trim(RangeOfSize(first, last, size)), "bytes ") == Some(spec)
            && Cut(spec, '/') == Some((span, Print(size)))
            && Cut(span, '-') == Some((Print(first), Print(last)))
  {
    hide Trim, Print, Cut, CutPrefix;
    PrintEnds(size);
    PrintLacks(first, '/');
    PrintLacks(last, '/');
    PrintLacks(first, '-');
    SplitRange(Print(first), Print(last), Print(size));
  }

  lemma SplitRange(f: string, l: string, s: string)
    requires '/' !in f && '/' !in l && '-' !in f && s != "" && !IsSpace(s[|s| - 1])
    ensures var span := f + ("-" + l);
            var spec := span + ("/" + s);
            && CutPrefix(Trim("bytes " + spec), "bytes ") == Some(spec)
            && Cut(spec, '/') == Some((span, s)) && Cut(span, '-') == Some((f, l))
  {
    hide Trim, Cut, CutPrefix;
    var span := f + ("-" + l);
    var spec := span + ("/" + s);
    assert ("bytes " + spec)[|"bytes " + spec| - 1] == s[|s| - 1];
    TrimText("bytes " + spec);
    CutPrefixOf("bytes ", spec);
    CutAt(span, '/', s);
    assert spec == span + ['/'] + s;
    CutAt(f, '-', l);
    assert span == f + ['-'] + l;
  }

  /** Parsing a printed range is the identity, just when its numbers fit int64. */
  lemma ParsePrintedContentRange(first: nat, last: nat, size: nat)
    requires first <= last < size
    ensures ParseContentRange(RangeOfSize(first, last, size))
         == if size < TWO_63 then Some(RangeReader(first as int64, (last - first + 1) as int64, size as int64))
            else None
  {
    hide Trim, Print, ParseInt64, Cut, CutPrefix, RangeOfSize;
    ContentRangeParts(first, last, size);
    ParseInt64OfPrint(first);
    ParseInt64OfPrint(last);
    ParseInt64OfPrint(size);
  }

  lemma ReadUnsatisfiedSize(size: uint64)
    ensures UnsatisfiedSize(UnsatisfiedRange(size)) as int == if size as nat < TWO_63 then size as int else -1
  {
    hide Trim, Print, ParseInt64;
    var text := UnsatisfiedRange(size);
    PrintEnds(size as nat);
    assert text[|text| - 1] == Print(size as nat)[|Print(size as nat)| - 1];
    TrimText(text);
    CutPrefixOf("bytes */", Print(size as nat));
    ParseInt64OfPrint(size as nat);
  }

  lemma StarIsNoSpan(t: string)
    requires "bytes */" <= t
    ensures CutPrefix(t, "bytes ").Some? && Cut(CutPrefix(t, "bytes ").value, '/').Some?
    ensures Cut(Cut(CutPrefix(t, "bytes ").value, '/').value.0, '-') == None
  {
    hide Cut, CutPrefix;
    var rest := t[8..];
    assert t == "bytes " + ("*" + ['/'] + rest);
    CutPrefixOf("bytes ", "*" + ['/'] + rest);
    CutAt("*", '/', rest);
  }

  /** No header value is both a satisfied range and an unsatisfied size. */
  lemma NotBoth(value: string)
    ensures ParseContentRange(value).Some? ==> UnsatisfiedSize(value) == -1
  {
    hide Trim, ParseInt64, Cut, CutPrefix;
    var t := Trim(value);
    if "bytes */" <= t {
      StarIsNoSpan(t);
    }
  }

  /** The layouts, by example. */
  lemma HeaderExamples()
    ensures RangeText(0, Some(4)) == "bytes=0-4" && RangeText(7, None) == "bytes=7-"
    ensures RangeOfSize(0, 4, 9) == "bytes 0-4/9" && UnsatisfiedRange(9) == "bytes */9"
  {
    assert Print(0) == "0" && Print(4) == "4" && Print(7) == "7" && Print(9) == "9";
  }

  // ----- a whole request -----

  datatype Outcome = Reader(r: RangeReader) | NotSatisfiable(size: int64) | Malformed | BadRequest
                   | Rejected(e: RangeError)

  /** REST: doRangeStream against range_response. A 416 carries the size; a
      refused header is a 400. */
  function RestRange(offset: int64, length: int64, size: uint64): Outcome {
    var header := RangeHeader(offset, length);
    if header.Err? then Rejected(header.error)
    else match ParseRangeHeader(header.value, size)
         case Ok(span) => ReaderOf(ContentRange(span, size))
         case Err(Unsatisfiable) => NotSatisfiable(UnsatisfiedSize(UnsatisfiedRange(size)))
         case Err(Invalid) => BadRequest
  }

  function ReaderOf(contentRange: string): Outcome {
    var r := ParseContentRange(contentRange);
    if r.None? then Malformed else Reader(r.value)
  }

  /** gRPC: openGrpcRange against data_chunk_range_response, which sends the
      same two values as metadata. */
  function GrpcRangeCall(offset: int64, length: int64, size: uint64): Outcome {
    var bad := CheckRange(offset, length);
    if bad.Some? then Rejected(bad.value)
    else
      var fields := GrpcRange(offset, length);
      match RangeFromOffset(fields.0, fields.1, size)
      case Ok(span) => ReaderOf(ContentRange(span, size))
      case Err(Unsatisfiable) => NotSatisfiable(UnsatisfiedSize(UnsatisfiedRange(size)))
      case Err(Invalid) => BadRequest
  }

  /** How many bytes the caller asked for and the object has. */
  function Clamped(offset: int64, length: int64, size: uint64): int
    requires offset as int < size as int
  {
    if length == RANGE_TO_END || length as int > size as int - offset as int then size as int - offset as int
    else length as int
  }

  /** The promised outcome for an accepted request. */
  predicate Promised(offset: int64, length: int64, size: uint64, o: Outcome) {
    if offset as int >= size as int then o.NotSatisfiable? && o.size as int == size as int
    else o.Reader? && o.r.offset == offset && o.r.size as int == size as int
         && o.r.length as int == Clamped(offset, length, size)
  }

  /** The span the daemon serves for the client's REST header and for its gRPC
      fields. The header drops the length once the last position would pass
      int64, so the two differ just for an object larger than that end. */
  lemma SameBytes(offset: int64, length: int64, size: uint64)
    requires CheckRange(offset, length).None?
    ensures RangeHeader(offset, length).Ok?
    ensures ParseRangeHeader(RangeHeader(offset, length).value, size)
         == RangeFromOffset(offset as uint64, GrpcRange(offset, length).1, size)
       <==> !(length != RANGE_TO_END && length > MAX_INT64 - offset && offset as int + length as int < size as int)
  {
    hide ParseRangeHeader, RangeText;
    RestSpan(offset, length, size);
  }

  lemma RestSpan(offset: int64, length: int64, size: uint64)
    requires CheckRange(offset, length).None?
    ensures RangeHeader(offset, length).Ok?
    ensures ParseRangeHeader(RangeHeader(offset, length).value, size)
         == if offset as int >= size as int then Err(Unsatisfiable)
            else if length == RANGE_TO_END || length > MAX_INT64 - offset then Ok(Span(offset as uint64, size))
            else Ok(Span(offset as uint64, (offset as int + Clamped(offset, length, size)) as uint64))
  {
    hide ParseRangeHeader, RangeText;
    if length == RANGE_TO_END || length > MAX_INT64 - offset {
      ParsePrintedRange(offset as nat, None, size);
    } else {
      ParsePrintedRange(offset as nat, Some(offset as nat + length as nat - 1), size);
    }
  }

  lemma GrpcSpan(offset: int64, length: int64, size: uint64)
    requires CheckRange(offset, length).None?
    ensures RangeFromOffset(offset as uint64, GrpcRange(offset, length).1, size)
         == if offset as int >= size as int then Err(Unsatisfiable)
            else Ok(Span(offset as uint64, (offset as int + Clamped(offset, length, size)) as uint64))
  {}

  lemma ContentRangeReads(span: Span, size: uint64)
    requires span.start < span.end <= size
    ensures ReaderOf(ContentRange(span, size))
         == if size as nat < TWO_63
            then Reader(RangeReader(span.start as int64, (span.end - span.start) as int64, size as int64))
            else Malformed
  {
    hide ParseContentRange, RangeOfSize;
    ParsePrintedContentRange(span.start as nat, span.end as nat - 1, size as nat);
  }

  /** The two transports give the caller the same outcome, for every request. */
  lemma TransportsAgree(offset: int64, length: int64, size: uint64)
    ensures RestRange(offset, length, size) == GrpcRangeCall(offset, length, size)
  {
    hide ParseRangeHeader, UnsatisfiedSize, RangeHeader, ReaderOf, ContentRange, RangeFromOffset, GrpcRange;
    if CheckRange(offset, length).None? {
      RestSpan(offset, length, size);
      GrpcSpan(offset, length, size);
      if offset as int < size as int {
        ContentRangeReads(Span(offset as uint64, size), size);
        ContentRangeReads(Span(offset as uint64, (offset as int + Clamped(offset, length, size)) as uint64), size);
      }
      assert GrpcRange(offset, length).0 == offset as uint64 by { GrpcOffset(offset, length); }
    } else {
      assert RangeHeader(offset, length) == Err(CheckRange(offset, length).value) by { RejectedHeader(offset, length); }
    }
  }

  lemma GrpcOffset(offset: int64, length: int64)
    requires CheckRange(offset, length).None?
    ensures GrpcRange(offset, length).0 == offset as uint64
  {}

  lemma RejectedHeader(offset: int64, length: int64)
    requires CheckRange(offset, length).Some?
    ensures RangeHeader(offset, length) == Err(CheckRange(offset, length).value)
  {}

  /** For every object size, every offset and every length the client accepts,
      the request comes back as promised exactly when the size fits an int64. */
  lemma RangeAsPromised(offset: int64, length: int64, size: uint64)
    requires CheckRange(offset, length).None?
    ensures Promised(offset, length, size, RestRange(offset, length, size)) <==> size as nat < TWO_63
  {
    hide ParseRangeHeader, UnsatisfiedSize, RangeHeader, ReaderOf, ContentRange;
    RestSpan(offset, length, size);
    ReadUnsatisfiedSize(size);
    if offset as int < size as int {
      ContentRangeReads(Span(offset as uint64, size), size);
      ContentRangeReads(Span(offset as uint64, (offset as int + Clamped(offset, length, size)) as uint64), size);
    }
  }

  /** Only a negative offset or a length that is neither positive nor -1, which
      asks for the rest, is refused, each for its own reason and before
      anything is sent. */
  lemma RejectsExactly(offset: int64, length: int64, size: uint64)
    ensures RestRange(offset, length, size).Rejected? <==> offset < 0 || (length < 1 && length != -1)
    ensures RestRange(offset, length, size).Rejected? ==>
              RestRange(offset, length, size).e == if offset < 0 then NegativeOffset else BadLength
  {
    hide ParseRangeHeader, UnsatisfiedSize, ParseContentRange, ContentRange;
  }

  // ----- header forms the client does not print -----

  /** The unit is "bytes" in any case. */
  lemma UnitInAnyCase(unit: string)
    ensures EqIgnoreCase(unit, "bytes")
       <==> |unit| == 5 && unit[0] in "bB" && unit[1] in "yY" && unit[2] in "tT" && unit[3] in "eE" && unit[4] in "sS"
  {}

  /** Another unit, a second range, or no range at all is malformed, for every
      object. */
  lemma OtherForms(unit: string, spec: string, size: uint64)
    requires '=' !in unit
    ensures ParseRangeHeader(unit, size) == Err(Invalid)
    ensures !EqIgnoreCase(Trim(unit), "bytes") ==> ParseRangeHeader(unit + ['='] + spec, size) == Err(Invalid)
    ensures ',' in spec || '-' !in Trim(spec) ==> ParseRangeHeader(unit + ['='] + spec, size) == Err(Invalid)
  {
    hide Trim, Cut, EqIgnoreCase;
    CutAt(unit, '=', spec);
  }

  /** White space is allowed around the unit and around each position. */
  lemma SpacedRange(unit: string, first: nat, last: Option<nat>, a: string, b: string, c: string, d: string,
                    size: uint64)
    requires first < TWO_64 && (last.Some? ==> first <= last.value < TWO_64)
    requires EqIgnoreCase(unit, "bytes") && AllSpace(a) && AllSpace(b) && AllSpace(c) && AllSpace(d)
    ensures var lastText := if last.Some? then Print(last.value) else "";
            var spec := b + (Print(first) + c + "-" + d + lastText) + a;
            ParseRangeHeader(a + unit + b + ['='] + spec, size) == ParseRangeHeader(RangeText(first, last), size)
  {
    hide Trim, Print, EqIgnoreCase, ParseUint64, Cut, RangeText, ParseRangeHeader;
    var lastText := if last.Some? then Print(last.value) else "";
    var spec := b + (Print(first) + c + "-" + d + lastText) + a;
    var value := a + unit + b + ['='] + spec;
    SpacedUnit(a, unit, b);
    CutAt(a + unit + b, '=', spec);
    SpacedSpec(first, last, a, b, c, d);
    var right := if last.Some? then d + lastText else "";
    PartsDecide(value, a + unit + b, spec, Print(first) + c, right, first, last, size);
    ParsePrintedRange(first, last, size);
  }

  lemma SpacedUnit(a: string, unit: string, b: string)
    requires EqIgnoreCase(unit, "bytes") && AllSpace(a) && AllSpace(b)
    ensures Trim(a + unit + b) == unit && '=' !in a + unit + b
  {
    hide Trim;
    UnitInAnyCase(unit);
    assert forall x :: x in unit ==> x in "bBytTesESyYT";
    TrimAround(a, unit, b);
  }

  lemma SpacedSpec(first: nat, last: Option<nat>, a: string, b: string, c: string, d: string)
    requires AllSpace(a) && AllSpace(b) && AllSpace(c) && AllSpace(d)
    ensures var lastText := if last.Some? then Print(last.value) else "";
            var spec := b + (Print(first) + c + "-" + d + lastText) + a;
            var right := if last.Some? then d + lastText else "";
            && ',' !in spec && Cut(Trim(spec), '-') == Some((Print(first) + c, right))
            && Trim(Print(first) + c) == Print(first) && Trim(right) == lastText
  {
    hide Trim, Print, Cut, AllSpace, IsSpace;
    var lastText := if last.Some? then Print(last.value) else "";
    PrintEnds(first);
    SpaceLacks(a);
    SpaceLacks(b);
    SpaceLacks(c);
    SpaceLacks(d);
    PrintLacks(first, ',');
    PrintLacks(first, '-');
    DigitsAreNoSpace();
    TrimAround("", Print(first), c);
    assert "" + Print(first) + c == Print(first) + c;
    if last.Some? {
      PrintEnds(last.value);
      PrintLacks(last.value, ',');
      TrimAround(d, lastText, "");
      assert d + lastText + "" == d + lastText;
      TrimSpec(b, Print(first), c, d + lastText, a);
      assert b + (Print(first) + c + "-" + d + lastText) + a == b + (Print(first) + c + "-" + (d + lastText)) + a;
    } else {
      TrimEmpty();
      SpaceAppend(d, a);
      TrimSpec(b, Print(first), c, "", d + a);
      assert b + (Print(first) + c + "-" + d + lastText) + a == b + (Print(first) + c + "-" + "") + (d + a);
    }
  }

  lemma TrimSpec(left: string, first: string, c: string, right: string, tail: string)
    requires AllSpace(left) && AllSpace(tail) && '-' !in first + c
    requires first != "" && !IsSpace(first[0]) && (right != "" ==> !IsSpace(right[|right| - 1]))
    ensures Cut(Trim(left + (first + c + "-" + right) + tail), '-') == Some((first + c, right))
  {
    hide Trim, Cut, AllSpace;
    var core := first + c + "-" + right;
    assert core[0] == first[0] && core[|core| - 1] == if right == "" then '-' else right[|right| - 1];
    TrimAround(left, core, tail);
    assert core == (first + c) + ['-'] + right;
    CutAt(first + c, '-', right);
  }

  lemma SpaceLacks(s: string)
    requires AllSpace(s)
    ensures ',' !in s && '-' !in s
  {}

  lemma SpaceAppend(a: string, b: string)
    requires AllSpace(a) && AllSpace(b)
    ensures AllSpace(a + b)
  {}

  lemma DigitsAreNoSpace()
    ensures (forall c :: IsDigit(c) ==> !IsSpace(c)) && AllSpace("")
  {}

  /** The daemon's reading depends on the trimmed parts alone. */
  lemma PartsDecide(value: string, unit: string, spec: string, left: string, right: string,
                    first: nat, last: Option<nat>, size: uint64)
    requires first < TWO_64 && (last.Some? ==> first <= last.value < TWO_64)
    requires Cut(value, '=') == Some((unit, spec)) && EqIgnoreCase(Trim(unit), "bytes") && ',' !in spec
    requires Cut(Trim(spec), '-') == Some((left, right)) && Trim(left) == Print(first)
    requires Trim(right) == if last.Some? then Print(last.value) else ""
    ensures ParseRangeHeader(value, size)
         == if first >= size as nat then Err(Unsatisfiable)
            else Ok(Span(first as uint64, if last.None? then size
                                          else Smaller(SaturatingAdd(last.value as uint64, 1), size)))
  {
    hide Trim, Print, EqIgnoreCase, ParseUint64, Cut;
    ParseUint64OfPrint(first);
    if last.Some? { ParseUint64OfPrint(last.value); }
  }

  /** White space around either of the daemon's two values changes nothing. */
  lemma SpacedValues(a: string, b: string, first: nat, last: nat, size: nat)
    requires AllSpace(a) && AllSpace(b) && first <= last < size < TWO_63
    ensures ParseContentRange(a + RangeOfSize(first, last, size) + b)
         == Some(RangeReader(first as int64, (last - first + 1) as int64, size as int64))
    ensures UnsatisfiedSize(a + UnsatisfiedRange(size as uint64) + b) as int == size
  {
    hide Trim, Print, RangeOfSize, ParseInt64, Cut, CutPrefix;
    ParsePrintedContentRange(first, last, size);
    ReadUnsatisfiedSize(size as uint64);
    RangeEnds(first, last, size);
    TrimAround(a, RangeOfSize(first, last, size), b);
    TrimText(RangeOfSize(first, last, size));
    TrimAround(a, UnsatisfiedRange(size as uint64), b);
    TrimText(UnsatisfiedRange(size as uint64));
  }

  lemma RangeEnds(first: nat, last: nat, size: nat)
    ensures var s := RangeOfSize(first, last, size); s != "" && s[0] == 'b' && IsDigit(s[|s| - 1])
    ensures size < TWO_64 ==>
              var t := UnsatisfiedRange(size as uint64); t != "" && t[0] == 'b' && IsDigit(t[|t| - 1])
  {
    hide Print;
    PrintEnds(size);
    var s := RangeOfSize(first, last, size);
    assert s[|s| - 1] == Print(size)[|Print(size)| - 1];
  }

  /** A size that is no plain number is unknown. */
  lemma NegativeSizeIsUnknown(n: nat)
    requires n > 0
    ensures UnsatisfiedSize("bytes */" + ("-" + Print(n))) == -1
  {
    hide Trim, Print, ParseInt64;
    var text := "bytes */" + ("-" + Print(n));
    PrintEnds(n);
    assert text[|text| - 1] == Print(n)[|Print(n)| - 1];
    TrimText(text);
    CutPrefixOf("bytes */", "-" + Print(n));
    ParseInt64OfSigned(n);
  }

  /** Which bytes the gRPC fields ask for: those from the offset on, up to the
      length if one is given, that the object has. */
  lemma FieldsServe(offset: uint64, length: Option<uint64>, size: uint64)
    ensures RangeFromOffset(offset, length, size) == Err(Invalid) <==> length == Some(0)
    ensures RangeFromOffset(offset, length, size) == Err(Unsatisfiable) <==> length != Some(0) && offset >= size
    ensures RangeFromOffset(offset, length, size).Ok? ==>
              var span := RangeFromOffset(offset, length, size).value;
              forall i :: Holds(span, i) <==> Asked(offset, length, i) && i < size as int
  {}

  predicate Holds(span: Span, i: int) { span.start as int <= i < span.end as int }

  predicate Asked(offset: uint64, length: Option<uint64>, i: int) {
    offset as int <= i && (length.Some? ==> i < offset as int + length.value as int)
  }

  /** "bytes=-n" asks for the last n bytes, or the whole of a shorter object. */
  lemma SuffixRange(n: nat, size: uint64)
    requires n < TWO_64
    ensures ParseRangeHeader("bytes=-" + Print(n), size)
         == if n == 0 || size == 0 then Err(Unsatisfiable)
            else Ok(Span(if n <= size as nat then size - n as uint64 else 0, size))
  {
    hide Trim, Print, EqIgnoreCase, ParseUint64, Cut;
    var spec := ['-'] + Print(n);
    PrintEnds(n);
    PrintLacks(n, ',');
    TrimText(Print(n));
    TrimText(spec);
    TrimEmpty();
    UnitIsBytes();
    CutAt("bytes", '=', spec);
    assert "bytes=-" + Print(n) == "bytes" + ['='] + spec;
    CutAt("", '-', Print(n));
    assert spec == "" + ['-'] + Print(n);
    ParseUint64OfPrint(n);
  }

  /** A range that ends before it starts is malformed, not unsatisfiable. */
  lemma BackwardRange(first: nat, last: nat, size: uint64)
    requires last < first < TWO_64
    ensures ParseRangeHeader(RangeText(first, Some(last)), size) == Err(Invalid)
  {
    hide Trim, Print, EqIgnoreCase, ParseUint64, Cut, RangeText;
    SpecParts(first, Some(last));
    UnitIsBytes();
    ParseUint64OfPrint(first);
    ParseUint64OfPrint(last);
  }

  /** A position beyond 64 bits is malformed, wherever the object ends. */
  lemma PositionTooWide(first: nat, last: Option<nat>, size: uint64)
    requires first >= TWO_64 || (last.Some? && last.value >= TWO_64)
    ensures ParseRangeHeader(RangeText(first, last), size) == Err(Invalid)
  {
    hide Trim, Print, EqIgnoreCase, ParseUint64, Cut, RangeText;
    SpecParts(first, last);
    UnitIsBytes();
    ParseUint64OfPrint(first);
    if last.Some? { ParseUint64OfPrint(last.value); }
  }
}
