/** A whole progress download: the daemon's NDJSON body (antd/src/rest/data.rs)
    through the C++ and Go clients. */
module Download {
  import opened Text
  import opened Base64
  import opened Frames
  import opened Ndjson
  import opened Decimal
  import NdjsonPull

  /** The lines stream_response_ndjson emits. */
  datatype DaemonLine = MetaLine(size: uint64) | ProgressLine(phase: string, fetched: uint64, total: uint64)
                      | DataLine(batch: seq<byte>) | ErrorLine(message: string)

  ghost function FieldsOf(l: DaemonLine): map<string, Field> {
    match l
    case MetaLine(size) => map["type" := Str("meta"), "total_size" := Count(size)]
    case ProgressLine(phase, fetched, total) =>
      map["type" := Str("progress"), "phase" := Str(phase), "fetched" := Count(fetched), "total" := Count(total)]
    case DataLine(batch) => map["type" := Str("data"), "chunk" := Str(Encoded(batch))]
    case ErrorLine(message) => map["type" := Str("error"), "message" := Str(message)]
  }

  /** A JSON writer and reader that fit together: a compact object is a
      non-blank line without line ends, and reads back as its fields. */
  ghost predicate Faithful(render: DaemonLine -> string, parse: string -> Json) {
    forall l :: '\n' !in render(l) && render(l) != "" && TrimLineEnd(render(l)) == render(l)
                && parse(render(l)) == Object(FieldsOf(l))
  }

  /** The body: each line, newline-terminated. */
  function Body(lines: seq<DaemonLine>, render: DaemonLine -> string): string {
    if lines == [] then "" else render(lines[0]) + ("\n" + Body(lines[1..], render))
  }

  function Printed(lines: seq<DaemonLine>, render: DaemonLine -> string): seq<string> {
    if lines == [] then [] else [render(lines[0])] + Printed(lines[1..], render)
  }

  ghost function FramesOfLines(lines: seq<DaemonLine>): seq<Frame>
    requires NoError(lines)
  {
    if lines == [] then [] else [FrameOfLine(lines[0])] + FramesOfLines(lines[1..])
  }

  predicate NoError(lines: seq<DaemonLine>) { forall i :: 0 <= i < |lines| ==> !lines[i].ErrorLine? }

  ghost function FrameOfLine(l: DaemonLine): Frame
    requires !l.ErrorLine?
  {
    match l
    case MetaLine(size) => Meta(size)
    case ProgressLine(phase, fetched, total) => Progress(phase, fetched, total)
    case DataLine(batch) => Data(batch)
  }

  /** The plaintext batches among the lines, in order. */
  function Batches(lines: seq<DaemonLine>): seq<seq<byte>> {
    if lines == [] then []
    else (if lines[0].DataLine? then [lines[0].batch] else []) + Batches(lines[1..])
  }

  /** The bytes a consumer of frames writes out. */
  function BytesOf(frames: seq<Frame>): seq<byte> {
    if frames == [] then []
    else (if frames[0].Data? then frames[0].bytes else []) + BytesOf(frames[1..])
  }

  lemma {:induction false} LinesOfBody(lines: seq<DaemonLine>, render: DaemonLine -> string, parse: string -> Json)
    requires Faithful(render, parse)
    ensures Lines(Body(lines, render)) == Printed(lines, render) && Tail(Body(lines, render)) == ""
  {
    if lines != [] {
      LinesOfBody(lines[1..], render, parse);
      LineThenRest(render(lines[0]), Body(lines[1..], render));
    }
  }

  lemma LineThenRest(first: string, rest: string)
    requires '\n' !in first
    ensures Lines(first + ("\n" + rest)) == [first] + Lines(rest) && Tail(first + ("\n" + rest)) == Tail(rest)
  {
    hide IndexOf;
    var body := first + ("\n" + rest);
    assert body == first + ['\n'] + rest;
    CutAt(first, '\n', rest);
    assert IndexOf(body, '\n') == |first| && body[..|first|] == first && body[|first| + 1..] == rest by {
      IndexAt(first, rest);
    }
  }

  lemma IndexAt(first: string, rest: string)
    requires '\n' !in first
    ensures IndexOf(first + ("\n" + rest), '\n') == |first|
  {
    var body := first + ("\n" + rest);
    assert body[|first|] == '\n' && body[..|first|] == first;
    var i := IndexOf(body, '\n');
    assert i <= |first|;
  }

  /** Both clients read each printed line as its frame. */
  lemma PrintedLineReads(l: DaemonLine, render: DaemonLine -> string, parse: string -> Json)
    requires Faithful(render, parse)
    ensures CppLine(parse, render(l)) == if l.ErrorLine? then Throw(Remote(l.message)) else Emit(FrameOfLine(l))
    ensures GoLine(parse, render(l)) == CppLine(parse, render(l))
  {
    hide Encoded, Decoded, WellFormed;
    TrimmedEnd(render(l));
    if l.DataLine? { EncodeThenDecode(l.batch); CanonicalIsWellFormed(Encoded(l.batch)); }
    assert parse(render(l)) == Object(FieldsOf(l));
  }

  lemma CanonicalIsWellFormed(s: string)
    requires Canonical(s)
    ensures WellFormed(s)
  {}

  lemma {:induction false} ConsumePrinted(lines: seq<DaemonLine>, seen: seq<Frame>, render: DaemonLine -> string,
                                          parse: string -> Json)
    requires Faithful(render, parse) && NoError(lines)
    ensures Consume(Printed(lines, render), Run(seen, Running), parse, NdjsonPull.AcceptAll())
         == Run(seen + FramesOfLines(lines), Running)
  {
    hide CppLine, Faithful;
    if lines == [] {
      assert seen + [] == seen;
    } else {
      PrintedLineReads(lines[0], render, parse);
      var f := FrameOfLine(lines[0]);
      ConsumePrinted(lines[1..], seen + [f], render, parse);
      assert Printed(lines, render)[1..] == Printed(lines[1..], render);
      assert seen + ([f] + FramesOfLines(lines[1..])) == seen + [f] + FramesOfLines(lines[1..]);
    }
  }

  lemma {:induction false} BytesOfLines(lines: seq<DaemonLine>)
    requires NoError(lines)
    ensures BytesOf(FramesOfLines(lines)) == Flatten(Batches(lines))
  {
    if lines != [] {
      BytesOfLines(lines[1..]);
      var f, more := FrameOfLine(lines[0]), FramesOfLines(lines[1..]);
      assert FramesOfLines(lines)[1..] == more;
      if lines[0].DataLine? {
        assert Batches(lines)[1..] == Batches(lines[1..]);
      } else {
        assert Batches(lines) == Batches(lines[1..]);
      }
    }
  }

  lemma {:induction false} PrintedAgree(lines: seq<DaemonLine>, render: DaemonLine -> string, parse: string -> Json)
    requires Faithful(render, parse)
    ensures NdjsonPull.LinesAgree(Printed(lines, render), parse)
  {
    hide CppLine, GoLine, Faithful;
    if lines != [] {
      PrintedLineReads(lines[0], render, parse);
      PrintedAgree(lines[1..], render, parse);
    }
  }

  /** The end-to-end download: the plaintext, cut into any batches, with meta
      and progress lines interleaved anywhere, delivered in any transport
      chunks, comes out of the C++ sink and of Go's Recv whole and in order. */
  lemma DownloadDelivers(plain: seq<byte>, lines: seq<DaemonLine>, chunks: seq<string>,
                         render: DaemonLine -> string, parse: string -> Json)
    requires Faithful(render, parse) && NoError(lines)
    requires Flatten(Batches(lines)) == plain && Flatten(chunks) == Body(lines, render)
    ensures var r := Consume(Lines(Flatten(chunks)), Begin(), parse, NdjsonPull.AcceptAll());
            r.status == Running && r.seen == FramesOfLines(lines) && BytesOf(r.seen) == plain
    ensures NdjsonPull.Drain(Flatten(chunks), false, parse) == (FramesOfLines(lines), NdjsonPull.Eof)
  {
    hide CppLine, GoLine, Faithful, Consume, NdjsonPull.Drain;
    LinesOfBody(lines, render, parse);
    ConsumePrinted(lines, [], render, parse);
    assert [] + FramesOfLines(lines) == FramesOfLines(lines);
    BytesOfLines(lines);
    PrintedAgree(lines, render, parse);
    NdjsonPull.EmptyGoLine(parse);
    NdjsonPull.AgreeIffTailSkips(Flatten(chunks), parse);
  }

  /** A download the daemon cannot finish: every frame before its error line
      is delivered, and both clients end with the daemon's message, whatever
      lines its other tasks still queue after that one. */
  lemma FailedDownloadReports(lines: seq<DaemonLine>, message: string, more: seq<DaemonLine>, chunks: seq<string>,
                              render: DaemonLine -> string, parse: string -> Json)
    requires Faithful(render, parse) && NoError(lines)
    requires Flatten(chunks) == Body(lines + [ErrorLine(message)] + more, render)
    ensures var body := Flatten(chunks);
            && Consume(Lines(body), Begin(), parse, NdjsonPull.AcceptAll())
               == Run(FramesOfLines(lines), Threw(Remote(message)))
            && NdjsonPull.Drain(body, false, parse)
               == (FramesOfLines(lines), NdjsonPull.Failed(NdjsonPull.BadFrame(Remote(message))))
  {
    hide CppLine, GoLine, Faithful, Consume, NdjsonPull.Drain, Printed, Body, FramesOfLines;
    var all := lines + [ErrorLine(message)] + more;
    LinesOfBody(all, render, parse);
    ConsumeFailed(lines, message, more, render, parse);
    PrintedAgree(all, render, parse);
    NdjsonPull.PullMatchesPush(Flatten(chunks), false, parse, []);
    var d := NdjsonPull.Drain(Flatten(chunks), false, parse);
    assert [] + d.0 == d.0;
  }

  lemma ConsumeFailed(lines: seq<DaemonLine>, message: string, more: seq<DaemonLine>,
                      render: DaemonLine -> string, parse: string -> Json)
    requires Faithful(render, parse) && NoError(lines)
    ensures Consume(Printed(lines + [ErrorLine(message)] + more, render), Begin(), parse, NdjsonPull.AcceptAll())
         == Run(FramesOfLines(lines), Threw(Remote(message)))
  {
    hide CppLine, Faithful, Consume, Printed, FramesOfLines;
    var error, accept := render(ErrorLine(message)), NdjsonPull.AcceptAll();
    var before, rest := Printed(lines, render), Printed(more, render);
    var r := Run(FramesOfLines(lines), Running);
    PrintedAppend(lines, [ErrorLine(message)] + more, render);
    assert lines + ([ErrorLine(message)] + more) == lines + [ErrorLine(message)] + more;
    PrintedCons(ErrorLine(message), more, render);
    ConsumePrinted(lines, [], render, parse);
    assert [] + FramesOfLines(lines) == FramesOfLines(lines);
    ConsumeAppend(before, [error] + rest, Begin(), parse, accept);
    PrintedLineReads(ErrorLine(message), render, parse);
    ConsumeThrow(error, rest, r, Remote(message), parse, accept);
  }

  lemma ConsumeThrow(line: string, rest: seq<string>, r: Run, e: FrameError, parse: string -> Json, accept: Accept)
    requires r.status.Running? && CppLine(parse, line) == Throw(e)
    ensures Consume([line] + rest, r, parse, accept) == r.(status := Threw(e))
  {
    hide CppLine;
    assert ([line] + rest)[1..] == rest;
    ConsumeStopped(rest, r.(status := Threw(e)), parse, accept);
  }

  lemma PrintedCons(first: DaemonLine, rest: seq<DaemonLine>, render: DaemonLine -> string)
    ensures Printed([first] + rest, render) == [render(first)] + Printed(rest, render)
  {
    assert ([first] + rest)[1..] == rest;
  }

  lemma {:induction false} PrintedAppend(a: seq<DaemonLine>, b: seq<DaemonLine>, render: DaemonLine -> string)
    ensures Printed(a + b, render) == Printed(a, render) + Printed(b, render)
  {
    if a == [] {
      assert a + b == b;
    } else {
      assert (a + b)[1..] == a[1..] + b;
      PrintedAppend(a[1..], b, render);
    }
  }

  /** A failed download, writing out what it receives: everything sent before
      the failure, and then the daemon's message. */
  method DownloadFails(chunks: seq<string>, parse: string -> Json, ghost lines: seq<DaemonLine>, ghost message: string,
                       ghost more: seq<DaemonLine>, ghost render: DaemonLine -> string)
    returns (end: StreamEnd, bytes: seq<byte>)
    requires Faithful(render, parse) && NoError(lines)
    requires Flatten(chunks) == Body(lines + [ErrorLine(message)] + more, render)
    ensures end == Raised(Remote(message)) && bytes == Flatten(Batches(lines))
  {
    hide Faithful, Consume, Body, FramesOfLines;
    var sink := new NdjsonSink(parse, NdjsonPull.AcceptAll());
    FailedDownloadReports(lines, message, more, chunks, render, parse);
    BytesOfLines(lines);
    end := DoStream(Response(200, chunks), sink);
    bytes := BytesOf(sink.seen);
  }

  /** data_stream_with_progress, writing out what it receives. */
  method DownloadAll(chunks: seq<string>, parse: string -> Json, ghost plain: seq<byte>,
                     ghost lines: seq<DaemonLine>, ghost render: DaemonLine -> string)
    returns (end: StreamEnd, bytes: seq<byte>)
    requires Faithful(render, parse) && NoError(lines)
    requires Flatten(Batches(lines)) == plain && Flatten(chunks) == Body(lines, render)
    ensures end == Returned && bytes == plain
  {
    var sink := new NdjsonSink(parse, NdjsonPull.AcceptAll());
    DownloadDelivers(plain, lines, chunks, render, parse);
    end := DoStream(Response(200, chunks), sink);
    bytes := BytesOf(sink.seen);
  }
}
