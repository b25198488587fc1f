/** NDJSON download framing: the push parser ndjson_sink with do_stream's abort
    path (antd-cpp/src/client.cpp) and the pull parser ndjsonStream.Recv
    (antd-go/client.go). */
module Ndjson {
  import opened Text
  import opened Frames

  // ----- a body as lines -----

  /** The newline-terminated lines of a body, without their newlines. */
  function Lines(body: string): seq<string>
    decreases |body|
  {
    var i := IndexOf(body, '\n');
    if i < |body| then [body[..i]] + Lines(body[i + 1..]) else []
  }

  /** What follows the last newline. */
  function Tail(body: string): (t: string)
    ensures '\n' !in t
    decreases |body|
  {
    var i := IndexOf(body, '\n');
    if i < |body| then Tail(body[i + 1..]) else assert body[..i] == body; body
  }

  lemma FirstLine(body: string, i: nat)
    requires i < |body| && IndexOf(body, '\n') == i
    ensures Lines(body) == [body[..i]] + Lines(body[i + 1..])
    ensures Tail(body) == Tail(body[i + 1..])
  {
    hide IndexOf, Lines, Tail;
    FirstLineOf(body, i);
    TailAfter(body, i);
  }

  lemma FirstLineOf(body: string, i: nat)
    requires i < |body| && IndexOf(body, '\n') == i
    ensures Lines(body) == [body[..i]] + Lines(body[i + 1..])
  {
    hide IndexOf, Tail;
  }

  lemma TailAfter(body: string, i: nat)
    requires i < |body| && IndexOf(body, '\n') == i
    ensures Tail(body) == Tail(body[i + 1..])
  {
    hide IndexOf, Lines;
  }

  lemma NoLine(body: string)
    requires IndexOf(body, '\n') == |body|
    ensures Lines(body) == [] && Tail(body) == body
  {
    hide IndexOf;
  }

  lemma {:induction false} LinesAppend(a: string, b: string)
    ensures Lines(a + b) == Lines(a) + Lines(Tail(a) + b)
    ensures Tail(a + b) == Tail(Tail(a) + b)
    decreases |a|
  {
    hide IndexOf, Lines, Tail;
    var i := IndexOf(a, '\n');
    if i < |a| {
      var rest := a[i + 1..];
      LinesAppend(rest, b);
      IndexInPrefix(a, b);
      assert (a + b)[..i] == a[..i] && (a + b)[i + 1..] == rest + b;
      FirstLine(a, i);
      FirstLine(a + b, i);
      Assoc3([a[..i]], Lines(rest), Lines(Tail(rest) + b));
    } else {
      NoLine(a);
    }
  }

  lemma {:induction false} IndexInPrefix(a: string, b: string)
    requires IndexOf(a, '\n') < |a|
    ensures IndexOf(a + b, '\n') == IndexOf(a, '\n')
  {
    if a[0] != '\n' {
      assert (a + b)[1..] == a[1..] + b;
      IndexInPrefix(a[1..], b);
    }
  }

  // ----- what the caller's sink sees -----

  datatype Status = Running | Aborted | Threw(error: FrameError)

  datatype Run = Run(seen: seq<Frame>, status: Status)

  /** A caller's sink: it may refuse a frame on anything it has seen so far. */
  type Accept = seq<Frame> -> bool

  function Deliver(r: Run, line: LineResult, accept: Accept): Run {
    match line
    case Skip => r
    case Throw(e) => r.(status := Threw(e))
    case Emit(f) => Run(r.seen + [f], if accept(r.seen + [f]) then Running else Aborted)
  }

  /** Splitting the whole body on newlines, a line at a time until a stop. */
  function Consume(lines: seq<string>, r: Run, parse: string -> Json, accept: Accept): Run {
    if lines == [] || !r.status.Running? then r
    else Consume(lines[1..], Deliver(r, CppLine(parse, lines[0]), accept), parse, accept)
  }

  lemma {:induction false} ConsumeAppend(a: seq<string>, b: seq<string>, r: Run, parse: string -> Json, accept: Accept)
    ensures Consume(a + b, r, parse, accept) == Consume(b, Consume(a, r, parse, accept), parse, accept)
  {
    if a == [] {
      assert a + b == b;
    } else if r.status.Running? {
      assert (a + b)[1..] == a[1..] + b;
      ConsumeAppend(a[1..], b, Deliver(r, CppLine(parse, a[0]), accept), parse, accept);
    }
  }

  /** ndjson_sink: the closure's shared buffer, and the frames passed on. */
  class NdjsonSink {
    var buf: string
    var seen: seq<Frame>
    const parse: string -> Json
    const accept: Accept

    constructor (parse: string -> Json, accept: Accept)
      ensures this.parse == parse && this.accept == accept && buf == "" && seen == []
    {
      this.parse := parse;
      this.accept := accept;
      buf := "";
      seen := [];
    }

    /** One call with a chunk of the body. Aborted is a `false` return. */
    method Feed(chunk: string) returns (status: Status)
      modifies this
      ensures Run(seen, status) == Consume(Lines(old(buf) + chunk), Run(old(seen), Running), parse, accept)
      ensures buf == match status
                     case Running => Tail(old(buf) + chunk)
                     case Aborted => ""
                     case Threw(_) => old(buf) + chunk
    {
      hide CppLine, Lines, Tail, Consume;
      buf := buf + chunk;
      var start := 0;
      ghost var run0 := Run(seen, Running);
      assert buf[0..] == buf;
      while true
        invariant 0 <= start <= |buf| && buf == old(buf) + chunk
        invariant Consume(Lines(buf), run0, parse, accept)
               == Consume(Lines(buf[start..]), Run(seen, Running), parse, accept)
        invariant Tail(buf) == Tail(buf[start..])
        decreases |buf| - start
      {
        var nl := start + IndexOf(buf[start..], '\n');
        if nl == |buf| { break; }
        var line := buf[start..nl];
        FeedStep(buf, start, nl, Run(seen, Running), parse, accept);
        match CppLine(parse, line) {
          case Throw(e) =>
            ConsumeStopped(Lines(buf[nl + 1..]), Run(seen, Threw(e)), parse, accept);
            return Threw(e);
          case Skip =>
          case Emit(frame) =>
            seen := seen + [frame];
            if !accept(seen) {
              ConsumeStopped(Lines(buf[nl + 1..]), Run(seen, Aborted), parse, accept);
              buf := "";
              return Aborted;
            }
        }
        start := nl + 1;
      }
      FeedEnd(buf[start..], Run(seen, Running), parse, accept);
      buf := buf[start..];
      return Running;
    }
  }

  /** One complete line of the buffer. */
  lemma FeedStep(buf: string, start: nat, nl: nat, r: Run, parse: string -> Json, accept: Accept)
    requires start <= nl < |buf| && nl == start + IndexOf(buf[start..], '\n') && r.status.Running?
    ensures Consume(Lines(buf[start..]), r, parse, accept)
         == Consume(Lines(buf[nl + 1..]), Deliver(r, CppLine(parse, buf[start..nl]), accept), parse, accept)
    ensures Tail(buf[start..]) == Tail(buf[nl + 1..])
  {
    hide CppLine;
    LinesStep(buf, start, nl);
  }

  lemma FeedEnd(rest: string, r: Run, parse: string -> Json, accept: Accept)
    requires IndexOf(rest, '\n') == |rest|
    ensures Consume(Lines(rest), r, parse, accept) == r && Tail(rest) == rest
  {
    assert rest[..|rest|] == rest;
  }

  lemma ConsumeStopped(lines: seq<string>, r: Run, parse: string -> Json, accept: Accept)
    requires !r.status.Running?
    ensures Consume(lines, r, parse, accept) == r
  {}

  lemma LinesStep(buf: string, start: nat, nl: nat)
    requires start <= nl < |buf| && nl == start + IndexOf(buf[start..], '\n')
    ensures Lines(buf[start..]) == [buf[start..nl]] + Lines(buf[nl + 1..])
    ensures Lines(buf[start..])[1..] == Lines(buf[nl + 1..])
    ensures Tail(buf[start..]) == Tail(buf[nl + 1..])
  {
    hide IndexOf, Lines, Tail;
    var rest := buf[start..];
    FirstLine(rest, nl - start);
    assert rest[..nl - start] == buf[start..nl] && rest[nl - start + 1..] == buf[nl + 1..];
  }

  // ----- the transport -----

  /** What http.send delivers: nothing at all, or a status line and then the
      body in whatever chunks the transport cuts it into. */
  datatype Response = NoResponse | Response(status: int, chunks: seq<string>)

  datatype StreamEnd = Returned | Raised(error: FrameError) | HttpFailure(status: int, body: string) | ConnectionError

  function Begin(): Run { Run([], Running) }

  /** do_stream over ndjson_sink. A cancelled transfer returns normally. */
  method DoStream(response: Response, sink: NdjsonSink) returns (end: StreamEnd)
    requires sink.buf == "" && sink.seen == []
    modifies sink
    ensures response.NoResponse? ==> end == ConnectionError && sink.seen == []
    ensures response.Response? && !(200 <= response.status < 300) ==>
              end == HttpFailure(response.status, Flatten(response.chunks)) && sink.seen == []
    ensures response.Response? && 200 <= response.status < 300 ==>
              var r := Consume(Lines(Flatten(response.chunks)), Begin(), sink.parse, sink.accept);
              && sink.seen == r.seen
              && end == (if r.status.Threw? then Raised(r.status.error) else Returned)
              && (r.status.Running? ==> sink.buf == Tail(Flatten(response.chunks)))
  {
    hide Flatten, Consume, Lines, Tail;
    if response.NoResponse? { return ConnectionError; }
    var chunks := response.chunks;
    var success := 200 <= response.status < 300;
    var errorBody := "";
    ghost var fed := "";
    NothingFed(chunks, sink.parse, sink.accept);
    for i := 0 to |chunks|
      invariant Flatten(chunks) == fed + Flatten(chunks[i..])
      invariant success ==> sink.buf == Tail(fed)
      invariant success ==> Run(sink.seen, Running) == Consume(Lines(fed), Begin(), sink.parse, sink.accept)
      invariant !success ==> errorBody == fed && sink.seen == []
    {
      var chunk := chunks[i];
      FeedChunk(chunks, i, fed);
      if success {
        ConsumeChunk(fed, chunk, sink.parse, sink.accept);
        var status := sink.Feed(chunk);
        fed := fed + chunk;
        if !status.Running? {
          ConsumeMore(fed, Flatten(chunks[i + 1..]), sink.parse, sink.accept);
          return if status.Threw? then Raised(status.error) else Returned;
        }
      } else {
        errorBody := errorBody + chunk;
        fed := fed + chunk;
      }
    }
    AllFed(chunks, fed);
    if !success { return HttpFailure(response.status, errorBody); }
    return Returned;
  }

  lemma NothingFed(chunks: seq<string>, parse: string -> Json, accept: Accept)
    ensures Flatten(chunks) == "" + Flatten(chunks[0..])
    ensures Tail("") == "" && Consume(Lines(""), Begin(), parse, accept) == Begin()
  {
    assert chunks[0..] == chunks;
  }

  lemma FeedChunk(chunks: seq<string>, i: nat, fed: string)
    requires i < |chunks|
    ensures fed + Flatten(chunks[i..]) == fed + chunks[i] + Flatten(chunks[i + 1..])
  {
    assert chunks[i..][1..] == chunks[i + 1..];
    Assoc3(fed, chunks[i], Flatten(chunks[i + 1..]));
  }

  lemma AllFed(chunks: seq<string>, fed: string)
    ensures fed + Flatten(chunks[|chunks|..]) == fed
  {}

  /** Feeding one more chunk to the buffered tail is consuming the longer body. */
  lemma ConsumeChunk(fed: string, chunk: string, parse: string -> Json, accept: Accept)
    ensures Consume(Lines(fed + chunk), Begin(), parse, accept)
         == Consume(Lines(Tail(fed) + chunk), Consume(Lines(fed), Begin(), parse, accept), parse, accept)
    ensures Tail(fed + chunk) == Tail(Tail(fed) + chunk)
  {
    LinesAppend(fed, chunk);
    ConsumeAppend(Lines(fed), Lines(Tail(fed) + chunk), Begin(), parse, accept);
  }

  /** After a stop, the rest of the body changes nothing. */
  lemma ConsumeMore(fed: string, more: string, parse: string -> Json, accept: Accept)
    requires !Consume(Lines(fed), Begin(), parse, accept).status.Running?
    ensures Consume(Lines(fed + more), Begin(), parse, accept) == Consume(Lines(fed), Begin(), parse, accept)
  {
    ConsumeChunk(fed, more, parse, accept);
  }

  // ----- exactly which frames a refusing sink sees -----

  /** The frames of the lines, up to the first line that throws. */
  function FramesOf(lines: seq<string>, parse: string -> Json): seq<Frame> {
    if lines == [] then []
    else match CppLine(parse, lines[0])
         case Skip => FramesOf(lines[1..], parse)
         case Throw(_) => []
         case Emit(f) => [f] + FramesOf(lines[1..], parse)
  }

  ghost predicate Refuses(frames: seq<Frame>, k: nat, accept: Accept) {
    1 <= k <= |frames| && !accept(frames[..k])
  }

  ghost predicate FirstRefusal(frames: seq<Frame>, k: nat, accept: Accept) {
    Refuses(frames, k, accept) && forall j: nat :: 1 <= j < k ==> !Refuses(frames, j, accept)
  }

  /** A sink that first refuses frame k has seen exactly frames 1..k, and a
      sink that refuses none has seen them all. */
  lemma SeenUpToRefusal(lines: seq<string>, parse: string -> Json, accept: Accept)
    ensures var frames, r := FramesOf(lines, parse), Consume(lines, Begin(), parse, accept);
            && (forall k: nat :: FirstRefusal(frames, k, accept) ==> r == Run(frames[..k], Aborted))
            && (r.status.Aborted? ==> FirstRefusal(frames, |r.seen|, accept))
            && (!r.status.Aborted? ==> r.seen == frames && forall k: nat :: !Refuses(frames, k, accept))
  {
    var frames, r := FramesOf(lines, parse), Consume(lines, Begin(), parse, accept);
    SeenFrom(lines, [], parse, accept);
    assert [] + frames == frames;
    forall k: nat | FirstRefusal(frames, k, accept) ensures r == Run(frames[..k], Aborted) {
      assert Refuses(frames, k, accept);
      assert r.status.Aborted? ==> FirstRefusal(frames, |r.seen|, accept);
    }
  }

  lemma {:induction false} SeenFrom(lines: seq<string>, before: seq<Frame>, parse: string -> Json, accept: Accept)
    ensures var frames, r := before + FramesOf(lines, parse), Consume(lines, Run(before, Running), parse, accept);
            && |before| <= |r.seen| <= |frames| && r.seen == frames[..|r.seen|]
            && (r.status.Aborted? ==> |before| < |r.seen| && !accept(r.seen))
            && (!r.status.Aborted? ==> r.seen == frames)
            && (forall j :: |before| < j < |r.seen| ==> accept(frames[..j]))
            && (!r.status.Aborted? && |before| < |r.seen| ==> accept(frames))
  {
    if lines != [] {
      match CppLine(parse, lines[0]) {
        case Throw(e) =>
          ConsumeStopped(lines[1..], Run(before, Threw(e)), parse, accept);
        case Skip =>
          SeenFrom(lines[1..], before, parse, accept);
        case Emit(f) =>
          var now := before + [f];
          var frames := before + FramesOf(lines, parse);
          assert frames == now + FramesOf(lines[1..], parse);
          assert frames[..|now|] == now;
          if accept(now) {
            SeenFrom(lines[1..], now, parse, accept);
          } else {
            ConsumeStopped(lines[1..], Run(now, Aborted), parse, accept);
          }
      }
    }
  }

  /** A progress download whose sink may refuse a frame: it sees exactly the
      frames up to the first it refuses, and the refusal is no error. */
  method DownloadUntilRefused(chunks: seq<string>, parse: string -> Json, accept: Accept)
    returns (end: StreamEnd, seen: seq<Frame>)
    ensures var frames := FramesOf(Lines(Flatten(chunks)), parse);
            && (forall k: nat :: FirstRefusal(frames, k, accept) ==> end == Returned && seen == frames[..k])
            && ((forall k: nat :: !Refuses(frames, k, accept)) ==> seen == frames && (end == Returned || end.Raised?))
  {
    hide Consume, FramesOf, Lines, Flatten, Refuses;
    var sink := new NdjsonSink(parse, accept);
    SeenUpToRefusal(Lines(Flatten(chunks)), parse, accept);
    end := DoStream(Response(200, chunks), sink);
    seen := sink.seen;
  }
}
