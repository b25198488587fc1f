/** The pull parser ndjsonStream.Recv (antd-go/client.go), and its agreement
    with the C++ push parser. */
module NdjsonPull {
  import opened Text
  import opened Frames
  import opened Ndjson

  datatype PullError = ReadFailed | BadFrame(error: FrameError)

  datatype PullResult = Got(frame: Frame) | Eof | Failed(error: PullError)

  /** bufio's ReadBytes('\n'): through the first newline, or all that is left. */
  function ReadBytes(rest: string): (line: string)
    ensures |line| <= |rest| && (rest != "" ==> line != "")
  {
    var i := IndexOf(rest, '\n');
    if i < |rest| then rest[..i + 1] else rest
  }

  predicate HasNewline(rest: string) { IndexOf(rest, '\n') < |rest| }

  /** What the reader reports once the body is used up. */
  function BodyEnd(broken: bool): PullResult { if broken then Failed(ReadFailed) else Eof }

  /** One Recv: the result and the bytes still unread. */
  function Pull(rest: string, broken: bool, parse: string -> Json): (p: (PullResult, string))
    ensures |p.1| <= |rest| && (p.0.Got? ==> |p.1| < |rest|)
    decreases |rest|
  {
    if rest == "" then (BodyEnd(broken), "")
    else
      var line := ReadBytes(rest);
      var next := rest[|line|..];
      match GoLine(parse, line)
      case Throw(e) => (Failed(BadFrame(e)), next)
      case Emit(f) => (Got(f), next)
      case Skip => if !HasNewline(rest) && !broken then (Eof, next) else Pull(next, broken, parse)
  }

  /** Every frame until the first result that is not one. */
  function Drain(rest: string, broken: bool, parse: string -> Json): (seq<Frame>, PullResult)
    decreases |rest|
  {
    var p := Pull(rest, broken, parse);
    if p.0.Got? then
      var d := Drain(p.1, broken, parse);
      ([p.0.frame] + d.0, d.1)
    else ([], p.0)
  }

  /** The reader over a response body; `broken` bodies end in a read error. */
  class NdjsonStream {
    var rest: string
    const broken: bool
    const parse: string -> Json

    constructor (body: string, broken: bool, parse: string -> Json)
      ensures rest == body && this.broken == broken && this.parse == parse
    {
      rest := body;
      this.broken := broken;
      this.parse := parse;
    }

    /** Recv: every turn of the skipping loop consumes input or returns. */
    method Recv() returns (r: PullResult)
      modifies this
      ensures (r, rest) == Pull(old(rest), broken, parse)
    {
      while true
        invariant Pull(rest, broken, parse) == Pull(old(rest), broken, parse)
        decreases |rest|
      {
        var line := ReadBytes(rest);
        var atEnd := !HasNewline(rest);
        if line == "" {
          return BodyEnd(broken);
        }
        rest := rest[|line|..];
        match GoLine(parse, line) {
          case Throw(e) => return Failed(BadFrame(e));
          case Emit(f) => return Got(f);
          case Skip => if atEnd && !broken { return Eof; }
        }
      }
    }

    /** A caller draining the stream. */
    method ReceiveAll() returns (frames: seq<Frame>, end: PullResult)
      modifies this
      ensures (frames, end) == Drain(old(rest), broken, parse)
    {
      hide Pull;
      frames := [];
      ghost var d := Drain(rest, broken, parse);
      while true
        invariant d.0 == frames + Drain(rest, broken, parse).0
        invariant d.1 == Drain(rest, broken, parse).1
        decreases |rest|
      {
        ghost var before := frames;
        var r := Recv();
        if !r.Got? {
          assert frames + [] == frames;
          return frames, r;
        }
        frames := frames + [r.frame];
        assert before + ([r.frame] + Drain(rest, broken, parse).0) == frames + Drain(rest, broken, parse).0;
      }
    }
  }

  // ----- agreement with the push parser -----

  function AcceptAll(): Accept { frames => true }

  ghost predicate LinesAgree(lines: seq<string>, parse: string -> Json) {
    forall l :: l in lines ==> GoLine(parse, l) == CppLine(parse, l)
  }

  lemma GoLineNewline(parse: string -> Json, line: string)
    ensures GoLine(parse, line + "\n") == GoLine(parse, line)
  {
    assert (line + "\n")[..|line|] == line;
  }

  /** What Recv makes of bytes left after the last newline. */
  lemma DrainTail(tail: string, broken: bool, parse: string -> Json)
    requires '\n' !in tail
    ensures Drain(tail, broken, parse)
         == match GoLine(parse, tail)
            case Skip => ([], BodyEnd(broken))
            case Emit(f) => ([f], BodyEnd(broken))
            case Throw(e) => ([], Failed(BadFrame(e)))
  {
    hide GoLine;
    NoNewline(tail);
    assert tail[|tail|..] == "";
    assert Pull("", broken, parse) == (BodyEnd(broken), "");
    assert Drain("", broken, parse) == ([], BodyEnd(broken));
    if tail == "" {
      EmptyGoLine(parse);
    } else {
      assert ReadBytes(tail) == tail;
      match GoLine(parse, tail) {
        case Skip =>
        case Emit(f) =>
          assert Pull(tail, broken, parse) == (Got(f), "");
          assert [f] + [] == [f];
        case Throw(e) =>
      }
    }
  }

  lemma EmptyGoLine(parse: string -> Json)
    ensures GoLine(parse, "") == Skip
  {}

  lemma NoNewline(s: string)
    requires '\n' !in s
    ensures IndexOf(s, '\n') == |s|
  {}

  /** Draining Recv gives the push parser's frames, then whatever the
      unterminated tail amounts to. */
  lemma {:induction false} PullMatchesPush(body: string, broken: bool, parse: string -> Json, seen: seq<Frame>)
    requires LinesAgree(Lines(body), parse)
    ensures var r := Consume(Lines(body), Run(seen, Running), parse, AcceptAll());
            var d := Drain(body, broken, parse);
            var t := Drain(Tail(body), broken, parse);
            && !r.status.Aborted?
            && (r.status.Threw? ==> seen + d.0 == r.seen && d.1 == Failed(BadFrame(r.status.error)))
            && (r.status.Running? ==> seen + d.0 == r.seen + t.0 && d.1 == t.1)
    decreases |body|
  {
    hide GoLine, CppLine, Drain, Lines, Tail, IndexOf;
    var i := IndexOf(body, '\n');
    if i < |body| {
      var line, next := body[..i], body[i + 1..];
      var more := Lines(next);
      FirstLine(body, i);
      AgreeOnRest(line, more, parse);
      DrainLine(body, broken, parse);
      assert Lines(body)[0] == line && Lines(body)[1..] == more;
      match GoLine(parse, line) {
        case Skip => PullMatchesPush(next, broken, parse, seen);
        case Emit(f) =>
          PullMatchesPush(next, broken, parse, seen + [f]);
          Assoc3(seen, [f], Drain(next, broken, parse).0);
        case Throw(e) =>
          ConsumeStopped(more, Run(seen, Threw(e)), parse, AcceptAll());
          assert seen + [] == seen;
      }
    } else {
      NoLine(body);
    }
  }

  lemma AgreeOnRest(line: string, more: seq<string>, parse: string -> Json)
    requires LinesAgree([line] + more, parse)
    ensures LinesAgree(more, parse) && GoLine(parse, line) == CppLine(parse, line)
  {
    hide GoLine, CppLine;
    assert ([line] + more)[0] == line;
    assert forall l :: l in more ==> l in [line] + more;
  }

  /** Draining one newline-terminated line. */
  lemma DrainLine(body: string, broken: bool, parse: string -> Json)
    requires HasNewline(body)
    ensures var i := IndexOf(body, '\n');
            var rest := Drain(body[i + 1..], broken, parse);
            Drain(body, broken, parse)
            == match GoLine(parse, body[..i])
               case Skip => rest
               case Emit(f) => ([f] + rest.0, rest.1)
               case Throw(e) => ([], Failed(BadFrame(e)))
  {
    hide GoLine, IndexOf, Pull, Drain;
    var next := body[IndexOf(body, '\n') + 1..];
    PullLine(body, broken, parse);
    DrainStep(body, broken, parse);
    DrainStep(next, broken, parse);
  }

  lemma DrainStep(rest: string, broken: bool, parse: string -> Json)
    ensures var p := Pull(rest, broken, parse);
            Drain(rest, broken, parse)
            == if p.0.Got? then ([p.0.frame] + Drain(p.1, broken, parse).0, Drain(p.1, broken, parse).1) else ([], p.0)
  {
    hide GoLine, IndexOf, Pull;
  }

  lemma PullLine(body: string, broken: bool, parse: string -> Json)
    requires HasNewline(body)
    ensures var i := IndexOf(body, '\n');
            Pull(body, broken, parse)
            == match GoLine(parse, body[..i])
               case Skip => Pull(body[i + 1..], broken, parse)
               case Emit(f) => (Got(f), body[i + 1..])
               case Throw(e) => (Failed(BadFrame(e)), body[i + 1..])
  {
    hide GoLine, IndexOf;
    var i := IndexOf(body, '\n');
    assert body[..i + 1] == body[..i] + "\n";
    GoLineNewline(parse, body[..i]);
  }

  // ----- a body that breaks off -----

  /** How the end of an intact body reads when the same bytes are followed by a
      read error instead. */
  function BrokenEnd(end: PullResult): PullResult { if end == Eof then Failed(ReadFailed) else end }

  lemma {:induction false} BrokenPull(rest: string, parse: string -> Json)
    ensures var p, q := Pull(rest, true, parse), Pull(rest, false, parse);
            p.0 == BrokenEnd(q.0) && (p.0.Got? ==> p.1 == q.1) && p.0 != Eof
    decreases |rest|
  {
    hide GoLine, IndexOf;
    if rest != "" {
      var next := rest[|ReadBytes(rest)|..];
      if GoLine(parse, ReadBytes(rest)) == Skip {
        if HasNewline(rest) { BrokenPull(next, parse); } else { assert next == ""; }
      }
    }
  }

  /** A body that breaks off gives the frames its bytes give, and never reads
      as complete: where the intact body would end, the read error is reported. */
  lemma {:induction false} BrokenDrain(rest: string, parse: string -> Json)
    ensures Drain(rest, true, parse).0 == Drain(rest, false, parse).0
    ensures Drain(rest, true, parse).1 != Eof
    ensures if Drain(rest, false, parse).1 == Eof then Drain(rest, true, parse).1 == Failed(ReadFailed)
            else Drain(rest, true, parse).1 == Drain(rest, false, parse).1
    decreases |rest|
  {
    hide Pull;
    BrokenPull(rest, parse);
    var p := Pull(rest, true, parse);
    if p.0.Got? { BrokenDrain(p.1, parse); }
  }

  /** A line Recv passes over: blank, the JSON null, or an object whose type is
      none of the four it knows. */
  predicate Ignored(parse: string -> Json, line: string) {
    var text := TrimLineEnd(line);
    || text == "" || parse(text).Null?
    || (parse(text).Object? && GoString(parse(text).fields, "type") !in {"data", "progress", "error", "meta"})
  }

  lemma SkippedIffIgnored(parse: string -> Json, line: string)
    ensures GoLine(parse, line) == Skip <==> Ignored(parse, line)
  {}

  /** For an intact body whose lines the two clients read alike and on which
      the push parser does not throw, the two agree exactly when the
      unterminated tail is blank, null or of an unknown type. */
  lemma AgreeIffTailSkips(body: string, parse: string -> Json)
    requires LinesAgree(Lines(body), parse)
    requires Consume(Lines(body), Begin(), parse, AcceptAll()).status.Running?
    ensures Drain(body, false, parse) == (Consume(Lines(body), Begin(), parse, AcceptAll()).seen, Eof)
       <==> Ignored(parse, Tail(body))
  {
    hide GoLine, CppLine, Consume, Drain, Ignored;
    SkippedIffIgnored(parse, Tail(body));
    PullMatchesPush(body, false, parse, []);
    DrainTail(Tail(body), false, parse);
    var r, d := Consume(Lines(body), Begin(), parse, AcceptAll()), Drain(body, false, parse);
    assert [] + d.0 == d.0;
    match GoLine(parse, Tail(body)) {
      case Emit(f) => assert |d.0| == |r.seen| + 1;
      case Skip => assert r.seen + [] == r.seen;
      case Throw(_) =>
    }
  }

  /** On every newline-terminated body whose lines mean the same to both,
      whatever JSON reader they share, Go's frames and ending are C++'s. */
  lemma ClientsAgree(body: string, parse: string -> Json)
    requires ReadsJson(parse) && Tail(body) == ""
    requires forall l :: l in Lines(body) ==> Alike(parse, l)
    ensures var r := Consume(Lines(body), Begin(), parse, AcceptAll());
            Drain(body, false, parse)
            == (r.seen, if r.status.Threw? then Failed(BadFrame(r.status.error)) else Eof)
  {
    hide GoLine, CppLine, Drain, Alike;
    forall l | l in Lines(body) ensures GoLine(parse, l) == CppLine(parse, l) {
      LinesHaveNoNewline(body, l);
      LineAgreement(parse, l);
    }
    PullMatchesPush(body, false, parse, []);
    DrainTail("", false, parse);
    EmptyGoLine(parse);
    var r, d := Consume(Lines(body), Begin(), parse, AcceptAll()), Drain(body, false, parse);
    assert [] + d.0 == d.0 && r.seen + [] == r.seen;
  }

  lemma {:induction false} LinesHaveNoNewline(body: string, l: string)
    requires l in Lines(body)
    ensures '\n' !in l
    decreases |body|
  {
    var i := IndexOf(body, '\n');
    if i < |body| && l != body[..i] { LinesHaveNoNewline(body[i + 1..], l); }
  }
}
