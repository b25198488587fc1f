/** A whole ranged download: the client's request, the daemon's span, windows
    and frames (antd/src/range.rs, antd/src/grpc/service.rs), and the client's
    reader. */
module RangeDownload {
  import opened Text
  import opened Base64
  import opened ByteRange
  import opened RangeWindows
  import opened ChunkStream
  import opened Decimal

  /** The frames data_chunk_range_response cuts one window's bytes into. */
  function Frames(bytes: seq<byte>, frame: nat): seq<Chunk>
    requires frame > 0
    decreases |bytes|
  {
    if bytes == [] then []
    else
      var n := RangeWindows.Min(|bytes|, frame);
      [DataChunk(bytes[..n])] + Frames(bytes[n..], frame)
  }

  function AllFrames(windows: seq<seq<byte>>, frame: nat): seq<Chunk>
    requires frame > 0
  {
    if windows == [] then [] else Frames(windows[0], frame) + AllFrames(windows[1..], frame)
  }

  lemma {:induction false} AllDataAppend(a: seq<Chunk>, b: seq<Chunk>)
    ensures AllData(a + b) == AllData(a) + AllData(b)
  {
    if a == [] {
      assert a + b == b;
    } else {
      assert (a + b)[1..] == a[1..] + b;
      AllDataAppend(a[1..], b);
    }
  }

  lemma {:induction false} FramesData(bytes: seq<byte>, frame: nat)
    requires frame > 0
    ensures AllData(Frames(bytes, frame)) == bytes
    decreases |bytes|
  {
    if bytes != [] {
      var n := RangeWindows.Min(|bytes|, frame);
      FramesData(bytes[n..], frame);
      assert Frames(bytes, frame)[1..] == Frames(bytes[n..], frame);
      assert bytes[..n] + bytes[n..] == bytes;
    }
  }

  predicate Carries(c: Chunk, least: nat, most: nat) { c.DataChunk? && least <= |c.bytes| <= most }

  predicate AllCarry(frames: seq<Chunk>, frame: nat) {
    && (forall j :: 0 <= j < |frames| ==> Carries(frames[j], 1, frame))
    && (forall j :: 0 <= j < |frames| - 1 ==> Carries(frames[j], frame, frame))
  }

  /** No frame is empty or longer than the frame size, and only a window's last
      is shorter. */
  lemma {:induction false} FramesFit(bytes: seq<byte>, frame: nat)
    requires frame > 0
    ensures AllCarry(Frames(bytes, frame), frame)
    decreases |bytes|
  {
    if bytes != [] {
      var n := RangeWindows.Min(|bytes|, frame);
      var frames, rest := Frames(bytes, frame), Frames(bytes[n..], frame);
      FramesFit(bytes[n..], frame);
      assert AllCarry(rest, frame);
      assert frames[1..] == rest && (rest != [] ==> n == frame);
      assert frames[0] == DataChunk(bytes[..n]) && Carries(frames[0], 1, frame);
      assert |frames| > 1 ==> Carries(frames[0], frame, frame);
      assert forall j :: 0 < j < |frames| ==> frames[j] == rest[j - 1];
    }
  }

  /** Framing loses and reorders nothing. */
  lemma {:induction false} AllFramesData(windows: seq<seq<byte>>, frame: nat)
    requires frame > 0
    ensures AllData(AllFrames(windows, frame)) == Flatten(windows)
  {
    if windows != [] {
      FramesData(windows[0], frame);
      AllFramesData(windows[1..], frame);
      AllDataAppend(Frames(windows[0], frame), AllFrames(windows[1..], frame));
    }
  }

  /** The daemon's frames for planned windows carry exactly the range. */
  lemma RangeInFrames(object_: seq<byte>, sizes: seq<nat>, range: Window, per: nat, windows: seq<Window>,
                      cuts: seq<nat>, frame: nat)
    requires Plan(sizes, range, per, windows, cuts) && Complete(sizes, range, cuts)
    requires range.start < range.end <= |object_| && frame > 0
    ensures forall j :: 0 <= j < |windows| ==> windows[j].start <= windows[j].end <= |object_|
    ensures AllData(AllFrames(Slices(object_, windows), frame)) == object_[range.start..range.end]
  {
    hide Plan, Complete, Tiles, AllData, AllFrames, Slices, Flatten;
    WindowsTile(sizes, range, per, windows, cuts);
    SlicesConcatenate(object_, windows, range.start, range.end);
    AllFramesData(Slices(object_, windows), frame);
  }

  lemma OwedAtStart(chunks: seq<Chunk>)
    ensures Owed(State([], chunks)) == AllData(chunks)
  {}

  /** DataStreamRange over gRPC, read to the end with buffers of any size: the
      caller gets exactly the bytes it asked for, clamped to the object, and
      the reader's fields describe them. `sizes` are the object's chunks. */
  method DownloadRange(object_: seq<byte>, sizes: seq<nat>, offset: int64, length: int64,
                       per: nat, frame: nat, room: nat -> nat)
    returns (outcome: Outcome, data: seq<byte>)
    requires |object_| == Boundary(sizes, |sizes|) < TWO_63
    requires CheckRange(offset, length).None? && per > 0 && frame > 0 && forall n :: room(n) > 0
    ensures Promised(offset, length, |object_| as uint64, outcome)
    ensures outcome.Reader? ==>
              && |data| == outcome.r.length as int
              && outcome.r.offset as int + |data| <= |object_|
              && data == object_[outcome.r.offset as int..outcome.r.offset as int + |data|]
  {
    hide RestRange, GrpcRangeCall, GrpcRange, RangeFromOffset;
    hide Plan, Complete, AllData, AllFrames, Slices, Boundary, Owed;
    var size := |object_| as uint64;
    RangeAsPromised(offset, length, size);
    TransportsAgree(offset, length, size);
    outcome := GrpcRangeCall(offset, length, size);
    var fields := GrpcRange(offset, length);
    var served := RangeFromOffset(fields.0, fields.1, size);
    GrpcOffset(offset, length);
    GrpcSpan(offset, length, size);
    data := [];
    if served.Ok? {
      var range := Window(served.value.start as nat, served.value.end as nat);
      ghost var cuts;
      var windows;
      windows, cuts := PlanWindows(sizes, range, per);
      RangeInFrames(object_, sizes, range, per, windows, cuts, frame);
      var frames := AllFrames(Slices(object_, windows), frame);
      var reader := new GrpcChunkReader(frames, Eof);
      OwedAtStart(frames);
      var ending;
      data, ending := ReadToEnd(reader, room);
    }
  }
}
