/** Server-streamed chunks as byte streams: grpcChunkReader (antd-go/grpc_client.go)
    and drain_chunks (antd-cpp/src/grpc_client.cpp). */
module ChunkStream {
  import opened Text
  import opened Base64

  /** A DataChunk message: one arm of its oneof, or none. */
  datatype Chunk = DataChunk(bytes: seq<byte>) | ProgressChunk | UnsetChunk

  /** How the RPC ends: io.EOF, or a status. */
  datatype End = Eof | StatusError(code: int)

  /** GetData: empty for any other arm. */
  function DataOf(c: Chunk): seq<byte> { if c.DataChunk? then c.bytes else [] }

  function AllData(chunks: seq<Chunk>): seq<byte> {
    if chunks == [] then [] else DataOf(chunks[0]) + AllData(chunks[1..])
  }

  lemma AllDataStep(chunks: seq<Chunk>)
    requires chunks != []
    ensures AllData(chunks) == DataOf(chunks[0]) + AllData(chunks[1..])
  {}

  datatype ReadResult = Got(data: seq<byte>) | Ended(end: End)

  /** The reader's state: bytes left over, and messages not yet received. */
  datatype State = State(buf: seq<byte>, unread: seq<Chunk>)

  /** Every byte the reader still owes its caller. */
  function Owed(s: State): seq<byte> { s.buf + AllData(s.unread) }

  /** What one Read with room for `room` bytes returns and leaves. */
  function ReadStep(s: State, room: nat, end: End): (ReadResult, State)
    decreases |s.unread|
  {
    if s.buf != [] then
      var n := if room < |s.buf| then room else |s.buf|;
      (Got(s.buf[..n]), s.(buf := s.buf[n..]))
    else if s.unread == [] then (Ended(end), s)
    else ReadStep(State(DataOf(s.unread[0]), s.unread[1..]), room, end)
  }

  class GrpcChunkReader {
    var buf: seq<byte>
    var unread: seq<Chunk>
    const end: End

    constructor (chunks: seq<Chunk>, end: End)
      ensures buf == [] && unread == chunks && this.end == end
    {
      buf := [];
      unread := chunks;
      this.end := end;
    }

    /** Read, for a caller's buffer of `room` bytes. */
    method Read(room: nat) returns (r: ReadResult)
      modifies this
      ensures (r, State(buf, unread)) == ReadStep(old(State(buf, unread)), room, end)
    {
      while |buf| == 0
        invariant ReadStep(State(buf, unread), room, end) == ReadStep(old(State(buf, unread)), room, end)
        decreases |unread|, |buf| == 0
      {
        if |unread| == 0 { return Ended(end); }
        buf := DataOf(unread[0]);
        unread := unread[1..];
      }
      var n := if room < |buf| then room else |buf|;
      r := Got(buf[..n]);
      buf := buf[n..];
    }
  }

  /** A Read that finds bytes left over. */
  lemma ReadBuffered(s: State, room: nat, end: End)
    requires s.buf != []
    ensures var (r, s') := ReadStep(s, room, end);
            && r.Got? && Owed(s) == r.data + Owed(s') && Owed(s) != []
            && |r.data| <= room && (room > 0 ==> r.data != [])
  {
    hide AllData;
    var n := if room < |s.buf| then room else |s.buf|;
    assert s.buf == s.buf[..n] + s.buf[n..];
    Assoc3(s.buf[..n], s.buf[n..], AllData(s.unread));
  }

  lemma NothingOwed()
    ensures Owed(State([], [])) == []
  {}

  /** One Read: the bytes it returns and the bytes it leaves owing are the bytes
      that were owed; it returns at least one byte, and no more than fit, when
      there is room and anything is owed; and it ends only when nothing is. */
  lemma {:induction false} ReadConserves(s: State, room: nat, end: End)
    ensures var (r, s') := ReadStep(s, room, end);
            && Owed(s) == (if r.Got? then r.data else []) + Owed(s')
            && (r.Got? ==> |r.data| <= room && (room > 0 ==> r.data != []))
            && (r.Ended? <==> Owed(s) == [])
            && (r.Ended? ==> r.end == end && s'.buf == [] && s'.unread == [])
    decreases |s.unread|
  {
    hide AllData;
    if s.buf != [] {
      ReadBuffered(s, room, end);
    } else if s.unread != [] {
      var next := State(DataOf(s.unread[0]), s.unread[1..]);
      ReadConserves(next, room, end);
      AllDataStep(s.unread);
      assert [] + AllData(s.unread) == AllData(s.unread);
    } else {
      NothingOwed();
    }
  }

  /** The data of the first message that carries any. */
  function FirstData(chunks: seq<Chunk>): seq<byte> {
    if chunks == [] then [] else if DataOf(chunks[0]) != [] then DataOf(chunks[0]) else FirstData(chunks[1..])
  }

  /** A Read returns as much as fits of what is left over, or, only when nothing
      is, of the next message with data; and it keeps the rest. */
  lemma {:induction false} ReadTakesNext(s: State, room: nat, end: End)
    ensures var (r, s') := ReadStep(s, room, end);
            var next := if s.buf != [] then s.buf else FirstData(s.unread);
            && (r.Got? ==> r.data == First(next, room) && s'.buf == After(next, room))
            && (s.buf != [] ==> s'.unread == s.unread)
    decreases |s.unread|
  {
    if s.buf != [] {
      assert s.buf[..|s.buf|] == s.buf;
    } else if s.unread != [] {
      ReadTakesNext(State(DataOf(s.unread[0]), s.unread[1..]), room, end);
    }
  }

  /** The bytes delivered by a run of Reads, and the state after it. */
  function RunReads(s: State, rooms: seq<nat>, end: End): (seq<byte>, State)
    decreases |rooms|
  {
    if rooms == [] then ([], s)
    else
      var (r, s') := ReadStep(s, rooms[0], end);
      var (more, last) := RunReads(s', rooms[1..], end);
      ((if r.Got? then r.data else []) + more, last)
  }

  /** Delivered ++ buffered ++ unread is the same after every run of Reads. */
  lemma {:induction false} RunConserves(s: State, rooms: seq<nat>, end: End)
    ensures var (delivered, last) := RunReads(s, rooms, end); delivered + Owed(last) == Owed(s)
    decreases |rooms|
  {
    if rooms == [] {
      assert [] + Owed(s) == Owed(s);
    } else {
      hide ReadStep, Owed;
      var (r, s') := ReadStep(s, rooms[0], end);
      ReadConserves(s, rooms[0], end);
      RunConserves(s', rooms[1..], end);
      var data := if r.Got? then r.data else [];
      var (more, last) := RunReads(s', rooms[1..], end);
      Assoc3(data, more, Owed(last));
    }
  }

  /** An end, of either kind, comes only after every byte received before it. */
  lemma EndAfterEverything(s: State, rooms: seq<nat>, room: nat, end: End)
    ensures var (delivered, last) := RunReads(s, rooms, end);
            ReadStep(last, room, end).0.Ended? <==> delivered == Owed(s)
  {
    hide ReadStep, Owed, RunReads;
    RunConserves(s, rooms, end);
    var (delivered, last) := RunReads(s, rooms, end);
    ReadConserves(last, room, end);
    assert delivered + Owed(last) == Owed(s);
    if delivered == Owed(s) { assert |Owed(last)| == 0; }
    if Owed(last) == [] { assert delivered + [] == delivered; }
  }

  /** io.ReadAll and its kind: reads with whatever room, until the end. */
  method ReadToEnd(reader: GrpcChunkReader, room: nat -> nat) returns (data: seq<byte>, end: End)
    requires forall n :: room(n) > 0
    modifies reader
    ensures data == old(Owed(State(reader.buf, reader.unread))) && end == reader.end
  {
    hide ReadStep, Owed;
    data := [];
    ghost var all := Owed(State(reader.buf, reader.unread));
    var turn := 0;
    while true
      invariant data + Owed(State(reader.buf, reader.unread)) == all
      decreases |Owed(State(reader.buf, reader.unread))|
    {
      ghost var s := State(reader.buf, reader.unread);
      ReadConserves(s, room(turn), reader.end);
      var r := reader.Read(room(turn));
      if r.Ended? {
        assert data + [] == data;
        return data, r.end;
      }
      Assoc3(data, r.data, Owed(State(reader.buf, reader.unread)));
      data := data + r.data;
      turn := turn + 1;
    }
  }

  // ----- the C++ side -----

  type Accept = seq<seq<byte>> -> bool

  datatype Drained = Drained(calls: seq<seq<byte>>, stopped: bool)

  /** The sink's calls: each data chunk, up to the first it refuses. */
  function DrainSpec(chunks: seq<Chunk>, calls: seq<seq<byte>>, accept: Accept): Drained {
    if chunks == [] then Drained(calls, false)
    else if !chunks[0].DataChunk? then DrainSpec(chunks[1..], calls, accept)
    else
      var now := calls + [chunks[0].bytes];
      if accept(now) then DrainSpec(chunks[1..], now, accept) else Drained(now, true)
  }

  /** drain_chunks: a refusal stops the loop and hides the status; otherwise
      the RPC's own status is raised. */
  method DrainChunks(chunks: seq<Chunk>, end: End, accept: Accept) returns (d: Drained, raised: Option<int>)
    ensures d == DrainSpec(chunks, [], accept)
    ensures forall k: nat :: FirstRefusal(DataOfChunks(chunks), k, accept) ==>
              d == Drained(DataOfChunks(chunks)[..k], true) && raised == None
    ensures (forall k: nat :: !RefusesAt(DataOfChunks(chunks), k, accept)) ==>
              d == Drained(DataOfChunks(chunks), false) && (raised.Some? <==> end.StatusError?)
    ensures raised == if !d.stopped && end.StatusError? then Some(end.code) else None
  {
    var calls: seq<seq<byte>> := [];
    var stopped := false;
    var i := 0;
    while i < |chunks| && !stopped
      invariant 0 <= i <= |chunks|
      invariant DrainSpec(chunks, [], accept)
             == if stopped then Drained(calls, true) else DrainSpec(chunks[i..], calls, accept)
    {
      assert chunks[i..][1..] == chunks[i + 1..];
      if chunks[i].DataChunk? {
        calls := calls + [chunks[i].bytes];
        if !accept(calls) { stopped := true; }
      }
      i := i + 1;
    }
    d := Drained(calls, stopped);
    DrainStopsAtRefusal(chunks, accept);
    raised := if !stopped && end.StatusError? then Some(end.code) else None;
  }

  /** What the data chunks carry, in order. */
  function DataOfChunks(chunks: seq<Chunk>): seq<seq<byte>> {
    if chunks == [] then []
    else (if chunks[0].DataChunk? then [chunks[0].bytes] else []) + DataOfChunks(chunks[1..])
  }

  ghost predicate RefusesAt(data: seq<seq<byte>>, k: nat, accept: Accept) { 1 <= k <= |data| && !accept(data[..k]) }

  ghost predicate FirstRefusal(data: seq<seq<byte>>, k: nat, accept: Accept) {
    RefusesAt(data, k, accept) && forall j: nat :: 1 <= j < k ==> !RefusesAt(data, j, accept)
  }

  /** If the sink first refuses data chunk k, it was called with exactly chunks
      1 to k and the drain stopped; if it refuses none, it got them all and the
      drain did not stop. */
  lemma DrainStopsAtRefusal(chunks: seq<Chunk>, accept: Accept)
    ensures var data, d := DataOfChunks(chunks), DrainSpec(chunks, [], accept);
            && (forall k: nat :: FirstRefusal(data, k, accept) ==> d == Drained(data[..k], true))
            && (d.stopped ==> FirstRefusal(data, |d.calls|, accept))
            && (!d.stopped ==> d.calls == data && forall k: nat :: !RefusesAt(data, k, accept))
  {
    hide DrainSpec, DataOfChunks;
    var data, d := DataOfChunks(chunks), DrainSpec(chunks, [], accept);
    DrainFrom(chunks, [], accept);
    assert [] + data == data;
    forall k: nat | FirstRefusal(data, k, accept) ensures d == Drained(data[..k], true) {
      assert RefusesAt(data, k, accept);
      assert d.stopped ==> FirstRefusal(data, |d.calls|, accept);
    }
  }

  lemma {:induction false} DrainFrom(chunks: seq<Chunk>, calls: seq<seq<byte>>, accept: Accept)
    ensures var data, d := calls + DataOfChunks(chunks), DrainSpec(chunks, calls, accept);
            && |calls| <= |d.calls| <= |data| && d.calls == data[..|d.calls|]
            && (d.stopped ==> |calls| < |d.calls| && !accept(d.calls))
            && (!d.stopped ==> d.calls == data && (|calls| < |data| ==> accept(data)))
            && forall j :: |calls| < j < |d.calls| ==> accept(data[..j])
  {
    if chunks == [] {
      assert calls + [] == calls;
    } else if !chunks[0].DataChunk? {
      DrainFrom(chunks[1..], calls, accept);
      assert DataOfChunks(chunks) == [] + DataOfChunks(chunks[1..]) == DataOfChunks(chunks[1..]);
    } else {
      var now := calls + [chunks[0].bytes];
      var data := calls + DataOfChunks(chunks);
      assert data == now + DataOfChunks(chunks[1..]);
      assert data[..|now|] == now;
      if accept(now) { DrainFrom(chunks[1..], now, accept); }
    }
  }

  /** A sink that refuses nothing gets what the Go reader owes its caller. */
  lemma {:induction false} DrainIsOwed(chunks: seq<Chunk>, calls: seq<seq<byte>>, accept: Accept)
    requires forall c :: accept(c)
    ensures !DrainSpec(chunks, calls, accept).stopped
    ensures Flatten(DrainSpec(chunks, calls, accept).calls) == Flatten(calls) + AllData(chunks)
  {
    hide Flatten, AllData;
    if chunks == [] {
      NothingOwed();
      assert AllData([]) == [] + AllData([]);
      assert Flatten(calls) + [] == Flatten(calls);
    } else if chunks[0].DataChunk? {
      var now := calls + [chunks[0].bytes];
      AllDataStep(chunks);
      DrainIsOwed(chunks[1..], now, accept);
      FlattenSnoc(calls, chunks[0].bytes);
      Assoc3(Flatten(calls), chunks[0].bytes, AllData(chunks[1..]));
    } else {
      AllDataStep(chunks);
      assert [] + AllData(chunks[1..]) == AllData(chunks[1..]);
      DrainIsOwed(chunks[1..], calls, accept);
    }
  }
}
