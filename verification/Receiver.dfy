/** `src/receiver.rs` and `src/ws/receiver.rs`: the blocking assembler. */
module Receiver {
  import opened Assembly
  import opened Bytes
  import opened DataFrames
  import opened FrameCodec
  import opened Header
  import opened Messages
  import opened MessageCodec
  import opened Results
  import opened Runs
  import opened Streams

  // ----- one call of `recv_message_dataframes` -----

  datatype Recv =
    | Received(frames: seq<DataFrame>, pending: seq<DataFrame>, rest: seq<byte>)
    | Stopped(error: WebSocketError, pending: seq<DataFrame>)

  /** The first frame is stored whatever its kind; the kind of a later frame decides. */
  function RecvCall(mask: bool, pending: seq<DataFrame>, s: seq<byte>): (r: Recv)
    ensures r.Received? ==> |r.rest| < |s|
    decreases |s|
  {
    var read := ReadFrame(mask, s);
    if read.Failed? then Stopped(read.error, pending) else
    var frame, rest := read.frame, s[read.taken..];
    if pending == [] then
      if frame.opcode.Continuation? then Stopped(ProtocolError(UnexpectedContinuation), pending)
      else if frame.finished then Received([frame], [], rest)
      else RecvCall(mask, [frame], rest)
    else
      if frame.opcode.Code() == 0 then
        if frame.finished then Received(pending + [frame], [], rest)
        else RecvCall(mask, pending + [frame], rest)
      else if frame.opcode.Code() >= 8 then Received([frame], pending, rest)
      else Stopped(ProtocolError(UnexpectedDataFrame), pending)
  }

  // ----- receiving until an error, which the end of the input is too -----

  datatype SyncRun = SyncRun(messages: seq<OwnedMessage>, error: WebSocketError, pending: seq<DataFrame>) {
    function After(before: seq<OwnedMessage>): SyncRun {
      this.(messages := before + messages)
    }
  }

  function RecvRun(mask: bool, pending: seq<DataFrame>, s: seq<byte>): SyncRun
    decreases |s|
  {
    match RecvCall(mask, pending, s)
    case Stopped(e, held) => SyncRun([], e, held)
    case Received(frames, held, rest) =>
      match FromFrames(frames)
      case Err(e) => SyncRun([], e, held)
      case Ok(m) => RecvRun(mask, held, rest).After([m])
  }

  class Receiver {
    var buffer: seq<DataFrame>
    const mask: bool

    ghost predicate Valid()
      reads this
    {
      Unfinished(buffer)
    }

    constructor (mask: bool)
      ensures Valid() && buffer == [] && this.mask == mask
    {
      this.buffer, this.mask := [], mask;
    }

    method RecvDataframe(reader: Reader) returns (r: Result<DataFrame>)
      requires reader.Valid()
      modifies reader
      ensures reader.Valid()
      ensures match ReadFrame(mask, old(reader.Rest()))
              case Got(frame, n) => r == Ok(frame) && reader.Rest() == old(reader.Rest())[n..]
              case Failed(e) => r == Err(e)
    {
      ghost var p := reader.pos;
      r := ReadDataframe(reader, mask);
      if r.Ok? {
        DropTwice(reader.data, p, reader.pos - p);
      }
    }

    method RecvMessageDataframes(reader: Reader) returns (r: Result<seq<DataFrame>>)
      requires Valid() && reader.Valid()
      modifies this, reader
      ensures Valid() && reader.Valid()
      ensures match RecvCall(mask, old(buffer), old(reader.Rest()))
              case Received(frames, held, rest) => r == Ok(frames) && buffer == held && reader.Rest() == rest
              case Stopped(e, held) => r == Err(e) && buffer == held
    {
      hide ReadFrame, Opcode.Code;
      ghost var expected := RecvCall(mask, buffer, reader.Rest());
      ghost var s := reader.Rest();
      var finished := false;
      if buffer == [] {
        var first :- RecvDataframe(reader);
        AcceptedControlFrames(mask, s);
        if first.opcode.Continuation? {
          return Err(ProtocolError(UnexpectedContinuation));
        }
        finished := first.finished;
        buffer := buffer + [first];
        assert buffer == [first];
      }
      while !finished
        invariant reader.Valid()
        invariant if finished then expected == Received(buffer, [], reader.Rest())
                  else Valid() && expected == RecvCall(mask, buffer, reader.Rest()) && buffer != []
        decreases !finished, |reader.Rest()|
      {
        var next :- RecvDataframe(reader);
        finished := next.finished;
        var code := next.opcode.Code();
        if code == 0 {
          buffer := buffer + [next];
        } else if 8 <= code <= 15 {
          return Ok([next]);
        } else {
          return Err(ProtocolError(UnexpectedDataFrame));
        }
      }
      r := Ok(buffer);
      buffer := [];
    }

    method RecvMessage(reader: Reader) returns (r: Result<OwnedMessage>)
      requires Valid() && reader.Valid()
      modifies this, reader
      ensures Valid() && reader.Valid()
      ensures match RecvCall(mask, old(buffer), old(reader.Rest()))
              case Received(frames, held, rest) => r == FromFrames(frames) && buffer == held && reader.Rest() == rest
              case Stopped(e, held) => r == Err(e) && buffer == held
    {
      var dataframes :- RecvMessageDataframes(reader);
      r := FromDataframes(dataframes);
    }

    /** The message iterator, up to its first error. */
    method RecvAll(reader: Reader) returns (messages: seq<OwnedMessage>, error: WebSocketError)
      requires Valid() && reader.Valid()
      modifies this, reader
      ensures Valid() && reader.Valid()
      ensures SyncRun(messages, error, buffer) == RecvRun(mask, old(buffer), old(reader.Rest()))
    {
      hide ReadFrame, FromFrames, RecvCall, SyncRun.After;
      ghost var expected := RecvRun(mask, buffer, reader.Rest());
      messages := [];
      SyncAfterAfter(expected, [], []);
      while true
        invariant Valid() && reader.Valid()
        invariant RecvRun(mask, buffer, reader.Rest()).After(messages) == expected
        decreases |reader.Rest()|
      {
        ghost var before, s := buffer, reader.Rest();
        var r := RecvMessage(reader);
        RecvStep(mask, before, s, messages);
        if r.Err? {
          return messages, r.error;
        }
        messages := messages + [r.value];
      }
    }
  }

  lemma AcceptedControlFrames(mask: bool, s: seq<byte>)
    ensures ReadFrame(mask, s).Got? ==> ControlRules(ReadFrame(mask, s).frame)
  {
    if ReadFrame(mask, s).Got? {
      SyncStepIff(mask, s);
      WriteFrameAfterRead(mask, s);
    }
  }

  lemma SyncAfterAfter(r: SyncRun, a: seq<OwnedMessage>, b: seq<OwnedMessage>)
    ensures r.After(b).After(a) == r.After(a + b)
    ensures r.After([]) == r
  {
    assert a + (b + r.messages) == (a + b) + r.messages;
  }

  function RecvRunByCall(mask: bool, call: Recv, soFar: seq<OwnedMessage>): SyncRun {
    match call
    case Stopped(e, held) => SyncRun(soFar, e, held)
    case Received(frames, held, rest) =>
      match FromFrames(frames)
      case Err(e) => SyncRun(soFar, e, held)
      case Ok(m) => RecvRun(mask, held, rest).After(soFar + [m])
  }

  lemma RecvStep(mask: bool, pending: seq<DataFrame>, s: seq<byte>, soFar: seq<OwnedMessage>)
    ensures RecvRun(mask, pending, s).After(soFar) == RecvRunByCall(mask, RecvCall(mask, pending, s), soFar)
  {
    hide FromFrames, RecvCall;
    var c := RecvCall(mask, pending, s);
    if c.Received? && FromFrames(c.frames).Ok? {
      SyncAfterAfter(RecvRun(mask, c.pending, c.rest), soFar, [FromFrames(c.frames).value]);
    }
  }

  // ----- the blocking and the incremental receiver agree -----

  /** The same messages, the same held fragments, and the same error; the end of the input is one here. */
  predicate Agree(sync: SyncRun, async: Run) {
    && sync.messages == async.messages
    && sync.pending == async.pending
    && sync.error == (if async.end == None then NoDataAvailable else async.end.value)
  }

  /** On its way through the stream, the incremental receiver comes to a header with an impossible length. */
  predicate MeetsHugeHeader(isServer: bool, pending: seq<DataFrame>, s: seq<byte>)
    decreases |s|
  {
    || HugeHeader(s)
    || (match NextFrame(isServer, s)
        case Need => false
        case Bad(_, _) => false
        case Next(frame, n) =>
          match Accept(pending, frame)
          case Reject(_) => false
          case Hold(held) => MeetsHugeHeader(isServer, held, s[n..])
          case Emit(frames, held) => FromFrames(frames).Ok? && MeetsHugeHeader(isServer, held, s[n..]))
  }

  /** The blocking assembler, described by the verdict of the incremental one on the first frame. */
  function RecvByVerdict(mask: bool, verdict: Verdict, pending: seq<DataFrame>, rest: seq<byte>): Recv {
    match verdict
    case Reject(e) => Stopped(e, pending)
    case Hold(held) => RecvCall(mask, held, rest)
    case Emit(frames, held) => Received(frames, held, rest)
  }

  function RecvByRead(mask: bool, read: FrameRead, pending: seq<DataFrame>, s: seq<byte>): Recv
    requires read.Got? ==> read.taken <= |s|
  {
    match read
    case Failed(e) => Stopped(e, pending)
    case Got(frame, n) => RecvByVerdict(mask, Accept(pending, frame), pending, s[n..])
  }

  lemma RecvFrame(mask: bool, pending: seq<DataFrame>, s: seq<byte>)
    ensures RecvCall(mask, pending, s) == RecvByRead(mask, ReadFrame(mask, s), pending, s)
  {
    AcceptedControlFrames(mask, s);
    hide ReadFrame, Opcode.Code;
    if pending == [] && ReadFrame(mask, s).Got? {
      assert pending + [ReadFrame(mask, s).frame] == [ReadFrame(mask, s).frame];
    }
  }

  lemma {:induction false} SyncAgreesWithAsync(isServer: bool, pending: seq<DataFrame>, s: seq<byte>)
    ensures Agree(RecvRun(isServer, pending, s), DecodeRun(isServer, pending, s))
       <==> !MeetsHugeHeader(isServer, pending, s)
    decreases |s|
  {
    hide NextFrame, ReadFrame, HugeHeader, Accept, FromFrames, DecodeRun, RecvCall;
    RunFrame(isServer, pending, s);
    RecvFrame(isServer, pending, s);
    SyncStepIff(isServer, s);
    if HugeHeader(s) {
      HugeHeaderDisagrees(isServer, s);
      RunPanicsIff(isServer, pending, s);
    } else if NextFrame(isServer, s).Next? {
      var frame, n := NextFrame(isServer, s).frame, NextFrame(isServer, s).taken;
      match Accept(pending, frame)
      case Reject(_) =>
      case Hold(held) => SyncAgreesWithAsync(isServer, held, s[n..]);
      case Emit(frames, held) =>
        if FromFrames(frames).Ok? {
          SyncAgreesWithAsync(isServer, held, s[n..]);
          AgreeAfter(RecvRun(isServer, held, s[n..]), DecodeRun(isServer, held, s[n..]), FromFrames(frames).value);
        }
    }
  }

  lemma AgreeAfter(sync: SyncRun, async: Run, m: OwnedMessage)
    ensures Agree(sync.After([m]), async.After([m])) <==> Agree(sync, async)
  {
    assert ([m] + sync.messages)[1..] == sync.messages;
    assert ([m] + async.messages)[1..] == async.messages;
  }

  lemma HugeHeaderDisagrees(isServer: bool, s: seq<byte>)
    requires HugeHeader(s)
    ensures ReadFrame(isServer, s) == Failed(Panic(CapacityOverflow))
  {}

  /** The blocking run panics exactly when it meets a header of 2^63 bytes or more, and then while allocating. */
  lemma {:induction false} SyncPanicsIff(mask: bool, pending: seq<DataFrame>, s: seq<byte>)
    ensures RecvRun(mask, pending, s).error.Panic? <==> MeetsHugeHeader(mask, pending, s)
    ensures MeetsHugeHeader(mask, pending, s) ==> RecvRun(mask, pending, s).error == Panic(CapacityOverflow)
    decreases |s|
  {
    hide NextFrame, ReadFrame, HugeHeader, FromFrames, RecvCall;
    RecvFrame(mask, pending, s);
    SyncStepIff(mask, s);
    ReadPanicIff(mask, s);
    if !HugeHeader(s) && NextFrame(mask, s).Next? {
      var frame, n := NextFrame(mask, s).frame, NextFrame(mask, s).taken;
      match Accept(pending, frame)
      case Reject(_) =>
      case Hold(held) => SyncPanicsIff(mask, held, s[n..]);
      case Emit(frames, held) =>
        AssemblyNeverPanics(frames);
        SyncPanicsIff(mask, held, s[n..]);
    }
  }

  lemma ReadPanicIff(mask: bool, s: seq<byte>)
    ensures ReadFrame(mask, s).Failed? && ReadFrame(mask, s).error.Panic? <==> HugeHeader(s)
    ensures HugeHeader(s) ==> ReadFrame(mask, s).error == Panic(CapacityOverflow)
  {
    if ParseHeader(s).Complete? {
      WriteAfterRead(s);
    }
  }

  // ----- consequences -----

  /** A disagreement: after these ten bytes one receiver waits and the other has panicked. */
  lemma HugeLengthExample()
    ensures var s := [0x82, 127, 0x80, 0, 0, 0, 0, 0, 0, 0];
            && DecodeRun(false, [], s) == Run([], None, [], s)
            && RecvRun(false, [], s) == SyncRun([], Panic(CapacityOverflow), [])
  {
    var s: seq<byte> := [0x82, 127, 0x80, 0, 0, 0, 0, 0, 0, 0];
    HugeExampleHeader(s);
    hide ParseHeader;
    RunFrame(false, [], s);
    RecvFrame(false, [], s);
  }

  lemma HugeExampleHeader(s: seq<byte>)
    requires s == [0x82, 127, 0x80, 0, 0, 0, 0, 0, 0, 0]
    ensures ParseHeader(s) == Complete(DataFrameHeader(Flags(true, false, false, false), 2, None, MAX_VEC + 1), 10)
  {
    var h := DataFrameHeader(Flags(true, false, false, false), 2, None, MAX_VEC + 1);
    HugeExampleLength();
    ReadAfterWrite(h, []);
    assert s == HeaderBytes(h) + [];
  }

  lemma HugeExampleLength()
    ensures U64Bytes(MAX_VEC + 1) == [0x80, 0, 0, 0, 0, 0, 0, 0]
  {
    var b: seq<byte> := [0x80, 0, 0, 0, 0, 0, 0, 0];
    EightByteNumber(b);
    assert ToU64(b) == MAX_VEC + 1;
  }

  lemma {:induction false} NoUnreachableSyncError(mask: bool, pending: seq<DataFrame>, s: seq<byte>)
    requires Unfinished(pending)
    ensures !Unreachable(RecvRun(mask, pending, s).error)
    decreases |s|
  {
    hide ReadFrame, Accept, FromFrames, RecvCall, Unfinished, Unreachable;
    RecvFrame(mask, pending, s);
    NoUnreachableFrameError(mask, s);
    if ReadFrame(mask, s).Got? {
      var frame, n := ReadFrame(mask, s).frame, ReadFrame(mask, s).taken;
      AcceptKeepsUnfinished(pending, frame);
      NoUnreachableAssemblyError(pending, frame);
      match Accept(pending, frame)
      case Reject(_) =>
      case Hold(held) => NoUnreachableSyncError(mask, held, s[n..]);
      case Emit(_, held) => NoUnreachableSyncError(mask, held, s[n..]);
    }
  }
}
