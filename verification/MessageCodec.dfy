/** The message half of `src/codec/ws.rs`: the incremental assembler. */
module MessageCodec {
  import opened Assembly
  import opened Bytes
  import opened DataFrames
  import opened FrameCodec
  import opened Masking
  import opened Messages
  import opened Results
  import opened Sending
  import opened Streams

  // ----- one call of `decode` -----

  datatype Call = Call(result: Result<Option<OwnedMessage>>, pending: seq<DataFrame>, rest: seq<byte>)

  function Answer(r: Result<OwnedMessage>): Result<Option<OwnedMessage>> {
    match r
    case Ok(m) => Ok(Some(m))
    case Err(e) => Err(e)
  }

  function DecodeCall(isServer: bool, pending: seq<DataFrame>, s: seq<byte>): (c: Call)
    ensures |c.rest| <= |s|
    ensures c.result.Ok? && c.result.value.Some? ==> |c.rest| < |s|
    decreases |s|
  {
    match NextFrame(isServer, s)
    case Need => Call(Ok(None), pending, s)
    case Bad(e, n) => Call(Err(e), pending, s[n..])
    case Next(frame, n) =>
      match Accept(pending, frame)
      case Reject(e) => Call(Err(e), pending, s[n..])
      case Hold(held) => DecodeCall(isServer, held, s[n..])
      case Emit(frames, held) => Call(Answer(FromFrames(frames)), held, s[n..])
  }

  // ----- decoding until nothing is left to decode -----

  /** Messages, the error that ended the run if there was one, the fragments held and the bytes left. */
  datatype Run = Run(messages: seq<OwnedMessage>, end: Option<WebSocketError>, pending: seq<DataFrame>,
                     rest: seq<byte>)
  {
    function After(before: seq<OwnedMessage>): Run {
      this.(messages := before + messages)
    }
  }

  function DecodeRun(isServer: bool, pending: seq<DataFrame>, s: seq<byte>): (r: Run)
    ensures |r.rest| <= |s|
    decreases |s|
  {
    var c := DecodeCall(isServer, pending, s);
    match c.result
    case Err(e) => Run([], Some(e), c.pending, c.rest)
    case Ok(None) => Run([], None, c.pending, c.rest)
    case Ok(Some(m)) => DecodeRun(isServer, c.pending, c.rest).After([m])
  }

  /** A transport hands over chunk after chunk; all messages are decoded after each. */
  function FeedRun(isServer: bool, pending: seq<DataFrame>, left: seq<byte>, chunks: seq<seq<byte>>): Run
    decreases |chunks|
  {
    if chunks == [] then Run([], None, pending, left) else
    var r := DecodeRun(isServer, pending, left + chunks[0]);
    if r.end.Some? then r
    else FeedRun(isServer, r.pending, r.rest, chunks[1..]).After(r.messages)
  }

  lemma AfterAfter(r: Run, a: seq<OwnedMessage>, b: seq<OwnedMessage>)
    ensures r.After(b).After(a) == r.After(a + b)
    ensures r.After([]) == r
  {
    assert a + (b + r.messages) == (a + b) + r.messages;
  }

  /** The run after one more call, behind the messages decoded so far. */
  lemma RunStep(isServer: bool, pending: seq<DataFrame>, s: seq<byte>, soFar: seq<OwnedMessage>)
    ensures var c := DecodeCall(isServer, pending, s);
            var whole := DecodeRun(isServer, pending, s).After(soFar);
            match c.result
            case Err(e) => whole == Run(soFar, Some(e), c.pending, c.rest)
            case Ok(None) => whole == Run(soFar, None, c.pending, c.rest)
            case Ok(Some(m)) => whole == DecodeRun(isServer, c.pending, c.rest).After(soFar + [m])
  {
    hide NextFrame, Accept, FromFrames, DecodeCall;
    var c := DecodeCall(isServer, pending, s);
    if c.result.Ok? && c.result.value.Some? {
      AfterAfter(DecodeRun(isServer, c.pending, c.rest), soFar, [c.result.value.value]);
    }
  }

  lemma FeedStep(isServer: bool, pending: seq<DataFrame>, left: seq<byte>, chunks: seq<seq<byte>>,
                 soFar: seq<OwnedMessage>)
    ensures var whole := FeedRun(isServer, pending, left, chunks).After(soFar);
            if chunks == [] then whole == Run(soFar, None, pending, left) else
            var r := DecodeRun(isServer, pending, left + chunks[0]);
            if r.end.Some? then whole == Run(soFar + r.messages, r.end, r.pending, r.rest)
            else whole == FeedRun(isServer, r.pending, r.rest, chunks[1..]).After(soFar + r.messages)
  {
    hide DecodeRun;
    if chunks != [] {
      var r := DecodeRun(isServer, pending, left + chunks[0]);
      AfterAfter(FeedRun(isServer, r.pending, r.rest, chunks[1..]), soFar, r.messages);
    }
  }

  class MessageCodec {
    var buffer: seq<DataFrame>
    const dataframeCodec: DataFrameCodec

    /** The fragments held are the beginning of one data message, also after an error. */
    ghost predicate Valid()
      reads this
    {
      Unfinished(buffer)
    }

    constructor (isServer: bool)
      ensures Valid() && buffer == [] && dataframeCodec.isServer == isServer
    {
      buffer := [];
      dataframeCodec := new DataFrameCodec(isServer);
    }

    method Decode(src: BytesMut) returns (r: Result<Option<OwnedMessage>>)
      requires Valid() && src.Valid() && |src.data| <= MAX_VEC
      modifies this, src
      ensures Valid() && src.Valid()
      ensures Call(r, buffer, src.data) == DecodeCall(dataframeCodec.isServer, old(buffer), old(src.data))
    {
      ghost var isServer := dataframeCodec.isServer;
      ghost var expected := DecodeCall(isServer, buffer, src.data);
      while true
        invariant Valid() && src.Valid() && |src.data| <= MAX_VEC
        invariant DecodeCall(isServer, buffer, src.data) == expected
        decreases |src.data|
      {
        hide NextFrame, FromFrames, Opcode.Code;
        var next :- dataframeCodec.Decode(src);
        if next.None? {
          break;
        }
        var frame := next.value;
        AcceptKeepsUnfinished(buffer, frame);
        var isFirst := buffer == [];
        var finished := frame.finished;
        var code := frame.opcode.Code();
        if code == 0 && isFirst {
          return Err(ProtocolError(UnexpectedContinuation));
        } else if 8 <= code <= 15 {
          var message :- FromDataframes([frame]);
          return Ok(Some(message));
        } else if 1 <= code <= 7 && !isFirst {
          return Err(ProtocolError(UnexpectedDataFrame));
        } else {
          buffer := buffer + [frame];
        }
        if finished {
          var frames := buffer;
          buffer := [];
          var message :- FromDataframes(frames);
          return Ok(Some(message));
        }
      }
      return Ok(None);
    }

    /** `freshKey` is the key that is generated for this message, if the role masks. */
    method Encode(item: OwnedMessage, dst: BytesMut, freshKey: Key) returns (r: Outcome)
      requires dst.Valid() && SendMessage(item).Representable()
      modifies dst
      ensures dst.Valid()
      ensures r == if item.IsControl() && item.Size() > 125 then Fail(DataFrameError(ControlFrameTooLong)) else Pass
      ensures r.Fail? ==> dst.data == old(dst.data)
      ensures r.Pass? ==>
                dst.data == old(dst.data)
                            + Wire(SendMessage(item), if dataframeCodec.isServer then None else Some(freshKey))
      ensures r.Pass? ==> |dst.data| == |old(dst.data)| + SendMessage(item).FrameSize(!dataframeCodec.isServer)
    {
      r := Sending.Encode(SendMessage(item), dst, !dataframeCodec.isServer, freshKey);
      ControlKinds(item);
    }

    /** Decodes until `None` or an error. */
    method DecodeAvailable(src: BytesMut) returns (messages: seq<OwnedMessage>, end: Option<WebSocketError>)
      requires Valid() && src.Valid() && |src.data| <= MAX_VEC
      modifies this, src
      ensures Valid() && src.Valid()
      ensures Run(messages, end, buffer, src.data) == DecodeRun(dataframeCodec.isServer, old(buffer), old(src.data))
    {
      hide NextFrame, Accept, FromFrames, DecodeCall, Unfinished, Run.After;
      ghost var isServer := dataframeCodec.isServer;
      ghost var expected := DecodeRun(isServer, buffer, src.data);
      messages := [];
      AfterAfter(expected, [], []);
      while true
        invariant Valid() && src.Valid() && |src.data| <= MAX_VEC
        invariant DecodeRun(isServer, buffer, src.data).After(messages) == expected
        decreases |src.data|
      {
        ghost var before, data := buffer, src.data;
        var r := Decode(src);
        RunStep(isServer, before, data, messages);
        match r {
          case Err(e) => return messages, Some(e);
          case Ok(None) => return messages, None;
          case Ok(Some(m)) => messages := messages + [m];
        }
      }
    }

    /** The life of a connection: a buffer that grows by chunks as the transport delivers them. */
    method Feed(src: BytesMut, chunks: seq<seq<byte>>)
      returns (messages: seq<OwnedMessage>, end: Option<WebSocketError>)
      requires Valid() && src.Valid() && |src.data| + |Concat(chunks)| <= MAX_VEC
      modifies this, src
      ensures Valid() && src.Valid()
      ensures Run(messages, end, buffer, src.data)
           == FeedRun(dataframeCodec.isServer, old(buffer), old(src.data), chunks)
    {
      hide NextFrame, Accept, FromFrames, DecodeCall, DecodeRun, Unfinished, Run.After;
      ghost var isServer := dataframeCodec.isServer;
      ghost var expected := FeedRun(isServer, buffer, src.data, chunks);
      messages := [];
      AfterAfter(expected, [], []);
      var left := chunks;
      while left != []
        invariant Valid() && src.Valid() && |src.data| + |Concat(left)| <= MAX_VEC
        invariant FeedRun(isServer, buffer, src.data, left).After(messages) == expected
        decreases |left|
      {
        ghost var before, data, soFar := buffer, src.data, messages;
        src.Extend(left[0]);
        FeedStep(isServer, before, data, left, soFar);
        var more, e := DecodeAvailable(src);
        messages := messages + more;
        if e.Some? {
          return messages, e;
        }
        left := left[1..];
      }
      FeedStep(isServer, buffer, src.data, left, messages);
      return messages, None;
    }
  }
}
