/** `src/message.rs`: messages, and how a list of data frames becomes one. */
module Messages {
  import opened Bytes
  import opened DataFrames
  import opened Results
  import opened Utf8

  datatype CloseData = CloseData(statusCode: u16, reason: Utf8String)

  datatype OwnedMessage =
    | TextMessage(text: Utf8String)
    | BinaryMessage(data: seq<byte>)
    | CloseMessage(close: Option<CloseData>)
    | PingMessage(data: seq<byte>)
    | PongMessage(data: seq<byte>)
  {
    function Kind(): Opcode {
      match this
      case TextMessage(_) => Text
      case BinaryMessage(_) => Binary
      case CloseMessage(_) => Close
      case PingMessage(_) => Ping
      case PongMessage(_) => Pong
    }

    predicate IsControl() {
      CloseMessage? || PingMessage? || PongMessage?
    }

    function Size(): nat {
      match this
      case TextMessage(text) => |text|
      case BinaryMessage(data) => |data|
      case PingMessage(data) => |data|
      case PongMessage(data) => |data|
      case CloseMessage(Some(c)) => |c.reason| + 2
      case CloseMessage(None) => 0
    }

    function TakePayload(): (payload: seq<byte>)
      ensures |payload| == Size()
    {
      match this
      case TextMessage(text) => text
      case BinaryMessage(data) => data
      case PingMessage(data) => data
      case PongMessage(data) => data
      case CloseMessage(Some(c)) => U16Bytes(c.statusCode) + c.reason
      case CloseMessage(None) => []
    }

    /** The complete writes that `write_payload` makes: two of them for a close reason. */
    function PayloadWrites(): seq<seq<byte>> {
      match this
      case TextMessage(text) => [text]
      case BinaryMessage(data) => [data]
      case PingMessage(data) => [data]
      case PongMessage(data) => [data]
      case CloseMessage(Some(c)) => [U16Bytes(c.statusCode), c.reason]
      case CloseMessage(None) => []
    }
  }

  lemma ControlKinds(m: OwnedMessage)
    ensures m.IsControl() <==> m.Kind().Code() >= 8
    ensures m.Kind().Code() != 0
  {}

  /** Opcode and payload determine a message. */
  lemma SameMessage(a: OwnedMessage, b: OwnedMessage)
    requires a.Kind() == b.Kind() && a.TakePayload() == b.TakePayload()
    ensures a == b
  {
    if a.CloseMessage? && a.close.Some? && b.close.Some? {
      var x, y := a.TakePayload(), b.TakePayload();
      assert x[..2] == U16Bytes(a.close.value.statusCode) && x[2..] == a.close.value.reason;
      assert y[..2] == U16Bytes(b.close.value.statusCode) && y[2..] == b.close.value.reason;
    }
  }

  // ----- lists of frames -----

  function Payload(frames: seq<DataFrame>): seq<byte> {
    if frames == [] then [] else Payload(frames[..|frames| - 1]) + frames[|frames| - 1].data
  }

  lemma {:induction false} PayloadAppend(a: seq<DataFrame>, b: seq<DataFrame>)
    ensures Payload(a + b) == Payload(a) + Payload(b)
  {
    if b == [] {
      assert a + b == a;
    } else {
      PayloadAppend(a, b[..|b| - 1]);
      assert (a + b)[..|a + b| - 1] == a + b[..|b| - 1];
    }
  }

  lemma PayloadOne(f: DataFrame)
    ensures Payload([f]) == f.data
  {
    assert Payload([f][..0]) == [];
  }

  /** The first complaint of the scan over `frames[i..]`. */
  function FrameFault(frames: seq<DataFrame>, i: nat): Option<WebSocketError>
    requires i <= |frames|
    decreases |frames| - i
  {
    if i == |frames| then None
    else if i > 0 && !frames[i].opcode.Continuation? then Some(ProtocolError(NonContinuationFragment))
    else if frames[i].reserved != CLEAR then Some(ProtocolError(ReservedBitsSet))
    else FrameFault(frames, i + 1)
  }

  /** One message, perhaps fragmented: Continuation after the first frame, no reserved bits. */
  predicate OneMessage(frames: seq<DataFrame>) {
    && frames != []
    && (forall i :: 0 < i < |frames| ==> frames[i].opcode.Continuation?)
    && (forall i :: 0 <= i < |frames| ==> frames[i].reserved == CLEAR)
  }

  lemma {:induction false} NoFaultIff(frames: seq<DataFrame>, i: nat)
    requires i <= |frames|
    ensures FrameFault(frames, i) == None <==>
            forall j :: i <= j < |frames| ==> (j > 0 ==> frames[j].opcode.Continuation?) && frames[j].reserved == CLEAR
    decreases |frames| - i
  {
    if i < |frames| {
      NoFaultIff(frames, i + 1);
    }
  }

  /** The message that a payload with a given first opcode stands for. */
  function Interpret(opcode: Opcode, data: seq<byte>): Result<OwnedMessage> {
    match opcode
    case Text => if ValidUtf8(data) then Ok(TextMessage(data)) else Err(Utf8Error)
    case Binary => Ok(BinaryMessage(data))
    case Close =>
      if data == [] then Ok(CloseMessage(None))
      else if |data| == 1 then Err(NoDataAvailable)
      else if ValidUtf8(data[2..]) then Ok(CloseMessage(Some(CloseData(ToU16(data[..2]), data[2..]))))
      else Err(Utf8Error)
    case Ping => Ok(PingMessage(data))
    case Pong => Ok(PongMessage(data))
    case _ => Err(ProtocolError(UnsupportedOpcode))
  }

  function FromFrames(frames: seq<DataFrame>): Result<OwnedMessage> {
    if frames == [] then Err(ProtocolError(NoDataframes))
    else if FrameFault(frames, 0).Some? then Err(FrameFault(frames, 0).value)
    else Interpret(frames[0].opcode, Payload(frames))
  }

  /** `Message::from_dataframes` followed by the conversion to `OwnedMessage`. */
  method FromDataframes(frames: seq<DataFrame>) returns (r: Result<OwnedMessage>)
    ensures r == FromFrames(frames)
  {
    if |frames| == 0 {
      return Err(ProtocolError(NoDataframes));
    }
    var opcode := OpcodeFromCode(frames[0].opcode.Code());
    var data: seq<byte> := [];
    for i := 0 to |frames|
      invariant FrameFault(frames, 0) == FrameFault(frames, i)
      invariant data == Payload(frames[..i])
    {
      if i > 0 && frames[i].opcode.Code() != 0 {
        return Err(ProtocolError(NonContinuationFragment));
      }
      if frames[i].reserved != CLEAR {
        return Err(ProtocolError(ReservedBitsSet));
      }
      assert frames[..i + 1][..i] == frames[..i];
      data := data + frames[i].data;
    }
    assert frames[..|frames|] == frames;
    OpcodeReadsBack(frames[0].opcode);
    match opcode {
      case Some(Text) =>
        r := if ValidUtf8(data) then Ok(TextMessage(data)) else Err(Utf8Error);
      case Some(Binary) => r := Ok(BinaryMessage(data));
      case Some(Close) =>
        if |data| > 0 {
          if |data| < 2 {
            return Err(NoDataAvailable);
          }
          var statusCode := ToU16(data[..2]);
          var reason := data[2..];
          if !ValidUtf8(reason) {
            return Err(Utf8Error);
          }
          r := Ok(CloseMessage(Some(CloseData(statusCode, reason))));
        } else {
          r := Ok(CloseMessage(None));
        }
      case Some(Ping) => r := Ok(PingMessage(data));
      case Some(Pong) => r := Ok(PongMessage(data));
      case _ => r := Err(ProtocolError(UnsupportedOpcode));
    }
  }

  // ----- assembling a message -----

  lemma InterpretsTo(m: OwnedMessage)
    ensures Interpret(m.Kind(), m.TakePayload()) == Ok(m)
  {
    if m.CloseMessage? && m.close.Some? {
      var data := m.TakePayload();
      assert data[..2] == U16Bytes(m.close.value.statusCode);
      assert data[2..] == m.close.value.reason;
    }
  }

  lemma InterpretInverts(opcode: Opcode, data: seq<byte>)
    requires Interpret(opcode, data).Ok?
    ensures Interpret(opcode, data).value.Kind() == opcode
    ensures Interpret(opcode, data).value.TakePayload() == data
  {
    if opcode.Close? && |data| >= 2 {
      assert data == data[..2] + data[2..];
    }
  }

  /** A list of frames becomes `m` exactly when it is one message with the opcode and payload of `m`. */
  lemma AssemblesIff(frames: seq<DataFrame>, m: OwnedMessage)
    ensures FromFrames(frames) == Ok(m) <==>
            OneMessage(frames) && frames[0].opcode == m.Kind() && Payload(frames) == m.TakePayload()
  {
    if frames != [] {
      NoFaultIff(frames, 0);
      InterpretsTo(m);
      if FromFrames(frames).Ok? {
        InterpretInverts(frames[0].opcode, Payload(frames));
      }
    }
  }

  /** Nothing to complain about before frame `i`. */
  predicate CleanBefore(frames: seq<DataFrame>, i: nat)
    requires i <= |frames|
  {
    forall j :: 0 <= j < i ==> (j > 0 ==> frames[j].opcode.Continuation?) && frames[j].reserved == CLEAR
  }

  predicate Stray(frames: seq<DataFrame>, i: nat)
    requires i < |frames|
  {
    i > 0 && !frames[i].opcode.Continuation?
  }

  lemma {:induction false} FaultAfterClean(frames: seq<DataFrame>, i: nat, k: nat)
    requires i <= k <= |frames| && CleanBefore(frames, k)
    ensures FrameFault(frames, i) == FrameFault(frames, k)
    decreases k - i
  {
    if i < k {
      FaultAfterClean(frames, i + 1, k);
    }
  }

  lemma {:induction false} FirstFault(frames: seq<DataFrame>, i: nat) returns (k: nat)
    requires i <= |frames| && CleanBefore(frames, i)
    ensures i <= k <= |frames| && CleanBefore(frames, k)
    ensures k < |frames| ==> Stray(frames, k) || frames[k].reserved != CLEAR
    decreases |frames| - i
  {
    k := i;
    if i < |frames| && !Stray(frames, i) && frames[i].reserved == CLEAR {
      k := FirstFault(frames, i + 1);
    }
  }

  /** Which frame is complained about, and how: the first one at fault, a stray opcode before reserved bits. */
  lemma {:induction false} FaultIff(frames: seq<DataFrame>)
    ensures FromFrames(frames) == Err(ProtocolError(NoDataframes)) <==> frames == []
    ensures FromFrames(frames) == Err(ProtocolError(NonContinuationFragment))
       <==> exists k :: 0 <= k < |frames| && CleanBefore(frames, k) && Stray(frames, k)
    ensures FromFrames(frames) == Err(ProtocolError(ReservedBitsSet))
       <==> exists k :: 0 <= k < |frames| && CleanBefore(frames, k) && !Stray(frames, k) && frames[k].reserved != CLEAR
  {
    hide Payload, ValidUtf8;
    var k := FirstFault(frames, 0);
    forall j | 0 <= j < |frames| && CleanBefore(frames, j)
      ensures FrameFault(frames, 0) == FrameFault(frames, j)
    {
      FaultAfterClean(frames, 0, j);
    }
    FaultAfterClean(frames, 0, k);
  }

  /** Why a payload is no message of its kind. */
  predicate ContentRefused(opcode: Opcode, data: seq<byte>, e: WebSocketError) {
    match e
    case Utf8Error => (opcode == Text && !ValidUtf8(data)) || (opcode == Close && |data| >= 2 && !ValidUtf8(data[2..]))
    case NoDataAvailable => opcode == Close && |data| == 1
    case ProtocolError(UnsupportedOpcode) => opcode !in {Text, Binary, Close, Ping, Pong}
    case _ => false
  }

  /** The errors of a list of frames without such a fault. */
  lemma ContentErrors(frames: seq<DataFrame>, e: WebSocketError)
    requires OneMessage(frames)
    ensures FromFrames(frames) == Err(e) <==> ContentRefused(frames[0].opcode, Payload(frames), e)
  {
    hide Payload, ValidUtf8;
    NoFaultIff(frames, 0);
  }

  /** Of the errors of assembly, the one that looks like the end of the input is a one-byte close body. */
  lemma NoDataAvailableIff(frames: seq<DataFrame>)
    ensures FromFrames(frames) == Err(NoDataAvailable) <==>
            OneMessage(frames) && frames[0].opcode.Close? && |Payload(frames)| == 1
  {
    hide ValidUtf8, Payload, FrameFault;
    if frames != [] {
      NoFaultIff(frames, 0);
      FaultIsProtocolError(frames, 0);
    }
  }

  lemma {:induction false} FaultIsProtocolError(frames: seq<DataFrame>, i: nat)
    requires i <= |frames|
    ensures FrameFault(frames, i).Some? ==> FrameFault(frames, i).value.ProtocolError?
    decreases |frames| - i
  {
    if i < |frames| {
      FaultIsProtocolError(frames, i + 1);
    }
  }

  lemma AssemblyNeverPanics(frames: seq<DataFrame>)
    ensures FromFrames(frames).Err? ==> !FromFrames(frames).error.Panic?
  {
    FaultIsProtocolError(frames, 0);
  }

  /** How a payload is cut into frames does not matter, be the outcome a message or an error. */
  lemma FragmentationInsensitive(a: seq<DataFrame>, b: seq<DataFrame>)
    requires OneMessage(a) && OneMessage(b)
    requires a[0].opcode == b[0].opcode && Payload(a) == Payload(b)
    ensures FromFrames(a) == FromFrames(b)
    ensures FromFrames(a) == Interpret(a[0].opcode, Payload(a))
  {
    NoFaultIff(a, 0);
    NoFaultIff(b, 0);
  }

  /** A message as one data frame. */
  function FrameOf(m: OwnedMessage): DataFrame {
    DataFrame(true, CLEAR, m.Kind(), m.TakePayload())
  }

  lemma FrameOfAssembles(m: OwnedMessage)
    ensures FromFrames([FrameOf(m)]) == Ok(m)
  {
    PayloadOne(FrameOf(m));
    AssemblesIff([FrameOf(m)], m);
  }
}
