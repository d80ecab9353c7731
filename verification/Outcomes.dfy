/**
 * What the first frame of a stream does to a receiver, read off the bytes: the message that it
 * completes, or the error that it ends the run with.
 */
module Outcomes {
  import opened Assembly
  import opened Bytes
  import opened DataFrames
  import opened ExclusiveOr
  import opened FrameCodec
  import opened Header
  import opened Layout
  import opened Messages
  import opened MessageCodec
  import opened Receiver
  import opened Results
  import opened RoundTrip
  import opened Runs
  import opened Sending
  import opened Utf8

  // ----- the bytes and the fragments held -----

  /** A whole frame of the right role. */
  predicate Arrives(isServer: bool, t: seq<byte>) {
    FrameThere(t) && (t[1] >= 128 <==> isServer)
  }

  /** A control frame, or the last frame of a data message. */
  predicate Completes(isServer: bool, held: seq<DataFrame>, t: seq<byte>) {
    Arrives(isServer, t) && (t[0] % 16 >= 8 || (t[0] >= 128 && (t[0] % 16 == 0 <==> held != [])))
  }

  /** The opcode of the message that the frame belongs to. */
  function KindOf(held: seq<DataFrame>, t: seq<byte>): Opcode
    requires t != []
  {
    if t[0] % 16 >= 8 || held == [] then OPCODES[t[0] % 16] else held[0].opcode
  }

  function WholePayload(held: seq<DataFrame>, t: seq<byte>): seq<byte>
    requires FrameThere(t)
  {
    if t[0] % 16 >= 8 then FrameAt(t).data else Payload(held) + FrameAt(t).data
  }

  predicate NoReservedBits(held: seq<DataFrame>, t: seq<byte>)
    requires t != []
  {
    t[0] / 16 % 8 == 0 && (t[0] % 16 < 8 ==> forall i :: 0 <= i < |held| ==> held[i].reserved == CLEAR)
  }

  /** Why bytes are no frame for this role. */
  predicate FrameRefused(isServer: bool, t: seq<byte>, e: WebSocketError) {
    match e
    case DataFrameError(InvalidLength) => LengthKnown(t) && Padded(t)
    case DataFrameError(ControlFrameTooLong) => LengthKnown(t) && !Padded(t) && LongControl(t)
    case ProtocolError(FragmentedControlFrame) => LengthKnown(t) && UnfinishedControl(t)
    case Panic(SplitOutOfRange) => EndTooFar(t)
    case DataFrameError(ExpectedMasked) => isServer && WrongRole(isServer, t)
    case DataFrameError(ExpectedUnmasked) => !isServer && WrongRole(isServer, t)
    case _ => false
  }

  /** Why a frame cannot follow the fragments held. */
  predicate OrderRefused(held: seq<DataFrame>, t: seq<byte>, e: WebSocketError)
    requires t != []
  {
    || (e == ProtocolError(UnexpectedContinuation) && t[0] % 16 == 0 && held == [])
    || (e == ProtocolError(UnexpectedDataFrame) && 1 <= t[0] % 16 <= 7 && held != [])
  }

  /** Why a completed message is none. */
  predicate MessageRefused(held: seq<DataFrame>, t: seq<byte>, e: WebSocketError)
    requires FrameThere(t)
  {
    if NoReservedBits(held, t) then ContentRefused(KindOf(held, t), WholePayload(held, t), e)
    else e == ProtocolError(ReservedBitsSet)
  }

  /** With which error the first frame of `t` is refused, given the fragments held. */
  predicate Refused(isServer: bool, held: seq<DataFrame>, t: seq<byte>, e: WebSocketError) {
    || FrameRefused(isServer, t, e)
    || (Arrives(isServer, t) && OrderRefused(held, t, e))
    || (Completes(isServer, held, t) && MessageRefused(held, t, e))
  }

  /** A completed data message leaves nothing held, be it accepted or refused. */
  function HeldAfter(isServer: bool, held: seq<DataFrame>, t: seq<byte>): seq<DataFrame> {
    if Completes(isServer, held, t) && t[0] % 16 < 8 then [] else held
  }

  /** A refused header stays in the buffer; a frame is cut off before it is looked at. */
  function RestAfter(t: seq<byte>): seq<byte> {
    if FrameThere(t) then t[FrameEnd(t)..]
    else if EndTooFar(t) then t[PayloadStart(t[1])..]
    else t
  }

  // ----- what a completed message comes to -----

  /** The frames of the message that the first frame of `t` completes. */
  function MessageFrames(held: seq<DataFrame>, t: seq<byte>): seq<DataFrame>
    requires FrameThere(t)
  {
    if t[0] % 16 >= 8 then [FrameAt(t)] else held + [FrameAt(t)]
  }

  lemma ReservedPart(b: byte)
    ensures b / 64 % 2 == 0 && b / 32 % 2 == 0 && b / 16 % 2 == 0 <==> b / 16 % 8 == 0
    ensures b / 128 == 1 <==> b >= 128
  {}

  lemma CodeAt(t: seq<byte>)
    requires FrameThere(t)
    ensures FrameAt(t).opcode.Code() == t[0] % 16
    ensures FrameAt(t).finished <==> t[0] >= 128
    ensures FrameAt(t).opcode == OPCODES[t[0] % 16]
    ensures FrameAt(t).reserved == CLEAR <==> t[0] / 16 % 8 == 0
  {
    hide PayloadLength, PayloadByte, HeaderThere, Opcode.Code;
    ReservedPart(t[0]);
    OpcodeNumbers(t[0] % 16, OPCODES[t[0] % 16]);
  }

  lemma VerdictByPosition(isServer: bool, held: seq<DataFrame>, t: seq<byte>)
    requires Unfinished(held) && Arrives(isServer, t)
    ensures Accept(held, FrameAt(t)) ==
            if Completes(isServer, held, t) then Emit(MessageFrames(held, t), HeldAfter(isServer, held, t))
            else if t[0] % 16 == 0 && held == [] then Reject(ProtocolError(UnexpectedContinuation))
            else if t[0] % 16 != 0 && held != [] then Reject(ProtocolError(UnexpectedDataFrame))
            else Hold(held + [FrameAt(t)])
  {
    hide FrameAt, FrameThere, Opcode.Code;
    CodeAt(t);
    if held == [] {
      assert held + [FrameAt(t)] == [FrameAt(t)];
    }
  }

  lemma CompletedFrames(isServer: bool, held: seq<DataFrame>, t: seq<byte>)
    requires Unfinished(held) && Completes(isServer, held, t)
    ensures var list := MessageFrames(held, t);
            && list[0].opcode == KindOf(held, t) && Payload(list) == WholePayload(held, t)
            && (forall i :: 0 < i < |list| ==> list[i].opcode.Continuation?)
            && (OneMessage(list) <==> NoReservedBits(held, t))
  {
    hide FrameAt, HeaderThere, Opcode.Code, Payload, PayloadLength;
    CodeAt(t);
    PayloadOne(FrameAt(t));
    PayloadAppend(held, [FrameAt(t)]);
    var list := MessageFrames(held, t);
    assert list[|list| - 1] == FrameAt(t);
    if t[0] % 16 < 8 {
      assert forall i :: 0 <= i < |held| ==> list[i] == held[i];
    }
  }

  /** A completed message is the one that its opcode and payload denote. */
  lemma ReceivedIff(isServer: bool, held: seq<DataFrame>, t: seq<byte>, m: OwnedMessage)
    requires Unfinished(held) && Completes(isServer, held, t)
    ensures var c := DecodeCall(isServer, held, t);
            && (c.result == Ok(Some(m))
                <==> NoReservedBits(held, t) && Denotes(KindOf(held, t), WholePayload(held, t), m))
            && c.pending == HeldAfter(isServer, held, t) && c.rest == t[FrameEnd(t)..]
  {
    assert LengthKnown(t);
    hide FrameAt, NextFrame, FromFrames, Denotes, MessageFrames, WholePayload, NoReservedBits, Accept, FrameThere;
    hide FrameEnd, KindOf;
    FrameByPosition(isServer, t, FrameAt(t), FrameEnd(t));
    VerdictByPosition(isServer, held, t);
    CompletedFrames(isServer, held, t);
    AssemblesIff(MessageFrames(held, t), m);
    DenotesIff(KindOf(held, t), WholePayload(held, t), m);
  }

  /** A short message from a server, in the numbers of section 5.2: what is sent, and that it is received. */
  lemma {:induction false} ShortMessage(m: OwnedMessage, tail: seq<byte>)
    requires m.Size() <= 125
    ensures var s := [FirstByte(m), m.Size()] + m.TakePayload();
            && Wire(SendMessage(m), None) == s
            && DecodeCall(false, [], s + tail) == Call(Ok(Some(m)), [], tail)
  {
    hide DecodeCall, Wire, OwnedMessage.PayloadWrites;
    var w := Wire(SendMessage(m), None);
    MessageOnWire(m, None);
    MessageRoundTrip(m, None, [], tail);
    forall i | 0 <= i < |w|
      ensures w[i] == ([FirstByte(m), m.Size()] + m.TakePayload())[i]
    {
      if i >= 2 {
        assert w[PayloadStart(w[1]) + (i - 2)] == SentByte(m, None, i - 2);
      }
    }
  }

  lemma HelloIsText()
    ensures EncodeText([0x48, 0x65, 0x6C, 0x6C, 0x6F]) == [0x48, 0x65, 0x6C, 0x6C, 0x6F]
    ensures ValidUtf8([0x48, 0x65, 0x6C, 0x6C, 0x6F])
  {
    hide ValidUtf8;
    EncodedIsValid([0x48, 0x65, 0x6C, 0x6C, 0x6F]);
  }

  function Hello(): Utf8String {
    HelloIsText();
    [0x48, 0x65, 0x6C, 0x6C, 0x6F]
  }

  lemma HelloUnmasked(s: seq<byte>)
    requires |s| >= 11 && s[..11] == [0x81, 0x85, 0x37, 0xFA, 0x21, 0x3D, 0x7F, 0x9F, 0x4D, 0x51, 0x58]
    ensures FrameThere(s) && FrameEnd(s) == 11 && FrameAt(s).data == [0x48, 0x65, 0x6C, 0x6C, 0x6F]
    ensures s[0] == 0x81 && s[1] == 0x85
  {
    hide Xor;
    assert forall i :: 0 <= i < 11 ==> s[i] == s[..11][i];
    XorIsMachineXor(0x7F, 0x37);
    XorIsMachineXor(0x9F, 0xFA);
    XorIsMachineXor(0x4D, 0x21);
    XorIsMachineXor(0x51, 0x3D);
    XorIsMachineXor(0x58, 0x37);
  }

  /** The masked "Hello" of section 5.7 of RFC 6455. */
  lemma {:induction false} HelloExample(tail: seq<byte>)
    ensures DecodeCall(true, [], [0x81, 0x85, 0x37, 0xFA, 0x21, 0x3D, 0x7F, 0x9F, 0x4D, 0x51, 0x58] + tail)
         == Call(Ok(Some(TextMessage(Hello()))), [], tail)
  {
    hide ValidUtf8, DecodeCall, FrameThere, FrameAt, FrameEnd;
    var s := [0x81, 0x85, 0x37, 0xFA, 0x21, 0x3D, 0x7F, 0x9F, 0x4D, 0x51, 0x58] + tail;
    HelloUnmasked(s);
    ReceivedIff(true, [], s, TextMessage(Hello()));
    assert s[11..] == tail;
  }

  // ----- which error a frame is refused with -----

  function VerdictError(v: Verdict): Option<WebSocketError> {
    match v
    case Reject(e) => Some(e)
    case Hold(_) => None
    case Emit(frames, _) => AssemblyError(FromFrames(frames))
  }

  function AssemblyError(r: Result<OwnedMessage>): Option<WebSocketError> {
    match r
    case Ok(_) => None
    case Err(e) => Some(e)
  }

  /** The error that a run ends with at the first frame of `t`, if it does. */
  function FirstError(isServer: bool, held: seq<DataFrame>, t: seq<byte>): Option<WebSocketError> {
    match NextFrame(isServer, t)
    case Need => None
    case Bad(e, _) => Some(e)
    case Next(frame, _) => VerdictError(Accept(held, frame))
  }

  /** The bytes at the front of a stream are in exactly one of five situations. */
  lemma Situations(isServer: bool, t: seq<byte>)
    ensures || Waits(t) || (LengthKnown(t) && HeaderRefused(t))
            || EndTooFar(t) || WrongRole(isServer, t) || Arrives(isServer, t)
    ensures Waits(t) ==> !(LengthKnown(t) && HeaderRefused(t))
    ensures Waits(t) || (LengthKnown(t) && HeaderRefused(t)) ==> !FrameThere(t) && !EndTooFar(t)
    ensures EndTooFar(t) ==> !FrameThere(t)
    ensures WrongRole(isServer, t) ==> FrameThere(t) && !Arrives(isServer, t)
  {
    hide PayloadLength;
  }

  lemma FrameErrors(isServer: bool, t: seq<byte>, e: WebSocketError)
    ensures NextFrame(isServer, t).Bad? && NextFrame(isServer, t).error == e <==> FrameRefused(isServer, t, e)
    ensures NextFrame(isServer, t).Next? <==> Arrives(isServer, t)
  {
    hide NextFrame, FrameThere, EndTooFar, Waits, WrongRole, FrameAt, FrameEnd, ParseHeader, HeaderThere;
    Situations(isServer, t);
    HeaderOutcome(t);
    NoFrameByPosition(isServer, t);
    if Arrives(isServer, t) {
      ArrivedPosition(isServer, t);
      FrameByPosition(isServer, t, FrameAt(t), FrameEnd(t));
    }
  }

  lemma ArrivedPosition(isServer: bool, t: seq<byte>)
    requires Arrives(isServer, t)
    ensures LengthKnown(t)
  {}

  lemma CompletedErrors(isServer: bool, held: seq<DataFrame>, t: seq<byte>, e: WebSocketError)
    requires Unfinished(held) && Completes(isServer, held, t)
    ensures AssemblyError(FromFrames(MessageFrames(held, t))) == Some(e) <==> MessageRefused(held, t, e)
  {
    assert LengthKnown(t);
    hide FrameThere, FromFrames, Completes, NoReservedBits, MessageFrames, WholePayload, KindOf;
    var list := MessageFrames(held, t);
    CompletedFrames(isServer, held, t);
    if NoReservedBits(held, t) {
      ContentErrors(list, e);
    } else {
      ReservedFault(list);
    }
  }

  lemma {:induction false} ReservedFault(list: seq<DataFrame>)
    requires list != [] && (forall i :: 0 < i < |list| ==> list[i].opcode.Continuation?) && !OneMessage(list)
    ensures FromFrames(list) == Err(ProtocolError(ReservedBitsSet))
  {
    hide FromFrames;
    var k := FirstFault(list, 0);
    FaultIff(list);
    assert k < |list|;
    assert !Stray(list, k);
  }

  /** The errors of a first frame are exactly those of the table. */
  lemma RefusedIff(isServer: bool, held: seq<DataFrame>, t: seq<byte>, e: WebSocketError)
    requires Unfinished(held)
    ensures FirstError(isServer, held, t) == Some(e) <==> Refused(isServer, held, t, e)
  {
    hide NextFrame, Accept, FromFrames, FrameRefused, MessageRefused, MessageFrames, FrameAt, FrameEnd, HeldAfter;
    hide Unfinished;
    FrameErrors(isServer, t, e);
    if Arrives(isServer, t) {
      ArrivedPosition(isServer, t);
      FrameByPosition(isServer, t, FrameAt(t), FrameEnd(t));
      VerdictByPosition(isServer, held, t);
      if Completes(isServer, held, t) {
        CompletedErrors(isServer, held, t, e);
      }
    }
  }

  /** A run on a stream whose first frame is refused: the error, the fragments held and the bytes left. */
  lemma RefusedRun(isServer: bool, held: seq<DataFrame>, t: seq<byte>, e: WebSocketError)
    requires Unfinished(held) && Refused(isServer, held, t, e)
    ensures DecodeRun(isServer, held, t) == Run([], Some(e), HeldAfter(isServer, held, t), RestAfter(t))
    ensures DecodeCall(isServer, held, t) == Call(Err(e), HeldAfter(isServer, held, t), RestAfter(t))
  {
    hide Refused, FromFrames, Accept, NextFrame, FrameAt, MessageFrames, FrameEnd, FrameThere, EndTooFar, HeaderRefused;
    RunFrame(isServer, held, t);
    RefusedIff(isServer, held, t, e);
    Situations(isServer, t);
    NoFrameByPosition(isServer, t);
    HeaderOutcome(t);
    if Arrives(isServer, t) {
      ArrivedPosition(isServer, t);
      FrameByPosition(isServer, t, FrameAt(t), FrameEnd(t));
      VerdictByPosition(isServer, held, t);
    }
  }

  /** The blocking receiver refuses a frame with the same error, unless its length is impossible. */
  lemma {:induction false} RefusedBlocking(isServer: bool, held: seq<DataFrame>, t: seq<byte>, e: WebSocketError)
    requires Unfinished(held) && Refused(isServer, held, t, e)
    requires HeaderThere(t) ==> PayloadLength(t) <= MAX_VEC
    ensures RecvRun(isServer, held, t) == SyncRun([], e, HeldAfter(isServer, held, t))
  {
    hide Refused, HeldAfter, DecodeRun, RecvRun, HeaderThere, PayloadLength, FromFrames, NextFrame, Accept, RestAfter;
    RefusedRun(isServer, held, t, e);
    RefusedIff(isServer, held, t, e);
    if ParseHeader(t).Complete? {
      HeaderByPosition(t, ParseHeader(t).header, ParseHeader(t).size);
    }
    SyncAgreesWithAsync(isServer, held, t);
  }

  // ----- the first error of a run -----

  /** A frame at the front of a stream is there in every prefix that reaches its end. */
  lemma FrameInPrefix(isServer: bool, s: seq<byte>, k: nat)
    requires NextFrame(isServer, s).Next? && NextFrame(isServer, s).taken <= k <= |s|
    ensures NextFrame(isServer, s[..k]) == NextFrame(isServer, s)
  {
    hide NextFrame, PayloadLength;
    FrameByPosition(isServer, s, NextFrame(isServer, s).frame, NextFrame(isServer, s).taken);
    assert s == s[..k] + s[k..];
    SameLength(s[..k], s[k..]);
    NoFrameByPosition(isServer, s[..k]);
    NextFrameStable(isServer, s[..k], s[k..]);
  }

  /** Where a run fails: up to there it had no error and nothing left, and the next frame is refused. */
  lemma {:induction false} FailurePoint(isServer: bool, pending: seq<DataFrame>, s: seq<byte>)
    returns (k: nat, before: Run)
    requires Unfinished(pending) && DecodeRun(isServer, pending, s).end.Some?
    ensures k <= |s| && before == DecodeRun(isServer, pending, s[..k])
    ensures before.end == None && before.rest == [] && Unfinished(before.pending)
    ensures Refused(isServer, before.pending, s[k..], DecodeRun(isServer, pending, s).end.value)
    decreases |s|
  {
    hide NextFrame, Accept, FromFrames, DecodeRun, Unfinished, Refused;
    RunFrame(isServer, pending, s);
    if FirstError(isServer, pending, s).Some? {
      k, before := 0, Run([], None, pending, []);
      RunOfNothing(isServer, pending);
      RefusedIff(isServer, pending, s, FirstError(isServer, pending, s).value);
      assert s[..0] == [] && s[0..] == s;
    } else {
      var frame, n := NextFrame(isServer, s).frame, NextFrame(isServer, s).taken;
      AcceptKeepsUnfinished(pending, frame);
      var later, held;
      match Accept(pending, frame) {
        case Hold(h) => held := h;
        case Emit(_, h) => held := h;
      }
      k, later := FailurePoint(isServer, held, s[n..]);
      k := n + k;
      before := DecodeRun(isServer, pending, s[..k]);
      FrameInPrefix(isServer, s, k);
      RunFrame(isServer, pending, s[..k]);
      assert s[..k][n..] == s[n..][..k - n] && s[k..] == s[n..][k - n..];
    }
  }

  lemma RunOfNothing(isServer: bool, pending: seq<DataFrame>)
    ensures DecodeRun(isServer, pending, []) == Run([], None, pending, [])
  {}
}
