/**
 * Section 5.2 of RFC 6455, read off the bytes by position: where the parts of a data frame lie, what
 * they mean, and that reading and writing put and find them there.
 */
module Layout {
  import opened Bytes
  import opened DataFrames
  import opened ExclusiveOr
  import opened FrameCodec
  import opened Header
  import opened Masking
  import opened Messages
  import opened Results
  import opened Sending

  // ----- the layout -----

  /** Where the length ends, by the second byte. */
  function LengthFieldEnd(second: byte): nat {
    if second % 128 == 126 then 4 else if second % 128 == 127 then 10 else 2
  }

  /** Where the payload begins, by the second byte. */
  function PayloadStart(second: byte): nat {
    LengthFieldEnd(second) + if second >= 128 then 4 else 0
  }

  predicate LengthKnown(s: seq<byte>) {
    |s| >= 2 && |s| >= LengthFieldEnd(s[1])
  }

  function PayloadLength(s: seq<byte>): nat
    requires LengthKnown(s)
  {
    if s[1] % 128 == 126 then Number2(s[2..4])
    else if s[1] % 128 == 127 then Number8(s[2..10])
    else s[1] % 128
  }

  function FrameEnd(s: seq<byte>): nat
    requires LengthKnown(s)
  {
    PayloadStart(s[1]) + PayloadLength(s)
  }

  /** A long form of the length that holds what a shorter form could. */
  predicate Padded(s: seq<byte>)
    requires LengthKnown(s)
  {
    (s[1] % 128 == 126 && PayloadLength(s) <= 125) || (s[1] % 128 == 127 && PayloadLength(s) <= 65535)
  }

  predicate LongControl(s: seq<byte>)
    requires |s| >= 2
  {
    s[0] % 16 >= 8 && s[1] % 128 >= 126
  }

  predicate UnfinishedControl(s: seq<byte>)
    requires |s| >= 2
  {
    s[0] % 16 >= 8 && s[1] % 128 <= 125 && s[0] < 128
  }

  predicate HeaderRefused(s: seq<byte>)
    requires LengthKnown(s)
  {
    Padded(s) || LongControl(s) || UnfinishedControl(s)
  }

  predicate HeaderThere(s: seq<byte>) {
    LengthKnown(s) && !HeaderRefused(s) && |s| >= PayloadStart(s[1])
  }

  // ----- reading a header -----

  lemma LengthByPosition(s: seq<byte>)
    requires LengthKnown(s)
    ensures LengthAt(s[1] % 128, s[2..LengthFieldEnd(s[1])]) == PayloadLength(s)
    ensures LengthFieldEnd(s[1]) == 2 + ExtensionSize(s[1] % 128)
  {
    hide FromBigEndian, Number2, Number8;
    if s[1] % 128 == 126 {
      TwoByteNumber(s[2..4]);
    } else if s[1] % 128 == 127 {
      EightByteNumber(s[2..10]);
    }
  }

  /** With which error a header is refused, and when more bytes are waited for. */
  lemma HeaderOutcome(s: seq<byte>)
    ensures ParseHeader(s) == Malformed(DataFrameError(InvalidLength)) <==> LengthKnown(s) && Padded(s)
    ensures ParseHeader(s) == Malformed(DataFrameError(ControlFrameTooLong))
       <==> LengthKnown(s) && !Padded(s) && LongControl(s)
    ensures ParseHeader(s) == Malformed(ProtocolError(FragmentedControlFrame))
       <==> LengthKnown(s) && UnfinishedControl(s)
    ensures ParseHeader(s).Malformed? <==> LengthKnown(s) && HeaderRefused(s)
    ensures ParseHeader(s).Complete? <==> HeaderThere(s)
  {
    hide LengthAt, PayloadLength;
    if LengthKnown(s) {
      LengthByPosition(s);
      ShortLength(s);
    }
  }

  lemma ShortLength(s: seq<byte>)
    requires LengthKnown(s)
    ensures s[1] % 128 <= 125 ==> PayloadLength(s) <= 125
  {}

  function KeyBefore(s: seq<byte>, b: nat): Key
    requires 4 <= b <= |s|
  {
    [s[b - 4], s[b - 3], s[b - 2], s[b - 1]]
  }

  lemma LengthFits(s: seq<byte>)
    requires LengthKnown(s)
    ensures PayloadLength(s) < U64_LIMIT
  {}

  /** The fields of a header: FIN, the reserved bits and the opcode; the length; and the key before the payload. */
  function HeaderAt(s: seq<byte>): DataFrameHeader
    requires HeaderThere(s)
  {
    LengthFits(s);
    DataFrameHeader(Flags(s[0] / 128 == 1, s[0] / 64 % 2 == 1, s[0] / 32 % 2 == 1, s[0] / 16 % 2 == 1), s[0] % 16,
                    if s[1] >= 128 then Some(KeyBefore(s, PayloadStart(s[1]))) else None, PayloadLength(s))
  }

  lemma HeaderByPosition(s: seq<byte>, h: DataFrameHeader, n: nat)
    ensures ParseHeader(s) == Complete(h, n) <==> HeaderThere(s) && h == HeaderAt(s) && n == PayloadStart(s[1])
  {
    hide LengthAt, PayloadLength;
    HeaderOutcome(s);
    if HeaderThere(s) {
      LengthByPosition(s);
      if s[1] >= 128 {
        FourBytes(s, LengthFieldEnd(s[1]));
      }
    }
  }

  /** A header that more bytes can complete lacks at most its key once the length is known. */
  lemma OnlyKeyMissing(s: seq<byte>, t: seq<byte>)
    requires LengthKnown(s) && ParseHeader(s).Incomplete?
    ensures PayloadStart(s[1]) <= |s| + 4
    ensures ParseHeader(s + t).Complete? <==> |s + t| >= PayloadStart(s[1])
  {
    hide PayloadLength;
    HeaderOutcome(s);
    HeaderOutcome(s + t);
    LengthByPosition(s);
    SameLength(s, t);
  }

  lemma SameLength(s: seq<byte>, t: seq<byte>)
    requires LengthKnown(s)
    ensures LengthKnown(s + t) && PayloadLength(s + t) == PayloadLength(s)
  {
    var n := LengthFieldEnd(s[1]);
    assert (s + t)[2..n] == s[2..n];
  }

  // ----- writing a header -----

  lemma LengthOnWire(s: seq<byte>, len: u64)
    requires |s| >= 2 + |ExtendedLength(len)|
    requires s[1] % 128 == LengthCode(len) && s[2..2 + |ExtendedLength(len)|] == ExtendedLength(len)
    ensures LengthKnown(s) && PayloadLength(s) == len && LengthFieldEnd(s[1]) == 2 + |ExtendedLength(len)|
  {
    hide FromBigEndian, ToBigEndian, Number2, Number8;
    if 125 < len <= 65535 {
      TwoByteNumber(ExtendedLength(len));
    } else if len > 65535 {
      EightByteNumber(ExtendedLength(len));
    }
  }

  /** Where the written fields are. */
  lemma HeaderOnWire(h: DataFrameHeader, tail: seq<byte>)
    requires h.opcode <= 15
    ensures var s := HeaderBytes(h) + tail;
            && s[0] == (if h.flags.fin then 0x80 else 0) + (if h.flags.rsv1 then 0x40 else 0)
                       + (if h.flags.rsv2 then 0x20 else 0) + (if h.flags.rsv3 then 0x10 else 0) + h.opcode
            && s[1] == (if h.mask.Some? then 0x80 else 0)
                       + (if h.len <= 125 then h.len else if h.len <= 65535 then 126 else 127)
            && LengthKnown(s) && PayloadLength(s) == h.len && PayloadStart(s[1]) == |HeaderBytes(h)|
            && (h.mask.Some? ==> KeyBefore(s, PayloadStart(s[1])) == h.mask.value)
  {
    hide ExtendedLength, PayloadLength;
    var s := HeaderBytes(h) + tail;
    var n := 2 + |ExtendedLength(h.len)|;
    assert s[2..n] == ExtendedLength(h.len);
    LengthOnWire(s, h.len);
    if h.mask.Some? {
      assert s[n..n + 4] == h.mask.value;
      FourBytes(s, n);
    }
  }

  /** Nothing but FIN is missing from the header of a short control frame that is not finished: it is refused. */
  lemma UnfinishedControlRefused(h: DataFrameHeader, tail: seq<byte>)
    requires Writable(h) && h.opcode >= 8 && !h.flags.fin
    ensures ParseHeader(HeaderBytes(h) + tail) == Malformed(ProtocolError(FragmentedControlFrame))
  {
    hide HeaderBytes, PayloadLength;
    HeaderOnWire(h, tail);
    HeaderOutcome(HeaderBytes(h) + tail);
  }

  // ----- data frames -----

  /** The opcodes by their numbers (section 5.2 of RFC 6455). */
  const OPCODES: seq<Opcode> := [
    Continuation, Text, Binary, NonControl1, NonControl2, NonControl3, NonControl4, NonControl5,
    Close, Ping, Pong, Control1, Control2, Control3, Control4, Control5
  ]

  lemma OpcodeNumbers(c: byte, o: Opcode)
    ensures OpcodeFromCode(c) == Some(o) <==> c <= 15 && OPCODES[c] == o
    ensures o.Code() == c <==> c <= 15 && OPCODES[c] == o
  {}

  /** The header is acceptable and the payload complete. */
  predicate FrameThere(s: seq<byte>) {
    HeaderThere(s) && FrameEnd(s) <= |s| && FrameEnd(s) < U64_LIMIT
  }

  /** The header is acceptable, but where the frame ends does not fit in 64 bits. */
  predicate EndTooFar(s: seq<byte>) {
    HeaderThere(s) && FrameEnd(s) >= U64_LIMIT
  }

  /** Byte `i` of the payload: the byte on the wire, unmasked with byte `i % 4` of the key in front of the payload. */
  function PayloadByte(s: seq<byte>, i: nat): byte
    requires |s| >= 2 && PayloadStart(s[1]) + i < |s|
  {
    var b := PayloadStart(s[1]);
    if s[1] >= 128 then Xor(s[b + i], s[b - 4 + i % 4]) else s[b + i]
  }

  function FrameAt(s: seq<byte>): DataFrame
    requires FrameThere(s)
  {
    DataFrame(s[0] / 128 == 1, Reserved(s[0] / 64 % 2 == 1, s[0] / 32 % 2 == 1, s[0] / 16 % 2 == 1),
              OPCODES[s[0] % 16], seq(PayloadLength(s), i requires 0 <= i < PayloadLength(s) => PayloadByte(s, i)))
  }

  /** When a frame is read, and which: every part of it is where section 5.2 puts it. */
  lemma FrameByPosition(isServer: bool, s: seq<byte>, f: DataFrame, n: nat)
    ensures NextFrame(isServer, s) == Next(f, n)
       <==> FrameThere(s) && (s[1] >= 128 <==> isServer) && f == FrameAt(s) && n == FrameEnd(s)
  {
    hide PayloadLength, Xor, Masked;
    if HeaderThere(s) {
      HeaderByPosition(s, HeaderAt(s), PayloadStart(s[1]));
    } else {
      HeaderOutcome(s);
    }
    if FrameThere(s) {
      BodyByPosition(s, isServer);
    }
  }

  lemma BodyByPosition(s: seq<byte>, isServer: bool)
    requires FrameThere(s)
    ensures FrameFromBody(HeaderAt(s), s[PayloadStart(s[1])..FrameEnd(s)], isServer)
         == if s[1] >= 128 <==> isServer then Ok(FrameAt(s))
            else Err(DataFrameError(if isServer then ExpectedMasked else ExpectedUnmasked))
  {
    hide PayloadLength, Xor;
    OpcodeNumbers(s[0] % 16, OPCODES[s[0] % 16]);
    var b, n := PayloadStart(s[1]), FrameEnd(s);
    var body, data := s[b..n], FrameAt(s).data;
    if s[1] >= 128 {
      assert Masked(KeyBefore(s, b), body) == data;
    } else {
      assert body == data;
    }
  }

  /** The stream ends inside a length, a key or a payload, and nothing before that is refused. */
  predicate Waits(s: seq<byte>) {
    || !LengthKnown(s)
    || (&& !HeaderRefused(s)
        && (|s| < PayloadStart(s[1]) || |s| < FrameEnd(s) < U64_LIMIT))
  }

  /** A server needs masked frames, a client unmasked ones. */
  predicate WrongRole(isServer: bool, s: seq<byte>) {
    FrameThere(s) && (s[1] >= 128 <==> !isServer)
  }

  /** When no frame is read: waiting, a refused header, a panic, the wrong role; and what is cut off the buffer. */
  lemma NoFrameByPosition(isServer: bool, s: seq<byte>)
    ensures NextFrame(isServer, s).Need? <==> Waits(s)
    ensures ParseHeader(s).Malformed? ==> NextFrame(isServer, s) == Bad(ParseHeader(s).error, 0)
    ensures EndTooFar(s) ==> NextFrame(isServer, s) == Bad(Panic(SplitOutOfRange), PayloadStart(s[1]))
    ensures WrongRole(isServer, s) ==>
              NextFrame(isServer, s)
              == Bad(DataFrameError(if isServer then ExpectedMasked else ExpectedUnmasked), FrameEnd(s))
  {
    hide PayloadLength, FrameAt;
    HeaderOutcome(s);
    if HeaderThere(s) {
      HeaderByPosition(s, HeaderAt(s), PayloadStart(s[1]));
    }
    if FrameThere(s) {
      BodyByPosition(s, isServer);
    }
  }

  /** The two lengths that make a receiver panic: 2^63 or more, and an end of the frame at 2^64 or more. */
  lemma PanicsByPosition(s: seq<byte>)
    ensures HugeHeader(s) <==> HeaderThere(s) && PayloadLength(s) >= 0x8000_0000_0000_0000
    ensures WrapHeader(s) <==> HeaderThere(s) && FrameEnd(s) >= 0x1_0000_0000_0000_0000
  {
    hide PayloadLength, HeaderAt, ParseHeader;
    HeaderOutcome(s);
    if HeaderThere(s) {
      HeaderByPosition(s, HeaderAt(s), PayloadStart(s[1]));
      LengthOfHeader(s);
    }
  }

  lemma LengthOfHeader(s: seq<byte>)
    requires HeaderThere(s)
    ensures HeaderAt(s).len == PayloadLength(s)
  {}

  // ----- writing -----

  /** A written frame, its key included, is where section 5.2 puts it. */
  lemma FrameOnWire(f: DataFrame, key: Option<Key>, tail: seq<byte>)
    requires Sound(f)
    ensures var s := FrameWire(f, key) + tail;
            && FrameThere(s) && FrameAt(s) == f && FrameEnd(s) == |FrameWire(f, key)|
            && (if key.Some? then s[1] >= 128 && KeyBefore(s, PayloadStart(s[1])) == key.value else s[1] < 128)
  {
    hide FrameWire, FrameAt, PayloadLength;
    var s := FrameWire(f, key) + tail;
    ReadFrameAfterWrite(f, key, tail);
    FrameByPosition(key.Some?, s, f, |FrameWire(f, key)|);
    HeaderByPosition(s, HeaderAt(s), PayloadStart(s[1]));
  }

  /** The first two bytes, the length and the key of anything that is sent. */
  lemma ItemOnWire(item: Sendable, key: Option<Key>)
    requires item.Representable()
    ensures var s := Wire(item, key);
            && LengthKnown(s) && PayloadLength(s) == item.Size() && FrameEnd(s) == |s|
            && (s[0] >= 128 <==> item.IsLast())
            && item.ReservedBits() == Reserved(s[0] / 64 % 2 == 1, s[0] / 32 % 2 == 1, s[0] / 16 % 2 == 1)
            && s[0] % 16 == item.Code()
            && s[1] % 128 == (if item.Size() <= 125 then item.Size() else if item.Size() <= 65535 then 126 else 127)
            && (if key.Some? then s[1] >= 128 && KeyBefore(s, PayloadStart(s[1])) == key.value else s[1] < 128)
            && s[PayloadStart(s[1])..] == WirePayload(item.PayloadWrites(), key)
  {
    hide HeaderBytes, PayloadLength, WirePayload, Sendable.PayloadWrites, Sendable.TakePayload, Concat, Sendable.Code;
    hide Sendable.Size, Sendable.ReservedBits, Sendable.IsLast;
    HeaderOnWire(item.HeaderFor(key), WirePayload(item.PayloadWrites(), key));
    WritesArePayload(item);
  }

  /** The first byte of a message: FIN and its opcode. */
  function FirstByte(m: OwnedMessage): byte {
    match m
    case TextMessage(_) => 0x81
    case BinaryMessage(_) => 0x82
    case CloseMessage(_) => 0x88
    case PingMessage(_) => 0x89
    case PongMessage(_) => 0x8A
  }

  /** Byte `i` of a payload on the wire. The reason of a close meets the key from its beginning again. */
  function SentByte(m: OwnedMessage, key: Option<Key>, i: nat): byte
    requires i < m.Size()
  {
    var p := m.TakePayload()[i];
    if key.None? then p else Xor(p, key.value[(if m.CloseMessage? && i >= 2 then i - 2 else i) % 4])
  }

  lemma TwoPieces(key: Key, a: seq<byte>, b: seq<byte>)
    ensures MaskedPieces(key, [a, b]) == Masked(key, a) + Masked(key, b)
    ensures Concat([a, b]) == a + b
  {
    assert [a, b][1..] == [b];
    OnePiece(b);
  }

  lemma PayloadOnWire(m: OwnedMessage, key: Option<Key>, i: nat)
    requires i < m.Size()
    ensures |WirePayload(m.PayloadWrites(), key)| == m.Size()
    ensures WirePayload(m.PayloadWrites(), key)[i] == SentByte(m, key, i)
  {
    hide Xor;
    var w := m.PayloadWrites();
    WritesArePayload(SendMessage(m));
    if |w| == 2 {
      assert w == [w[0], w[1]];
      TwoPieces(if key.Some? then key.value else [0, 0, 0, 0], w[0], w[1]);
    } else {
      assert w == [w[0]];
      OnePiece(w[0]);
    }
  }

  /** The payload of a message, byte for byte. */
  predicate Denotes(opcode: Opcode, payload: seq<byte>, m: OwnedMessage) {
    match m
    case TextMessage(text) => opcode == Text && payload == text
    case BinaryMessage(data) => opcode == Binary && payload == data
    case PingMessage(data) => opcode == Ping && payload == data
    case PongMessage(data) => opcode == Pong && payload == data
    case CloseMessage(None) => opcode == Close && payload == []
    case CloseMessage(Some(c)) =>
      opcode == Close && |payload| >= 2 && Number2(payload[..2]) == c.statusCode && payload[2..] == c.reason
  }

  lemma DenotesIff(opcode: Opcode, payload: seq<byte>, m: OwnedMessage)
    ensures Denotes(opcode, payload, m) <==> opcode == m.Kind() && payload == m.TakePayload()
  {
    hide ToBigEndian, FromBigEndian;
    if m.CloseMessage? && m.close.Some? {
      var c, t := m.close.value, m.TakePayload();
      assert t[..2] == U16Bytes(c.statusCode) && t[2..] == c.reason;
      TwoByteNumber(t[..2]);
      if Denotes(opcode, payload, m) {
        TwoByteNumber(payload[..2]);
        assert ToU16(payload[..2]) == c.statusCode;
        assert payload == payload[..2] + payload[2..];
      }
    }
  }

  /** A message on the wire, in the numbers of section 5.2, masked with any key or none. */
  lemma MessageOnWire(m: OwnedMessage, key: Option<Key>)
    requires SendMessage(m).Representable()
    ensures var s := Wire(SendMessage(m), key);
            && LengthKnown(s) && PayloadLength(s) == m.Size() && FrameEnd(s) == |s|
            && s[0] == FirstByte(m)
            && s[1] == (if key.Some? then 128 else 0)
                       + (if m.Size() <= 125 then m.Size() else if m.Size() <= 65535 then 126 else 127)
            && (key.Some? ==> KeyBefore(s, PayloadStart(s[1])) == key.value)
            && (forall i :: 0 <= i < m.Size() ==> s[PayloadStart(s[1]) + i] == SentByte(m, key, i))
            && Denotes(OPCODES[FirstByte(m) % 16], m.TakePayload(), m)
  {
    hide PayloadLength, SentByte, WirePayload, Wire, OwnedMessage.PayloadWrites, OwnedMessage.TakePayload;
    var s := Wire(SendMessage(m), key);
    ItemOnWire(SendMessage(m), key);
    DenotesIff(m.Kind(), m.TakePayload(), m);
    OpcodeNumbers(m.Kind().Code(), m.Kind());
    forall i | 0 <= i < m.Size()
      ensures s[PayloadStart(s[1]) + i] == SentByte(m, key, i)
    {
      PayloadOnWire(m, key, i);
      assert s[PayloadStart(s[1])..][i] == s[PayloadStart(s[1]) + i];
    }
  }
}
