/** `src/ws/dataframe.rs`: writing anything that can be sent as one data frame. */
module Sending {
  import opened Bytes
  import opened DataFrames
  import opened Header
  import opened Masking
  import opened Messages
  import opened Results
  import opened Streams

  /** The implementors of the `DataFrame` trait that are sent: data frames and owned messages. */
  datatype Sendable = SendFrame(frame: DataFrame) | SendMessage(message: OwnedMessage) {
    predicate IsLast() {
      SendFrame? ==> frame.finished
    }

    function Code(): (c: byte)
      ensures c <= 15
    {
      if SendFrame? then frame.opcode.Code() else message.Kind().Code()
    }

    function ReservedBits(): Reserved {
      if SendFrame? then frame.reserved else CLEAR
    }

    function Size(): nat {
      if SendFrame? then |frame.data| else message.Size()
    }

    function TakePayload(): seq<byte> {
      if SendFrame? then frame.data else message.TakePayload()
    }

    function PayloadWrites(): seq<seq<byte>> {
      if SendFrame? then [frame.data] else message.PayloadWrites()
    }

    /** True of every value a Rust program can build: a `Vec` has at most `isize::MAX` bytes. */
    predicate Representable() {
      Size() < U64_LIMIT
    }

    function Flags(): DataFrameFlags {
      Header.Flags(IsLast(), ReservedBits().rsv1, ReservedBits().rsv2, ReservedBits().rsv3)
    }

    function HeaderFor(key: Option<Key>): DataFrameHeader
      requires Representable()
    {
      DataFrameHeader(Flags(), Code(), key, Size())
    }

    /** `write_header` refuses a long control frame. */
    predicate TooLong() {
      Code() >= 8 && Size() > 125
    }

    /** `frame_size`: the prediction that the encoder reserves room from. */
    function FrameSize(masked: bool): nat {
      1 + (if Size() <= 125 then 1 else if Size() <= 65535 then 3 else 9) + (if masked then 4 else 0) + Size()
    }
  }

  /** What the writes of a payload put on the wire. */
  function WirePayload(pieces: seq<seq<byte>>, key: Option<Key>): (s: seq<byte>)
    ensures |s| == |Concat(pieces)|
  {
    if key.Some? then MaskedPieces(key.value, pieces) else Concat(pieces)
  }

  function Wire(item: Sendable, key: Option<Key>): seq<byte>
    requires item.Representable()
  {
    HeaderBytes(item.HeaderFor(key)) + WirePayload(item.PayloadWrites(), key)
  }

  lemma WritesArePayload(item: Sendable)
    ensures Concat(item.PayloadWrites()) == item.TakePayload()
    ensures |item.TakePayload()| == item.Size()
  {
    var w := item.PayloadWrites();
    if |w| == 1 {
      assert Concat(w) == w[0];
    } else if |w| == 2 {
      assert Concat(w[1..]) == w[1];
    }
  }

  /** The predicted size is the exact size of the wire form. */
  lemma FrameSizeExact(item: Sendable, key: Option<Key>)
    requires item.Representable()
    ensures |Wire(item, key)| == item.FrameSize(key.Some?)
  {
    WritesArePayload(item);
  }

  lemma ShownWrites(socket: Socket, pieces: seq<seq<byte>>)
    requires |pieces| <= 2
    ensures socket.ShownPieces(pieces) ==
            if pieces == [] then []
            else if |pieces| == 1 then socket.Shown(pieces[0])
            else socket.Shown(pieces[0]) + socket.Shown(pieces[1])
  {
    if |pieces| == 2 {
      ShownWrites(socket, pieces[1..]);
      assert Concat(pieces) == pieces[0] + Concat(pieces[1..]);
    } else if |pieces| == 1 {
      assert Concat(pieces[1..]) == [];
      assert pieces[0] + [] == pieces[0];
    }
  }

  lemma SizeSplit(item: Sendable, key: Option<Key>)
    requires item.Representable()
    ensures |HeaderBytes(item.HeaderFor(key))| + item.Size() == item.FrameSize(key.Some?)
  {}

  method WritePayload(item: Sendable, socket: Socket) returns (r: Outcome)
    requires socket.Sink().Valid()
    modifies socket.Sink()`data
    ensures socket.Sink().Valid()
    ensures r == if item.Size() <= old(socket.Sink().RemainingMut()) then Pass else Fail(WriteZero)
    ensures r.Pass? ==> socket.Sink().data == old(socket.Sink().data) + socket.ShownPieces(item.PayloadWrites())
  {
    ShownWrites(socket, item.PayloadWrites());
    match item
    case SendFrame(frame) => r := socket.WriteAll(frame.data);
    case SendMessage(TextMessage(text)) => r := socket.WriteAll(text);
    case SendMessage(BinaryMessage(data)) => r := socket.WriteAll(data);
    case SendMessage(PingMessage(data)) => r := socket.WriteAll(data);
    case SendMessage(PongMessage(data)) => r := socket.WriteAll(data);
    case SendMessage(CloseMessage(Some(c))) => r := WriteClose(c, socket);
    case SendMessage(CloseMessage(None)) => r := Pass;
  }

  /** `write_u16` of the status code and then `write_all` of the reason: two writes. */
  method WriteClose(c: CloseData, socket: Socket) returns (r: Outcome)
    requires socket.Sink().Valid()
    modifies socket.Sink()`data
    ensures socket.Sink().Valid()
    ensures r == if |c.reason| + 2 <= old(socket.Sink().RemainingMut()) then Pass else Fail(WriteZero)
    ensures r.Pass? ==>
              socket.Sink().data == old(socket.Sink().data)
                                    + (socket.Shown(U16Bytes(c.statusCode)) + socket.Shown(c.reason))
  {
    var statusCode := U16Bytes(c.statusCode);
    :- socket.WriteAll(statusCode);
    r := socket.WriteAll(c.reason);
  }

  /** `write_to`. `freshKey` is the key that `gen_mask` happens to generate. */
  method WriteTo(item: Sendable, writer: BytesMut, mask: bool, freshKey: Key) returns (r: Outcome)
    requires writer.Valid() && item.Representable()
    modifies writer`data
    ensures writer.Valid()
    ensures r == if item.TooLong() then Fail(DataFrameError(ControlFrameTooLong))
                 else if item.FrameSize(mask) <= old(writer.RemainingMut()) then Pass
                 else Fail(WriteZero)
    ensures item.TooLong() ==> writer.data == old(writer.data)
    ensures r.Pass? ==> writer.data == old(writer.data) + Wire(item, if mask then Some(freshKey) else None)
  {
    var flags := InsertFlags(item);
    var maskingKey := if mask then Some(freshKey) else None;
    var header := DataFrameHeader(flags, item.Code(), maskingKey, item.Size());
    SizeSplit(item, maskingKey);
    r := WriteParts(header, item, writer);
  }

  method WriteParts(header: DataFrameHeader, item: Sendable, writer: BytesMut) returns (r: Outcome)
    requires writer.Valid() && header.opcode <= 15
    modifies writer`data
    ensures writer.Valid()
    ensures r == if !Writable(header) then Fail(DataFrameError(ControlFrameTooLong))
                 else if |HeaderBytes(header)| + item.Size() <= old(writer.RemainingMut()) then Pass
                 else Fail(WriteZero)
    ensures !Writable(header) ==> writer.data == old(writer.data)
    ensures r.Pass? ==>
              writer.data == old(writer.data) + (HeaderBytes(header) + WirePayload(item.PayloadWrites(), header.mask))
  {
    var maskingKey := header.mask;
    :- WriteHeader(writer, header);
    r := WriteBody(item, writer, maskingKey);
  }

  method InsertFlags(item: Sendable) returns (flags: DataFrameFlags)
    ensures flags == item.Flags()
  {
    flags := Header.Flags(false, false, false, false);
    if item.IsLast() {
      flags := flags.(fin := true);
    }
    var reserved := item.ReservedBits();
    if reserved.rsv1 {
      flags := flags.(rsv1 := true);
    }
    if reserved.rsv2 {
      flags := flags.(rsv2 := true);
    }
    if reserved.rsv3 {
      flags := flags.(rsv3 := true);
    }
  }

  /** The payload, through a masker if there is a key. */
  method WriteBody(item: Sendable, writer: BytesMut, maskingKey: Option<Key>) returns (r: Outcome)
    requires writer.Valid()
    modifies writer`data
    ensures writer.Valid()
    ensures r == if item.Size() <= old(writer.RemainingMut()) then Pass else Fail(WriteZero)
    ensures r.Pass? ==> writer.data == old(writer.data) + WirePayload(item.PayloadWrites(), maskingKey)
  {
    if maskingKey.Some? {
      var masker := new Masker(maskingKey.value, writer);
      r := WritePayload(item, Masking(masker));
    } else {
      r := WritePayload(item, Plain(writer));
    }
  }

  /** The body of both encoders: make room for the predicted size, then write. */
  method Encode(item: Sendable, dst: BytesMut, masked: bool, freshKey: Key) returns (r: Outcome)
    requires dst.Valid() && item.Representable()
    modifies dst
    ensures dst.Valid()
    ensures r == if item.TooLong() then Fail(DataFrameError(ControlFrameTooLong)) else Pass
    ensures r.Fail? ==> dst.data == old(dst.data)
    ensures r.Pass? ==> dst.data == old(dst.data) + Wire(item, if masked then Some(freshKey) else None)
    ensures r.Pass? ==> |dst.data| == |old(dst.data)| + item.FrameSize(masked)
  {
    var frameSize := item.FrameSize(masked);
    FrameSizeExact(item, if masked then Some(freshKey) else None);
    if frameSize > dst.RemainingMut() {
      dst.Reserve(frameSize);
    }
    r := WriteTo(item, dst, masked, freshKey);
  }
}
