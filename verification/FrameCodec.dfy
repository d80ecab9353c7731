/** The data frame half of `src/codec/ws.rs`, and the wire form of data frames. */
module FrameCodec {
  import opened Bytes
  import opened DataFrames
  import opened Header
  import opened Masking
  import opened Results
  import opened Sending
  import opened Streams

  /** What `DataFrameCodec::decode` makes of a buffer: `taken` bytes are cut off its front. */
  datatype FrameStep =
    | Need
    | Next(frame: DataFrame, taken: nat)
    | Bad(error: WebSocketError, taken: nat)

  /** A length so near 2^64 that the 64-bit sum wraps passes the size check, and the cut then panics. */
  function StepAfterHeader(header: DataFrameHeader, n: nat, s: seq<byte>, isServer: bool): FrameStep {
    if header.len + n >= U64_LIMIT then Bad(Panic(SplitOutOfRange), Min(n, |s|))
    else if header.len + n > |s| then Need
    else match BodyRead(header, n, s, isServer)
         case Ok(frame) => Next(frame, n + header.len)
         case Err(e) => Bad(e, n + header.len)
  }

  function NextFrame(isServer: bool, s: seq<byte>): (r: FrameStep)
    ensures r.Next? ==> 2 <= r.taken <= |s|
    ensures r.Bad? ==> r.taken <= |s|
  {
    match ParseHeader(s)
    case Incomplete => Need
    case Malformed(e) => Bad(e, 0)
    case Complete(header, n) =>
      WriteAfterRead(s);
      StepAfterHeader(header, n, s, isServer)
  }

  class DataFrameCodec {
    const isServer: bool

    constructor (isServer: bool)
      ensures this.isServer == isServer
    {
      this.isServer := isServer;
    }

    method Decode(src: BytesMut) returns (r: Result<Option<DataFrame>>)
      requires src.Valid() && |src.data| <= MAX_VEC
      modifies src
      ensures src.Valid()
      ensures match NextFrame(isServer, old(src.data))
              case Need => r == Ok(None) && src.data == old(src.data)
              case Next(frame, n) => r == Ok(Some(frame)) && src.data == old(src.data)[n..]
              case Bad(e, n) => r == Err(e) && src.data == old(src.data)[n..]
    {
      hide LengthEnd, ParseHeader, HeaderBytes, StepAfterHeader;
      ghost var s := src.data;
      var reader := new Reader(src.data);
      MalformedIsDefinite(s);
      var headerRead := ReadHeader(reader);
      if headerRead == Err(NoDataAvailable) {
        return Ok(None);
      }
      var header :- headerRead;
      var bytesRead := reader.pos;
      r := DecodeBody(src, header, bytesRead);
    }

    /** The rest of `decode`, once the header is known. */
    method DecodeBody(src: BytesMut, header: DataFrameHeader, bytesRead: nat) returns (r: Result<Option<DataFrame>>)
      requires src.Valid() && bytesRead <= |src.data| <= MAX_VEC
      modifies src
      ensures src.Valid()
      ensures match StepAfterHeader(header, bytesRead, old(src.data), isServer)
              case Need => r == Ok(None) && src.data == old(src.data)
              case Next(frame, n) => r == Ok(Some(frame)) && src.data == old(src.data)[n..]
              case Bad(e, n) => r == Err(e) && src.data == old(src.data)[n..]
    {
      ghost var s := src.data;
      if (header.len + bytesRead) % U64_LIMIT > |src.data| {
        return Ok(None);
      }
      var _ := src.SplitTo(bytesRead);
      if header.len > |src.data| {
        return Err(Panic(SplitOutOfRange));
      }
      var body := src.SplitTo(header.len);
      Subslice(s, bytesRead, 0, header.len);
      Subslice(s, bytesRead, header.len, |s| - bytesRead);
      var frame :- ReadDataframeBody(header, body, isServer);
      return Ok(Some(frame));
    }

    /** `freshKey` is the key that is generated for this frame, if the role masks. */
    method Encode(item: Sendable, dst: BytesMut, freshKey: Key) returns (r: Outcome)
      requires dst.Valid() && item.Representable()
      modifies dst
      ensures dst.Valid()
      ensures r == if item.TooLong() then Fail(DataFrameError(ControlFrameTooLong)) else Pass
      ensures r.Fail? ==> dst.data == old(dst.data)
      ensures r.Pass? ==> dst.data == old(dst.data) + Wire(item, if isServer then None else Some(freshKey))
      ensures r.Pass? ==> |dst.data| == |old(dst.data)| + item.FrameSize(!isServer)
    {
      r := Sending.Encode(item, dst, !isServer, freshKey);
    }
  }

  // ----- reading from a longer stream, and the blocking reader -----

  /** More bytes at the end change neither a frame nor an error. */
  lemma NextFrameStable(isServer: bool, s: seq<byte>, t: seq<byte>)
    requires !NextFrame(isServer, s).Need?
    ensures NextFrame(isServer, s + t) == NextFrame(isServer, s)
  {
    HeaderStable(s, t);
    if ParseHeader(s).Complete? {
      WriteAfterRead(s);
      StepStable(ParseHeader(s).header, ParseHeader(s).size, s, t, isServer);
    }
  }

  lemma StepStable(h: DataFrameHeader, n: nat, s: seq<byte>, t: seq<byte>, isServer: bool)
    requires n <= |s|
    requires !StepAfterHeader(h, n, s, isServer).Need?
    ensures StepAfterHeader(h, n, s + t, isServer) == StepAfterHeader(h, n, s, isServer)
  {
    if n + h.len <= |s| {
      assert (s + t)[n..n + h.len] == s[n..n + h.len];
    }
  }

  /** A complete, acceptable header that claims more bytes than a `Vec` can hold. */
  predicate HugeHeader(s: seq<byte>) {
    ParseHeader(s).Complete? && ParseHeader(s).header.len > MAX_VEC
  }

  /** A complete, acceptable header whose length, added to its size, does not fit in 64 bits. */
  predicate WrapHeader(s: seq<byte>) {
    ParseHeader(s).Complete? && ParseHeader(s).header.len + ParseHeader(s).size >= U64_LIMIT
  }

  /** The incremental reader panics exactly at such a header. */
  lemma StepPanicIff(isServer: bool, s: seq<byte>)
    ensures NextFrame(isServer, s).Bad? && NextFrame(isServer, s).error.Panic? <==> WrapHeader(s)
    ensures WrapHeader(s) ==> NextFrame(isServer, s).error == Panic(SplitOutOfRange)
  {
    if ParseHeader(s).Complete? {
      WriteAfterRead(s);
    }
  }

  /** The two ways of reading a frame agree on every input but those with an impossible length. */
  predicate SameStep(async: FrameStep, sync: FrameRead) {
    match async
    case Need => sync == Failed(NoDataAvailable)
    case Next(frame, n) => sync == Got(frame, n)
    case Bad(e, _) => sync == Failed(e)
  }

  lemma SyncStepIff(isServer: bool, s: seq<byte>)
    ensures SameStep(NextFrame(isServer, s), ReadFrame(isServer, s)) <==> !HugeHeader(s)
  {
    if ParseHeader(s).Complete? {
      WriteAfterRead(s);
    }
  }

  // ----- the wire form of data frames -----

  /** What holds of every frame that a receiver accepts: control frames are unfragmented and short. */
  predicate ControlRules(f: DataFrame) {
    f.opcode.Code() >= 8 ==> f.finished && |f.data| <= 125
  }

  /** The frames that can be sent. */
  predicate Sound(f: DataFrame) {
    ControlRules(f) && |f.data| <= MAX_VEC
  }

  function MaskedWith(key: Option<Key>, data: seq<byte>): (r: seq<byte>)
    ensures |r| == |data|
  {
    if key.Some? then Masked(key.value, data) else data
  }

  function FrameWire(f: DataFrame, key: Option<Key>): seq<byte>
    requires |f.data| < U64_LIMIT
  {
    HeaderBytes(SendFrame(f).HeaderFor(key)) + MaskedWith(key, f.data)
  }

  lemma FrameWireIsWire(f: DataFrame, key: Option<Key>)
    requires |f.data| < U64_LIMIT
    ensures FrameWire(f, key) == Wire(SendFrame(f), key)
  {
    OnePiece(f.data);
  }

  lemma OnePiece(data: seq<byte>)
    ensures Concat([data]) == data
    ensures forall key :: MaskedPieces(key, [data]) == Masked(key, data)
  {
    assert Concat([data][1..]) == [];
    forall key
      ensures MaskedPieces(key, [data]) == Masked(key, data)
    {
      assert MaskedPieces(key, [data][1..]) == [];
    }
  }

  function BodyStep(body: Result<DataFrame>, taken: nat): FrameStep {
    match body
    case Ok(frame) => Next(frame, taken)
    case Err(e) => Bad(e, taken)
  }

  lemma StepOnWhole(h: DataFrameHeader, front: seq<byte>, body: seq<byte>, tail: seq<byte>, isServer: bool)
    requires h.len == |body| && |front| + |body| < U64_LIMIT
    ensures StepAfterHeader(h, |front|, front + (body + tail), isServer)
         == BodyStep(FrameFromBody(h, body, isServer), |front| + |body|)
  {
    assert (front + (body + tail))[|front|..|front| + h.len] == body;
  }

  lemma NextFrameByHeader(isServer: bool, s: seq<byte>, h: DataFrameHeader, n: nat)
    requires ParseHeader(s) == Complete(h, n)
    ensures NextFrame(isServer, s) == StepAfterHeader(h, n, s, isServer)
  {}

  /** The masking key in the header at the front of `s`. */
  function KeyAt(s: seq<byte>): Option<Key> {
    if ParseHeader(s).Complete? then ParseHeader(s).header.mask else None
  }

  lemma ReadWhole(h: DataFrameHeader, body: seq<byte>, tail: seq<byte>, isServer: bool)
    requires Readable(h) && h.len == |body| <= MAX_VEC
    ensures NextFrame(isServer, HeaderBytes(h) + (body + tail))
         == BodyStep(FrameFromBody(h, body, isServer), |HeaderBytes(h)| + |body|)
    ensures KeyAt(HeaderBytes(h) + (body + tail)) == h.mask
  {
    ReadAfterWrite(h, body + tail);
    var front := HeaderBytes(h);
    NextFrameByHeader(isServer, front + (body + tail), h, |front|);
    StepOnWhole(h, front, body, tail, isServer);
  }

  lemma ReadFrameAfterWrite(f: DataFrame, key: Option<Key>, tail: seq<byte>)
    requires Sound(f)
    ensures NextFrame(key.Some?, FrameWire(f, key) + tail) == Next(f, |FrameWire(f, key)|)
    ensures KeyAt(FrameWire(f, key) + tail) == key
  {
    hide HeaderBytes, ParseHeader, NextFrame, FrameFromBody, KeyAt;
    var h := SendFrame(f).HeaderFor(key);
    var body := MaskedWith(key, f.data);
    ReadWhole(h, body, tail, key.Some?);
    assert FrameWire(f, key) + tail == HeaderBytes(h) + (body + tail);
    BodyReadsBack(f, key);
  }

  /** Every strict prefix of a frame is waited on. */
  lemma FramePrefixWaits(f: DataFrame, key: Option<Key>, k: nat)
    requires Sound(f) && k < |FrameWire(f, key)|
    ensures NextFrame(key.Some?, FrameWire(f, key)[..k]).Need?
  {
    hide NextFrame, FrameWire, KeyAt;
    var s := FrameWire(f, key);
    ReadFrameAfterWrite(f, key, []);
    assert s + [] == s && s[..k] + s[k..] == s;
    if !NextFrame(key.Some?, s[..k]).Need? {
      NextFrameStable(key.Some?, s[..k], s[k..]);
    }
  }

  /** A frame of the wrong role is refused, once it is complete. */
  lemma WrongRoleRefused(f: DataFrame, key: Option<Key>, tail: seq<byte>)
    requires Sound(f)
    ensures NextFrame(!key.Some?, FrameWire(f, key) + tail)
         == Bad(DataFrameError(if key.Some? then ExpectedUnmasked else ExpectedMasked), |FrameWire(f, key)|)
  {
    hide HeaderBytes, ParseHeader, NextFrame, KeyAt;
    var h := SendFrame(f).HeaderFor(key);
    var body := MaskedWith(key, f.data);
    ReadWhole(h, body, tail, !key.Some?);
    assert FrameWire(f, key) + tail == HeaderBytes(h) + (body + tail);
    OpcodeReadsBack(f.opcode);
  }

  lemma BodyReadsBack(f: DataFrame, key: Option<Key>)
    requires |f.data| < U64_LIMIT
    ensures FrameFromBody(SendFrame(f).HeaderFor(key), MaskedWith(key, f.data), key.Some?) == Ok(f)
  {
    OpcodeReadsBack(f.opcode);
    if key.Some? {
      MaskedUndo(key.value, f.data);
    }
  }

  /** Whatever is accepted as a frame is byte for byte what sending that frame with that key writes. */
  lemma WriteFrameAfterRead(isServer: bool, s: seq<byte>)
    requires NextFrame(isServer, s).Next?
    ensures var f, n := NextFrame(isServer, s).frame, NextFrame(isServer, s).taken;
            && ControlRules(f)
            && |f.data| < U64_LIMIT
            && KeyAt(s).Some? == isServer
            && s[..n] == FrameWire(f, KeyAt(s))
  {
    hide HeaderBytes, ParseHeader, NextFrame, FrameFromBody;
    var f, n := NextFrame(isServer, s).frame, NextFrame(isServer, s).taken;
    var h, m := SplitWhole(isServer, s);
    BodyWritesBack(h, s[m..n], isServer);
    assert SendFrame(f).HeaderFor(h.mask) == h;
    assert FrameWire(f, h.mask) == HeaderBytes(h) + s[m..n];
  }

  lemma SplitWhole(isServer: bool, s: seq<byte>) returns (h: DataFrameHeader, m: nat)
    requires NextFrame(isServer, s).Next?
    ensures ParseHeader(s) == Complete(h, m) && Readable(h)
    ensures var n := NextFrame(isServer, s).taken;
            && m + h.len == n <= |s|
            && s[..n] == HeaderBytes(h) + s[m..n]
            && FrameFromBody(h, s[m..n], isServer) == Ok(NextFrame(isServer, s).frame)
  {
    h, m := ParseHeader(s).header, ParseHeader(s).size;
    WriteAfterRead(s);
    NextFrameByHeader(isServer, s, h, m);
    StepSplits(h, m, s, isServer);
  }

  lemma StepSplits(h: DataFrameHeader, m: nat, s: seq<byte>, isServer: bool)
    requires m <= |s| && StepAfterHeader(h, m, s, isServer).Next?
    ensures var n := StepAfterHeader(h, m, s, isServer).taken;
            && m + h.len == n <= |s|
            && s[..n] == s[..m] + s[m..n]
            && FrameFromBody(h, s[m..n], isServer) == Ok(StepAfterHeader(h, m, s, isServer).frame)
  {}

  lemma BodyWritesBack(h: DataFrameHeader, body: seq<byte>, isServer: bool)
    requires h.opcode <= 15 && h.len == |body|
    requires FrameFromBody(h, body, isServer).Ok?
    ensures var f := FrameFromBody(h, body, isServer).value;
            SendFrame(f).HeaderFor(h.mask) == h && MaskedWith(h.mask, f.data) == body && h.mask.Some? == isServer
  {
    if h.mask.Some? {
      MaskedUndo(h.mask.value, body);
    }
  }
}
