/** `src/dataframe.rs`: data frames and the blocking way to read one. */
module DataFrames {
  import opened Bytes
  import opened Header
  import opened Masking
  import opened Results
  import opened Streams

  datatype Opcode =
    | Continuation | Text | Binary
    | NonControl1 | NonControl2 | NonControl3 | NonControl4 | NonControl5
    | Close | Ping | Pong
    | Control1 | Control2 | Control3 | Control4 | Control5
  {
    /** `opcode as u8`. */
    function Code(): (c: byte)
      ensures c <= 15
      ensures c == 0 <==> Continuation?
    {
      match this
      case Continuation => 0 case Text => 1 case Binary => 2
      case NonControl1 => 3 case NonControl2 => 4 case NonControl3 => 5 case NonControl4 => 6 case NonControl5 => 7
      case Close => 8 case Ping => 9 case Pong => 10
      case Control1 => 11 case Control2 => 12 case Control3 => 13 case Control4 => 14 case Control5 => 15
    }
  }

  /** `Opcode::new`: exactly the sixteen nibbles have an opcode. */
  function OpcodeFromCode(op: byte): (r: Option<Opcode>)
    ensures r.Some? <==> op <= 15
    ensures r.Some? ==> r.value.Code() == op
  {
    match op
    case 0 => Some(Continuation) case 1 => Some(Text) case 2 => Some(Binary)
    case 3 => Some(NonControl1) case 4 => Some(NonControl2) case 5 => Some(NonControl3)
    case 6 => Some(NonControl4) case 7 => Some(NonControl5)
    case 8 => Some(Close) case 9 => Some(Ping) case 10 => Some(Pong)
    case 11 => Some(Control1) case 12 => Some(Control2) case 13 => Some(Control3)
    case 14 => Some(Control4) case 15 => Some(Control5)
    case _ => None
  }

  lemma OpcodeReadsBack(o: Opcode)
    ensures OpcodeFromCode(o.Code()) == Some(o)
  {}

  datatype Reserved = Reserved(rsv1: bool, rsv2: bool, rsv3: bool)

  const CLEAR := Reserved(false, false, false)

  datatype DataFrame = DataFrame(finished: bool, reserved: Reserved, opcode: Opcode, data: seq<byte>)

  /** What `read_dataframe_body` makes of a header and the bytes after it. */
  function FrameFromBody(header: DataFrameHeader, body: seq<byte>, shouldBeMasked: bool): Result<DataFrame> {
    match OpcodeFromCode(header.opcode)
    case None => Err(Panic(InvalidHeaderOpcode))
    case Some(opcode) =>
      if header.mask.Some? != shouldBeMasked then
        Err(DataFrameError(if shouldBeMasked then ExpectedMasked else ExpectedUnmasked))
      else
        Ok(DataFrame(header.flags.fin, Reserved(header.flags.rsv1, header.flags.rsv2, header.flags.rsv3), opcode,
                     if header.mask.Some? then Masked(header.mask.value, body) else body))
  }

  method ReadDataframeBody(header: DataFrameHeader, body: seq<byte>, shouldBeMasked: bool)
    returns (r: Result<DataFrame>)
    ensures r == FrameFromBody(header, body, shouldBeMasked)
  {
    var opcode := OpcodeFromCode(header.opcode);
    if opcode.None? {
      return Err(Panic(InvalidHeaderOpcode));
    }
    var data := body;
    if header.mask.Some? {
      if !shouldBeMasked {
        return Err(DataFrameError(ExpectedUnmasked));
      }
      data := MaskData(header.mask.value, body);
    } else if shouldBeMasked {
      return Err(DataFrameError(ExpectedMasked));
    }
    var reserved := Reserved(header.flags.rsv1, header.flags.rsv2, header.flags.rsv3);
    return Ok(DataFrame(header.flags.fin, reserved, opcode.value, data));
  }

  /** What reading one frame from the front of some bytes comes to. */
  datatype FrameRead =
    | Got(frame: DataFrame, taken: nat)
    | Failed(error: WebSocketError)

  /** Cuts the body out of `s`, in which it is complete. */
  function BodyRead(header: DataFrameHeader, n: nat, s: seq<byte>, shouldBeMasked: bool): Result<DataFrame>
    requires n + header.len <= |s|
  {
    FrameFromBody(header, s[n..n + header.len], shouldBeMasked)
  }

  function ReadAfterHeader(header: DataFrameHeader, n: nat, s: seq<byte>, shouldBeMasked: bool): FrameRead {
    if header.len > MAX_VEC then Failed(Panic(CapacityOverflow))
    else if n + header.len > |s| then Failed(NoDataAvailable)
    else match BodyRead(header, n, s, shouldBeMasked)
         case Ok(frame) => Got(frame, n + header.len)
         case Err(e) => Failed(e)
  }

  /** The blocking read: a short stream is `NoDataAvailable`, an impossible length panics while allocating. */
  function ReadFrame(shouldBeMasked: bool, s: seq<byte>): (r: FrameRead)
    ensures r.Got? ==> 2 <= r.taken <= |s|
  {
    match ParseHeader(s)
    case Incomplete => Failed(NoDataAvailable)
    case Malformed(e) => Failed(e)
    case Complete(header, n) => ReadAfterHeader(header, n, s, shouldBeMasked)
  }

  /** How many bytes the blocking read has taken when it fails after the header's length is known. */
  function Spent(s: seq<byte>): nat {
    match ParseHeader(s)
    case Incomplete => |s|
    case Malformed(_) => LengthEnd(s)
    case Complete(header, n) => if header.len > MAX_VEC then n else Min(n + header.len, |s|)
  }

  method ReadDataframe(reader: Reader, shouldBeMasked: bool) returns (r: Result<DataFrame>)
    requires reader.Valid()
    modifies reader
    ensures reader.Valid()
    ensures match ReadFrame(shouldBeMasked, old(reader.Rest()))
            case Got(frame, n) => r == Ok(frame) && reader.pos == old(reader.pos) + n
            case Failed(e) => r == Err(e)
    ensures r.Err? && !ParseHeader(old(reader.Rest())).Incomplete? ==>
              reader.pos == old(reader.pos) + Spent(old(reader.Rest()))
  {
    ghost var s := reader.Rest();
    var header :- ReadHeader(reader);
    r := ReadBody(reader, header, shouldBeMasked, s, ParseHeader(s).size);
  }

  /** The rest of `read_dataframe`, once the header is known. */
  method ReadBody(reader: Reader, header: DataFrameHeader, shouldBeMasked: bool, ghost s: seq<byte>, ghost n: nat)
    returns (r: Result<DataFrame>)
    requires reader.Valid()
    requires n <= |s| && reader.Rest() == s[n..]
    modifies reader
    ensures reader.Valid()
    ensures match ReadAfterHeader(header, n, s, shouldBeMasked)
            case Got(frame, taken) => r == Ok(frame) && reader.pos == old(reader.pos) + taken - n
            case Failed(e) => r == Err(e)
    ensures reader.pos == old(reader.pos) + if header.len > MAX_VEC then 0 else Min(header.len, |s| - n)
  {
    if header.len > MAX_VEC {
      return Err(Panic(CapacityOverflow));
    }
    var data := reader.TakeToEnd(header.len);
    if |data| < header.len {
      return Err(NoDataAvailable);
    }
    Subslice(s, n, 0, header.len);
    Subslice(reader.data, old(reader.pos), 0, header.len);
    r := ReadDataframeBody(header, data, shouldBeMasked);
  }
}
