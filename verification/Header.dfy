/** `src/ws/util/header.rs`: the data frame header of section 5.2 of RFC 6455. */
module Header {
  import opened Bytes
  import opened Masking
  import opened Results
  import opened Streams

  /** The four bits above the opcode. */
  datatype DataFrameFlags = Flags(fin: bool, rsv1: bool, rsv2: bool, rsv3: bool) {
    function Bits(): (b: byte)
      ensures b % 16 == 0
    {
      (if fin then 0x80 else 0) + (if rsv1 then 0x40 else 0) + (if rsv2 then 0x20 else 0) + (if rsv3 then 0x10 else 0)
    }
  }

  function FromBitsTruncate(b: byte): (f: DataFrameFlags)
    ensures f.Bits() == b - b % 16
  {
    Flags(b / 0x80 == 1, b / 0x40 % 2 == 1, b / 0x20 % 2 == 1, b / 0x10 % 2 == 1)
  }

  lemma FlagsFromByte(f: DataFrameFlags, opcode: byte)
    requires opcode < 16
    ensures f.Bits() + opcode < 256
    ensures FromBitsTruncate(f.Bits() + opcode) == f
    ensures (f.Bits() + opcode) % 16 == opcode
  {}

  datatype DataFrameHeader = DataFrameHeader(flags: DataFrameFlags, opcode: byte, mask: Option<Key>, len: u64)

  /** The headers that `write_header` accepts. */
  predicate Writable(h: DataFrameHeader) {
    h.opcode <= 15 && (h.opcode >= 8 ==> h.len <= 125)
  }

  /** The headers that `read_header` accepts: control frames must also be unfragmented. */
  predicate Readable(h: DataFrameHeader) {
    Writable(h) && (h.opcode >= 8 ==> h.flags.fin)
  }

  // ----- the wire form -----

  function LengthCode(len: u64): (c: byte)
    ensures c <= 127
  {
    if len <= 125 then len else if len <= 65535 then 126 else 127
  }

  function ExtendedLength(len: u64): seq<byte> {
    if len <= 125 then [] else if len <= 65535 then U16Bytes(len) else U64Bytes(len)
  }

  function KeyBytes(mask: Option<Key>): (s: seq<byte>)
    ensures |s| == if mask.Some? then 4 else 0
  {
    if mask.Some? then mask.value else []
  }

  function HeaderBytes(h: DataFrameHeader): (s: seq<byte>)
    requires h.opcode <= 15
    ensures 2 <= |s| <= 14
  {
    [h.flags.Bits() + h.opcode, (if h.mask.Some? then 0x80 else 0) + LengthCode(h.len)]
    + ExtendedLength(h.len) + KeyBytes(h.mask)
  }

  /** What reading a header from the front of some bytes comes to. */
  datatype HeaderRead =
    | Complete(header: DataFrameHeader, size: nat)
    | Incomplete
    | Malformed(error: WebSocketError)

  function ExtensionSize(code: byte): nat {
    if code <= 125 then 0 else if code == 126 then 2 else 8
  }

  function LengthAt(code: byte, ext: seq<byte>): u64
    requires code < 128 && |ext| == ExtensionSize(code)
  {
    if code <= 125 then code else if code == 126 then ToU16(ext) else ToU64(ext)
  }

  /** An extended form must hold a length that no shorter form can. */
  predicate Minimal(code: byte, len: u64) {
    (code == 126 ==> len > 125) && (code == 127 ==> len > 65535)
  }

  function ParseHeader(s: seq<byte>): HeaderRead {
    if |s| < 2 then Incomplete else
    var code := s[1] % 128;
    var n := 2 + ExtensionSize(code);
    if |s| < n then Incomplete else
    var len := LengthAt(code, s[2..n]);
    if !Minimal(code, len) then Malformed(DataFrameError(InvalidLength)) else
    ParseAfterLength(s, n, len)
  }

  function ParseAfterLength(s: seq<byte>, n: nat, len: u64): HeaderRead
    requires 2 <= n <= |s|
  {
    var flags, opcode := FromBitsTruncate(s[0]), s[0] % 16;
    if opcode >= 8 && len >= 126 then Malformed(DataFrameError(ControlFrameTooLong)) else
    if opcode >= 8 && !flags.fin then Malformed(ProtocolError(FragmentedControlFrame)) else
    if s[1] < 128 then Complete(DataFrameHeader(flags, opcode, None, len), n) else
    if |s| < n + 4 then Incomplete else
    Complete(DataFrameHeader(flags, opcode, Some(s[n..n + 4]), len), n + 4)
  }

  /** Where the length of a header ends, and with it the part that every check looks at. */
  function LengthEnd(s: seq<byte>): nat {
    if |s| < 2 then 0 else 2 + ExtensionSize(s[1] % 128)
  }

  // ----- each header has one wire form -----

  lemma LengthReadsBack(len: u64)
    ensures |ExtendedLength(len)| == ExtensionSize(LengthCode(len))
    ensures LengthAt(LengthCode(len), ExtendedLength(len)) == len
    ensures Minimal(LengthCode(len), len)
  {}

  lemma LengthFormUnique(code: byte, ext: seq<byte>)
    requires code < 128 && |ext| == ExtensionSize(code)
    requires Minimal(code, LengthAt(code, ext))
    ensures LengthCode(LengthAt(code, ext)) == code
    ensures ExtendedLength(LengthAt(code, ext)) == ext
  {}

  lemma ReadAfterWrite(h: DataFrameHeader, tail: seq<byte>)
    requires Readable(h)
    ensures ParseHeader(HeaderBytes(h) + tail) == Complete(h, |HeaderBytes(h)|)
  {
    hide LengthAt, LengthCode, ExtendedLength, Minimal, ExtensionSize, FromBitsTruncate, DataFrameFlags.Bits;
    var s := HeaderBytes(h) + tail;
    FlagsFromByte(h.flags, h.opcode);
    LengthReadsBack(h.len);
    var n := 2 + |ExtendedLength(h.len)|;
    assert s[1] % 128 == LengthCode(h.len);
    assert s[2..n] == ExtendedLength(h.len);
    if h.mask.Some? {
      assert s[n..n + 4] == h.mask.value;
    }
  }

  lemma WriteAfterRead(s: seq<byte>)
    requires ParseHeader(s).Complete?
    ensures Readable(ParseHeader(s).header)
    ensures ParseHeader(s).size <= |s|
    ensures s[..ParseHeader(s).size] == HeaderBytes(ParseHeader(s).header)
  {
    hide LengthAt, LengthCode, ExtendedLength, Minimal, FromBitsTruncate, DataFrameFlags.Bits;
    var h, size := ParseHeader(s).header, ParseHeader(s).size;
    var code := s[1] % 128;
    var n := 2 + ExtensionSize(code);
    assert ExtendedLength(h.len) == s[2..n] && LengthCode(h.len) == code by {
      LengthFormUnique(code, s[2..n]);
    }
    assert s[..2] == [h.flags.Bits() + h.opcode, (if h.mask.Some? then 0x80 else 0) + code];
    assert KeyBytes(h.mask) == s[n..size];
    SplitInThree(s, 2, n, size);
  }

  lemma HeaderReadIff(s: seq<byte>, h: DataFrameHeader, n: nat)
    ensures ParseHeader(s) == Complete(h, n)
       <==> Readable(h) && HeaderBytes(h) <= s && n == |HeaderBytes(h)|
  {
    if ParseHeader(s) == Complete(h, n) {
      WriteAfterRead(s);
    }
    if Readable(h) && HeaderBytes(h) <= s {
      ReadAfterWrite(h, s[|HeaderBytes(h)|..]);
      assert s == HeaderBytes(h) + s[|HeaderBytes(h)|..];
    }
  }

  // ----- reading an incomplete stream -----

  lemma HeaderStable(s: seq<byte>, t: seq<byte>)
    requires !ParseHeader(s).Incomplete?
    ensures ParseHeader(s + t) == ParseHeader(s)
  {
    hide LengthAt, Minimal, FromBitsTruncate;
    var n := 2 + ExtensionSize(s[1] % 128);
    assert (s + t)[2..n] == s[2..n];
    if n + 4 <= |s| {
      assert (s + t)[n..n + 4] == s[n..n + 4];
    }
  }

  /** A malformed header is never reported as the end of the input. */
  lemma MalformedIsDefinite(s: seq<byte>)
    ensures ParseHeader(s).Malformed? ==> ParseHeader(s).error != NoDataAvailable
  {}

  lemma StrictPrefixIncomplete(h: DataFrameHeader, k: nat)
    requires Readable(h) && k < |HeaderBytes(h)|
    ensures ParseHeader(HeaderBytes(h)[..k]) == Incomplete
  {
    hide LengthAt, LengthCode, ExtendedLength, Minimal, FromBitsTruncate, DataFrameFlags.Bits, ParseHeader;
    var s := HeaderBytes(h);
    ReadAfterWrite(h, []);
    assert s + [] == s && s[..k] + s[k..] == s;
    if ParseHeader(s[..k]).Complete? {
      WriteAfterRead(s[..k]);
    }
    if !ParseHeader(s[..k]).Incomplete? {
      HeaderStable(s[..k], s[k..]);
    }
  }

  // ----- the two functions -----

  method WriteHeader(writer: BytesMut, header: DataFrameHeader) returns (r: Outcome)
    requires writer.Valid()
    modifies writer`data
    ensures writer.Valid()
    ensures r == if header.opcode > 15 then Fail(DataFrameError(InvalidOpcode))
                 else if !Writable(header) then Fail(DataFrameError(ControlFrameTooLong))
                 else if |HeaderBytes(header)| <= old(writer.RemainingMut()) then Pass
                 else Fail(WriteZero)
    ensures !Writable(header) ==> writer.data == old(writer.data)
    ensures r.Pass? ==> writer.data == old(writer.data) + HeaderBytes(header)
  {
    hide ExtendedLength, DataFrameFlags.Bits;
    if header.opcode > 0xF {
      return Fail(DataFrameError(InvalidOpcode));
    }
    if header.opcode >= 8 && header.len >= 126 {
      return Fail(DataFrameError(ControlFrameTooLong));
    }
    var code := if header.len <= 125 then header.len else if header.len <= 65535 then 126 else 127;
    :- WriteTwo(writer, header.flags.Bits() + header.opcode, (if header.mask.Some? then 0x80 else 0x00) + code);
    :- WriteExtendedLength(writer, header.len);
    if header.mask.Some? {
      var w := Plain(writer);
      :- w.WriteAll(header.mask.value);
    }
    return Pass;
  }

  /** The two `write_u8` calls. */
  method WriteTwo(writer: BytesMut, byte0: byte, byte1: byte) returns (r: Outcome)
    requires writer.Valid()
    modifies writer`data
    ensures writer.Valid()
    ensures r == if 2 <= old(writer.RemainingMut()) then Pass else Fail(WriteZero)
    ensures r.Pass? ==> writer.data == old(writer.data) + [byte0, byte1]
  {
    var w := Plain(writer);
    :- w.WriteAll([byte0]);
    r := w.WriteAll([byte1]);
  }

  method WriteExtendedLength(writer: BytesMut, len: u64) returns (r: Outcome)
    requires writer.Valid()
    modifies writer`data
    ensures writer.Valid()
    ensures r == if |ExtendedLength(len)| <= old(writer.RemainingMut()) then Pass else Fail(WriteZero)
    ensures r == Pass ==> writer.data == old(writer.data) + ExtendedLength(len)
  {
    var w := Plain(writer);
    if len >= 126 && len <= 65535 {
      :- w.WriteAll(U16Bytes(len));
    } else if len > 65535 {
      :- w.WriteAll(U64Bytes(len));
    }
    return Pass;
  }

  method ReadHeader(reader: Reader) returns (r: Result<DataFrameHeader>)
    requires reader.Valid()
    modifies reader
    ensures reader.Valid()
    ensures match ParseHeader(old(reader.Rest()))
            case Complete(h, n) => r == Ok(h) && reader.pos == old(reader.pos) + n
            case Incomplete => r == Err(NoDataAvailable)
            case Malformed(e) => r == Err(e) && reader.pos == old(reader.pos) + LengthEnd(old(reader.Rest()))
  {
    hide LengthAt, Minimal, FromBitsTruncate, ParseAfterLength;
    ghost var s, p := reader.Rest(), reader.pos;
    var byte0 :- reader.ReadU8();
    var byte1 :- reader.ReadU8();
    ghost var n := 2 + ExtensionSize(byte1 % 128);
    if n <= |s| {
      Subslice(reader.data, p, 2, n);
    }
    var len :- ReadLength(reader, byte1 % 128);
    r := ReadAfterLength(reader, FromBitsTruncate(byte0), byte0 % 16, byte1, len, s, n);
  }

  /** The control frame rules, then the masking key; the parameters are what `read_header` has read. */
  method ReadAfterLength(reader: Reader, flags: DataFrameFlags, opcode: byte, byte1: byte, len: u64,
                         ghost s: seq<byte>, ghost n: nat)
    returns (r: Result<DataFrameHeader>)
    requires reader.Valid()
    requires 2 <= n <= |s| && reader.Rest() == s[n..]
    requires flags == FromBitsTruncate(s[0]) && opcode == s[0] % 16 && byte1 == s[1]
    modifies reader
    ensures reader.Valid()
    ensures match ParseAfterLength(s, n, len)
            case Complete(h, m) => r == Ok(h) && reader.pos == old(reader.pos) + m - n
            case Incomplete => r == Err(NoDataAvailable)
            case Malformed(e) => r == Err(e) && reader.pos == old(reader.pos)
  {
    if opcode >= 8 {
      if len >= 126 {
        return Err(DataFrameError(ControlFrameTooLong));
      }
      if !flags.fin {
        return Err(ProtocolError(FragmentedControlFrame));
      }
    }
    var mask := None;
    if byte1 >= 128 {
      if n + 4 <= |s| {
        Subslice(s, n, 0, 4);
        Subslice(reader.data, reader.pos, 0, 4);
      }
      var key :- ReadKey(reader);
      mask := Some(key);
    }
    return Ok(DataFrameHeader(flags, opcode, mask, len));
  }

  /** The match on the seven length bits. Its last arm is the `unreachable!`. */
  method ReadLength(reader: Reader, code: byte) returns (r: Result<u64>)
    requires reader.Valid() && code < 128
    modifies reader
    ensures reader.Valid()
    ensures var p, n := old(reader.pos), ExtensionSize(code);
            if |reader.data| < p + n then r == Err(NoDataAvailable)
            else
              var len := LengthAt(code, reader.data[p..p + n]);
              r == (if Minimal(code, len) then Ok(len) else Err(DataFrameError(InvalidLength))) && reader.pos == p + n
  {
    if code <= 125 {
      return Ok(code);
    } else if code == 126 {
      var ext :- reader.ReadExact(2);
      var len := ToU16(ext);
      return if len <= 125 then Err(DataFrameError(InvalidLength)) else Ok(len);
    } else if code == 127 {
      var ext :- reader.ReadExact(8);
      var len := ToU64(ext);
      return if len <= 65535 then Err(DataFrameError(InvalidLength)) else Ok(len);
    } else {
      assert false;
    }
  }

  /** Four single-byte reads. */
  method ReadKey(reader: Reader) returns (r: Result<Key>)
    requires reader.Valid()
    modifies reader
    ensures reader.Valid()
    ensures var p := old(reader.pos);
            if |reader.data| < p + 4 then r == Err(NoDataAvailable)
            else r == Ok(reader.data[p..p + 4]) && reader.pos == p + 4
  {
    var k0 :- reader.ReadU8();
    var k1 :- reader.ReadU8();
    var k2 :- reader.ReadU8();
    var k3 :- reader.ReadU8();
    FourBytes(reader.data, old(reader.pos));
    return Ok([k0, k1, k2, k3]);
  }
}
