/** The readers and writers that the codecs work on, over bytes held in memory. */
module Streams {
  import opened Bytes
  import opened Results
  import opened Masking

  /** A `Read` over a finite byte string; also the `Cursor` of `DataFrameCodec::decode`. */
  class Reader {
    const data: seq<byte>
    var pos: nat

    ghost predicate Valid()
      reads this
    {
      pos <= |data|
    }

    constructor (bytes: seq<byte>)
      ensures Valid() && data == bytes && pos == 0 && Rest() == bytes
    {
      data, pos := bytes, 0;
    }

    function Rest(): seq<byte>
      requires pos <= |data|
      reads this
    {
      data[pos..]
    }

    /** `read_exact`: end of input is an `UnexpectedEof`, which becomes `NoDataAvailable`. */
    method ReadExact(n: nat) returns (r: Result<seq<byte>>)
      requires Valid()
      modifies this
      ensures Valid()
      ensures r == if old(pos) + n <= |data| then Ok(data[old(pos)..old(pos) + n]) else Err(NoDataAvailable)
      ensures pos == Min(old(pos) + n, |data|)
    {
      if pos + n > |data| {
        pos := |data|;
        return Err(NoDataAvailable);
      }
      r := Ok(data[pos..pos + n]);
      pos := pos + n;
    }

    method ReadU8() returns (r: Result<byte>)
      requires Valid()
      modifies this
      ensures Valid()
      ensures r == if old(pos) < |data| then Ok(data[old(pos)]) else Err(NoDataAvailable)
      ensures pos == Min(old(pos) + 1, |data|)
    {
      var b :- ReadExact(1);
      return Ok(b[0]);
    }

    /** `reader.take(limit).read_to_end(&mut data)`. */
    method TakeToEnd(limit: nat) returns (taken: seq<byte>)
      requires Valid()
      modifies this
      ensures Valid()
      ensures pos == Min(old(pos) + limit, |data|)
      ensures taken == data[old(pos)..pos]
    {
      var n := Min(limit, |data| - pos);
      taken := data[pos..pos + n];
      pos := pos + n;
    }
  }

  /** `bytes::BytesMut`: bytes and the room allocated for them. Its writer never grows it. */
  class BytesMut {
    var data: seq<byte>
    var capacity: nat

    ghost predicate Valid()
      reads this
    {
      |data| <= capacity
    }

    constructor (bytes: seq<byte>, room: nat)
      ensures Valid() && data == bytes && RemainingMut() == room
    {
      data, capacity := bytes, |bytes| + room;
    }

    function RemainingMut(): nat
      requires |data| <= capacity
      reads this
    {
      capacity - |data|
    }

    method Reserve(additional: nat)
      requires Valid()
      modifies this`capacity
      ensures Valid()
      ensures RemainingMut() >= additional
    {
      if capacity < |data| + additional {
        capacity := |data| + additional;
      }
    }

    /** `extend_from_slice`: how a transport hands over a chunk. */
    method Extend(chunk: seq<byte>)
      requires Valid()
      modifies this
      ensures Valid()
      ensures data == old(data) + chunk
    {
      Reserve(|chunk|);
      data := data + chunk;
    }

    method SplitTo(n: nat) returns (front: seq<byte>)
      requires Valid() && n <= |data|
      modifies this
      ensures Valid()
      ensures front == old(data)[..n] && data == old(data)[n..]
      ensures RemainingMut() == old(RemainingMut())
    {
      front := data[..n];
      data, capacity := data[n..], capacity - n;
    }

    /** `write` of the buffer's writer: takes what there is room for and says how much that was. */
    method Write(bytes: seq<byte>) returns (n: nat)
      requires Valid()
      modifies this`data
      ensures Valid()
      ensures n == Min(|bytes|, old(RemainingMut()))
      ensures data == old(data) + bytes[..n]
    {
      n := Min(|bytes|, RemainingMut());
      data := data + bytes[..n];
    }
  }

  /** `Masker`: masks what is written through it. `pos` is never advanced. */
  class Masker {
    const key: Key
    const pos: nat
    const end: BytesMut

    constructor (key: Key, endpoint: BytesMut)
      ensures this.key == key && pos == 0 && end == endpoint
    {
      this.key, this.pos, this.end := key, 0, endpoint;
    }

    method Write(bytes: seq<byte>) returns (n: nat)
      requires end.Valid()
      modifies end`data
      ensures end.Valid()
      ensures n == Min(|bytes|, old(end.RemainingMut()))
      ensures end.data == old(end.data) + Masked(key, bytes)[..n]
    {
      var buf := MaskData(key, bytes);
      n := end.Write(buf);
    }
  }

  /** The `&mut Write` that a payload is written to: the buffer itself or a masker in front of it. */
  datatype Socket = Plain(buf: BytesMut) | Masking(masker: Masker) {
    function Sink(): BytesMut {
      match this
      case Plain(buf) => buf
      case Masking(masker) => masker.end
    }

    /** What one complete write of `bytes` puts into the sink. */
    function Shown(bytes: seq<byte>): (r: seq<byte>)
      ensures |r| == |bytes|
    {
      match this
      case Plain(_) => bytes
      case Masking(masker) => Masked(masker.key, bytes)
    }

    /** What complete writes of the pieces, one after another, put into the sink. */
    function ShownPieces(pieces: seq<seq<byte>>): (r: seq<byte>)
      ensures |r| == |Concat(pieces)|
    {
      match this
      case Plain(_) => Concat(pieces)
      case Masking(masker) => MaskedPieces(masker.key, pieces)
    }

    method Write(bytes: seq<byte>) returns (n: nat)
      requires Sink().Valid()
      modifies Sink()`data
      ensures Sink().Valid()
      ensures n == Min(|bytes|, old(Sink().RemainingMut()))
      ensures Sink().data == old(Sink().data) + Shown(bytes)[..n]
    {
      match this
      case Plain(buf) => n := buf.Write(bytes);
      case Masking(masker) => n := masker.Write(bytes);
    }

    /** `write_all`: repeats `write` on what is left, and gives up when a write takes nothing. */
    method WriteAll(bytes: seq<byte>) returns (r: Outcome)
      requires Sink().Valid()
      modifies Sink()`data
      ensures Sink().Valid()
      ensures r == if |bytes| <= old(Sink().RemainingMut()) then Pass else Fail(WriteZero)
      ensures Sink().data == old(Sink().data) + Shown(bytes)[..Min(|bytes|, old(Sink().RemainingMut()))]
    {
      ghost var room := Sink().RemainingMut();
      var left := bytes;
      while left != []
        invariant Sink().Valid()
        invariant (left == bytes && Sink().data == old(Sink().data))
               || (&& left == bytes[Min(|bytes|, room)..]
                   && Sink().data == old(Sink().data) + Shown(bytes)[..Min(|bytes|, room)])
        decreases |left|
      {
        var n := Write(left);
        if n == 0 {
          return Fail(WriteZero);
        }
        left := left[n..];
      }
      return Pass;
    }

    /** Any `write_payload`: complete writes of some pieces, one after another. */
    method WritePieces(pieces: seq<seq<byte>>) returns (r: Outcome)
      requires Sink().Valid()
      modifies Sink()`data
      ensures Sink().Valid()
      ensures r == if |Concat(pieces)| <= old(Sink().RemainingMut()) then Pass else Fail(WriteZero)
      ensures r.Pass? ==> Sink().data == old(Sink().data) + ShownPieces(pieces)
    {
      hide Socket.ShownPieces, Socket.Shown, Concat;
      ghost var expected, total := Sink().data + ShownPieces(pieces), |Sink().data| + |Concat(pieces)|;
      var left := pieces;
      while left != []
        invariant Sink().Valid()
        invariant |Sink().data| + |Concat(left)| == total
        invariant Sink().data + ShownPieces(left) == expected
        decreases |left|
      {
        ghost var before := Sink().data;
        FirstShown(left);
        :- WriteAll(left[0]);
        Regroup(before, Shown(left[0]), ShownPieces(left[1..]));
        assert Shown(left[0])[..|left[0]|] == Shown(left[0]);
        left := left[1..];
      }
      NothingShown();
      return Pass;
    }

    lemma NothingShown()
      ensures ShownPieces([]) == [] && Concat([]) == []
    {}

    static lemma Regroup(a: seq<byte>, b: seq<byte>, c: seq<byte>)
      ensures a + (b + c) == (a + b) + c
    {}

    lemma FirstShown(pieces: seq<seq<byte>>)
      requires pieces != []
      ensures ShownPieces(pieces) == Shown(pieces[0]) + ShownPieces(pieces[1..])
      ensures |Concat(pieces)| == |pieces[0]| + |Concat(pieces[1..])|
    {}
  }
}
