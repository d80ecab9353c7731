/** `src/ws/util/mask.rs`: masking a payload with a four-byte key. */
module Masking {
  import opened Bytes
  import opened ExclusiveOr

  type Key = k: seq<byte> | |k| == 4 witness [0, 0, 0, 0]

  /** What `mask_data` promises: byte `i` combined with key byte `i % 4`. */
  function Masked(key: Key, data: seq<byte>): (r: seq<byte>)
    ensures |r| == |data|
  {
    seq(|data|, i requires 0 <= i < |data| => Xor(data[i], key[i % 4]))
  }

  lemma MaskedUndo(key: Key, data: seq<byte>)
    ensures Masked(key, Masked(key, data)) == data
  {
    forall i | 0 <= i < |data|
      ensures Masked(key, Masked(key, data))[i] == data[i]
    {
      XorUndo(data[i], key[i % 4]);
    }
  }

  lemma KeyPhase(start: nat, i: nat)
    requires start % 4 == 0
    ensures (start + i) % 4 == i % 4
  {
    assert start == 4 * (start / 4);
  }

  /** What several writes through one `Masker` emit: each write starts again at key byte 0. */
  function MaskedPieces(key: Key, pieces: seq<seq<byte>>): (r: seq<byte>)
    ensures |r| == |Concat(pieces)|
  {
    if pieces == [] then [] else Masked(key, pieces[0]) + MaskedPieces(key, pieces[1..])
  }

  // ----- when separate writes mask like one -----

  /** Masking that is `start` bytes into the payload. */
  function MaskedFrom(key: Key, start: nat, data: seq<byte>): (r: seq<byte>)
    ensures |r| == |data|
  {
    seq(|data|, i requires 0 <= i < |data| => Xor(data[i], KeyByte(key, start + i)))
  }

  function KeyByte(key: Key, i: nat): byte {
    key[i % 4]
  }

  /** The key bytes of a write of `n` bytes are those of its place in the payload. */
  predicate SameKeyBytes(key: Key, start: nat, n: nat) {
    forall i :: 0 <= i < n ==> KeyByte(key, i) == KeyByte(key, start + i)
  }

  predicate InPhase(key: Key, start: nat, pieces: seq<seq<byte>>)
    decreases |pieces|
  {
    pieces != [] ==> SameKeyBytes(key, start, |pieces[0]|) && InPhase(key, start + |pieces[0]|, pieces[1..])
  }

  lemma MaskedFromAt(key: Key, start: nat, data: seq<byte>, i: nat)
    requires i < |data|
    ensures Masked(key, data)[i] == MaskedFrom(key, start, data)[i] <==> KeyByte(key, i) == KeyByte(key, start + i)
  {
    hide Xor;
    XorSame(data[i], KeyByte(key, i), KeyByte(key, start + i));
  }

  lemma MaskedFromIff(key: Key, start: nat, data: seq<byte>)
    ensures Masked(key, data) == MaskedFrom(key, start, data) <==> SameKeyBytes(key, start, |data|)
  {
    hide Masked, MaskedFrom, KeyByte;
    var l, r := Masked(key, data), MaskedFrom(key, start, data);
    forall i | 0 <= i < |data|
      ensures l[i] == r[i] <==> KeyByte(key, i) == KeyByte(key, start + i)
    {
      MaskedFromAt(key, start, data, i);
    }
    if SameKeyBytes(key, start, |data|) {
      forall i | 0 <= i < |data|
        ensures l[i] == r[i]
      {
        assert KeyByte(key, i) == KeyByte(key, start + i);
      }
    } else {
      var i :| 0 <= i < |data| && KeyByte(key, i) != KeyByte(key, start + i);
      assert l[i] != r[i];
    }
  }

  lemma MaskedFromAppend(key: Key, start: nat, a: seq<byte>, b: seq<byte>)
    ensures MaskedFrom(key, start, a + b) == MaskedFrom(key, start, a) + MaskedFrom(key, start + |a|, b)
  {
    hide Xor, KeyByte;
    var l, r := MaskedFrom(key, start, a + b), MaskedFrom(key, start, a) + MaskedFrom(key, start + |a|, b);
    forall i | 0 <= i < |l|
      ensures l[i] == r[i]
    {
      if i >= |a| {
        assert start + i == start + |a| + (i - |a|);
      }
    }
  }

  lemma SameHeads(a: seq<byte>, b: seq<byte>, c: seq<byte>, d: seq<byte>)
    requires |a| == |c|
    ensures a + b == c + d <==> a == c && b == d
  {
    assert (a + b)[..|a|] == a && (a + b)[|a|..] == b;
    assert (c + d)[..|c|] == c && (c + d)[|c|..] == d;
  }

  lemma {:induction false} PiecesFromIff(key: Key, start: nat, pieces: seq<seq<byte>>)
    ensures MaskedPieces(key, pieces) == MaskedFrom(key, start, Concat(pieces)) <==> InPhase(key, start, pieces)
    decreases |pieces|
  {
    hide Masked, MaskedFrom, SameKeyBytes;
    if pieces == [] {
      assert MaskedFrom(key, start, []) == [];
    } else {
      var first, others := pieces[0], pieces[1..];
      MaskedFromIff(key, start, first);
      PiecesFromIff(key, start + |first|, others);
      MaskedFromAppend(key, start, first, Concat(others));
      SameHeads(Masked(key, first), MaskedPieces(key, others),
                MaskedFrom(key, start, first), MaskedFrom(key, start + |first|, Concat(others)));
    }
  }

  /** Separate writes mask like one write, and unmask together, exactly when every write is in phase. */
  lemma {:induction false} PiecesIff(key: Key, pieces: seq<seq<byte>>)
    ensures MaskedPieces(key, pieces) == Masked(key, Concat(pieces)) <==> InPhase(key, 0, pieces)
    ensures Masked(key, MaskedPieces(key, pieces)) == Concat(pieces) <==> InPhase(key, 0, pieces)
  {
    hide Masked, MaskedFrom, SameKeyBytes, MaskedPieces, InPhase;
    PiecesFromIff(key, 0, pieces);
    MaskedFromIff(key, 0, Concat(pieces));
    SameKeyBytesAtStart(key, |Concat(pieces)|);
    MaskedUndo(key, Concat(pieces));
    MaskedUndo(key, MaskedPieces(key, pieces));
  }

  lemma SameKeyBytesAtStart(key: Key, n: nat)
    ensures SameKeyBytes(key, 0, n)
  {}

  /** Writes whose lengths, but for the last, are multiples of four are in phase with every key. */
  lemma {:induction false} AlignedPieces(key: Key, start: nat, pieces: seq<seq<byte>>)
    requires start % 4 == 0
    requires forall i :: 0 <= i < |pieces| - 1 ==> |pieces[i]| % 4 == 0
    ensures InPhase(key, start, pieces)
    decreases |pieces|
  {
    if pieces != [] {
      forall i | 0 <= i < |pieces[0]|
        ensures KeyByte(key, i) == KeyByte(key, start + i)
      {
        KeyPhase(start, i);
      }
      if |pieces| > 1 {
        KeyPhase(start, |pieces[0]|);
        AlignedPieces(key, start + |pieces[0]|, pieces[1..]);
      }
    }
  }

  // ----- the two implementations of `mask_data` -----

  /** The scalar `mask_data`: zip the data with the endlessly repeated key, writing by index. */
  method MaskData(mask: Key, data: seq<byte>) returns (r: seq<byte>)
    ensures r == Masked(mask, data)
  {
    var out := new byte[|data|];
    var cycle := 0;
    for i := 0 to |data|
      invariant cycle == i % 4
      invariant forall j :: 0 <= j < i ==> out[j] == Xor(data[j], mask[j % 4])
    {
      out[i] := Xor(data[i], mask[cycle]);
      cycle := if cycle == 3 then 0 else cycle + 1;
    }
    r := out[..];
  }

  const LANES := 32

  /** A `u8x32` register. */
  type Lanes = v: seq<byte> | |v| == LANES witness seq(LANES, _ => 0)

  function Splat(b: byte): Lanes {
    seq(LANES, _ => b)
  }

  function XorLanes(a: Lanes, b: Lanes): Lanes {
    seq(LANES, i requires 0 <= i < LANES => Xor(a[i], b[i]))
  }

  /** Loads a full chunk as it is, a partial last chunk lane by lane over zeros. */
  method LoadChunk(slice: seq<byte>) returns (v: Lanes)
    requires |slice| <= LANES
    ensures v[..|slice|] == slice
    ensures forall i :: |slice| <= i < LANES ==> v[i] == 0
  {
    if |slice| == LANES {
      return slice;
    }
    v := Splat(0);
    for i := 0 to |slice|
      invariant v[..i] == slice[..i]
      invariant forall j :: i <= j < LANES ==> v[j] == 0
    {
      v := v[i := slice[i]];
    }
  }

  /** `store_unaligned(&mut out[start..end])`: the slice must lie inside `out`. */
  method Store(v: Lanes, out: array<byte>, start: nat)
    requires start + LANES <= out.Length
    modifies out
    ensures forall j :: start <= j < start + LANES ==> out[j] == v[j - start]
    ensures forall j :: 0 <= j < out.Length && !(start <= j < start + LANES) ==> out[j] == old(out[j])
  {
    forall j | start <= j < start + LANES {
      out[j] := v[j - start];
    }
  }

  /** The body of the SIMD loop: one register of data. */
  method MaskChunk(mask: Key, maskVec: Lanes, data: seq<byte>, start: nat, end: nat, out: array<byte>)
    requires start % 4 == 0 && start <= end <= |data| && end - start <= LANES && start + LANES <= out.Length
    requires forall i :: 0 <= i < LANES ==> maskVec[i] == mask[i % 4]
    modifies out
    ensures forall j :: start <= j < end ==> out[j] == Masked(mask, data)[j]
    ensures forall j :: 0 <= j < start ==> out[j] == old(out[j])
  {
    hide Masked, Xor, XorLanes;
    var chunk := LoadChunk(data[start..end]);
    var vec3 := XorLanes(maskVec, chunk);
    XoredChunk(mask, data, start, end, maskVec, chunk, vec3);
    Store(vec3, out, start);
    ghost var expected := Masked(mask, data);
    forall j | start <= j < end
      ensures out[j] == expected[j]
    {
      assert out[j] == vec3[j - start] == expected[start + (j - start)];
    }
  }

  /** The SIMD `mask_data`: 32 bytes at a time into a buffer rounded up to whole registers. */
  method MaskDataSimd(mask: Key, data: seq<byte>) returns (r: seq<byte>)
    ensures r == Masked(mask, data)
  {
    hide Masked, Xor, XorLanes;
    var alignedLen := LANES * (|data| / LANES);
    if alignedLen < |data| {
      alignedLen := alignedLen + LANES;
    }
    var out := new byte[alignedLen];
    var maskVec: Lanes := seq(LANES, i requires 0 <= i < LANES => mask[i % 4]);
    var start := 0;
    ghost var left := alignedLen / LANES;
    ghost var expected, done := Masked(mask, data), 0;
    while start < |data|
      invariant start + LANES * left == alignedLen && start % 4 == 0
      invariant done == Min(start, |data|)
      invariant forall j :: 0 <= j < done ==> out[j] == expected[j]
      decreases |data| - start
    {
      var end := Min(start + LANES, |data|);
      MaskChunk(mask, maskVec, data, start, end, out);
      start, left, done := start + LANES, left - 1, end;
    }
    r := out[..|data|];
  }

  lemma XoredLane(mask: Key, d: byte, start: nat, i: nat)
    requires start % 4 == 0
    ensures Xor(mask[i % 4], d) == Xor(d, mask[(start + i) % 4])
  {
    KeyPhase(start, i);
    XorCommutes(mask[i % 4], d);
  }

  /** One register of output is the next 32 bytes of the scalar result. */
  lemma XoredChunk(mask: Key, data: seq<byte>, start: nat, end: nat, maskVec: Lanes, chunk: Lanes, out: Lanes)
    requires start % 4 == 0 && start <= end <= |data| && end - start <= LANES
    requires forall i :: 0 <= i < LANES ==> maskVec[i] == mask[i % 4]
    requires chunk[..end - start] == data[start..end]
    requires out == XorLanes(maskVec, chunk)
    ensures forall i :: 0 <= i < end - start ==> out[i] == Masked(mask, data)[start + i]
  {
    hide Xor;
    forall i | 0 <= i < end - start
      ensures out[i] == Masked(mask, data)[start + i]
    {
      assert chunk[i] == chunk[..end - start][i] == data[start + i];
      XoredLane(mask, data[start + i], start, i);
    }
  }
}
