/** One message through `encode` and the `decode` of the opposite role. */
module RoundTrip {
  import opened Bytes
  import opened DataFrames
  import opened FrameCodec
  import opened Header
  import opened Masking
  import opened Messages
  import opened MessageCodec
  import opened Results
  import opened Sending
  import opened Utf8

  /** A message that can be sent: short if it is a control message, at most `isize::MAX` bytes anyway. */
  predicate CanSend(m: OwnedMessage) {
    m.Size() <= if m.IsControl() then 125 else MAX_VEC
  }

  /**
   * The two writes of a close reason are masked from key byte 0 each, so the reason meets the
   * wrong half of the key. A reason survives if the halves agree where it is long enough to tell.
   */
  predicate KeyHalvesAgree(m: OwnedMessage, key: Key) {
    m.CloseMessage? && m.close.Some? ==>
      && (|m.close.value.reason| >= 1 ==> key[0] == key[2])
      && (|m.close.value.reason| >= 2 ==> key[1] == key[3])
  }

  /** The condition under which `decode` gives back what `encode` was given. */
  predicate SurvivesKey(m: OwnedMessage, key: Option<Key>) {
    key.Some? ==> KeyHalvesAgree(m, key.value)
  }

  /** The payload that the receiver sees. */
  function SeenPayload(m: OwnedMessage, key: Option<Key>): (s: seq<byte>)
    ensures |s| == |Concat(m.PayloadWrites())|
  {
    MaskedWith(key, WirePayload(m.PayloadWrites(), key))
  }

  /** A close reason is in phase exactly when the key halves agree where it is long enough to tell. */
  lemma {:induction false} ReasonIff(key: Key, code: seq<byte>, reason: seq<byte>)
    requires |code| == 2
    ensures InPhase(key, 0, [code, reason])
       <==> (|reason| >= 1 ==> key[0] == key[2]) && (|reason| >= 2 ==> key[1] == key[3])
  {
    TwoInPhase(key, code, reason);
    SameKeyBytesAtStart(key, 2);
    if (|reason| >= 1 ==> key[0] == key[2]) && (|reason| >= 2 ==> key[1] == key[3]) {
      forall i | 0 <= i < |reason|
        ensures KeyByte(key, i) == KeyByte(key, 2 + i)
      {
        HalvesAgreeEverywhere(key, i, |reason|);
      }
    } else {
      var i := if |reason| >= 1 && key[0] != key[2] then 0 else 1;
      assert KeyByte(key, i) != KeyByte(key, 2 + i);
    }
  }

  lemma TwoInPhase(key: Key, a: seq<byte>, b: seq<byte>)
    ensures InPhase(key, 0, [a, b]) <==> SameKeyBytes(key, 0, |a|) && SameKeyBytes(key, |a|, |b|)
  {
    hide SameKeyBytes;
    assert [a, b][1..] == [b] && [b][1..] == [];
    assert InPhase(key, |a|, [b]) <==> SameKeyBytes(key, |a|, |b|);
  }

  lemma HalvesAgreeEverywhere(key: Key, i: nat, n: nat)
    requires i < n && key[0] == key[2] && (n >= 2 ==> key[1] == key[3])
    ensures KeyByte(key, i) == KeyByte(key, 2 + i)
  {
    var r := i % 4;
    assert (2 + i) % 4 == (2 + r) % 4;
  }

  lemma {:induction false} SeenPayloadIff(m: OwnedMessage, key: Option<Key>)
    ensures SeenPayload(m, key) == m.TakePayload() <==> SurvivesKey(m, key)
    ensures |SeenPayload(m, key)| == m.Size()
  {
    WritesArePayload(SendMessage(m));
    var w := m.PayloadWrites();
    if key.Some? {
      PiecesIff(key.value, w);
      if |w| == 2 {
        assert w == [w[0], w[1]];
        ReasonIff(key.value, w[0], w[1]);
      } else {
        AlignedPieces(key.value, 0, w);
      }
    }
  }

  /** The frame that the receiver sees. */
  function SeenFrame(m: OwnedMessage, key: Option<Key>): DataFrame {
    DataFrame(true, CLEAR, m.Kind(), SeenPayload(m, key))
  }

  lemma {:induction false} WireOfSeenFrame(m: OwnedMessage, key: Option<Key>)
    requires CanSend(m)
    ensures Sound(SeenFrame(m, key))
    ensures Wire(SendMessage(m), key) == FrameWire(SeenFrame(m, key), key)
  {
    SeenPayloadIff(m, key);
    ControlKinds(m);
    var bytes := WirePayload(m.PayloadWrites(), key);
    assert MaskedWith(key, MaskedWith(key, bytes)) == bytes by {
      if key.Some? {
        MaskedUndo(key.value, bytes);
      }
    }
    assert SendMessage(m).HeaderFor(key) == SendFrame(SeenFrame(m, key)).HeaderFor(key);
  }

  /**
   * `encode`, then `decode` in the opposite role. Exactly the predicted bytes are consumed in any
   * case, and the message comes back exactly when it survives the key.
   */
  lemma {:induction false} MessageRoundTrip(m: OwnedMessage, key: Option<Key>, pending: seq<DataFrame>, tail: seq<byte>)
    requires CanSend(m)
    requires pending == [] || m.IsControl()
    ensures var wire := Wire(SendMessage(m), key);
            var c := DecodeCall(key.Some?, pending, wire + tail);
            && |wire| == SendMessage(m).FrameSize(key.Some?)
            && c.pending == pending && c.rest == tail
            && (c.result == Ok(Some(m)) <==> SurvivesKey(m, key))
  {
    hide NextFrame, FromFrames, HeaderBytes, FrameWire, MaskedWith, WirePayload, DecodeCall, SurvivesKey;
    hide Opcode.Code, OwnedMessage.Kind, OwnedMessage.IsControl;
    var wire, frame := Wire(SendMessage(m), key), SeenFrame(m, key);
    FrameSizeExact(SendMessage(m), key);
    WireOfSeenFrame(m, key);
    ReadFrameAfterWrite(frame, key, tail);
    ControlKinds(m);
    OneFrameCall(key.Some?, pending, wire, tail, frame);
    SeenAssembles(m, key);
  }

  /** A whole message in one frame is decoded in one call, and the held fragments stay as they are. */
  lemma OneFrameCall(isServer: bool, pending: seq<DataFrame>, wire: seq<byte>, tail: seq<byte>, frame: DataFrame)
    requires NextFrame(isServer, wire + tail) == Next(frame, |wire|)
    requires frame.finished && (frame.opcode.Code() >= 8 || (pending == [] && frame.opcode.Code() != 0))
    ensures DecodeCall(isServer, pending, wire + tail) == Call(Answer(FromFrames([frame])), pending, tail)
  {
    hide NextFrame, FromFrames, Opcode.Code;
    assert (wire + tail)[|wire|..] == tail;
    assert pending == [] ==> pending + [frame] == [frame];
  }

  lemma SeenAssembles(m: OwnedMessage, key: Option<Key>)
    ensures FromFrames([SeenFrame(m, key)]) == Ok(m) <==> SurvivesKey(m, key)
  {
    hide FromFrames, Payload, SeenPayload, SurvivesKey, OwnedMessage.Kind, OwnedMessage.TakePayload;
    PayloadOne(SeenFrame(m, key));
    AssemblesIff([SeenFrame(m, key)], m);
    SeenPayloadIff(m, key);
  }

  /** An unmasked message, and a masked one other than a close with a reason, always comes back. */
  lemma OrdinaryMessagesSurvive(m: OwnedMessage, key: Option<Key>)
    requires key.None? || !m.CloseMessage? || m.close.None? || m.close.value.reason == []
    ensures SurvivesKey(m, key)
  {}

  /** A close message that does not come back: reason "a", key 1 0 0 0. */
  lemma {:induction false} MaskedCloseExample(tail: seq<byte>)
    ensures var m := CloseMessage(Some(CloseData(1000, [0x61])));
            DecodeCall(true, [], Wire(SendMessage(m), Some([1, 0, 0, 0])) + tail).result != Ok(Some(m))
  {
    assert CharLength([0x61]) == 1;
    assert ValidUtf8([0x61]);
    var m := CloseMessage(Some(CloseData(1000, [0x61])));
    MessageRoundTrip(m, Some([1, 0, 0, 0]), [], tail);
  }
}
