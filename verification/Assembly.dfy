/** The reference semantics of receiving: parse all frames, then fold them into messages. */
module Assembly {
  import opened Bytes
  import opened DataFrames
  import opened FrameCodec
  import opened Header
  import opened Masking
  import opened Messages
  import opened Results

  // ----- one frame -----

  /** What an assembler does with a frame, given the fragments it holds. */
  datatype Verdict =
    | Reject(error: WebSocketError)
    | Hold(pending: seq<DataFrame>)
    | Emit(frames: seq<DataFrame>, pending: seq<DataFrame>)

  function Accept(pending: seq<DataFrame>, frame: DataFrame): Verdict {
    var code := frame.opcode.Code();
    if code == 0 && pending == [] then Reject(ProtocolError(UnexpectedContinuation))
    else if code >= 8 then Emit([frame], pending)
    else if code >= 1 && pending != [] then Reject(ProtocolError(UnexpectedDataFrame))
    else if frame.finished then Emit(pending + [frame], [])
    else Hold(pending + [frame])
  }

  /** The fragments that an assembler holds between calls: the beginning of one unfinished data message. */
  predicate Unfinished(pending: seq<DataFrame>) {
    pending != [] ==>
      && 1 <= pending[0].opcode.Code() <= 7
      && (forall i :: 0 < i < |pending| ==> pending[i].opcode.Continuation?)
      && (forall i :: 0 <= i < |pending| ==> !pending[i].finished)
  }

  lemma AcceptKeepsUnfinished(pending: seq<DataFrame>, frame: DataFrame)
    requires Unfinished(pending)
    ensures match Accept(pending, frame)
            case Reject(_) => true
            case Hold(held) => Unfinished(held)
            case Emit(frames, held) =>
              && Unfinished(held)
              && frames != []
              && forall i :: 0 < i < |frames| ==> frames[i].opcode.Continuation?
  {}

  // ----- all frames -----

  datatype Parsed = Parsed(frames: seq<DataFrame>, keys: seq<Option<Key>>, end: Option<WebSocketError>, rest: seq<byte>)

  function ParseAll(isServer: bool, s: seq<byte>): (p: Parsed)
    ensures |p.keys| == |p.frames|
    decreases |s|
  {
    match NextFrame(isServer, s)
    case Need => Parsed([], [], None, s)
    case Bad(e, n) => Parsed([], [], Some(e), s[n..])
    case Next(frame, n) =>
      var p := ParseAll(isServer, s[n..]);
      Parsed([frame] + p.frames, [KeyAt(s)] + p.keys, p.end, p.rest)
  }

  datatype Folded = Folded(messages: seq<OwnedMessage>, error: Option<WebSocketError>, pending: seq<DataFrame>) {
    function After(m: OwnedMessage): Folded {
      this.(messages := [m] + messages)
    }
  }

  function Fold(pending: seq<DataFrame>, frames: seq<DataFrame>): Folded
    decreases |frames|
  {
    if frames == [] then Folded([], None, pending) else
    match Accept(pending, frames[0])
    case Reject(e) => Folded([], Some(e), pending)
    case Hold(held) => Fold(held, frames[1..])
    case Emit(list, held) =>
      match FromFrames(list)
      case Err(e) => Folded([], Some(e), held)
      case Ok(m) => Fold(held, frames[1..]).After(m)
  }

  // ----- the frames of a byte string and the byte string of some frames -----

  predicate KeysFor(isServer: bool, frames: seq<DataFrame>, keys: seq<Option<Key>>) {
    |keys| == |frames| && forall i :: 0 <= i < |keys| ==> keys[i].Some? == isServer
  }

  predicate Writeable(frames: seq<DataFrame>) {
    forall i :: 0 <= i < |frames| ==> |frames[i].data| < U64_LIMIT
  }

  function WireAll(frames: seq<DataFrame>, keys: seq<Option<Key>>): seq<byte>
    requires |keys| == |frames| && Writeable(frames)
  {
    if frames == [] then [] else FrameWire(frames[0], keys[0]) + WireAll(frames[1..], keys[1..])
  }

  predicate AllSound(frames: seq<DataFrame>) {
    forall i :: 0 <= i < |frames| ==> Sound(frames[i])
  }

  /** Any list of frames, masked with any keys or not at all, reads back, whatever bytes follow. */
  lemma {:induction false} ReadAllAfterWriteAll(isServer: bool, frames: seq<DataFrame>,
                                                keys: seq<Option<Key>>, tail: seq<byte>)
    requires KeysFor(isServer, frames, keys)
    requires AllSound(frames)
    ensures Writeable(frames)
    ensures var p := ParseAll(isServer, tail);
            ParseAll(isServer, WireAll(frames, keys) + tail) == Parsed(frames + p.frames, keys + p.keys, p.end, p.rest)
    decreases |frames|
  {
    hide NextFrame, FrameWire, KeyAt, ParseHeader;
    if frames == [] {
      assert WireAll(frames, keys) + tail == tail;
    } else {
      var first, others := FrameWire(frames[0], keys[0]), WireAll(frames[1..], keys[1..]);
      ReadFrameAfterWrite(frames[0], keys[0], others + tail);
      assert WireAll(frames, keys) + tail == first + (others + tail);
      ParseOneMore(isServer, first, others + tail, frames[0], keys[0]);
      HeadThenTail(frames, ParseAll(isServer, tail).frames);
      HeadThenTail(keys, ParseAll(isServer, tail).keys);
      ReadAllAfterWriteAll(isServer, frames[1..], keys[1..], tail);
    }
  }

  lemma HeadThenTail<T>(xs: seq<T>, ys: seq<T>)
    requires xs != []
    ensures [xs[0]] + (xs[1..] + ys) == xs + ys
  {}

  lemma ParseOneMore(isServer: bool, first: seq<byte>, others: seq<byte>, f: DataFrame, key: Option<Key>)
    requires NextFrame(isServer, first + others) == Next(f, |first|)
    requires KeyAt(first + others) == key
    ensures var p := ParseAll(isServer, others);
            ParseAll(isServer, first + others) == Parsed([f] + p.frames, [key] + p.keys, p.end, p.rest)
  {
    hide NextFrame, KeyAt;
    assert (first + others)[|first|..] == others;
  }

  /** What was parsed, written again with the keys it came with, is the bytes that were consumed. */
  lemma {:induction false} WriteAllAfterReadAll(isServer: bool, s: seq<byte>)
    ensures var p := ParseAll(isServer, s);
            && KeysFor(isServer, p.frames, p.keys)
            && (forall i :: 0 <= i < |p.frames| ==> ControlRules(p.frames[i]))
            && Writeable(p.frames)
            && (p.end == None ==> s == WireAll(p.frames, p.keys) + p.rest)
            && 2 * |p.frames| + |p.rest| <= |s|
    decreases |s|
  {
    hide NextFrame, FrameWire, KeyAt, ParseHeader, ControlRules;
    match NextFrame(isServer, s)
    case Need => assert WireAll([], []) + s == s;
    case Bad(_, _) =>
    case Next(frame, n) =>
      WriteAllAfterReadAll(isServer, s[n..]);
      WriteFrameAfterRead(isServer, s);
      var q := ParseAll(isServer, s[n..]);
      FirstOnWire(frame, KeyAt(s), q.frames, q.keys);
      if q.end == None {
        Rejoin(s, n, FrameWire(frame, KeyAt(s)), WireAll(q.frames, q.keys), q.rest);
      }
  }

  lemma FirstOnWire(f: DataFrame, key: Option<Key>, frames: seq<DataFrame>, keys: seq<Option<Key>>)
    requires |keys| == |frames| && Writeable(frames) && |f.data| < U64_LIMIT
    ensures Writeable([f] + frames)
    ensures WireAll([f] + frames, [key] + keys) == FrameWire(f, key) + WireAll(frames, keys)
  {
    hide FrameWire;
    assert ([f] + frames)[1..] == frames && ([key] + keys)[1..] == keys;
  }

  lemma Rejoin(s: seq<byte>, n: nat, first: seq<byte>, others: seq<byte>, rest: seq<byte>)
    requires n <= |s| && s[..n] == first && s[n..] == others + rest
    ensures s == (first + others) + rest
  {
    assert s == s[..n] + s[n..];
    assert first + (others + rest) == (first + others) + rest;
  }

  // ----- conservation -----

  /** The data frames among some frames, in order. */
  function DataFramesOf(frames: seq<DataFrame>): seq<DataFrame> {
    if frames == [] then []
    else (if frames[0].opcode.Code() < 8 then [frames[0]] else []) + DataFramesOf(frames[1..])
  }

  /** The payloads of the data messages among some messages, in order. */
  function DataPayloads(messages: seq<OwnedMessage>): seq<byte> {
    if messages == [] then []
    else (if messages[0].IsControl() then [] else messages[0].TakePayload()) + DataPayloads(messages[1..])
  }

  function DataOf(f: DataFrame): seq<byte> {
    if f.opcode.Code() < 8 then f.data else []
  }

  lemma {:induction false} FirstFrameData(first: DataFrame, others: seq<DataFrame>)
    ensures Payload(DataFramesOf([first] + others)) == DataOf(first) + Payload(DataFramesOf(others))
  {
    assert ([first] + others)[1..] == others;
    PayloadAppend([first], DataFramesOf(others));
    PayloadOne(first);
    assert [] + DataFramesOf(others) == DataFramesOf(others);
  }

  function DataIn(m: OwnedMessage): seq<byte> {
    if m.IsControl() then [] else m.TakePayload()
  }

  lemma FirstMessageData(first: OwnedMessage, others: seq<OwnedMessage>)
    ensures DataPayloads([first] + others) == DataIn(first) + DataPayloads(others)
  {
    assert ([first] + others)[1..] == others;
  }

  /** One accepted frame moves its payload into the held fragments or into a message. */
  lemma {:induction false} AcceptConserves(pending: seq<DataFrame>, frame: DataFrame)
    requires Unfinished(pending)
    ensures match Accept(pending, frame)
            case Reject(_) => true
            case Hold(held) => Payload(held) == Payload(pending) + DataOf(frame)
            case Emit(list, held) =>
              FromFrames(list).Ok? ==>
                DataIn(FromFrames(list).value) + Payload(held) == Payload(pending) + DataOf(frame)
  {
    hide FromFrames, Payload, Opcode.Code, OwnedMessage.Kind, OwnedMessage.IsControl;
    PayloadAppend(pending, [frame]);
    PayloadOne(frame);
    EmptyPayload();
    match Accept(pending, frame)
    case Reject(_) =>
    case Hold(_) =>
    case Emit(list, _) =>
      if FromFrames(list).Ok? {
        AssemblesIff(list, FromFrames(list).value);
        ControlKinds(FromFrames(list).value);
        assert list[0] == if frame.opcode.Code() >= 8 || pending == [] then frame else pending[0];
      }
  }

  /** No payload byte of a data frame is lost, duplicated or moved. */
  lemma {:induction false} PayloadConserved(pending: seq<DataFrame>, frames: seq<DataFrame>)
    requires Unfinished(pending)
    requires Fold(pending, frames).error == None
    ensures var f := Fold(pending, frames);
            Payload(pending) + Payload(DataFramesOf(frames)) == DataPayloads(f.messages) + Payload(f.pending)
    decreases |frames|
  {
    hide FromFrames, Payload, DataIn, DataOf, Opcode.Code;
    if frames == [] {
      EmptyPayload();
    } else {
      var first, others := frames[0], frames[1..];
      assert frames == [first] + others;
      AcceptKeepsUnfinished(pending, first);
      AcceptConserves(pending, first);
      FirstFrameData(first, others);
      var rest := Payload(DataFramesOf(others));
      match Accept(pending, first)
      case Hold(held) =>
        PayloadConserved(held, others);
        var f := Fold(held, others);
        Regroup(Payload(pending), DataOf(first), rest, [], Payload(held),
                DataPayloads(f.messages), Payload(f.pending));
      case Emit(list, held) =>
        PayloadConserved(held, others);
        var m, f := FromFrames(list).value, Fold(held, others);
        FirstMessageData(m, f.messages);
        Regroup(Payload(pending), DataOf(first), rest, DataIn(m), Payload(held),
                DataPayloads(f.messages), Payload(f.pending));
    }
  }

  lemma Regroup(before: seq<byte>, first: seq<byte>, others: seq<byte>,
                emitted: seq<byte>, held: seq<byte>, later: seq<byte>, left: seq<byte>)
    requires emitted + held == before + first
    requires held + others == later + left
    ensures before + (first + others) == (emitted + later) + left
  {
    assert before + (first + others) == (before + first) + others;
    assert (emitted + held) + others == emitted + (held + others);
    assert emitted + (later + left) == (emitted + later) + left;
  }

  lemma EmptyPayload()
    ensures Payload([]) == []
    ensures forall s: seq<byte> :: s + [] == s && [] + s == s
  {}
}
