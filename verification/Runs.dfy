/** Theorems about whole runs of the incremental decoder. */
module Runs {
  import opened Assembly
  import opened Bytes
  import opened DataFrames
  import opened FrameCodec
  import opened Header
  import opened Masking
  import opened Messages
  import opened MessageCodec
  import opened Results
  import opened Utf8

  // ----- a run, frame by frame -----

  /** A run described by what becomes of the first frame of the stream. */
  function RunByFrame(isServer: bool, pending: seq<DataFrame>, s: seq<byte>): Run {
    match NextFrame(isServer, s)
    case Need => Run([], None, pending, s)
    case Bad(e, n) => Run([], Some(e), pending, s[n..])
    case Next(frame, n) => RunByVerdict(isServer, Accept(pending, frame), pending, s[n..])
  }

  function RunByVerdict(isServer: bool, verdict: Verdict, pending: seq<DataFrame>, rest: seq<byte>): Run {
    match verdict
    case Reject(e) => Run([], Some(e), pending, rest)
    case Hold(held) => DecodeRun(isServer, held, rest)
    case Emit(frames, held) =>
      match FromFrames(frames)
      case Err(e) => Run([], Some(e), held, rest)
      case Ok(m) => DecodeRun(isServer, held, rest).After([m])
  }

  lemma RunFrame(isServer: bool, pending: seq<DataFrame>, s: seq<byte>)
    ensures DecodeRun(isServer, pending, s) == RunByFrame(isServer, pending, s)
  {
    hide NextFrame, Accept, FromFrames;
  }

  /** The decoder refines its reference semantics: parse all frames, then fold them. */
  lemma {:induction false} RunIsParseThenFold(isServer: bool, pending: seq<DataFrame>, s: seq<byte>)
    ensures var p := ParseAll(isServer, s);
            var f := Fold(pending, p.frames);
            var r := DecodeRun(isServer, pending, s);
            && r.messages == f.messages
            && r.pending == f.pending
            && r.end == (if f.error.Some? then f.error else p.end)
            && (f.error == None ==> r.rest == p.rest)
    decreases |s|
  {
    hide NextFrame, Accept, FromFrames, DecodeRun, KeyAt;
    RunFrame(isServer, pending, s);
    match NextFrame(isServer, s)
    case Need =>
    case Bad(_, _) =>
    case Next(frame, n) =>
      assert ParseAll(isServer, s).frames[1..] == ParseAll(isServer, s[n..]).frames;
      match Accept(pending, frame)
      case Reject(_) =>
      case Hold(held) => RunIsParseThenFold(isServer, held, s[n..]);
      case Emit(frames, held) =>
        if FromFrames(frames).Ok? {
          RunIsParseThenFold(isServer, held, s[n..]);
        }
  }

  // ----- independence from chunking -----

  /** A run that ended in an error is the same on a longer stream; any other goes on with what it left. */
  lemma {:induction false} RunOfLongerStream(isServer: bool, pending: seq<DataFrame>, s: seq<byte>, t: seq<byte>)
    ensures var r := DecodeRun(isServer, pending, s);
            DecodeRun(isServer, pending, s + t) ==
            if r.end.Some? then r.(rest := r.rest + t)
            else DecodeRun(isServer, r.pending, r.rest + t).After(r.messages)
    decreases |s|
  {
    hide NextFrame, Accept, FromFrames, DecodeRun, Run.After;
    RunFrame(isServer, pending, s);
    RunFrame(isServer, pending, s + t);
    match NextFrame(isServer, s)
    case Need => AfterAfter(DecodeRun(isServer, pending, s + t), [], []);
    case Bad(_, n) =>
      NextFrameStable(isServer, s, t);
      DropOfAppend(s, t, n);
    case Next(frame, n) =>
      NextFrameStable(isServer, s, t);
      DropOfAppend(s, t, n);
      match Accept(pending, frame)
      case Reject(_) =>
      case Hold(held) => RunOfLongerStream(isServer, held, s[n..], t);
      case Emit(frames, held) =>
        if FromFrames(frames).Ok? {
          var m, r := FromFrames(frames).value, DecodeRun(isServer, held, s[n..]);
          RunOfLongerStream(isServer, held, s[n..], t);
          AfterEmit(r, m, DecodeRun(isServer, r.pending, r.rest + t), t);
        }
  }

  lemma DropOfAppend(s: seq<byte>, t: seq<byte>, n: nat)
    requires n <= |s|
    ensures (s + t)[n..] == s[n..] + t
  {}

  lemma AfterEmit(r: Run, m: OwnedMessage, later: Run, t: seq<byte>)
    ensures later.After(r.messages).After([m]) == later.After(r.After([m]).messages)
    ensures r.After([m]).end == r.end && r.After([m]).pending == r.pending && r.After([m]).rest == r.rest
    ensures r.(rest := r.rest + t).After([m]) == r.After([m]).(rest := r.rest + t)
  {
    AfterAfter(later, [m], r.messages);
  }

  /** When a run waits for more bytes, what it left does not begin with a frame. */
  lemma {:induction false} RunLeavesNoFrame(isServer: bool, pending: seq<DataFrame>, s: seq<byte>)
    ensures var r := DecodeRun(isServer, pending, s);
            r.end == None ==> NextFrame(isServer, r.rest).Need?
    decreases |s|
  {
    hide NextFrame, Accept, FromFrames, DecodeRun;
    RunFrame(isServer, pending, s);
    if NextFrame(isServer, s).Next? {
      var frame, n := NextFrame(isServer, s).frame, NextFrame(isServer, s).taken;
      match Accept(pending, frame)
      case Reject(_) =>
      case Hold(held) => RunLeavesNoFrame(isServer, held, s[n..]);
      case Emit(_, held) => RunLeavesNoFrame(isServer, held, s[n..]);
    }
  }

  /** However a stream is cut into chunks, it decodes as if it had come at once. */
  lemma {:induction false} ChunkingDoesNotMatter(isServer: bool, pending: seq<DataFrame>, left: seq<byte>,
                                                 chunks: seq<seq<byte>>)
    requires NextFrame(isServer, left).Need?
    ensures var chunked := FeedRun(isServer, pending, left, chunks);
            var whole := DecodeRun(isServer, pending, left + Concat(chunks));
            && chunked.messages == whole.messages
            && chunked.end == whole.end
            && chunked.pending == whole.pending
            && (whole.end == None ==> chunked.rest == whole.rest)
    decreases |chunks|
  {
    hide NextFrame, Accept, FromFrames, DecodeRun;
    if chunks == [] {
      assert left + Concat(chunks) == left;
      RunFrame(isServer, pending, left);
    } else {
      var first, others := left + chunks[0], Concat(chunks[1..]);
      var r := DecodeRun(isServer, pending, first);
      assert left + Concat(chunks) == first + others;
      RunOfLongerStream(isServer, pending, first, others);
      RunLeavesNoFrame(isServer, pending, first);
      if r.end == None {
        ChunkingDoesNotMatter(isServer, r.pending, r.rest, chunks[1..]);
      }
    }
  }

  // ----- what every run keeps -----

  /** Held fragments always are the beginning of one data message, also after an error. */
  lemma {:induction false} RunKeepsUnfinished(isServer: bool, pending: seq<DataFrame>, s: seq<byte>)
    requires Unfinished(pending)
    ensures Unfinished(DecodeRun(isServer, pending, s).pending)
    decreases |s|
  {
    hide NextFrame, Accept, FromFrames, DecodeRun, Unfinished;
    RunFrame(isServer, pending, s);
    if NextFrame(isServer, s).Next? {
      var frame, n := NextFrame(isServer, s).frame, NextFrame(isServer, s).taken;
      AcceptKeepsUnfinished(pending, frame);
      match Accept(pending, frame)
      case Reject(_) =>
      case Hold(held) => RunKeepsUnfinished(isServer, held, s[n..]);
      case Emit(_, held) => RunKeepsUnfinished(isServer, held, s[n..]);
    }
  }

  /** Errors that no stream can provoke: the code keeps the situations they report from arising. */
  predicate Unreachable(e: WebSocketError) {
    || e == Panic(InvalidHeaderOpcode)
    || e == ProtocolError(NoDataframes)
    || e == ProtocolError(NonContinuationFragment)
  }

  lemma NoUnreachableFrameError(isServer: bool, s: seq<byte>)
    ensures NextFrame(isServer, s).Bad? ==> !Unreachable(NextFrame(isServer, s).error)
    ensures ReadFrame(isServer, s).Failed? ==> !Unreachable(ReadFrame(isServer, s).error)
  {
    hide LengthAt, HeaderBytes, FromBitsTruncate, Masked;
    if ParseHeader(s).Complete? {
      WriteAfterRead(s);
    }
  }

  lemma NoUnreachableAssemblyError(pending: seq<DataFrame>, frame: DataFrame)
    requires Unfinished(pending)
    ensures match Accept(pending, frame)
            case Reject(e) => !Unreachable(e)
            case Hold(_) => true
            case Emit(frames, _) => FromFrames(frames).Err? ==> !Unreachable(FromFrames(frames).error)
  {
    hide Payload, ValidUtf8, Unfinished, Opcode.Code;
    AcceptKeepsUnfinished(pending, frame);
    match Accept(pending, frame)
    case Reject(_) =>
    case Hold(_) =>
    case Emit(frames, _) => FaultOfContinued(frames, 0);
  }

  lemma {:induction false} FaultOfContinued(frames: seq<DataFrame>, i: nat)
    requires i <= |frames|
    requires forall j :: 0 < j < |frames| ==> frames[j].opcode.Continuation?
    ensures FrameFault(frames, i) in {None, Some(ProtocolError(ReservedBitsSet))}
    decreases |frames| - i
  {
    if i < |frames| {
      FaultOfContinued(frames, i + 1);
    }
  }

  lemma {:induction false} NoUnreachableError(isServer: bool, pending: seq<DataFrame>, s: seq<byte>)
    requires Unfinished(pending)
    ensures var r := DecodeRun(isServer, pending, s);
            r.end.Some? ==> !Unreachable(r.end.value)
    decreases |s|
  {
    hide NextFrame, Accept, FromFrames, DecodeRun, Unfinished, Unreachable;
    RunFrame(isServer, pending, s);
    NoUnreachableFrameError(isServer, s);
    if NextFrame(isServer, s).Next? {
      var frame, n := NextFrame(isServer, s).frame, NextFrame(isServer, s).taken;
      AcceptKeepsUnfinished(pending, frame);
      NoUnreachableAssemblyError(pending, frame);
      match Accept(pending, frame)
      case Reject(_) =>
      case Hold(held) => NoUnreachableError(isServer, held, s[n..]);
      case Emit(_, held) => NoUnreachableError(isServer, held, s[n..]);
    }
  }

  // ----- when a run panics -----

  /** On its way through the stream, the receiver comes to a header whose 64-bit sum wraps. */
  predicate MeetsWrapHeader(isServer: bool, pending: seq<DataFrame>, s: seq<byte>)
    decreases |s|
  {
    || WrapHeader(s)
    || (match NextFrame(isServer, s)
        case Need => false
        case Bad(_, _) => false
        case Next(frame, n) =>
          match Accept(pending, frame)
          case Reject(_) => false
          case Hold(held) => MeetsWrapHeader(isServer, held, s[n..])
          case Emit(frames, held) => FromFrames(frames).Ok? && MeetsWrapHeader(isServer, held, s[n..]))
  }

  /** A run panics exactly when it meets such a header, and then always in the cut. */
  lemma {:induction false} RunPanicsIff(isServer: bool, pending: seq<DataFrame>, s: seq<byte>)
    ensures var r := DecodeRun(isServer, pending, s);
            && (r.end.Some? && r.end.value.Panic? <==> MeetsWrapHeader(isServer, pending, s))
            && (MeetsWrapHeader(isServer, pending, s) ==> r.end == Some(Panic(SplitOutOfRange)))
    decreases |s|
  {
    hide NextFrame, FromFrames, DecodeRun, WrapHeader;
    RunFrame(isServer, pending, s);
    StepPanicIff(isServer, s);
    if NextFrame(isServer, s).Next? {
      var frame, n := NextFrame(isServer, s).frame, NextFrame(isServer, s).taken;
      match Accept(pending, frame)
      case Reject(_) =>
      case Hold(held) => RunPanicsIff(isServer, held, s[n..]);
      case Emit(frames, held) =>
        AssemblyNeverPanics(frames);
        RunPanicsIff(isServer, held, s[n..]);
    }
  }

  /** Ten bytes, the header of an unmasked frame of 2^64 - 1 bytes, on which the receiver panics. */
  lemma WrapExample()
    ensures DecodeRun(false, [], [0x82, 127, 255, 255, 255, 255, 255, 255, 255, 255])
         == Run([], Some(Panic(SplitOutOfRange)), [], [])
  {
    var s: seq<byte> := [0x82, 127, 255, 255, 255, 255, 255, 255, 255, 255];
    WrapExampleHeader(s);
    WrapExampleStep(s);
    hide NextFrame;
    RunFrame(false, [], s);
  }

  lemma WrapExampleStep(s: seq<byte>)
    requires ParseHeader(s) == Complete(DataFrameHeader(Flags(true, false, false, false), 2, None, U64_LIMIT - 1), 10)
    requires |s| == 10
    ensures NextFrame(false, s) == Bad(Panic(SplitOutOfRange), 10)
  {
    hide ParseHeader;
  }

  lemma WrapExampleHeader(s: seq<byte>)
    requires s == [0x82, 127, 255, 255, 255, 255, 255, 255, 255, 255]
    ensures ParseHeader(s) == Complete(DataFrameHeader(Flags(true, false, false, false), 2, None, U64_LIMIT - 1), 10)
  {
    hide ParseHeader;
    var h := DataFrameHeader(Flags(true, false, false, false), 2, None, U64_LIMIT - 1);
    var ones: seq<byte> := [255, 255, 255, 255, 255, 255, 255, 255];
    EightByteNumber(ones);
    assert ToU64(ones) == U64_LIMIT - 1;
    ReadAfterWrite(h, []);
    assert s == HeaderBytes(h) + [];
  }

  // ----- conservation over a run -----

  /**
   * In a run without error nothing is lost: the bytes consumed are the wire form of the frames
   * accepted, the payload of their data frames is in the data messages and the held fragments,
   * and there is a frame for at least every two bytes consumed.
   */
  lemma RunConserves(isServer: bool, pending: seq<DataFrame>, s: seq<byte>)
    requires Unfinished(pending)
    requires DecodeRun(isServer, pending, s).end == None
    ensures var p := ParseAll(isServer, s);
            var r := DecodeRun(isServer, pending, s);
            && Writeable(p.frames)
            && s == WireAll(p.frames, p.keys) + r.rest
            && Payload(pending) + Payload(DataFramesOf(p.frames)) == DataPayloads(r.messages) + Payload(r.pending)
            && 2 * |p.frames| + |r.rest| <= |s|
  {
    hide DecodeRun, ParseAll, Fold, Unfinished;
    RunIsParseThenFold(isServer, pending, s);
    WriteAllAfterReadAll(isServer, s);
    PayloadConserved(pending, ParseAll(isServer, s).frames);
  }
}
