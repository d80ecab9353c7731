/** From messages to bytes and back, through every layer. */
module EndToEnd {
  import opened Assembly
  import opened Bytes
  import opened DataFrames
  import opened FrameCodec
  import opened Header
  import opened Layout
  import opened Masking
  import opened Messages
  import opened MessageCodec
  import opened Outcomes
  import opened Receiver
  import opened Results
  import opened RoundTrip
  import opened Runs
  import opened Scripts
  import opened Sending

  lemma HugeFrame(isServer: bool, s: seq<byte>)
    ensures NextFrame(isServer, s).Next? && HugeHeader(s) ==> |NextFrame(isServer, s).frame.data| > MAX_VEC
  {}

  /** A stream of sendable frames has no header with an impossible length. */
  lemma {:induction false} SoundFramesAreNotHuge(isServer: bool, pending: seq<DataFrame>, s: seq<byte>)
    requires AllSound(ParseAll(isServer, s).frames) && ParseAll(isServer, s).end == None
    requires !HugeHeader(ParseAll(isServer, s).rest)
    ensures !MeetsHugeHeader(isServer, pending, s)
    decreases |s|
  {
    hide NextFrame, HugeHeader, Accept, FromFrames, KeyAt;
    HugeFrame(isServer, s);
    if NextFrame(isServer, s).Next? {
      var frame, n := NextFrame(isServer, s).frame, NextFrame(isServer, s).taken;
      var p, q := ParseAll(isServer, s), ParseAll(isServer, s[n..]);
      assert p.frames[0] == frame && p.frames[1..] == q.frames;
      match Accept(pending, frame)
      case Reject(_) =>
      case Hold(held) => SoundFramesAreNotHuge(isServer, held, s[n..]);
      case Emit(_, held) => SoundFramesAreNotHuge(isServer, held, s[n..]);
    }
  }

  // ----- the whole way -----

  predicate FitVec(frames: seq<DataFrame>) {
    forall i :: 0 <= i < |frames| ==> |frames[i].data| <= MAX_VEC
  }

  /** `s` is the wire form of a script with these messages, masked with these keys or none. */
  predicate Carries(isServer: bool, s: seq<byte>, messages: seq<OwnedMessage>, script: seq<Sent>,
                    keys: seq<Option<Key>>)
  {
    && ValidScript(script)
    && messages == ScriptMessages(script)
    && KeysFor(isServer, ScriptFrames(script), keys)
    && Writeable(ScriptFrames(script))
    && s == WireAll(ScriptFrames(script), keys)
  }

  /**
   * `s` is the wire form of a script and of the beginning of a data message, followed by bytes that are
   * not yet a frame; `r` is what a receiver that accepts exactly this would end with.
   */
  predicate Explains(isServer: bool, s: seq<byte>, r: Run, script: seq<Sent>, open: seq<Open>, keys: seq<Option<Key>>) {
    var frames := ScriptFrames(script) + OpenFrames(open);
    && ValidScript(script) && ValidOpen(open)
    && KeysFor(isServer, frames, keys) && Writeable(frames)
    && s == WireAll(frames, keys) + r.rest && Waits(r.rest)
    && r == Run(ScriptMessages(script) + OpenMessages(open), None, Held(open), r.rest)
  }

  lemma OpenFramesSound(script: seq<Sent>, open: seq<Open>)
    requires ValidScript(script) && ValidOpen(open) && FitVec(ScriptFrames(script) + OpenFrames(open))
    ensures AllSound(ScriptFrames(script) + OpenFrames(open))
  {
    hide Opcode.Code, ScriptFrames, OpenFrames, ValidScript;
    ScriptFollowsRules(script);
    forall f | f in Held(open)
      ensures f.opcode.Code() < 8
    {
      var i :| 0 <= i < |Held(open)| && Held(open)[i] == f;
    }
    OpenFollowsRules(open);
  }

  lemma ParseWaiting(isServer: bool, rest: seq<byte>)
    requires Waits(rest)
    ensures ParseAll(isServer, rest) == Parsed([], [], None, rest)
  {
    hide Waits;
    NoFrameByPosition(isServer, rest);
  }

  lemma {:induction false} ExplainedRun(isServer: bool, s: seq<byte>, r: Run, script: seq<Sent>, open: seq<Open>,
                                        keys: seq<Option<Key>>)
    requires Explains(isServer, s, r, script, open, keys)
    requires FitVec(ScriptFrames(script) + OpenFrames(open))
    ensures DecodeRun(isServer, [], s) == r
    ensures AllSound(ParseAll(isServer, s).frames) && ParseAll(isServer, s).end == None
    ensures ParseAll(isServer, s).rest == r.rest
  {
    hide FromFrames, NextFrame, DecodeRun, ParseAll, Fold, ValidScript, Unfinished, AfterOk, WireAll;
    hide ScriptFrames, OpenFrames, ScriptMessages, OpenMessages, Held;
    var frames := ScriptFrames(script) + OpenFrames(open);
    OpenFramesSound(script, open);
    ReadAllAfterWriteAll(isServer, frames, keys, r.rest);
    ParseWaiting(isServer, r.rest);
    assert frames + [] == frames;
    RunIsParseThenFold(isServer, [], s);
    FoldScript(script, OpenFrames(open));
    assert [] + Held(open) == Held(open);
    FoldOpen([], open);
  }

  lemma {:induction false} WireLonger(frames: seq<DataFrame>, keys: seq<Option<Key>>)
    requires |keys| == |frames| && Writeable(frames)
    ensures forall i :: 0 <= i < |frames| ==> |frames[i].data| <= |WireAll(frames, keys)|
  {
    hide HeaderBytes;
    if frames != [] {
      WireLonger(frames[1..], keys[1..]);
    }
  }

  /**
   * A run ends without error exactly if the stream is the wire form of a script, then of the beginning
   * of a data message with its control messages, and then bytes that do not begin with a frame. What was
   * emitted are the messages of both, what is held is the beginning, and what is left are those bytes.
   */
  lemma {:induction false} ErrorFreeIff(isServer: bool, s: seq<byte>, r: Run)
    requires |s| <= MAX_VEC && r.end == None
    ensures DecodeRun(isServer, [], s) == r
       <==> exists script, open, keys :: Explains(isServer, s, r, script, open, keys)
  {
    if DecodeRun(isServer, [], s) == r {
      var script, open, keys := ExplanationOf(isServer, s, r);
    }
    if script, open, keys :| Explains(isServer, s, r, script, open, keys) {
      WireLonger(ScriptFrames(script) + OpenFrames(open), keys);
      ExplainedRun(isServer, s, r, script, open, keys);
    }
  }

  lemma {:induction false} ExplanationOf(isServer: bool, s: seq<byte>, r: Run)
    returns (script: seq<Sent>, open: seq<Open>, keys: seq<Option<Key>>)
    requires DecodeRun(isServer, [], s) == r && r.end == None
    ensures Explains(isServer, s, r, script, open, keys)
  {
    hide FromFrames, DecodeRun, NextFrame, ControlRules, ParseAll, Fold, ValidScript, Unfinished, AfterOk, WireAll;
    hide ScriptFrames, OpenFrames, ScriptMessages, OpenMessages, Held;
    var p := ParseAll(isServer, s);
    RunIsParseThenFold(isServer, [], s);
    RunLeavesNoFrame(isServer, [], s);
    NoFrameByPosition(isServer, r.rest);
    WriteAllAfterReadAll(isServer, s);
    script, open := ScriptOf(p.frames);
    keys := p.keys;
    FoldScript(script, OpenFrames(open));
    assert [] + Held(open) == Held(open);
    FoldOpen([], open);
  }

  /** The case in which nothing is held and nothing is left: exactly the wire forms of scripts. */
  lemma {:induction false} AcceptsExactlyScripts(isServer: bool, s: seq<byte>, messages: seq<OwnedMessage>)
    requires |s| <= MAX_VEC
    ensures DecodeRun(isServer, [], s) == Run(messages, None, [], [])
       <==> exists script, keys :: Carries(isServer, s, messages, script, keys)
  {
    hide DecodeRun, Explains, Carries;
    var r := Run(messages, None, [], []);
    ErrorFreeIff(isServer, s, r);
    if DecodeRun(isServer, [], s) == r {
      var script, open, keys :| Explains(isServer, s, r, script, open, keys);
      NothingLeft(isServer, s, messages, script, open, keys);
    }
    if script, keys :| Carries(isServer, s, messages, script, keys) {
      NothingOpenLeft(isServer, s, messages, script, keys);
    }
  }

  lemma NothingLeft(isServer: bool, s: seq<byte>, messages: seq<OwnedMessage>, script: seq<Sent>, open: seq<Open>,
                    keys: seq<Option<Key>>)
    requires Explains(isServer, s, Run(messages, None, [], []), script, open, keys)
    ensures Carries(isServer, s, messages, script, keys)
  {
    hide NextFrame, ScriptFrames, ScriptMessages, ValidScript, FrameWire;
    assert open == [];
    var frames := ScriptFrames(script);
    assert frames + [] == frames && ScriptMessages(script) + [] == ScriptMessages(script);
    assert WireAll(frames, keys) + [] == WireAll(frames, keys);
  }

  lemma NothingOpenLeft(isServer: bool, s: seq<byte>, messages: seq<OwnedMessage>, script: seq<Sent>,
                        keys: seq<Option<Key>>)
    requires Carries(isServer, s, messages, script, keys)
    ensures Explains(isServer, s, Run(messages, None, [], []), script, [], keys)
  {
    hide ScriptFrames, ScriptMessages, ValidScript, FrameWire, NextFrame;
    NothingIsIncomplete(isServer);
    var frames := ScriptFrames(script);
    assert frames + [] == frames && ScriptMessages(script) + [] == ScriptMessages(script);
    assert WireAll(frames, keys) + [] == WireAll(frames, keys);
  }

  lemma NothingIsIncomplete(isServer: bool)
    ensures Waits([]) && NextFrame(isServer, []).Need? && !HugeHeader([])
  {}

  // ----- the whole way, up to an error -----

  /** `s` is the wire form of a script and of the beginning of a data message, and then `t`, which is refused. */
  predicate Blames(isServer: bool, s: seq<byte>, r: Run, script: seq<Sent>, open: seq<Open>, keys: seq<Option<Key>>,
                   t: seq<byte>)
  {
    var frames := ScriptFrames(script) + OpenFrames(open);
    && ValidScript(script) && ValidOpen(open)
    && KeysFor(isServer, frames, keys) && Writeable(frames)
    && s == WireAll(frames, keys) + t
    && r.end.Some? && Refused(isServer, Held(open), t, r.end.value)
    && r == Run(ScriptMessages(script) + OpenMessages(open), r.end, HeldAfter(isServer, Held(open), t), RestAfter(t))
  }

  /**
   * A run ends with an error exactly if the stream is the wire form of a script and of the beginning of
   * a data message, and then bytes whose first frame is refused with that error, as the table `Refused`
   * says by position. What came before is emitted.
   */
  lemma {:induction false} ErrorIff(isServer: bool, s: seq<byte>, r: Run)
    requires |s| <= MAX_VEC && r.end.Some?
    ensures DecodeRun(isServer, [], s) == r
       <==> exists script, open, keys, t :: Blames(isServer, s, r, script, open, keys, t)
  {
    hide Blames;
    if DecodeRun(isServer, [], s) == r {
      var script, open, keys, t := BlameOf(isServer, s, r);
    }
    if script, open, keys, t :| Blames(isServer, s, r, script, open, keys, t) {
      BlamedRun(isServer, s, r, script, open, keys, t);
    }
  }

  lemma ErrorAfter(isServer: bool, s: seq<byte>, t: seq<byte>, before: Run, e: WebSocketError)
    requires DecodeRun(isServer, [], s) == before && before.end == None && before.rest == []
    requires Refused(isServer, before.pending, t, e)
    ensures DecodeRun(isServer, [], s + t)
         == Run(before.messages, Some(e), HeldAfter(isServer, before.pending, t), RestAfter(t))
  {
    hide DecodeRun, Refused, HeldAfter, RestAfter, Unfinished;
    StartIsUnfinished();
    RunKeepsUnfinished(isServer, [], s);
    RunOfLongerStream(isServer, [], s, t);
    assert [] + t == t;
    RefusedRun(isServer, before.pending, t, e);
    assert before.messages + [] == before.messages;
  }

  lemma {:induction false} BlameOf(isServer: bool, s: seq<byte>, r: Run)
    returns (script: seq<Sent>, open: seq<Open>, keys: seq<Option<Key>>, t: seq<byte>)
    requires DecodeRun(isServer, [], s) == r && r.end.Some?
    ensures Blames(isServer, s, r, script, open, keys, t)
  {
    hide DecodeRun, Refused, HeldAfter, RestAfter, Unfinished, WireAll, NextFrame, ValidScript;
    hide ScriptFrames, OpenFrames, ScriptMessages, OpenMessages, Held;
    StartIsUnfinished();
    var k, before := FailurePoint(isServer, [], s);
    t := s[k..];
    script, open, keys := ExplanationOf(isServer, s[..k], before);
    ErrorAfter(isServer, s[..k], t, before, r.end.value);
    assert s == s[..k] + t;
    var wire := WireAll(ScriptFrames(script) + OpenFrames(open), keys);
    assert wire + [] == wire;
  }

  lemma {:induction false} BlamedRun(isServer: bool, s: seq<byte>, r: Run, script: seq<Sent>, open: seq<Open>,
                                     keys: seq<Option<Key>>, t: seq<byte>)
    requires |s| <= MAX_VEC && Blames(isServer, s, r, script, open, keys, t)
    ensures DecodeRun(isServer, [], s) == r
  {
    hide DecodeRun, Refused, HeldAfter, RestAfter, Unfinished, WireAll, NextFrame, ValidScript;
    hide ScriptFrames, OpenFrames, ScriptMessages, OpenMessages, Held;
    var frames := ScriptFrames(script) + OpenFrames(open);
    var wire := WireAll(frames, keys);
    var before := Run(ScriptMessages(script) + OpenMessages(open), None, Held(open), []);
    WireLonger(frames, keys);
    NothingIsIncomplete(isServer);
    assert wire + [] == wire;
    ExplainedRun(isServer, wire, before, script, open, keys);
    ErrorAfter(isServer, wire, t, before, r.end.value);
  }

  /**
   * Any messages, cut into fragments anyhow, with control messages sent between the fragments, masked
   * with any keys or none, delivered in any chunks: the opposite role decodes exactly those messages
   * in order, without error, and nothing is left over. The blocking receiver gets the same messages.
   */
  lemma {:induction false} ScriptArrives(isServer: bool, messages: seq<OwnedMessage>, script: seq<Sent>,
                                         keys: seq<Option<Key>>, chunks: seq<seq<byte>>)
    requires Carries(isServer, Concat(chunks), messages, script, keys)
    requires FitVec(ScriptFrames(script))
    ensures FeedRun(isServer, [], [], chunks) == Run(messages, None, [], [])
    ensures RecvRun(isServer, [], Concat(chunks)) == SyncRun(messages, NoDataAvailable, [])
  {
    hide NextFrame, HugeHeader, DecodeRun, RecvRun, FeedRun, ParseAll, MeetsHugeHeader, Carries, Explains;
    var s, r := Concat(chunks), Run(messages, None, [], []);
    NothingOpenLeft(isServer, s, messages, script, keys);
    assert ScriptFrames(script) + OpenFrames([]) == ScriptFrames(script);
    ExplainedRun(isServer, s, r, script, [], keys);
    NothingIsIncomplete(isServer);
    assert [] + s == s;
    ChunkingDoesNotMatter(isServer, [], [], chunks);
    SoundFramesAreNotHuge(isServer, [], s);
    SyncAgreesWithAsync(isServer, [], s);
  }

  // ----- messages sent whole -----

  /** A message that survives its key is sent as the one frame that it is. */
  lemma EncodedAsFrame(m: OwnedMessage, key: Option<Key>)
    requires CanSend(m) && SurvivesKey(m, key)
    ensures Wire(SendMessage(m), key) == FrameWire(FrameOf(m), key)
  {
    SeenPayloadIff(m, key);
    WireOfSeenFrame(m, key);
  }

  predicate AllSurvive(messages: seq<OwnedMessage>, keys: seq<Option<Key>>) {
    && |keys| == |messages|
    && forall i :: 0 <= i < |messages| ==> CanSend(messages[i]) && SurvivesKey(messages[i], keys[i])
  }

  /** What encoding messages one after another appends. */
  function EncodedAll(messages: seq<OwnedMessage>, keys: seq<Option<Key>>): seq<byte>
    requires AllSurvive(messages, keys)
  {
    if messages == [] then [] else Wire(SendMessage(messages[0]), keys[0]) + EncodedAll(messages[1..], keys[1..])
  }

  function Whole(m: OwnedMessage): Sent {
    if m.IsControl() then SentControl(m) else SentData(m, m.TakePayload(), [])
  }

  lemma WholeIsOneFrame(m: OwnedMessage)
    requires CanSend(m)
    ensures ValidSent(Whole(m)) && FramesOf(Whole(m)) == [FrameOf(m)] && MessagesOf(Whole(m)) == [m]
    ensures |FrameOf(m).data| <= MAX_VEC
  {
    assert m.TakePayload() + [] == m.TakePayload();
  }

  function WholeScript(messages: seq<OwnedMessage>): seq<Sent> {
    if messages == [] then [] else [Whole(messages[0])] + WholeScript(messages[1..])
  }

  lemma {:induction false} EncodedAllIsScript(isServer: bool, messages: seq<OwnedMessage>, keys: seq<Option<Key>>)
    requires AllSurvive(messages, keys) && forall i :: 0 <= i < |keys| ==> keys[i].Some? == isServer
    ensures Carries(isServer, EncodedAll(messages, keys), messages, WholeScript(messages), keys)
    ensures FitVec(ScriptFrames(WholeScript(messages)))
  {
    hide FrameWire, HeaderBytes, Wire, FrameOf, Whole, SurvivesKey, CanSend;
    hide ScriptFrames, ScriptMessages, ValidScript, FramesOf, MessagesOf;
    if messages == [] {
      NoScript();
    } else {
      var m, ms := messages[0], messages[1..];
      var script := WholeScript(ms);
      EncodedAllIsScript(isServer, ms, keys[1..]);
      WholeIsOneFrame(m);
      EncodedAsFrame(m, keys[0]);
      FirstSent(Whole(m), script);
      FirstOnWire(FrameOf(m), keys[0], ScriptFrames(script), keys[1..]);
      assert messages == [m] + ms;
      assert keys == [keys[0]] + keys[1..];
    }
  }

  /** Messages encoded one after another and delivered in any chunks are decoded by the opposite role. */
  lemma {:induction false} EncodedMessagesArrive(isServer: bool, messages: seq<OwnedMessage>,
                                                 keys: seq<Option<Key>>, chunks: seq<seq<byte>>)
    requires AllSurvive(messages, keys) && forall i :: 0 <= i < |keys| ==> keys[i].Some? == isServer
    requires Concat(chunks) == EncodedAll(messages, keys)
    ensures FeedRun(isServer, [], [], chunks) == Run(messages, None, [], [])
    ensures RecvRun(isServer, [], Concat(chunks)) == SyncRun(messages, NoDataAvailable, [])
  {
    EncodedAllIsScript(isServer, messages, keys);
    ScriptArrives(isServer, messages, WholeScript(messages), keys, chunks);
  }
}
