/**
 * Scripts: messages cut into fragments, with control messages sent between the fragments. The frames
 * of a script fold into its messages, and only the frames of a script are accepted.
 */
module Scripts {
  import opened Assembly
  import opened Bytes
  import opened DataFrames
  import opened FrameCodec
  import opened Messages
  import opened Results

  /** A later fragment of a data message, and the control messages sent since the one before. */
  datatype Fragment = Fragment(before: seq<OwnedMessage>, data: seq<byte>)

  datatype Sent =
    | SentControl(message: OwnedMessage)
    | SentData(message: OwnedMessage, first: seq<byte>, others: seq<Fragment>)

  function Remaining(others: seq<Fragment>): seq<byte> {
    if others == [] then [] else others[0].data + Remaining(others[1..])
  }

  /** Control messages are short. */
  predicate ShortControl(m: OwnedMessage) {
    m.IsControl() && m.Size() <= 125
  }

  predicate Controls(messages: seq<OwnedMessage>) {
    forall i :: 0 <= i < |messages| ==> ShortControl(messages[i])
  }

  predicate FragmentsOk(others: seq<Fragment>) {
    forall i :: 0 <= i < |others| ==> Controls(others[i].before)
  }

  /** The cutting of a data message is arbitrary, and so are the control messages in between. */
  predicate ValidSent(e: Sent) {
    match e
    case SentControl(m) => ShortControl(m)
    case SentData(m, first, others) =>
      !m.IsControl() && first + Remaining(others) == m.TakePayload() && FragmentsOk(others)
  }

  predicate ValidScript(script: seq<Sent>) {
    forall i :: 0 <= i < |script| ==> ValidSent(script[i])
  }

  function ControlFrames(messages: seq<OwnedMessage>): seq<DataFrame> {
    if messages == [] then [] else [FrameOf(messages[0])] + ControlFrames(messages[1..])
  }

  function OtherFrames(others: seq<Fragment>): seq<DataFrame> {
    if others == [] then []
    else ControlFrames(others[0].before)
         + [DataFrame(|others| == 1, CLEAR, Continuation, others[0].data)]
         + OtherFrames(others[1..])
  }

  /** The data frames that are sent. */
  function FramesOf(e: Sent): seq<DataFrame> {
    match e
    case SentControl(m) => [FrameOf(m)]
    case SentData(m, first, others) => [DataFrame(others == [], CLEAR, m.Kind(), first)] + OtherFrames(others)
  }

  function ScriptFrames(script: seq<Sent>): seq<DataFrame> {
    if script == [] then [] else FramesOf(script[0]) + ScriptFrames(script[1..])
  }

  function Interleaved(others: seq<Fragment>): seq<OwnedMessage> {
    if others == [] then [] else others[0].before + Interleaved(others[1..])
  }

  /** The messages that should arrive: a control message where it was sent, a data message at its end. */
  function MessagesOf(e: Sent): seq<OwnedMessage> {
    match e
    case SentControl(m) => [m]
    case SentData(m, _, others) => Interleaved(others) + [m]
  }

  function ScriptMessages(script: seq<Sent>): seq<OwnedMessage> {
    if script == [] then [] else MessagesOf(script[0]) + ScriptMessages(script[1..])
  }

  lemma FirstSent(e: Sent, script: seq<Sent>)
    ensures ScriptFrames([e] + script) == FramesOf(e) + ScriptFrames(script)
    ensures ScriptMessages([e] + script) == MessagesOf(e) + ScriptMessages(script)
    ensures ValidSent(e) && ValidScript(script) ==> ValidScript([e] + script)
  {
    hide FramesOf, MessagesOf, ValidSent;
    assert ([e] + script)[1..] == script;
  }

  // ----- folding the frames of a script -----

  function Behind(before: seq<OwnedMessage>, f: Folded): Folded {
    f.(messages := before + f.messages)
  }

  lemma BehindTwice(a: seq<OwnedMessage>, b: seq<OwnedMessage>, f: Folded)
    ensures Behind(a, Behind(b, f)) == Behind(a + b, f)
    ensures Behind([], f) == f
  {
    assert a + (b + f.messages) == (a + b) + f.messages;
  }

  function FoldByVerdict(verdict: Verdict, pending: seq<DataFrame>, later: seq<DataFrame>): Folded {
    match verdict
    case Reject(e) => Folded([], Some(e), pending)
    case Hold(held) => Fold(held, later)
    case Emit(list, held) =>
      match FromFrames(list)
      case Err(e) => Folded([], Some(e), held)
      case Ok(m) => Behind([m], Fold(held, later))
  }

  lemma FoldOne(pending: seq<DataFrame>, frame: DataFrame, later: seq<DataFrame>)
    ensures Fold(pending, [frame] + later) == FoldByVerdict(Accept(pending, frame), pending, later)
  {
    hide FromFrames, Accept;
    assert ([frame] + later)[1..] == later;
  }

  lemma FoldControl(pending: seq<DataFrame>, m: OwnedMessage, later: seq<DataFrame>)
    requires m.IsControl()
    ensures Fold(pending, [FrameOf(m)] + later) == Behind([m], Fold(pending, later))
  {
    hide FromFrames, Opcode.Code, Fold;
    FoldOne(pending, FrameOf(m), later);
    ControlKinds(m);
    FrameOfAssembles(m);
  }

  lemma NoControlFrames(later: seq<DataFrame>)
    ensures ControlFrames([]) + later == later
  {}

  lemma SplitControls(messages: seq<OwnedMessage>, later: seq<DataFrame>)
    requires messages != []
    ensures ControlFrames(messages) + later == [FrameOf(messages[0])] + (ControlFrames(messages[1..]) + later)
  {}

  lemma {:induction false} FoldControls(pending: seq<DataFrame>, messages: seq<OwnedMessage>, later: seq<DataFrame>)
    requires Controls(messages)
    ensures Fold(pending, ControlFrames(messages) + later) == Behind(messages, Fold(pending, later))
    decreases |messages|
  {
    hide Fold, FrameOf, Behind, ControlFrames, OwnedMessage.IsControl;
    if messages == [] {
      NoControlFrames(later);
      BehindTwice([], [], Fold(pending, later));
    } else {
      var m, ms := messages[0], messages[1..];
      SplitControls(messages, later);
      FoldControl(pending, m, ControlFrames(ms) + later);
      FoldControls(pending, ms, later);
      BehindTwice([m], ms, Fold(pending, later));
      assert messages == [m] + ms;
    }
  }

  /** The beginning of `m`: a frame with its opcode and then Continuation frames. */
  predicate PartOf(m: OwnedMessage, pending: seq<DataFrame>) {
    OneMessage(pending) && pending[0].opcode == m.Kind()
  }

  lemma HeldPart(m: OwnedMessage, pending: seq<DataFrame>, frame: DataFrame)
    requires PartOf(m, pending) && frame.opcode.Continuation? && frame.reserved == CLEAR
    ensures PartOf(m, pending + [frame])
    ensures Payload(pending + [frame]) == Payload(pending) + frame.data
  {
    PayloadAppend(pending, [frame]);
    PayloadOne(frame);
  }

  lemma {:induction false} FoldFragment(m: OwnedMessage, pending: seq<DataFrame>, frame: DataFrame,
                                        later: seq<DataFrame>)
    requires PartOf(m, pending) && frame.opcode.Continuation? && frame.reserved == CLEAR
    requires frame.finished ==> Payload(pending) + frame.data == m.TakePayload()
    ensures Fold(pending, [frame] + later) ==
            if frame.finished then Behind([m], Fold([], later)) else Fold(pending + [frame], later)
  {
    hide FromFrames, Fold, Payload;
    FoldOne(pending, frame, later);
    HeldPart(m, pending, frame);
    if frame.finished {
      AssemblesIff(pending + [frame], m);
    }
  }

  lemma {:induction false} FoldOthers(m: OwnedMessage, pending: seq<DataFrame>, others: seq<Fragment>,
                                      later: seq<DataFrame>)
    requires PartOf(m, pending) && FragmentsOk(others) && others != []
    requires Payload(pending) + Remaining(others) == m.TakePayload()
    ensures Fold(pending, OtherFrames(others) + later) == Behind(Interleaved(others) + [m], Fold([], later))
    decreases |others|
  {
    hide FromFrames, Fold, Payload, ControlFrames, Behind, PartOf, OwnedMessage.TakePayload, OneMessage, Controls;
    var o, os := others[0], others[1..];
    var frame := DataFrame(|others| == 1, CLEAR, Continuation, o.data);
    var rest := OtherFrames(os) + later;
    SplitOthers(others, later);
    FoldControls(pending, o.before, [frame] + rest);
    if os == [] {
      assert Remaining(others) == o.data;
      assert Interleaved(others) == o.before;
      assert rest == later;
      FoldFragment(m, pending, frame, rest);
      BehindTwice(o.before, [m], Fold([], later));
    } else {
      FoldFragment(m, pending, frame, rest);
      HeldPart(m, pending, frame);
      MovePayload(Payload(pending), o.data, Remaining(os));
      FoldOthers(m, pending + [frame], os, later);
      BehindTwice(o.before, Interleaved(os) + [m], Fold([], later));
      MoveMessage(o.before, Interleaved(os), m);
    }
  }

  lemma MovePayload(a: seq<byte>, b: seq<byte>, c: seq<byte>)
    ensures (a + b) + c == a + (b + c)
  {}

  lemma MoveMessage(a: seq<OwnedMessage>, b: seq<OwnedMessage>, m: OwnedMessage)
    ensures a + (b + [m]) == (a + b) + [m]
  {}

  lemma SplitOthers(others: seq<Fragment>, later: seq<DataFrame>)
    requires others != []
    ensures OtherFrames(others) + later ==
            ControlFrames(others[0].before)
            + ([DataFrame(|others| == 1, CLEAR, Continuation, others[0].data)] + (OtherFrames(others[1..]) + later))
  {
    hide ControlFrames;
    Reassociate(ControlFrames(others[0].before), [DataFrame(|others| == 1, CLEAR, Continuation, others[0].data)],
                OtherFrames(others[1..]), later);
  }

  lemma Reassociate(a: seq<DataFrame>, b: seq<DataFrame>, c: seq<DataFrame>, d: seq<DataFrame>)
    ensures (a + b + c) + d == a + (b + (c + d))
  {}

  lemma {:induction false} FoldSent(e: Sent, later: seq<DataFrame>)
    requires ValidSent(e)
    ensures Fold([], FramesOf(e) + later) == Behind(MessagesOf(e), Fold([], later))
  {
    hide FromFrames, Fold, Behind, Opcode.Code, OtherFrames, Interleaved, Payload, PartOf, Accept;
    hide OwnedMessage.Kind, OwnedMessage.TakePayload, OwnedMessage.IsControl;
    match e
    case SentControl(m) => FoldControl([], m, later);
    case SentData(m, first, others) =>
      var frame := DataFrame(others == [], CLEAR, m.Kind(), first);
      StartsMessage(m, frame);
      if others == [] {
        NoOthers(first, later);
        assert FramesOf(e) + later == [frame] + later && MessagesOf(e) == [m];
        FoldWhole(m, frame, later);
      } else {
        var rest := OtherFrames(others) + later;
        assert FramesOf(e) + later == [frame] + rest;
        FoldFirst(m, frame, rest);
        FoldOthers(m, [frame], others, later);
      }
  }

  lemma StartsMessage(m: OwnedMessage, frame: DataFrame)
    requires !m.IsControl() && frame.reserved == CLEAR && frame.opcode == m.Kind()
    ensures PartOf(m, [frame]) && Payload([frame]) == frame.data
    ensures Accept([], frame) == if frame.finished then Emit([frame], []) else Hold([frame])
  {
    hide Opcode.Code;
    ControlKinds(m);
    PayloadOne(frame);
    assert [] + [frame] == [frame];
  }

  lemma FoldWhole(m: OwnedMessage, frame: DataFrame, later: seq<DataFrame>)
    requires !m.IsControl() && frame.reserved == CLEAR && frame.opcode == m.Kind()
    requires frame.finished && frame.data == m.TakePayload()
    ensures Fold([], [frame] + later) == Behind([m], Fold([], later))
  {
    hide FromFrames, Accept, Fold, Behind, Payload, OwnedMessage.Kind, OwnedMessage.TakePayload;
    StartsMessage(m, frame);
    AssemblesIff([frame], m);
    FoldOne([], frame, later);
  }

  lemma FoldFirst(m: OwnedMessage, frame: DataFrame, rest: seq<DataFrame>)
    requires !m.IsControl() && frame.reserved == CLEAR && frame.opcode == m.Kind() && !frame.finished
    ensures Fold([], [frame] + rest) == Fold([frame], rest)
  {
    hide Accept, Fold;
    StartsMessage(m, frame);
    FoldOne([], frame, rest);
  }

  lemma NoOthers(first: seq<byte>, later: seq<DataFrame>)
    ensures OtherFrames([]) == []
    ensures Interleaved([]) == []
    ensures first + Remaining([]) == first
  {}

  lemma {:induction false} FoldScript(script: seq<Sent>, later: seq<DataFrame>)
    requires ValidScript(script)
    ensures Fold([], ScriptFrames(script) + later) == Behind(ScriptMessages(script), Fold([], later))
    decreases |script|
  {
    hide Fold, Behind, FramesOf, MessagesOf, ValidSent, ScriptFrames, ScriptMessages;
    if script == [] {
      NoScript();
      assert [] + later == later;
      BehindTwice([], [], Fold([], later));
    } else {
      var e, tail := script[0], script[1..];
      assert script == [e] + tail;
      FirstSent(e, tail);
      FoldSent(e, ScriptFrames(tail) + later);
      FoldScript(tail, later);
      SplitFrames(FramesOf(e), ScriptFrames(tail), later);
      BehindTwice(MessagesOf(e), ScriptMessages(tail), Fold([], later));
    }
  }

  lemma NoScript()
    ensures ValidScript([]) && ScriptFrames([]) == [] && ScriptMessages([]) == []
  {}

  lemma SplitFrames(a: seq<DataFrame>, b: seq<DataFrame>, c: seq<DataFrame>)
    ensures (a + b) + c == a + (b + c)
  {}

  // ----- the beginning of a message -----

  /** A fragment of an unfinished data message, and the control messages sent since. */
  datatype Open = Open(frame: DataFrame, after: seq<OwnedMessage>)

  function Held(open: seq<Open>): seq<DataFrame> {
    if open == [] then [] else [open[0].frame] + Held(open[1..])
  }

  function OpenFrames(open: seq<Open>): seq<DataFrame> {
    if open == [] then [] else [open[0].frame] + ControlFrames(open[0].after) + OpenFrames(open[1..])
  }

  function OpenMessages(open: seq<Open>): seq<OwnedMessage> {
    if open == [] then [] else open[0].after + OpenMessages(open[1..])
  }

  predicate AfterOk(open: seq<Open>) {
    forall i :: 0 <= i < |open| ==> Controls(open[i].after)
  }

  /** The fragments are the unfinished beginning of one data message. */
  predicate ValidOpen(open: seq<Open>) {
    AfterOk(open) && Unfinished(Held(open))
  }

  lemma FirstOpen(o: Open, open: seq<Open>)
    ensures Held([o] + open) == [o.frame] + Held(open)
    ensures OpenFrames([o] + open) == [o.frame] + (ControlFrames(o.after) + OpenFrames(open))
    ensures OpenMessages([o] + open) == o.after + OpenMessages(open)
    ensures AfterOk([o] + open) <==> Controls(o.after) && AfterOk(open)
  {
    hide Controls, ControlFrames;
    assert ([o] + open)[1..] == open;
    assert AfterOk([o] + open) ==> AfterOk(open) && Controls(o.after) by {
      if AfterOk([o] + open) {
        assert Controls(([o] + open)[0].after);
        forall i | 0 <= i < |open|
          ensures Controls(open[i].after)
        {
          assert open[i] == ([o] + open)[i + 1];
        }
      }
    }
  }

  lemma AcceptOpen(pending: seq<DataFrame>, frame: DataFrame, more: seq<DataFrame>)
    requires Unfinished(pending + ([frame] + more))
    ensures Accept(pending, frame) == Hold(pending + [frame])
    ensures pending + ([frame] + more) == (pending + [frame]) + more
  {
    var all := pending + ([frame] + more);
    assert all[|pending|] == frame;
    assert all == (pending + [frame]) + more;
  }

  /** The frames of an unfinished message are held; the control messages between them are emitted. */
  lemma {:induction false} FoldOpen(pending: seq<DataFrame>, open: seq<Open>)
    requires AfterOk(open) && Unfinished(pending + Held(open))
    ensures Fold(pending, OpenFrames(open)) == Folded(OpenMessages(open), None, pending + Held(open))
    decreases |open|
  {
    hide Accept, Unfinished, Controls, ControlFrames, OpenFrames, OpenMessages, Held, AfterOk, FromFrames;
    if open == [] {
      NothingOpen();
      assert pending + [] == pending;
    } else {
      var o, os := open[0], open[1..];
      assert open == [o] + os;
      FirstOpen(o, os);
      AcceptOpen(pending, o.frame, Held(os));
      FoldOne(pending, o.frame, ControlFrames(o.after) + OpenFrames(os));
      FoldControls(pending + [o.frame], o.after, OpenFrames(os));
      FoldOpen(pending + [o.frame], os);
    }
  }

  lemma NothingOpen()
    ensures Held([]) == [] && OpenFrames([]) == [] && OpenMessages([]) == [] && AfterOk([])
  {}

  // ----- every frame of a script follows the rules for control frames -----

  predicate AllControlRules(frames: seq<DataFrame>) {
    forall i :: 0 <= i < |frames| ==> ControlRules(frames[i])
  }

  lemma {:induction false} ControlFramesFollowRules(messages: seq<OwnedMessage>)
    requires Controls(messages)
    ensures AllControlRules(ControlFrames(messages))
  {
    if messages != [] {
      ControlKinds(messages[0]);
      ControlFramesFollowRules(messages[1..]);
    }
  }

  lemma {:induction false} OtherFramesFollowRules(others: seq<Fragment>)
    requires FragmentsOk(others)
    ensures AllControlRules(OtherFrames(others))
  {
    if others != [] {
      ControlFramesFollowRules(others[0].before);
      OtherFramesFollowRules(others[1..]);
    }
  }

  lemma {:induction false} ScriptFollowsRules(script: seq<Sent>)
    requires ValidScript(script)
    ensures AllControlRules(ScriptFrames(script))
  {
    if script != [] {
      ScriptFollowsRules(script[1..]);
      match script[0]
      case SentControl(m) => ControlKinds(m);
      case SentData(m, _, others) =>
        ControlKinds(m);
        OtherFramesFollowRules(others);
    }
  }

  lemma {:induction false} OpenFollowsRules(open: seq<Open>)
    requires AfterOk(open) && forall f :: f in Held(open) ==> f.opcode.Code() < 8
    ensures AllControlRules(OpenFrames(open))
    decreases |open|
  {
    if open != [] {
      assert open == [open[0]] + open[1..];
      FirstOpen(open[0], open[1..]);
      ControlFramesFollowRules(open[0].after);
      OpenFollowsRules(open[1..]);
    }
  }

  // ----- every list of frames that folds without error is a script and a beginning -----

  /** A single frame that becomes a message is that message as a frame. */
  lemma OnlyFrameOf(frame: DataFrame, m: OwnedMessage)
    requires FromFrames([frame]) == Ok(m) && frame.finished
    ensures frame == FrameOf(m)
  {
    AssemblesIff([frame], m);
    PayloadOne(frame);
  }

  /** What frames do to the message being held: complete it before others follow, or not. */
  datatype Continued =
    | Completed(m: OwnedMessage, others: seq<Fragment>, later: seq<DataFrame>)
    | Unclosed(before: seq<OwnedMessage>, open: seq<Open>)

  predicate Continues(pending: seq<DataFrame>, frames: seq<DataFrame>, c: Continued) {
    match c
    case Completed(m, others, later) =>
      && others != [] && FragmentsOk(others)
      && frames == OtherFrames(others) + later && |later| < |frames|
      && PartOf(m, pending) && Payload(pending) + Remaining(others) == m.TakePayload()
    case Unclosed(before, open) =>
      && Controls(before) && AfterOk(open)
      && frames == ControlFrames(before) + OpenFrames(open)
      && Unfinished(pending + Held(open))
  }

  lemma {:induction false} Continue(pending: seq<DataFrame>, frames: seq<DataFrame>) returns (c: Continued)
    requires Unfinished(pending) && pending != [] && AllControlRules(frames)
    requires Fold(pending, frames).error == None
    ensures Continues(pending, frames, c)
    decreases |frames|
  {
    hide FromFrames, Opcode.Code, Payload, ControlFrames, FrameOf, Continues, Unfinished;
    hide OwnedMessage.IsControl, OwnedMessage.TakePayload;
    if frames == [] {
      NothingFollows(pending);
      return Unclosed([], []);
    }
    var frame, rest := frames[0], frames[1..];
    assert frames == [frame] + rest;
    FoldOne(pending, frame, rest);
    AcceptKeepsUnfinished(pending, frame);
    match Accept(pending, frame)
    case Hold(held) =>
      var d := Continue(held, rest);
      c := ContinueHeld(pending, frame, rest, d);
    case Emit(list, _) =>
      if frame.opcode.Code() >= 8 {
        var m := FromFrames(list).value;
        AcceptedControl(frame, m);
        var d := Continue(pending, rest);
        c := ContinueControl(pending, m, rest, d);
      } else {
        var m := FromFrames(list).value;
        CompletesLast(m, pending, frame, rest);
        c := Completed(m, [Fragment([], frame.data)], rest);
        IsCompleted(pending, frames, m, [Fragment([], frame.data)], rest);
      }
  }

  lemma NothingFollows(pending: seq<DataFrame>)
    requires Unfinished(pending)
    ensures Continues(pending, [], Unclosed([], []))
  {
    hide Unfinished;
    assert pending + [] == pending;
  }

  lemma IsCompleted(pending: seq<DataFrame>, frames: seq<DataFrame>, m: OwnedMessage, others: seq<Fragment>,
                    later: seq<DataFrame>)
    requires others != [] && FragmentsOk(others)
    requires frames == OtherFrames(others) + later && |later| < |frames|
    requires PartOf(m, pending) && Payload(pending) + Remaining(others) == m.TakePayload()
    ensures Continues(pending, frames, Completed(m, others, later))
  {
    hide FragmentsOk, OtherFrames, PartOf, Payload, Remaining, OwnedMessage.TakePayload;
  }

  lemma ContinueHeld(pending: seq<DataFrame>, frame: DataFrame, rest: seq<DataFrame>, d: Continued)
    returns (c: Continued)
    requires pending != [] && !frame.finished && frame.opcode.Continuation?
    requires Continues(pending + [frame], rest, d)
    ensures Continues(pending, [frame] + rest, c)
  {
    hide FragmentsOk, OtherFrames, PartOf, Payload, Remaining, OwnedMessage.TakePayload, Unfinished, Held;
    hide ControlFrames, OpenFrames, AfterOk, Controls;
    match d
    case Completed(m, os, later) =>
      CompletesHeld(m, pending, frame, os, later);
      c := Completed(m, [Fragment([], frame.data)] + os, later);
    case Unclosed(before, open) =>
      FirstOpen(Open(frame, before), open);
      NothingBefore(OpenFrames([Open(frame, before)] + open));
      assert pending + ([frame] + Held(open)) == (pending + [frame]) + Held(open);
      c := Unclosed([], [Open(frame, before)] + open);
  }

  lemma NothingBefore(frames: seq<DataFrame>)
    ensures Controls([]) && ControlFrames([]) + frames == frames
  {}

  lemma ContinueControl(pending: seq<DataFrame>, m: OwnedMessage, rest: seq<DataFrame>, d: Continued)
    returns (c: Continued)
    requires ShortControl(m) && Continues(pending, rest, d)
    ensures Continues(pending, [FrameOf(m)] + rest, c)
  {
    hide OtherFrames, PartOf, Payload, Remaining, FragmentsOk, OwnedMessage.TakePayload, Unfinished, Held;
    hide ControlFrames, OpenFrames, AfterOk, FrameOf, ShortControl;
    match d
    case Completed(k, os, later) =>
      assert os == [os[0]] + os[1..];
      PrecededByControl(m, os[0], os[1..], later);
      c := Completed(k, [Fragment([m] + os[0].before, os[0].data)] + os[1..], later);
    case Unclosed(before, open) =>
      FirstControlFrame(m, before);
      c := Unclosed([m] + before, open);
      SplitFrames([FrameOf(m)], ControlFrames(before), OpenFrames(open));
  }

  lemma AcceptedControl(frame: DataFrame, c: OwnedMessage)
    requires FromFrames([frame]) == Ok(c) && ControlRules(frame) && frame.opcode.Code() >= 8
    ensures frame == FrameOf(c) && ShortControl(c)
  {
    OnlyFrameOf(frame, c);
    ControlKinds(c);
  }

  lemma FirstControlFrame(c: OwnedMessage, ms: seq<OwnedMessage>)
    ensures ControlFrames([c] + ms) == [FrameOf(c)] + ControlFrames(ms)
  {
    assert ([c] + ms)[1..] == ms;
  }

  lemma FirstOtherFrames(o: Fragment, os: seq<Fragment>)
    ensures OtherFrames([o] + os)
         == ControlFrames(o.before) + [DataFrame(os == [], CLEAR, Continuation, o.data)] + OtherFrames(os)
    ensures Remaining([o] + os) == o.data + Remaining(os)
  {
    assert ([o] + os)[1..] == os;
  }

  lemma {:induction false} PrecededByControl(c: OwnedMessage, o: Fragment, os: seq<Fragment>, later: seq<DataFrame>)
    requires FragmentsOk([o] + os) && ShortControl(c)
    ensures var p := Fragment([c] + o.before, o.data);
            && FragmentsOk([p] + os)
            && OtherFrames([p] + os) + later == [FrameOf(c)] + (OtherFrames([o] + os) + later)
            && Remaining([p] + os) == Remaining([o] + os)
  {
    var p := Fragment([c] + o.before, o.data);
    FirstOtherFrames(o, os);
    FirstOtherFrames(p, os);
    FirstControlFrame(c, o.before);
    PrecededOk(c, o, os);
    hide ControlFrames, OtherFrames, FrameOf, FragmentsOk;
    var others := [DataFrame(os == [], CLEAR, Continuation, o.data)] + OtherFrames(os);
    assert OtherFrames([p] + os) + later == [FrameOf(c)] + ControlFrames(o.before) + others + later;
  }

  lemma PrecededOk(c: OwnedMessage, o: Fragment, os: seq<Fragment>)
    requires FragmentsOk([o] + os) && ShortControl(c)
    ensures FragmentsOk([Fragment([c] + o.before, o.data)] + os)
  {
    assert Controls(([o] + os)[0].before);
    forall i | 0 <= i < |os|
      ensures Controls(os[i].before)
    {
      assert os[i] == ([o] + os)[i + 1];
    }
  }

  lemma {:induction false} CompletesHeld(m: OwnedMessage, pending: seq<DataFrame>, frame: DataFrame,
                                         os: seq<Fragment>, later: seq<DataFrame>)
    requires pending != [] && !frame.finished && frame.opcode.Continuation? && os != [] && FragmentsOk(os)
    requires PartOf(m, pending + [frame]) && Payload(pending + [frame]) + Remaining(os) == m.TakePayload()
    ensures var others := [Fragment([], frame.data)] + os;
            && FragmentsOk(others)
            && OtherFrames(others) + later == [frame] + (OtherFrames(os) + later)
            && PartOf(m, pending) && Payload(pending) + Remaining(others) == m.TakePayload()
  {
    hide OwnedMessage.TakePayload, Payload, OtherFrames, Remaining, FragmentsOk, PartOf;
    HeldPrefix(m, pending, frame);
    HeldPart(m, pending, frame);
    FirstOtherFrames(Fragment([], frame.data), os);
    NoControls(frame, os, later);
    MovePayload(Payload(pending), frame.data, Remaining(os));
  }

  lemma NoControls(frame: DataFrame, os: seq<Fragment>, later: seq<DataFrame>)
    ensures FragmentsOk(os) ==> FragmentsOk([Fragment([], frame.data)] + os)
    ensures ControlFrames([]) + [frame] + OtherFrames(os) + later == [frame] + (OtherFrames(os) + later)
  {
    hide OtherFrames;
    assert Controls([]);
    assert [] + [frame] == [frame];
  }

  /** What is part of a message with one more frame is part of it without. */
  lemma HeldPrefix(m: OwnedMessage, pending: seq<DataFrame>, frame: DataFrame)
    requires pending != [] && PartOf(m, pending + [frame])
    ensures PartOf(m, pending) && frame.reserved == CLEAR
  {
    hide OwnedMessage.Kind;
    forall i | 0 <= i < |pending|
      ensures pending[i] == (pending + [frame])[i]
    {}
    assert (pending + [frame])[|pending|] == frame;
  }

  lemma {:induction false} CompletesLast(m: OwnedMessage, pending: seq<DataFrame>, frame: DataFrame,
                                         later: seq<DataFrame>)
    requires pending != [] && frame.finished && frame.opcode.Continuation?
    requires FromFrames(pending + [frame]) == Ok(m)
    ensures var others := [Fragment([], frame.data)];
            && FragmentsOk(others)
            && OtherFrames(others) + later == [frame] + later
            && PartOf(m, pending) && Payload(pending) + Remaining(others) == m.TakePayload()
  {
    hide OwnedMessage.TakePayload, FromFrames, Payload, OtherFrames, Remaining, FragmentsOk, PartOf;
    AssemblesIff(pending + [frame], m);
    assert PartOf(m, pending + [frame]) by {
      hide *;
      IsPart(m, pending + [frame]);
    }
    HeldPrefix(m, pending, frame);
    HeldPart(m, pending, frame);
    FirstOtherFrames(Fragment([], frame.data), []);
    NoControls(frame, [], later);
    NothingRemains(frame.data, later);
    assert [Fragment([], frame.data)] + [] == [Fragment([], frame.data)];
  }

  lemma IsPart(m: OwnedMessage, frames: seq<DataFrame>)
    requires OneMessage(frames) && frames[0].opcode == m.Kind()
    ensures PartOf(m, frames)
  {}

  lemma NothingRemains(data: seq<byte>, later: seq<DataFrame>)
    ensures FragmentsOk([]) && data + Remaining([]) == data && OtherFrames([]) + later == later
  {}

  /** What a list of frames begins with: something sent whole, or a message that does not end. */
  datatype Start =
    | BeginsWith(e: Sent, later: seq<DataFrame>)
    | NeverEnds(open: seq<Open>)

  predicate Starts(frames: seq<DataFrame>, start: Start) {
    match start
    case BeginsWith(e, later) => ValidSent(e) && frames == FramesOf(e) + later && |later| < |frames|
    case NeverEnds(open) => ValidOpen(open) && frames == OpenFrames(open)
  }

  lemma {:induction false} StartOf(frames: seq<DataFrame>) returns (start: Start)
    requires frames != [] && AllControlRules(frames)
    requires Fold([], frames).error == None
    ensures Starts(frames, start)
  {
    hide FromFrames, Opcode.Code, Fold, OtherFrames, OwnedMessage.IsControl, OwnedMessage.TakePayload, ValidSent;
    hide Continues, Unfinished;
    var frame, rest := frames[0], frames[1..];
    assert frames == [frame] + rest;
    FoldOne([], frame, rest);
    StartIsUnfinished();
    AcceptKeepsUnfinished([], frame);
    assert [] + [frame] == [frame];
    if frame.opcode.Code() >= 8 {
      var m := FromFrames([frame]).value;
      ControlMessage(frame, m);
      start := BeginsWith(SentControl(m), rest);
    } else if frame.finished {
      var m := FromFrames([frame]).value;
      WholeMessage(frame, m);
      start := BeginsWith(SentData(m, frame.data, []), rest);
    } else {
      var c := Continue([frame], rest);
      start := StartFrom(frame, rest, c);
    }
  }

  lemma StartIsUnfinished()
    ensures Unfinished([])
  {}

  lemma StartFrom(frame: DataFrame, rest: seq<DataFrame>, c: Continued) returns (start: Start)
    requires !frame.finished && 1 <= frame.opcode.Code() < 8
    requires Continues([frame], rest, c)
    ensures Starts([frame] + rest, start)
  {
    hide Opcode.Code, OtherFrames, OpenFrames, PartOf, Payload, Remaining, FragmentsOk, ValidSent, AfterOk, Held;
    hide Unfinished, ControlFrames, OwnedMessage.TakePayload, FramesOf, Controls;
    match c
    case Completed(m, others, later) =>
      FirstFragment(frame, m, others);
      start := BeginsWith(SentData(m, frame.data, others), later);
      SplitFrames([frame], OtherFrames(others), later);
    case Unclosed(before, open) =>
      FirstOpen(Open(frame, before), open);
      start := NeverEnds([Open(frame, before)] + open);
  }

  lemma ControlMessage(frame: DataFrame, m: OwnedMessage)
    requires FromFrames([frame]) == Ok(m) && ControlRules(frame) && frame.opcode.Code() >= 8
    ensures ValidSent(SentControl(m)) && FramesOf(SentControl(m)) == [frame]
  {
    AcceptedControl(frame, m);
  }

  /** The script that a list of frames is, and the beginning of a message that it ends with. */
  lemma {:induction false} ScriptOf(frames: seq<DataFrame>) returns (script: seq<Sent>, open: seq<Open>)
    requires AllControlRules(frames)
    requires Fold([], frames).error == None
    ensures ValidScript(script) && ValidOpen(open)
    ensures frames == ScriptFrames(script) + OpenFrames(open)
    decreases |frames|
  {
    hide Fold, FramesOf, ValidSent, MessagesOf, ControlRules, OpenFrames, ValidOpen, ScriptFrames, ValidScript;
    NoScript();
    NothingIsOpen();
    if frames == [] {
      return [], [];
    }
    var start := StartOf(frames);
    match start
    case NeverEnds(part) => script, open := [], part;
    case BeginsWith(e, later) =>
      FoldSent(e, later);
      LaterFollowRules(frames, later);
      var tail;
      tail, open := ScriptOf(later);
      FirstSent(e, tail);
      SplitFrames(FramesOf(e), ScriptFrames(tail), OpenFrames(open));
      script := [e] + tail;
  }

  lemma NothingIsOpen()
    ensures ValidOpen([]) && OpenFrames([]) == []
    ensures forall frames: seq<DataFrame> :: [] + frames == frames
  {}

  lemma LaterFollowRules(frames: seq<DataFrame>, later: seq<DataFrame>)
    requires AllControlRules(frames) && |later| <= |frames| && later == frames[|frames| - |later|..]
    ensures AllControlRules(later)
  {
    hide ControlRules;
  }

  lemma WholeMessage(frame: DataFrame, m: OwnedMessage)
    requires FromFrames([frame]) == Ok(m) && frame.finished && frame.opcode.Code() < 8
    ensures ValidSent(SentData(m, frame.data, [])) && FramesOf(SentData(m, frame.data, [])) == [frame]
  {
    OnlyFrameOf(frame, m);
    ControlKinds(m);
    assert frame.data + [] == frame.data;
  }

  lemma FirstFragment(frame: DataFrame, m: OwnedMessage, others: seq<Fragment>)
    requires PartOf(m, [frame]) && !frame.finished && 1 <= frame.opcode.Code() < 8
    requires others != [] && FragmentsOk(others) && Payload([frame]) + Remaining(others) == m.TakePayload()
    ensures ValidSent(SentData(m, frame.data, others))
    ensures FramesOf(SentData(m, frame.data, others)) == [frame] + OtherFrames(others)
  {
    ControlKinds(m);
    PayloadOne(frame);
  }
}
