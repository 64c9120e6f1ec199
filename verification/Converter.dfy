/** The conversion of agent events into the AG-UI event stream: a state machine whose
    output must be a well-bracketed trace. */
module Converter {
  import opened Options

  /** Message IDs are "msg_1", "msg_2", ...; reasoning IDs "thinking_1", ...: kept as numbers,
      with 0 for the empty string that stands for no ID. */
  type MsgId = nat
  type ThinkingId = nat

  const NO_ID := 0

  datatype Input =
    | AgentStart
    | AgentEnd(output: string)
    | AgentError(message: string)
    | TurnStart(turn: int)
    | TurnEnd(turn: int)
    | TextDelta(delta: string)
    | ThinkingDelta(delta: string)
    | MessageReset
    | ModelFailover
    | ToolCallStart(toolCallId: string, name: string, arguments: string)
    | ToolCallEnd(toolCallId: string, result: string)
    | OtherEvent(kind: string)

  datatype Output =
    | RunStarted
    | RunFinished(output: string)
    | RunError(message: string)
    | StepStarted(turn: int)
    | StepFinished(turn: int)
    | TextStart(id: MsgId)
    | TextContent(id: MsgId, delta: string)
    | TextEnd(id: MsgId)
    | ReasoningStart(thinking: ThinkingId)
    | ReasoningMessageStart(id: MsgId)
    | ReasoningMessageContent(id: MsgId, delta: string)
    | ReasoningMessageEnd(id: MsgId)
    | ReasoningEnd(thinking: ThinkingId)
    | ToolStart(toolCallId: string, name: string)
    | ToolArgs(toolCallId: string, delta: string)
    | ToolEnd(toolCallId: string)
    | ToolResult(toolCallId: string, content: string)
    | Custom(name: string)

  // ---------------------------------------------------------------- what a trace must be

  /** A reader of the stream: what it believes to be open, and the IDs it has seen. */
  datatype Reader = Reader(
    text: Option<MsgId>,
    thinking: Option<ThinkingId>,
    reasoning: Option<MsgId>,
    seenMessages: set<MsgId>,
    seenThinking: set<ThinkingId>)

  const NEW_READER := Reader(None, None, None, {}, {})

  /** The reader's next state, or None if the event does not fit what it has read:
      messages start with fresh IDs, one at a time; content and ends refer to the open
      message; a reasoning message lives inside an open reasoning phase. */
  function Read(r: Reader, o: Output): Option<Reader> {
    match o
    case TextStart(id) =>
      if r.text == None && id !in r.seenMessages then Some(r.(text := Some(id), seenMessages := r.seenMessages + {id})) else None
    case TextContent(id, _) => if r.text == Some(id) then Some(r) else None
    case TextEnd(id) => if r.text == Some(id) then Some(r.(text := None)) else None
    case ReasoningStart(t) =>
      if r.thinking == None && t !in r.seenThinking then Some(r.(thinking := Some(t), seenThinking := r.seenThinking + {t})) else None
    case ReasoningMessageStart(id) =>
      if r.thinking != None && r.reasoning == None && id !in r.seenMessages then
        Some(r.(reasoning := Some(id), seenMessages := r.seenMessages + {id}))
      else None
    case ReasoningMessageContent(id, _) => if r.reasoning == Some(id) then Some(r) else None
    case ReasoningMessageEnd(id) => if r.reasoning == Some(id) then Some(r.(reasoning := None)) else None
    case ReasoningEnd(t) => if r.thinking == Some(t) && r.reasoning == None then Some(r.(thinking := None)) else None
    case RunFinished(_) => IfClosed(r)
    case RunError(_) => IfClosed(r)
    case StepStarted(_) => IfClosed(r)
    case StepFinished(_) => IfClosed(r)
    case ToolStart(_, _) => IfClosed(r)
    case ToolEnd(_) => IfClosed(r)
    case _ => Some(r)
  }

  /** Runs, turns and tool calls begin and end with no message open. */
  function IfClosed(r: Reader): Option<Reader> {
    if r.text == None && r.thinking == None && r.reasoning == None then Some(r) else None
  }

  function ReadAll(r: Reader, trace: seq<Output>): Option<Reader>
    decreases |trace|
  {
    if trace == [] then Some(r)
    else match Read(r, trace[0]) {
      case None => None
      case Some(r') => ReadAll(r', trace[1..])
    }
  }

  ghost predicate WellBracketed(trace: seq<Output>) {
    ReadAll(NEW_READER, trace).Some?
  }

  // ---------------------------------------------------------------- the converter

  /** The converter's fields. */
  datatype Fields = Fields(
    msgSeq: nat,
    thinkingSeq: nat,
    activeMsg: MsgId,
    activeThinking: ThinkingId,
    activeThinkingMessage: MsgId)

  const INITIAL := Fields(0, 0, NO_ID, NO_ID, NO_ID)

  function CloseMessage(f: Fields): (Fields, seq<Output>) {
    if f.activeMsg == NO_ID then (f, []) else (f.(activeMsg := NO_ID), [TextEnd(f.activeMsg)])
  }

  function CloseThinking(f: Fields): (Fields, seq<Output>) {
    if f.activeThinking == NO_ID then (f, [])
    else
      (f.(activeThinking := NO_ID, activeThinkingMessage := NO_ID),
       (if f.activeThinkingMessage != NO_ID then [ReasoningMessageEnd(f.activeThinkingMessage)] else [])
       + [ReasoningEnd(f.activeThinking)])
  }

  function CloseAll(f: Fields): (Fields, seq<Output>) {
    var (f1, o1) := CloseMessage(f);
    var (f2, o2) := CloseThinking(f1);
    (f2, o1 + o2)
  }

  function ConvertText(f: Fields, delta: string): (Fields, seq<Output>) {
    var (f1, closed) := CloseThinking(f);
    if f1.activeMsg == NO_ID then
      var id := f1.msgSeq + 1;
      (f1.(msgSeq := id, activeMsg := id), closed + [TextStart(id), TextContent(id, delta)])
    else
      (f1, closed + [TextContent(f1.activeMsg, delta)])
  }

  function ConvertThinking(f: Fields, delta: string): (Fields, seq<Output>) {
    if f.activeThinking == NO_ID then
      var t, id := f.thinkingSeq + 1, f.msgSeq + 1;
      (f.(thinkingSeq := t, msgSeq := id, activeThinking := t, activeThinkingMessage := id),
       [ReasoningStart(t), ReasoningMessageStart(id), ReasoningMessageContent(id, delta)])
    else
      (f, [ReasoningMessageContent(f.activeThinkingMessage, delta)])
  }

  /** What follows the closing of all messages. */
  function Announce(e: Input): seq<Output> {
    match e
    case AgentEnd(output) => [RunFinished(output)]
    case AgentError(message) => [RunError(message)]
    case TurnStart(turn) => [StepStarted(turn)]
    case TurnEnd(turn) => [StepFinished(turn)]
    case MessageReset => [Custom("message_reset")]
    case ToolCallStart(id, name, arguments) => [ToolStart(id, name), ToolArgs(id, arguments)]
    case ToolCallEnd(id, result) => [ToolEnd(id), ToolResult(id, result)]
    case OtherEvent(kind) => [Custom(kind)]
    case _ => []
  }

  function Convert(f: Fields, e: Input): (Fields, seq<Output>) {
    match e
    case AgentStart => (f, [RunStarted])
    case ModelFailover => (f, [Custom("model_failover")])
    case TextDelta(delta) => ConvertText(f, delta)
    case ThinkingDelta(delta) => ConvertThinking(f, delta)
    case _ => var (f', closed) := CloseAll(f); (f', closed + Announce(e))
  }

  function ConvertAll(f: Fields, inputs: seq<Input>): (Fields, seq<Output>) {
    if inputs == [] then (f, [])
    else
      var (f1, o1) := ConvertAll(f, inputs[..|inputs| - 1]);
      var (f2, o2) := Convert(f1, inputs[|inputs| - 1]);
      (f2, o1 + o2)
  }

  /** The converter as it runs: the delta and close methods update the fields in place. */
  class EventConverter {
    var msgSeq: nat
    var thinkingSeq: nat
    var activeMsgID: MsgId
    var activeThinkingID: ThinkingId
    var activeThinkingMessageID: MsgId

    function State(): Fields
      reads this
    {
      Fields(msgSeq, thinkingSeq, activeMsgID, activeThinkingID, activeThinkingMessageID)
    }

    constructor ()
      ensures State() == INITIAL
    {
      msgSeq, thinkingSeq := 0, 0;
      activeMsgID, activeThinkingID, activeThinkingMessageID := NO_ID, NO_ID, NO_ID;
    }

    method CloseActiveMessage() returns (events: seq<Output>)
      modifies this
      ensures (State(), events) == CloseMessage(old(State()))
    {
      var prevID := activeMsgID;
      if prevID == NO_ID {
        return [];
      }
      activeMsgID := NO_ID;
      return [TextEnd(prevID)];
    }

    method CloseActiveThinking() returns (events: seq<Output>)
      modifies this
      ensures (State(), events) == CloseThinking(old(State()))
    {
      var prevID := activeThinkingID;
      if prevID == NO_ID {
        return [];
      }
      var messageID := activeThinkingMessageID;
      activeThinkingID := NO_ID;
      activeThinkingMessageID := NO_ID;
      events := [];
      if messageID != NO_ID {
        events := events + [ReasoningMessageEnd(messageID)];
        assert events == [ReasoningMessageEnd(messageID)];
      }
      events := events + [ReasoningEnd(prevID)];
    }

    method CloseEverything() returns (events: seq<Output>)
      modifies this
      ensures (State(), events) == CloseAll(old(State()))
    {
      events := CloseActiveMessage();
      var tail := CloseActiveThinking();
      events := events + tail;
    }

    method ConvertMessageDelta(delta: string, thinking: bool) returns (events: seq<Output>)
      modifies this
      ensures (State(), events) == if thinking then ConvertThinking(old(State()), delta) else ConvertText(old(State()), delta)
    {
      if thinking {
        events := ConvertThinkingDelta(delta);
        return;
      }
      events := CloseActiveThinking();
      var prevID := activeMsgID;
      if prevID == NO_ID {
        msgSeq := msgSeq + 1;
        var msgID := msgSeq;
        activeMsgID := msgID;
        events := events + [TextStart(msgID), TextContent(msgID, delta)];
        return;
      }
      events := events + [TextContent(prevID, delta)];
    }

    method ConvertThinkingDelta(delta: string) returns (events: seq<Output>)
      modifies this
      ensures (State(), events) == ConvertThinking(old(State()), delta)
    {
      var prevID := activeThinkingID;
      if prevID == NO_ID {
        thinkingSeq := thinkingSeq + 1;
        var thinkingID := thinkingSeq;
        msgSeq := msgSeq + 1;
        var msgID := msgSeq;
        activeThinkingID := thinkingID;
        activeThinkingMessageID := msgID;
        return [ReasoningStart(thinkingID), ReasoningMessageStart(msgID), ReasoningMessageContent(msgID, delta)];
      }
      return [ReasoningMessageContent(activeThinkingMessageID, delta)];
    }

    method ConvertEvent(e: Input) returns (events: seq<Output>)
      modifies this
      ensures (State(), events) == Convert(old(State()), e)
    {
      match e {
        case AgentStart => events := [RunStarted];
        case ModelFailover => events := [Custom("model_failover")];
        case TextDelta(delta) => events := ConvertMessageDelta(delta, false);
        case ThinkingDelta(delta) => events := ConvertMessageDelta(delta, true);
        case _ =>
          events := CloseEverything();
          events := events + Announce(e);
      }
    }
  }

  // ---------------------------------------------------------------- every trace is well bracketed

  function AsOption(id: nat): Option<nat> {
    if id == NO_ID then None else Some(id)
  }

  /** The reader believes to be open what the converter keeps active, and has seen only IDs
      already handed out. */
  ghost predicate Agrees(f: Fields, r: Reader) {
    && r.text == AsOption(f.activeMsg) && r.thinking == AsOption(f.activeThinking)
    && r.reasoning == AsOption(f.activeThinkingMessage)
    && (f.activeThinking == NO_ID <==> f.activeThinkingMessage == NO_ID)
    && (forall id :: id in r.seenMessages ==> id <= f.msgSeq)
    && (forall t :: t in r.seenThinking ==> t <= f.thinkingSeq)
  }

  lemma {:induction false} ReadConcat(r: Reader, p: seq<Output>, q: seq<Output>)
    ensures ReadAll(r, p + q) == match ReadAll(r, p) { case None => None case Some(r') => ReadAll(r', q) }
    decreases |p|
  {
    if p == [] {
      assert p + q == q;
    } else {
      assert (p + q)[0] == p[0] && (p + q)[1..] == p[1..] + q;
      if Read(r, p[0]).Some? {
        ReadConcat(Read(r, p[0]).value, p[1..], q);
      }
    }
  }

  ghost predicate Follows(r: Reader, f': Fields, events: seq<Output>) {
    ReadAll(r, events).Some? && Agrees(f', ReadAll(r, events).value)
  }

  lemma ReadOne(r: Reader, o: Output)
    ensures ReadAll(r, [o]) == Read(r, o)
  {
    if Read(r, o).Some? {
      assert [o][1..] == [];
    }
  }

  lemma {:induction false} ReadTwo(r: Reader, o: Output, p: Output)
    ensures ReadAll(r, [o, p]) == match Read(r, o) { case None => None case Some(r') => Read(r', p) }
  {
    ReadConcat(r, [o], [p]);
    assert [o] + [p] == [o, p];
    ReadOne(r, o);
    if Read(r, o).Some? {
      ReadOne(Read(r, o).value, p);
    }
  }

  lemma {:induction false} CloseThinkingFollows(f: Fields, r: Reader)
    requires Agrees(f, r)
    ensures Follows(r, CloseThinking(f).0, CloseThinking(f).1)
  {
    if f.activeThinking != NO_ID {
      ReadTwo(r, ReasoningMessageEnd(f.activeThinkingMessage), ReasoningEnd(f.activeThinking));
    }
  }

  lemma {:induction false} CloseAllFollows(f: Fields, r: Reader)
    requires Agrees(f, r)
    ensures Follows(r, CloseAll(f).0, CloseAll(f).1)
    ensures var f' := CloseAll(f).0; f'.activeMsg == NO_ID && f'.activeThinking == NO_ID && f'.activeThinkingMessage == NO_ID
  {
    var (f1, o1) := CloseMessage(f);
    if f.activeMsg != NO_ID {
      ReadOne(r, TextEnd(f.activeMsg));
    }
    assert Follows(r, f1, o1);
    var r1 := ReadAll(r, o1).value;
    CloseThinkingFollows(f1, r1);
    ReadConcat(r, o1, CloseThinking(f1).1);
  }

  lemma {:induction false} TextFollows(f: Fields, r: Reader, delta: string)
    requires Agrees(f, r)
    ensures Follows(r, ConvertText(f, delta).0, ConvertText(f, delta).1)
  {
    var (f1, closed) := CloseThinking(f);
    CloseThinkingFollows(f, r);
    var r1 := ReadAll(r, closed).value;
    if f1.activeMsg == NO_ID {
      var id := f1.msgSeq + 1;
      ReadTwo(r1, TextStart(id), TextContent(id, delta));
      ReadConcat(r, closed, [TextStart(id), TextContent(id, delta)]);
    } else {
      ReadOne(r1, TextContent(f1.activeMsg, delta));
      ReadConcat(r, closed, [TextContent(f1.activeMsg, delta)]);
    }
  }

  lemma {:induction false} ThinkingFollows(f: Fields, r: Reader, delta: string)
    requires Agrees(f, r)
    ensures Follows(r, ConvertThinking(f, delta).0, ConvertThinking(f, delta).1)
  {
    if f.activeThinking == NO_ID {
      var t, id := f.thinkingSeq + 1, f.msgSeq + 1;
      ReadTwo(r, ReasoningStart(t), ReasoningMessageStart(id));
      var r2 := ReadAll(r, [ReasoningStart(t), ReasoningMessageStart(id)]).value;
      ReadOne(r2, ReasoningMessageContent(id, delta));
      ReadConcat(r, [ReasoningStart(t), ReasoningMessageStart(id)], [ReasoningMessageContent(id, delta)]);
      assert [ReasoningStart(t), ReasoningMessageStart(id)] + [ReasoningMessageContent(id, delta)]
          == [ReasoningStart(t), ReasoningMessageStart(id), ReasoningMessageContent(id, delta)];
    } else {
      ReadOne(r, ReasoningMessageContent(f.activeThinkingMessage, delta));
    }
  }

  lemma {:induction false} AnnouncementFollows(f: Fields, r: Reader, e: Input)
    requires Agrees(f, r) && f.activeMsg == NO_ID && f.activeThinking == NO_ID
    ensures ReadAll(r, Announce(e)) == Some(r)
  {
    match e {
      case ToolCallStart(id, name, arguments) => ReadTwo(r, ToolStart(id, name), ToolArgs(id, arguments));
      case ToolCallEnd(id, result) => ReadTwo(r, ToolEnd(id), ToolResult(id, result));
      case AgentEnd(output) => ReadOne(r, RunFinished(output));
      case AgentError(message) => ReadOne(r, RunError(message));
      case TurnStart(turn) => ReadOne(r, StepStarted(turn));
      case TurnEnd(turn) => ReadOne(r, StepFinished(turn));
      case MessageReset => ReadOne(r, Custom("message_reset"));
      case OtherEvent(kind) => ReadOne(r, Custom(kind));
      case _ =>
    }
  }

  lemma {:induction false} ConvertFollows(f: Fields, r: Reader, e: Input)
    requires Agrees(f, r)
    ensures Follows(r, Convert(f, e).0, Convert(f, e).1)
  {
    match e {
      case AgentStart => ReadOne(r, RunStarted);
      case ModelFailover => ReadOne(r, Custom("model_failover"));
      case TextDelta(delta) => TextFollows(f, r, delta);
      case ThinkingDelta(delta) => ThinkingFollows(f, r, delta);
      case _ =>
        var (f', closed) := CloseAll(f);
        CloseAllFollows(f, r);
        var r' := ReadAll(r, closed).value;
        AnnouncementFollows(f', r', e);
        ReadConcat(r, closed, Announce(e));
    }
  }

  lemma {:induction false} RunFollows(inputs: seq<Input>)
    ensures Follows(NEW_READER, ConvertAll(INITIAL, inputs).0, ConvertAll(INITIAL, inputs).1)
  {
    if inputs != [] {
      var n := |inputs| - 1;
      RunFollows(inputs[..n]);
      hide Convert, Agrees, Read;
      var (f1, o1) := ConvertAll(INITIAL, inputs[..n]);
      var r1 := ReadAll(NEW_READER, o1).value;
      ConvertFollows(f1, r1, inputs[n]);
      ReadConcat(NEW_READER, o1, Convert(f1, inputs[n]).1);
    }
  }

  /** Whatever events arrive, in whatever order, the output is well bracketed. */
  lemma {:induction false} OutputIsWellBracketed(inputs: seq<Input>)
    ensures WellBracketed(ConvertAll(INITIAL, inputs).1)
  {
    RunFollows(inputs);
  }

  /** The inputs that leave messages open. */
  predicate KeepsOpen(e: Input) {
    e.AgentStart? || e.ModelFailover? || e.TextDelta? || e.ThinkingDelta?
  }

  /** After a run or turn event, a tool call or any other boundary, nothing is open. */
  lemma {:induction false} NothingOpenAtBoundaries(inputs: seq<Input>)
    requires inputs != [] && !KeepsOpen(inputs[|inputs| - 1])
    ensures var r := ReadAll(NEW_READER, ConvertAll(INITIAL, inputs).1);
            r.Some? && r.value.text == None && r.value.thinking == None && r.value.reasoning == None
  {
    RunFollows(inputs);
    var n := |inputs| - 1;
    RunFollows(inputs[..n]);
    var (f1, o1) := ConvertAll(INITIAL, inputs[..n]);
    CloseAllFollows(f1, ReadAll(NEW_READER, o1).value);
  }

  // ---------------------------------------------------------------- what well bracketed means

  function Starts(o: Output): Option<MsgId> {
    match o
    case TextStart(id) => Some(id)
    case ReasoningMessageStart(id) => Some(id)
    case _ => None
  }

  function Ends(o: Output): Option<MsgId> {
    match o
    case TextEnd(id) => Some(id)
    case ReasoningMessageEnd(id) => Some(id)
    case _ => None
  }

  /** The open message an event refers to. */
  function RefersTo(o: Output): Option<MsgId> {
    match o
    case TextContent(id, _) => Some(id)
    case ReasoningMessageContent(id, _) => Some(id)
    case _ => Ends(o)
  }

  predicate Open(r: Reader, id: MsgId) {
    r.text == Some(id) || r.reasoning == Some(id)
  }

  lemma {:induction false} ReaderAt(trace: seq<Output>, i: nat) returns (r: Reader)
    requires WellBracketed(trace) && i <= |trace|
    ensures ReadAll(NEW_READER, trace[..i]) == Some(r)
    ensures i < |trace| ==> Read(r, trace[i]).Some? && ReadAll(NEW_READER, trace[..i + 1]) == Read(r, trace[i])
    ensures forall id :: Open(r, id) ==> id in r.seenMessages
  {
    ReadConcat(NEW_READER, trace[..i], trace[i..]);
    assert trace[..i] + trace[i..] == trace;
    r := ReadAll(NEW_READER, trace[..i]).value;
    if i < |trace| {
      ReadConcat(NEW_READER, trace[..i], [trace[i]]);
      assert trace[..i] + [trace[i]] == trace[..i + 1];
      ReadOne(r, trace[i]);
    }
    OpenIsSeen(NEW_READER, trace[..i]);
  }

  lemma {:induction false} OpenIsSeen(r: Reader, trace: seq<Output>)
    requires ReadAll(r, trace).Some? && forall id :: Open(r, id) ==> id in r.seenMessages
    ensures forall id :: Open(ReadAll(r, trace).value, id) ==> id in ReadAll(r, trace).value.seenMessages
    decreases |trace|
  {
    if trace != [] {
      OpenIsSeen(Read(r, trace[0]).value, trace[1..]);
    }
  }

  /** A message started before stays seen. */
  lemma {:induction false} StartIsSeen(trace: seq<Output>, j: nat, i: nat, id: MsgId)
    requires WellBracketed(trace) && j < i <= |trace| && Starts(trace[j]) == Some(id)
    ensures ReadAll(NEW_READER, trace[..i]).Some? && id in ReadAll(NEW_READER, trace[..i]).value.seenMessages
    decreases i
  {
    var r := ReaderAt(trace, i - 1);
    if j < i - 1 {
      StartIsSeen(trace, j, i - 1, id);
    }
  }

  /** An open message was started, and has not ended since. */
  lemma {:induction false} OpenWasStarted(trace: seq<Output>, i: nat, id: MsgId) returns (j: nat)
    requires WellBracketed(trace) && i <= |trace| && ReadAll(NEW_READER, trace[..i]).Some?
    requires Open(ReadAll(NEW_READER, trace[..i]).value, id)
    ensures j < i && Starts(trace[j]) == Some(id)
    ensures forall k :: j < k < i ==> Ends(trace[k]) != Some(id)
    decreases i
  {
    var prefix := trace[..i];
    assert prefix != [];
    var r := ReaderAt(trace, i - 1);
    BothNeverOpen(trace, i - 1, id);
    if Open(r, id) && Starts(trace[i - 1]) != Some(id) {
      j := OpenWasStarted(trace, i - 1, id);
    } else {
      j := i - 1;
    }
  }

  /** The open text message and the open reasoning message are different ones. */
  lemma {:induction false} BothNeverOpen(trace: seq<Output>, i: nat, id: MsgId)
    requires WellBracketed(trace) && i <= |trace| && ReadAll(NEW_READER, trace[..i]).Some?
    ensures var r := ReadAll(NEW_READER, trace[..i]).value; !(r.text == Some(id) && r.reasoning == Some(id))
    decreases i
  {
    if i > 0 {
      var r := ReaderAt(trace, i - 1);
      BothNeverOpen(trace, i - 1, id);
    } else {
      assert trace[..0] == [];
    }
  }

  /** In a well-bracketed trace message IDs are never reused ... */
  lemma {:induction false} IdsAreFresh(trace: seq<Output>, i: nat, j: nat, id: MsgId)
    requires WellBracketed(trace) && i < |trace| && j < |trace|
    requires Starts(trace[i]) == Some(id) && Starts(trace[j]) == Some(id)
    ensures i == j
  {
    if i < j {
      StartIsSeen(trace, i, j, id);
      var r := ReaderAt(trace, j);
    } else if j < i {
      StartIsSeen(trace, j, i, id);
      var r := ReaderAt(trace, i);
    }
  }

  /** ... content and ends come after the start of their message and before its end ... */
  lemma {:induction false} RefersToOpenMessage(trace: seq<Output>, i: nat, id: MsgId)
    requires WellBracketed(trace) && i < |trace| && RefersTo(trace[i]) == Some(id)
    ensures exists j :: 0 <= j < i && Starts(trace[j]) == Some(id) && forall k :: j < k < i ==> Ends(trace[k]) != Some(id)
  {
    var r := ReaderAt(trace, i);
    var j := OpenWasStarted(trace, i, id);
  }

  /** ... and a message ends at most once. */
  lemma {:induction false} EndsOnce(trace: seq<Output>, i: nat, j: nat, id: MsgId)
    requires WellBracketed(trace) && i < |trace| && j < |trace|
    requires Ends(trace[i]) == Some(id) && Ends(trace[j]) == Some(id)
    ensures i == j
  {
    if i != j {
      var lo, hi := if i < j then i else j, if i < j then j else i;
      var r := ReaderAt(trace, lo);
      var a := OpenWasStarted(trace, lo, id);
      r := ReaderAt(trace, hi);
      var b := OpenWasStarted(trace, hi, id);
      IdsAreFresh(trace, a, b, id);
    }
  }

  // ---------------------------------------------------------------- no text is lost

  function TextOf(trace: seq<Output>): string {
    if trace == [] then "" else
      TextOf(trace[..|trace| - 1]) + if trace[|trace| - 1].TextContent? then trace[|trace| - 1].delta else ""
  }

  function ReasoningOf(trace: seq<Output>): string {
    if trace == [] then "" else
      ReasoningOf(trace[..|trace| - 1]) + if trace[|trace| - 1].ReasoningMessageContent? then trace[|trace| - 1].delta else ""
  }

  function InputText(inputs: seq<Input>): string {
    if inputs == [] then "" else
      InputText(inputs[..|inputs| - 1]) + if inputs[|inputs| - 1].TextDelta? then inputs[|inputs| - 1].delta else ""
  }

  function InputThinking(inputs: seq<Input>): string {
    if inputs == [] then "" else
      InputThinking(inputs[..|inputs| - 1]) + if inputs[|inputs| - 1].ThinkingDelta? then inputs[|inputs| - 1].delta else ""
  }

  lemma {:induction false} TextConcat(p: seq<Output>, q: seq<Output>)
    ensures TextOf(p + q) == TextOf(p) + TextOf(q)
    ensures ReasoningOf(p + q) == ReasoningOf(p) + ReasoningOf(q)
  {
    if q == [] {
      assert p + q == p;
    } else {
      var n := |q| - 1;
      TextConcat(p, q[..n]);
      assert (p + q)[..|p + q| - 1] == p + q[..n];
      var t := if q[n].TextContent? then q[n].delta else "";
      assert TextOf(p) + (TextOf(q[..n]) + t) == (TextOf(p) + TextOf(q[..n])) + t;
      var s := if q[n].ReasoningMessageContent? then q[n].delta else "";
      assert ReasoningOf(p) + (ReasoningOf(q[..n]) + s) == (ReasoningOf(p) + ReasoningOf(q[..n])) + s;
    }
  }

  lemma {:induction false} NoContentNoText(trace: seq<Output>)
    requires forall i :: 0 <= i < |trace| ==> !trace[i].TextContent?
    ensures TextOf(trace) == ""
  {
    if trace != [] {
      NoContentNoText(trace[..|trace| - 1]);
    }
  }

  lemma {:induction false} NoContentNoReasoning(trace: seq<Output>)
    requires forall i :: 0 <= i < |trace| ==> !trace[i].ReasoningMessageContent?
    ensures ReasoningOf(trace) == ""
  {
    if trace != [] {
      NoContentNoReasoning(trace[..|trace| - 1]);
    }
  }

  predicate IsContent(o: Output) {
    o.TextContent? || o.ReasoningMessageContent?
  }

  lemma NoContentNothing(trace: seq<Output>)
    requires forall i :: 0 <= i < |trace| ==> !IsContent(trace[i])
    ensures TextOf(trace) == "" && ReasoningOf(trace) == ""
  {
    NoContentNoText(trace);
    NoContentNoReasoning(trace);
  }

  /** A stretch without content, then one event. */
  lemma {:induction false} OneContent(closed: seq<Output>, o: Output)
    requires forall i :: 0 <= i < |closed| ==> !IsContent(closed[i])
    ensures TextOf(closed + [o]) == if o.TextContent? then o.delta else ""
    ensures ReasoningOf(closed + [o]) == if o.ReasoningMessageContent? then o.delta else ""
  {
    NoContentNothing(closed);
    assert (closed + [o])[..|closed|] == closed;
  }

  lemma {:induction false} ClosingHasNoContent(f: Fields)
    ensures forall i :: 0 <= i < |CloseThinking(f).1| ==> !IsContent(CloseThinking(f).1[i])
    ensures forall i :: 0 <= i < |CloseAll(f).1| ==> !IsContent(CloseAll(f).1[i])
  {
  }

  lemma {:induction false} ConvertKeepsText(f: Fields, e: Input)
    ensures TextOf(Convert(f, e).1) == if e.TextDelta? then e.delta else ""
    ensures ReasoningOf(Convert(f, e).1) == if e.ThinkingDelta? then e.delta else ""
  {
    ClosingHasNoContent(f);
    hide TextOf, ReasoningOf, CloseThinking, CloseAll;
    var o := Convert(f, e).1;
    match e {
      case TextDelta(delta) =>
        var (f1, closed) := CloseThinking(f);
        if f1.activeMsg == NO_ID {
          var id := f1.msgSeq + 1;
          OneContent(closed + [TextStart(id)], TextContent(id, delta));
          assert o == (closed + [TextStart(id)]) + [TextContent(id, delta)];
        } else {
          OneContent(closed, TextContent(f1.activeMsg, delta));
        }
      case ThinkingDelta(delta) =>
        if f.activeThinking == NO_ID {
          var t, id := f.thinkingSeq + 1, f.msgSeq + 1;
          OneContent([ReasoningStart(t), ReasoningMessageStart(id)], ReasoningMessageContent(id, delta));
          assert o == [ReasoningStart(t), ReasoningMessageStart(id)] + [ReasoningMessageContent(id, delta)];
        } else {
          OneContent([], ReasoningMessageContent(f.activeThinkingMessage, delta));
          assert o == [] + [ReasoningMessageContent(f.activeThinkingMessage, delta)];
        }
      case _ => NoContentNothing(o);
    }
  }

  /** The emitted text and reasoning are exactly the received ones. */
  lemma {:induction false} TextIsConserved(inputs: seq<Input>)
    ensures TextOf(ConvertAll(INITIAL, inputs).1) == InputText(inputs)
    ensures ReasoningOf(ConvertAll(INITIAL, inputs).1) == InputThinking(inputs)
  {
    if inputs != [] {
      var n := |inputs| - 1;
      TextIsConserved(inputs[..n]);
      var (f1, o1) := ConvertAll(INITIAL, inputs[..n]);
      hide Convert, TextOf, ReasoningOf;
      ConvertKeepsText(f1, inputs[n]);
      TextConcat(o1, Convert(f1, inputs[n]).1);
    }
  }

  // ---------------------------------------------------------------- nothing else is lost either

  /** The events of text and reasoning messages. */
  predicate OfMessage(o: Output) {
    || o.TextStart? || o.TextContent? || o.TextEnd? || o.ReasoningStart? || o.ReasoningMessageStart?
    || o.ReasoningMessageContent? || o.ReasoningMessageEnd? || o.ReasoningEnd?
  }

  /** What a reader learns from the other events: the run, its turns and its tool calls, with
      arguments and results as they come in after the start or the end of their call. */
  function Told(trace: seq<Output>): seq<Input> {
    if trace == [] then [] else
      TellOne(Told(trace[..|trace| - 1]), trace[|trace| - 1])
  }

  function TellOne(told: seq<Input>, o: Output): seq<Input> {
    match o
    case RunStarted => told + [AgentStart]
    case RunFinished(output) => told + [AgentEnd(output)]
    case RunError(message) => told + [AgentError(message)]
    case StepStarted(turn) => told + [TurnStart(turn)]
    case StepFinished(turn) => told + [TurnEnd(turn)]
    case ToolStart(id, name) => told + [ToolCallStart(id, name, "")]
    case ToolArgs(id, delta) =>
      if told != [] && told[|told| - 1].ToolCallStart? && told[|told| - 1].toolCallId == id then
        told[|told| - 1 := told[|told| - 1].(arguments := told[|told| - 1].arguments + delta)]
      else told
    case ToolEnd(id) => told + [ToolCallEnd(id, "")]
    case ToolResult(id, content) =>
      if told != [] && told[|told| - 1] == ToolCallEnd(id, "") then told[|told| - 1 := ToolCallEnd(id, content)] else told
    case Custom(name) => told + [OtherEvent(name)]
    case _ => told
  }

  /** What can be told of an event: resets and failovers are custom events of that name. */
  function Tellable(e: Input): seq<Input> {
    match e
    case TextDelta(_) => []
    case ThinkingDelta(_) => []
    case MessageReset => [OtherEvent("message_reset")]
    case ModelFailover => [OtherEvent("model_failover")]
    case _ => [e]
  }

  function AllTellable(inputs: seq<Input>): seq<Input> {
    if inputs == [] then [] else AllTellable(inputs[..|inputs| - 1]) + Tellable(inputs[|inputs| - 1])
  }

  lemma ToldStep(p: seq<Output>, o: Output)
    ensures Told(p + [o]) == TellOne(Told(p), o)
  {
    assert (p + [o])[..|p|] == p;
  }

  lemma MessageTellsNothing(told: seq<Input>, o: Output)
    requires OfMessage(o)
    ensures TellOne(told, o) == told
  {
  }

  lemma {:induction false} MessagesTellNothing(p: seq<Output>, q: seq<Output>)
    requires forall i :: 0 <= i < |q| ==> OfMessage(q[i])
    ensures Told(p + q) == Told(p)
  {
    hide Told, TellOne, OfMessage;
    if q == [] {
      assert p + q == p;
    } else {
      var n := |q| - 1;
      MessagesTellNothing(p, q[..n]);
      assert p + q == p + q[..n] + [q[n]];
      ToldStep(p + q[..n], q[n]);
      MessageTellsNothing(Told(p), q[n]);
    }
  }

  lemma CallTells(told: seq<Input>, id: string, name: string, arguments: string, result: string)
    ensures TellOne(TellOne(told, ToolStart(id, name)), ToolArgs(id, arguments)) == told + [ToolCallStart(id, name, arguments)]
    ensures TellOne(TellOne(told, ToolEnd(id)), ToolResult(id, result)) == told + [ToolCallEnd(id, result)]
  {
    assert "" + arguments == arguments;
  }

  lemma TwoTell(p: seq<Output>, o: Output, q: Output)
    ensures Told(p + [o, q]) == TellOne(TellOne(Told(p), o), q)
  {
    assert p + [o, q] == p + [o] + [q];
    hide Told, TellOne;
    ToldStep(p, o);
    ToldStep(p + [o], q);
  }

  lemma AnnouncementTells(p: seq<Output>, e: Input)
    requires !KeepsOpen(e)
    ensures Told(p + Announce(e)) == Told(p) + Tellable(e)
  {
    hide Told;
    match e {
      case ToolCallStart(id, name, arguments) =>
        TwoTell(p, ToolStart(id, name), ToolArgs(id, arguments));
        CallTells(Told(p), id, name, arguments, "");
        hide TellOne;
      case ToolCallEnd(id, result) =>
        TwoTell(p, ToolEnd(id), ToolResult(id, result));
        CallTells(Told(p), id, "", "", result);
        hide TellOne;
      case AgentEnd(output) => ToldStep(p, RunFinished(output));
      case AgentError(message) => ToldStep(p, RunError(message));
      case TurnStart(turn) => ToldStep(p, StepStarted(turn));
      case TurnEnd(turn) => ToldStep(p, StepFinished(turn));
      case MessageReset => ToldStep(p, Custom("message_reset"));
      case OtherEvent(kind) => ToldStep(p, Custom(kind));
    }
  }

  lemma ClosingIsOfMessages(f: Fields)
    ensures forall i :: 0 <= i < |CloseThinking(f).1| ==> OfMessage(CloseThinking(f).1[i])
    ensures forall i :: 0 <= i < |CloseAll(f).1| ==> OfMessage(CloseAll(f).1[i])
  {
  }

  lemma ConvertTells(p: seq<Output>, f: Fields, e: Input)
    ensures Told(p + Convert(f, e).1) == Told(p) + Tellable(e)
  {
    hide Told, TellOne;
    match e {
      case AgentStart => OneTells(p, RunStarted);
      case ModelFailover => OneTells(p, Custom("model_failover"));
      case TextDelta(delta) =>
        ClosingIsOfMessages(f);
        MessagesTellNothing(p, ConvertText(f, delta).1);
      case ThinkingDelta(delta) =>
        MessagesTellNothing(p, ConvertThinking(f, delta).1);
      case _ =>
        var closed := CloseAll(f).1;
        ClosingIsOfMessages(f);
        MessagesTellNothing(p, closed);
        AnnouncementTells(p + closed, e);
        assert p + (closed + Announce(e)) == p + closed + Announce(e);
    }
  }

  lemma OneTells(p: seq<Output>, o: Output)
    requires o.RunStarted? || o.Custom?
    ensures Told(p + [o]) == Told(p) + if o.RunStarted? then [AgentStart] else [OtherEvent(o.name)]
  {
    hide Told;
    ToldStep(p, o);
  }

  /** From the output a reader learns of every run, turn, tool call and other event of the
      input, with all it carries, once and in order. */
  lemma {:induction false} EventsAreConserved(inputs: seq<Input>)
    ensures Told(ConvertAll(INITIAL, inputs).1) == AllTellable(inputs)
  {
    if inputs != [] {
      var n := |inputs| - 1;
      EventsAreConserved(inputs[..n]);
      var (f1, o1) := ConvertAll(INITIAL, inputs[..n]);
      hide Convert, Told, Tellable;
      ConvertTells(o1, f1, inputs[n]);
    }
  }

  // ---------------------------------------------------------------- no message is split

  /** How many events of a trace start a text message, and how many a reasoning phase. */
  function TextStarts(trace: seq<Output>): nat {
    if trace == [] then 0 else
      TextStarts(trace[..|trace| - 1]) + if trace[|trace| - 1].TextStart? then 1 else 0
  }

  function ReasoningStarts(trace: seq<Output>): nat {
    if trace == [] then 0 else
      ReasoningStarts(trace[..|trace| - 1]) + if trace[|trace| - 1].ReasoningStart? then 1 else 0
  }

  /** How many stretches of text and of reasoning the input consists of, and which go on. */
  datatype Spans = Spans(texts: nat, inText: bool, thoughts: nat, inThought: bool)

  /** Text goes on over reasoning, reasoning ends with text, and both end at a boundary. */
  function NextSpan(s: Spans, e: Input): Spans {
    match e
    case TextDelta(_) => Spans(s.texts + (if s.inText then 0 else 1), true, s.thoughts, false)
    case ThinkingDelta(_) => Spans(s.texts, s.inText, s.thoughts + (if s.inThought then 0 else 1), true)
    case AgentStart => s
    case ModelFailover => s
    case _ => s.(inText := false, inThought := false)
  }

  function SpansOf(inputs: seq<Input>): Spans {
    if inputs == [] then Spans(0, false, 0, false)
    else NextSpan(SpansOf(inputs[..|inputs| - 1]), inputs[|inputs| - 1])
  }

  lemma {:induction false} StartsConcat(p: seq<Output>, q: seq<Output>)
    ensures TextStarts(p + q) == TextStarts(p) + TextStarts(q)
    ensures ReasoningStarts(p + q) == ReasoningStarts(p) + ReasoningStarts(q)
  {
    if q == [] {
      assert p + q == p;
    } else {
      var n := |q| - 1;
      StartsConcat(p, q[..n]);
      assert (p + q)[..|p + q| - 1] == p + q[..n];
    }
  }

  lemma {:induction false} NoneStart(trace: seq<Output>)
    requires forall i :: 0 <= i < |trace| ==> !trace[i].TextStart? && !trace[i].ReasoningStart?
    ensures TextStarts(trace) == 0 && ReasoningStarts(trace) == 0
  {
    if trace != [] {
      NoneStart(trace[..|trace| - 1]);
    }
  }

  lemma StartsOfOne(o: Output)
    ensures TextStarts([o]) == (if o.TextStart? then 1 else 0)
    ensures ReasoningStarts([o]) == (if o.ReasoningStart? then 1 else 0)
  {
    assert [o][..0] == [];
  }

  lemma TextStartsOnce(f: Fields, delta: string)
    ensures TextStarts(ConvertText(f, delta).1) == (if f.activeMsg == NO_ID then 1 else 0)
    ensures ReasoningStarts(ConvertText(f, delta).1) == 0
  {
    var (f1, closed) := CloseThinking(f);
    NoneStart(closed);
    var out := ConvertText(f, delta).1;
    hide TextStarts, ReasoningStarts;
    if f.activeMsg == NO_ID {
      var id := f1.msgSeq + 1;
      StartsConcat(closed, [TextStart(id), TextContent(id, delta)]);
      StartsConcat([TextStart(id)], [TextContent(id, delta)]);
      assert [TextStart(id)] + [TextContent(id, delta)] == [TextStart(id), TextContent(id, delta)];
      StartsOfOne(TextStart(id));
      StartsOfOne(TextContent(id, delta));
    } else {
      StartsConcat(closed, [TextContent(f.activeMsg, delta)]);
      StartsOfOne(TextContent(f.activeMsg, delta));
    }
  }

  lemma ThinkingStartsOnce(f: Fields, delta: string)
    ensures TextStarts(ConvertThinking(f, delta).1) == 0
    ensures ReasoningStarts(ConvertThinking(f, delta).1) == (if f.activeThinking == NO_ID then 1 else 0)
  {
    if f.activeThinking == NO_ID {
      var t, id := f.thinkingSeq + 1, f.msgSeq + 1;
      var rest := [ReasoningMessageStart(id), ReasoningMessageContent(id, delta)];
      NoneStart(rest);
      hide TextStarts, ReasoningStarts;
      StartsConcat([ReasoningStart(t)], rest);
      assert [ReasoningStart(t)] + rest == ConvertThinking(f, delta).1;
      StartsOfOne(ReasoningStart(t));
    } else {
      NoneStart(ConvertThinking(f, delta).1);
    }
  }

  lemma BoundariesStartNothing(f: Fields, e: Input)
    requires !e.TextDelta? && !e.ThinkingDelta?
    ensures TextStarts(Convert(f, e).1) == 0 && ReasoningStarts(Convert(f, e).1) == 0
  {
    hide TextStarts, ReasoningStarts;
    NoneStart(Convert(f, e).1);
  }

  /** The fields know which stretches go on. */
  ghost predicate InSpans(f: Fields, s: Spans) {
    && (f.activeMsg != NO_ID <==> s.inText) && (f.activeThinking != NO_ID <==> s.inThought)
  }

  lemma StepInSpans(f: Fields, s: Spans, e: Input)
    requires InSpans(f, s)
    ensures InSpans(Convert(f, e).0, NextSpan(s, e))
    ensures s.texts + TextStarts(Convert(f, e).1) == NextSpan(s, e).texts
    ensures s.thoughts + ReasoningStarts(Convert(f, e).1) == NextSpan(s, e).thoughts
  {
    hide TextStarts, ReasoningStarts;
    match e {
      case TextDelta(delta) => TextStartsOnce(f, delta);
      case ThinkingDelta(delta) => ThinkingStartsOnce(f, delta);
      case _ => BoundariesStartNothing(f, e);
    }
  }

  /** Each stretch of text becomes one message, and each stretch of reasoning one phase. */
  lemma {:induction false} OneMessageEach(inputs: seq<Input>)
    ensures InSpans(ConvertAll(INITIAL, inputs).0, SpansOf(inputs))
    ensures TextStarts(ConvertAll(INITIAL, inputs).1) == SpansOf(inputs).texts
    ensures ReasoningStarts(ConvertAll(INITIAL, inputs).1) == SpansOf(inputs).thoughts
  {
    if inputs != [] {
      var n := |inputs| - 1;
      OneMessageEach(inputs[..n]);
      var (f1, o1) := ConvertAll(INITIAL, inputs[..n]);
      hide Convert, InSpans, NextSpan, TextStarts, ReasoningStarts;
      StepInSpans(f1, SpansOf(inputs[..n]), inputs[n]);
      StartsConcat(o1, Convert(f1, inputs[n]).1);
    }
  }
}
