/**
 * The prompt protocol of `crates/cli/src/acp.rs`: a dispatcher that handles one request at a time and one
 * worker per accepted prompt, sharing a cancel flag, a completed flag and the output.
 *
 * A step is one request handled by the dispatcher, or a worker's reading of the cancel flag, its write of a
 * line, or its setting of the completed flag. What a handler reads of the flags and what it then writes is
 * one step. `log` records, in order, what was written, which requests were notifications, and when prompts
 * were accepted, cancelled and fed.
 */
module Acp {
  import opened Common

  type SessionId = string

  datatype Block = Text(text: string) | Resource(content: Option<string>) | OtherBlock

  datatype Request =
    | Initialize
    | Authenticate
    | NewSession(id: SessionId, agentFound: bool)
    | LoadSession(session: Option<SessionId>, found: bool)
    | DeleteConversation(session: Option<SessionId>)
    | Prompt(params: Option<PromptParams>)
    | Cancel(session: Option<SessionId>)
    | OtherMethod(known: bool)

  /** A `prompt` array that does not decode counts as empty. */
  datatype PromptParams = PromptParams(session: Option<SessionId>, blocks: seq<Block>)

  datatype Error = InvalidRequest | InvalidParams | MethodNotFound | Internal

  datatype Stop = EndTurn | MaxTokens | MaxTurnRequests | Cancelled

  /** Why the model stopped, and what the client is told. */
  datatype ModelStop = ModelEndTurn | ModelStopSequence | ModelMaxTokens | ModelToolUse

  function StopFor(m: ModelStop): Stop {
    match m
    case ModelEndTurn => EndTurn
    case ModelStopSequence => EndTurn
    case ModelMaxTokens => MaxTokens
    case ModelToolUse => MaxTurnRequests
  }

  datatype Body = Success | Stopped(stop: Stop) | Failed(error: Error)

  /** What the model streams to a worker. */
  datatype StreamEvent =
    | TextDelta(text: string)
    | ThinkingDelta(text: string)
    | ToolUseStart(id: string, name: string)
    | ToolUseEnd(id: string, name: string, input: string)
    | ToolResult(id: string, name: string, preview: string, isError: bool)
    | ContentComplete(reason: ModelStop)
    | InternalEvent

  datatype Note =
    | MessageChunk(text: string)
    | ThoughtChunk(text: string)
    | ToolPending(id: string, name: string)
    | ToolInProgress(id: string, name: string, input: string)
    | ToolFinished(id: string, failed: bool, preview: string)

  datatype Line = Reply(request: nat, body: Body) | Update(session: SessionId, note: Note)

  datatype Entry =
    | Wrote(line: Line)
    | Notified(request: nat)
    | Accepted(prompt: nat)
    | Marked(prompt: nat)
    | Received(prompt: nat)

  /**
   * `Noting` holds the update, `Drained` the reply that is still to be written; `Completed` is the completed
   * flag.
   */
  datatype Phase =
    | Starting
    | Streaming
    | Noting(note: Note)
    | Drained(reply: Body)
    | Replied(reply: Body)
    | Completed(reply: Body)

  type Pending = seq<(string, string)>

  datatype PromptState = PromptState(request: nat, session: SessionId, message: string, cancelled: bool, phase: Phase,
                                     stop: Stop, text: string, pending: Pending)

  datatype State = State(initialized: bool, sessions: set<SessionId>, active: map<SessionId, nat>,
                         prompts: seq<PromptState>, requests: nat, log: seq<Entry>)

  const START := State(false, {}, map[], [], 0, [])

  // ---------------------------------------------------------------------------------------------
  // The dispatcher
  // ---------------------------------------------------------------------------------------------

  function Texts(blocks: seq<Block>): seq<string> {
    if blocks == [] then []
    else
      (match blocks[0]
       case Text(t) => [t]
       case Resource(Some(t)) => [t]
       case _ => [])
      + Texts(blocks[1..])
  }

  function JoinLines(texts: seq<string>): string {
    if texts == [] then "" else if |texts| == 1 then texts[0] else texts[0] + "\n" + JoinLines(texts[1..])
  }

  predicate Live(s: State, session: SessionId) {
    session in s.active && s.active[session] < |s.prompts| && !s.prompts[s.active[session]].phase.Completed?
  }

  /** Why a prompt is turned away; `storeOk` tells whether the user message could be persisted. */
  function Refusal(s: State, params: Option<PromptParams>, storeOk: bool): Option<Error> {
    if params.None? || params.value.session.None? then Some(InvalidParams)
    else
      var session := params.value.session.value;
      if session !in s.sessions then Some(InvalidParams)
      else if Live(s, session) then Some(InvalidParams)
      else if JoinLines(Texts(params.value.blocks)) == "" then Some(InvalidParams)
      else if !storeOk then Some(Internal)
      else None
  }

  function Answer(s: State, body: Body): State {
    s.(requests := s.requests + 1, log := s.log + [Wrote(Reply(s.requests, body))])
  }

  function Handle(s: State, req: Request, versionOk: bool, storeOk: bool): State {
    if !versionOk || (!req.Initialize? && !req.Authenticate? && !s.initialized) then Answer(s, Failed(InvalidRequest))
    else
      match req
      case Initialize => Answer(s.(initialized := true), Success)
      case Authenticate => Answer(s, Success)
      case NewSession(id, agentFound) =>
        if !agentFound then Answer(s, Failed(InvalidParams))
        else if !storeOk then Answer(s, Failed(Internal))
        else Answer(s.(sessions := s.sessions + {id}), Success)
      case LoadSession(session, found) =>
        if session.None? || !found then Answer(s, Failed(InvalidParams))
        else Answer(s.(sessions := s.sessions + {session.value}), if storeOk then Success else Failed(Internal))
      case DeleteConversation(session) =>
        Answer(if session.Some? then s.(sessions := s.sessions - {session.value}) else s, Success)
      case OtherMethod(known) => Answer(s, if known then Success else Failed(MethodNotFound))
      case Cancel(session) =>
        var s1 := s.(requests := s.requests + 1, log := s.log + [Notified(s.requests)]);
        if session.Some? && Live(s, session.value) then
          var p := s.active[session.value];
          s1.(prompts := s.prompts[p := s.prompts[p].(cancelled := true)], log := s1.log + [Marked(p)])
        else s1
      case Prompt(params) =>
        match Refusal(s, params, storeOk)
        case Some(e) => Answer(s, Failed(e))
        case None =>
          var session := params.value.session.value;
          var message := JoinLines(Texts(params.value.blocks));
          var started := PromptState(s.requests, session, message, false, Starting, EndTurn, "", []);
          s.(requests := s.requests + 1, prompts := s.prompts + [started], active := s.active[session := |s.prompts|],
             log := s.log + [Accepted(|s.prompts|)])
  }

  // ---------------------------------------------------------------------------------------------
  // The workers
  // ---------------------------------------------------------------------------------------------

  function PositionOfId(pending: Pending, id: string): Option<nat> {
    if pending == [] then None
    else if pending[0].1 == id then Some(0)
    else match PositionOfId(pending[1..], id)
         case None => None
         case Some(i) => Some(i + 1)
  }

  function PositionOfName(pending: Pending, name: string): Option<nat> {
    if pending == [] then None
    else if pending[0].0 == name then Some(0)
    else match PositionOfName(pending[1..], name)
         case None => None
         case Some(i) => Some(i + 1)
  }

  function Without(pending: Pending, i: nat): Pending {
    if i < |pending| then pending[..i] + pending[i + 1..] else pending
  }

  /** The call a result belongs to: the one with its id, else the oldest of its name, else its own id. */
  function Resolve(pending: Pending, id: string, name: string): (string, Pending) {
    match PositionOfId(pending, id)
    case Some(i) => (id, Without(pending, i))
    case None =>
      match PositionOfName(pending, name)
      case Some(i) => (if i < |pending| then pending[i].1 else id, Without(pending, i))
      case None => (id, pending)
  }

  function MapEvent(event: StreamEvent, pending: Pending): (Option<Note>, Pending) {
    match event
    case TextDelta(text) => (Some(MessageChunk(text)), pending)
    case ThinkingDelta(text) => (Some(ThoughtChunk(text)), pending)
    case ToolUseStart(id, name) => (Some(ToolPending(id, name)), pending + [(name, id)])
    case ToolUseEnd(id, name, input) => (Some(ToolInProgress(id, name, input)), pending)
    case ToolResult(id, name, preview, isError) =>
      var (call, rest) := Resolve(pending, id, name);
      (Some(ToolFinished(call, isError, preview)), rest)
    case ContentComplete(_) => (None, pending)
    case InternalEvent => (None, pending)
  }

  /** The worker takes one event from its channel; a raised cancel flag makes it leave the loop. */
  function Feed(s: State, p: nat, event: StreamEvent): State
    requires p < |s.prompts|
  {
    var w := s.prompts[p];
    s.(prompts := s.prompts[p := Taken(w, event)], log := s.log + [Received(p)])
  }

  function Taken(w: PromptState, event: StreamEvent): PromptState {
    if w.cancelled then w.(stop := Cancelled, phase := Drained(Stopped(Cancelled)))
    else
      var (note, pending) := MapEvent(event, w.pending);
      w.(text := if event.TextDelta? then w.text + event.text else w.text, pending := pending,
         stop := if event.ContentComplete? then StopFor(event.reason) else w.stop,
         phase := match note case Some(n) => Noting(n) case None => Streaming)
  }

  /** The worker writes the update of the event it took. */
  function Noted(s: State, p: nat): State
    requires p < |s.prompts| && s.prompts[p].phase.Noting?
  {
    var w := s.prompts[p];
    InPhase(s, p, Streaming).(log := s.log + [Wrote(Update(w.session, w.phase.note))])
  }

  datatype Step =
    | Dispatch(req: Request, versionOk: bool, storeOk: bool)
    | StartStreaming(p: nat)
    | StartFails(p: nat)
    | Event(p: nat, event: StreamEvent)
    | WriteUpdate(p: nat)
    | ChannelClosed(p: nat)
    | WriteReply(p: nat)
    | SetCompleted(p: nat)

  /** A step a worker is not at does nothing. */
  predicate Ready(s: State, step: Step) {
    match step
    case Dispatch(_, _, _) => true
    case StartStreaming(p) => p < |s.prompts| && s.prompts[p].phase.Starting?
    case StartFails(p) => p < |s.prompts| && s.prompts[p].phase.Starting?
    case Event(p, _) => p < |s.prompts| && s.prompts[p].phase.Streaming?
    case WriteUpdate(p) => p < |s.prompts| && s.prompts[p].phase.Noting?
    case ChannelClosed(p) => p < |s.prompts| && s.prompts[p].phase.Streaming?
    case WriteReply(p) => p < |s.prompts| && s.prompts[p].phase.Drained?
    case SetCompleted(p) => p < |s.prompts| && s.prompts[p].phase.Replied?
  }

  function InPhase(s: State, p: nat, phase: Phase): State
    requires p < |s.prompts|
  {
    s.(prompts := s.prompts[p := s.prompts[p].(phase := phase)])
  }

  function Next(s: State, step: Step): State {
    if !Ready(s, step) then s
    else
      match step
      case Dispatch(req, versionOk, storeOk) => Handle(s, req, versionOk, storeOk)
      case StartStreaming(p) => InPhase(s, p, Streaming)
      case StartFails(p) => InPhase(s, p, Drained(Failed(Internal)))
      case Event(p, event) => Feed(s, p, event)
      case WriteUpdate(p) => Noted(s, p)
      case ChannelClosed(p) => InPhase(s, p, Drained(Stopped(s.prompts[p].stop)))
      case WriteReply(p) =>
        var w := s.prompts[p];
        InPhase(s, p, Replied(w.phase.reply)).(log := s.log + [Wrote(Reply(w.request, w.phase.reply))])
      case SetCompleted(p) => InPhase(s, p, Completed(s.prompts[p].phase.reply))
  }

  function Run(steps: seq<Step>): State {
    if steps == [] then START else Next(Run(steps[..|steps| - 1]), steps[|steps| - 1])
  }

  // ---------------------------------------------------------------------------------------------
  // The connection
  // ---------------------------------------------------------------------------------------------

  class Connection {
    var initialized: bool
    var sessions: set<SessionId>
    var active: map<SessionId, nat>
    var prompts: seq<PromptState>
    var requests: nat
    var log: seq<Entry>

    constructor ()
      ensures Now() == START
    {
      initialized, sessions, active, prompts, requests, log := false, {}, map[], [], 0, [];
    }

    ghost function Now(): State
      reads this
    {
      State(initialized, sessions, active, prompts, requests, log)
    }

    method Write(body: Body)
      modifies this
      ensures Now() == Answer(old(Now()), body)
    {
      log := log + [Wrote(Reply(requests, body))];
      requests := requests + 1;
    }

    method HandleRequest(req: Request, versionOk: bool, storeOk: bool)
      modifies this
      ensures Now() == Handle(old(Now()), req, versionOk, storeOk)
    {
      if !versionOk {
        Write(Failed(InvalidRequest));
        return;
      }
      if !req.Initialize? && !req.Authenticate? && !initialized {
        Write(Failed(InvalidRequest));
        return;
      }
      match req {
        case Initialize =>
          initialized := true;
          Write(Success);
        case Authenticate =>
          Write(Success);
        case NewSession(id, agentFound) =>
          if !agentFound {
            Write(Failed(InvalidParams));
          } else if !storeOk {
            Write(Failed(Internal));
          } else {
            sessions := sessions + {id};
            Write(Success);
          }
        case LoadSession(session, found) =>
          if session.None? || !found {
            Write(Failed(InvalidParams));
          } else {
            sessions := sessions + {session.value};
            Write(if storeOk then Success else Failed(Internal));
          }
        case DeleteConversation(session) =>
          if session.Some? {
            sessions := sessions - {session.value};
          }
          Write(Success);
        case OtherMethod(known) =>
          Write(if known then Success else Failed(MethodNotFound));
        case Cancel(session) =>
          SessionCancel(session);
        case Prompt(params) =>
          SessionPrompt(params, storeOk);
      }
    }

    method SessionCancel(session: Option<SessionId>)
      modifies this
      ensures var s := old(Now()).(initialized := true);
              Now() == Handle(s, Cancel(session), true, true).(initialized := old(initialized))
    {
      log := log + [Notified(requests)];
      requests := requests + 1;
      if session.Some? && session.value in active {
        var p := active[session.value];
        if p < |prompts| && !prompts[p].phase.Completed? {
          prompts := prompts[p := prompts[p].(cancelled := true)];
          log := log + [Marked(p)];
        }
      }
    }

    method SessionPrompt(params: Option<PromptParams>, storeOk: bool)
      modifies this
      ensures var s := old(Now()).(initialized := true);
              Now() == Handle(s, Prompt(params), true, storeOk).(initialized := old(initialized))
    {
      if params.None? || params.value.session.None? {
        Write(Failed(InvalidParams));
        return;
      }
      var session := params.value.session.value;
      if session !in sessions {
        Write(Failed(InvalidParams));
        return;
      }
      if session in active {
        var p := active[session];
        if p < |prompts| && !prompts[p].phase.Completed? {
          Write(Failed(InvalidParams));
          return;
        }
      }
      var message := JoinLines(Texts(params.value.blocks));
      if message == "" {
        Write(Failed(InvalidParams));
        return;
      }
      if !storeOk {
        Write(Failed(Internal));
        return;
      }
      var p := |prompts|;
      prompts := prompts + [PromptState(requests, session, message, false, Starting, EndTurn, "", [])];
      active := active[session := p];
      requests := requests + 1;
      log := log + [Accepted(p)];
    }

    /** One turn of the worker's receive loop, up to the write of its update. */
    method WorkerEvent(p: nat, event: StreamEvent)
      requires p < |prompts|
      modifies this
      ensures Now() == Feed(old(Now()), p, event)
    {
      log := log + [Received(p)];
      var w := prompts[p];
      if w.cancelled {
        prompts := prompts[p := w.(stop := Cancelled, phase := Drained(Stopped(Cancelled)))];
        return;
      }
      if event.TextDelta? {
        w := w.(text := w.text + event.text);
      }
      var note, pending := MapStreamEvent(event, w.pending);
      w := w.(pending := pending);
      if event.ContentComplete? {
        w := w.(stop := StopFor(event.reason));
      }
      w := w.(phase := if note.Some? then Noting(note.value) else Streaming);
      prompts := prompts[p := w];
    }

    method WorkerUpdate(p: nat)
      requires p < |prompts| && prompts[p].phase.Noting?
      modifies this
      ensures Now() == Noted(old(Now()), p)
    {
      var w := prompts[p];
      log := log + [Wrote(Update(w.session, w.phase.note))];
      prompts := prompts[p := w.(phase := Streaming)];
    }

    method MapStreamEvent(event: StreamEvent, fifo: Pending) returns (note: Option<Note>, fifo': Pending)
      ensures (note, fifo') == MapEvent(event, fifo)
    {
      fifo' := fifo;
      match event {
        case TextDelta(text) => note := Some(MessageChunk(text));
        case ThinkingDelta(text) => note := Some(ThoughtChunk(text));
        case ToolUseStart(id, name) =>
          fifo' := fifo' + [(name, id)];
          note := Some(ToolPending(id, name));
        case ToolUseEnd(id, name, input) => note := Some(ToolInProgress(id, name, input));
        case ToolResult(id, name, preview, isError) =>
          var call := id;
          var at := PositionOfId(fifo, id);
          PositionFinds(fifo, id, name);
          if at.Some? {
            call := fifo[at.value].1;
            fifo' := fifo[..at.value] + fifo[at.value + 1..];
          } else {
            at := PositionOfName(fifo, name);
            if at.Some? {
              call := fifo[at.value].1;
              fifo' := fifo[..at.value] + fifo[at.value + 1..];
            }
          }
          note := Some(ToolFinished(call, isError, preview));
        case ContentComplete(_) => note := None;
        case InternalEvent => note := None;
      }
    }
  }

  lemma {:induction false} PositionFinds(pending: Pending, id: string, name: string)
    ensures PositionOfId(pending, id).Some? ==>
              var i := PositionOfId(pending, id).value;
              i < |pending| && pending[i].1 == id && forall j :: 0 <= j < i ==> pending[j].1 != id
    ensures PositionOfId(pending, id).None? ==> forall j :: 0 <= j < |pending| ==> pending[j].1 != id
    ensures PositionOfName(pending, name).Some? ==>
              var i := PositionOfName(pending, name).value;
              i < |pending| && pending[i].0 == name && forall j :: 0 <= j < i ==> pending[j].0 != name
    ensures PositionOfName(pending, name).None? ==> forall j :: 0 <= j < |pending| ==> pending[j].0 != name
  {
    if pending != [] {
      PositionFinds(pending[1..], id, name);
      assert forall j :: 1 <= j < |pending| ==> pending[j] == pending[1..][j - 1];
    }
  }
}
