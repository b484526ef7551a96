/**
 * What the client is shown of a prompt, in every interleaving: the updates written for it are those of the events
 * its worker recorded, its text and thoughts are those that were streamed, and its reply names the reason why the
 * model stopped.
 */
module AcpUpdates {
  import opened Common
  import opened Acp
  import opened AcpRuns

  // ---------------------------------------------------------------------------------------------
  // What is written for a prompt
  // ---------------------------------------------------------------------------------------------

  function SessionsOf(prompts: seq<PromptState>): (sessions: seq<SessionId>)
    ensures |sessions| == |prompts| && forall p :: 0 <= p < |prompts| ==> sessions[p] == prompts[p].session
  {
    seq(|prompts|, p requires 0 <= p < |prompts| => prompts[p].session)
  }

  /** The prompt of the session that was accepted last. */
  function Current(sessions: seq<SessionId>, log: seq<Entry>, session: SessionId): Option<nat> {
    if log == [] then None
    else
      var last := log[|log| - 1];
      if last.Accepted? && last.prompt < |sessions| && sessions[last.prompt] == session then Some(last.prompt)
      else Current(sessions, log[..|log| - 1], session)
  }

  predicate IsUpdate(e: Entry) {
    e.Wrote? && e.line.Update?
  }

  /** The updates written for prompt `p`: those of its session, from its acceptance to the next one. */
  function UpdatesFor(sessions: seq<SessionId>, log: seq<Entry>, p: nat): seq<Note> {
    if log == [] then []
    else
      var before, last := log[..|log| - 1], log[|log| - 1];
      UpdatesFor(sessions, before, p)
      + if IsUpdate(last) && Current(sessions, before, last.line.session) == Some(p) then [last.line.note] else []
  }

  function Held(phase: Phase): seq<Note> {
    if phase.Noting? then [phase.note] else []
  }

  /** What was written for prompt `p` and what its worker is about to write. */
  function ShownOf(s: State, p: nat): seq<Note>
    requires p < |s.prompts|
  {
    UpdatesFor(SessionsOf(s.prompts), s.log, p) + Held(s.prompts[p].phase)
  }

  // ---------------------------------------------------------------------------------------------
  // What should be written for a list of events
  // ---------------------------------------------------------------------------------------------

  function OldestNamed(calls: Pending, name: string): Option<string> {
    if calls == [] then None else if calls[0].0 == name then Some(calls[0].1) else OldestNamed(calls[1..], name)
  }

  /** The call a result belongs to: the pending one with its id, else the oldest of its name, else a new one. */
  function CallOf(calls: Pending, id: string, name: string): string {
    if HasId(calls, id) || OldestNamed(calls, name).None? then id else OldestNamed(calls, name).value
  }

  function ShownFor(calls: Pending, e: StreamEvent): seq<Note> {
    match e
    case TextDelta(text) => [MessageChunk(text)]
    case ThinkingDelta(text) => [ThoughtChunk(text)]
    case ToolUseStart(id, name) => [ToolPending(id, name)]
    case ToolUseEnd(id, name, input) => [ToolInProgress(id, name, input)]
    case ToolResult(id, name, preview, isError) => [ToolFinished(CallOf(calls, id, name), isError, preview)]
    case _ => []
  }

  function Shown(events: seq<StreamEvent>): seq<Note> {
    if events == [] then []
    else
      var before := events[..|events| - 1];
      Shown(before) + ShownFor(PendingAfter(before), events[|events| - 1])
  }

  ghost predicate FirstId(calls: Pending, id: string, i: nat) {
    i < |calls| && calls[i].1 == id && forall j :: 0 <= j < i ==> calls[j].1 != id
  }

  ghost predicate FirstName(calls: Pending, name: string, i: nat) {
    i < |calls| && calls[i].0 == name && forall j :: 0 <= j < i ==> calls[j].0 != name
  }

  /** A result takes its call out of the list: the first with its id, else the first of its name, else none. */
  ghost predicate TakenOut(calls: Pending, id: string, name: string, rest: Pending) {
    || (exists i: nat :: FirstId(calls, id, i) && rest == calls[..i] + calls[i + 1..])
    || (!HasId(calls, id) && exists i: nat :: FirstName(calls, name, i) && rest == calls[..i] + calls[i + 1..])
    || (!HasId(calls, id) && (forall i :: 0 <= i < |calls| ==> calls[i].0 != name) && rest == calls)
  }

  lemma {:induction false} OldestIsFirst(calls: Pending, name: string)
    ensures if PositionOfName(calls, name).Some? && PositionOfName(calls, name).value < |calls|
            then OldestNamed(calls, name) == Some(calls[PositionOfName(calls, name).value].1)
            else OldestNamed(calls, name).None?
  {
    PositionFinds(calls, "", name);
    if calls != [] {
      PositionFinds(calls[1..], "", name);
      OldestIsFirst(calls[1..], name);
    }
  }

  lemma ResolveIs(calls: Pending, id: string, name: string)
    ensures Resolve(calls, id, name).0 == CallOf(calls, id, name)
    ensures TakenOut(calls, id, name, Resolve(calls, id, name).1)
  {
    hide PositionOfId, PositionOfName, OldestNamed;
    PositionFinds(calls, id, name);
    OldestIsFirst(calls, name);
    var byId, byName := PositionOfId(calls, id), PositionOfName(calls, name);
    if byId.Some? {
      assert FirstId(calls, id, byId.value);
    } else if byName.Some? {
      assert FirstName(calls, name, byName.value);
    }
  }

  /** What one event shows and what it does to the list of pending calls. */
  lemma EventShows(e: StreamEvent, calls: Pending)
    ensures var (note, rest) := MapEvent(e, calls);
            && (if note.Some? then [note.value] else []) == ShownFor(calls, e)
            && match e
               case ToolUseStart(id, name) => rest == calls + [(name, id)]
               case ToolResult(id, name, _, _) => TakenOut(calls, id, name, rest)
               case _ => rest == calls
  {
    hide Resolve, CallOf, TakenOut;
    if e.ToolResult? {
      ResolveIs(calls, e.id, e.name);
    }
  }

  // ---------------------------------------------------------------------------------------------
  // The log grows
  // ---------------------------------------------------------------------------------------------

  ghost predicate AcceptedBelow(log: seq<Entry>, n: nat) {
    forall p: nat {:trigger AcceptedIn(log, p)} :: AcceptedIn(log, p) ==> p < n
  }

  lemma LogSnoc(sessions: seq<SessionId>, log: seq<Entry>, e: Entry, session: SessionId, p: nat)
    ensures Current(sessions, log + [e], session)
            == if e.Accepted? && e.prompt < |sessions| && sessions[e.prompt] == session then Some(e.prompt)
               else Current(sessions, log, session)
    ensures UpdatesFor(sessions, log + [e], p)
            == UpdatesFor(sessions, log, p)
               + if e.Wrote? && e.line.Update? && Current(sessions, log, e.line.session) == Some(p) then [e.line.note]
                 else []
  {
    assert (log + [e])[..|log|] == log;
  }

  lemma {:induction false} OneMoreSession(sessions: seq<SessionId>, x: SessionId, log: seq<Entry>, session: SessionId)
    requires AcceptedBelow(log, |sessions|)
    ensures Current(sessions + [x], log, session) == Current(sessions, log, session)
  {
    if log != [] {
      FrontBelow(log, |sessions|);
      OneMoreSession(sessions, x, log[..|log| - 1], session);
    }
  }

  lemma FrontBelow(log: seq<Entry>, n: nat)
    requires log != [] && AcceptedBelow(log, n)
    ensures AcceptedBelow(log[..|log| - 1], n) && (log[|log| - 1].Accepted? ==> log[|log| - 1].prompt < n)
  {
    var front, last := log[..|log| - 1], log[|log| - 1];
    forall p: nat | AcceptedIn(front, p) ensures p < n {
      assert AcceptedIn(log, p);
    }
    if last.Accepted? {
      assert AcceptedIn(log, last.prompt);
    }
  }

  lemma {:induction false} SameUpdates(sessions: seq<SessionId>, x: SessionId, log: seq<Entry>, p: nat)
    requires AcceptedBelow(log, |sessions|)
    ensures UpdatesFor(sessions + [x], log, p) == UpdatesFor(sessions, log, p)
    ensures UpdatesFor(sessions, log, |sessions|) == []
  {
    if log != [] {
      var front, last := log[..|log| - 1], log[|log| - 1];
      FrontBelow(log, |sessions|);
      SameUpdates(sessions, x, front, p);
      if last.Wrote? && last.line.Update? {
        OneMoreSession(sessions, x, front, last.line.session);
        CurrentIsBelow(sessions, front, last.line.session);
      }
    }
  }

  lemma {:induction false} CurrentIsBelow(sessions: seq<SessionId>, log: seq<Entry>, session: SessionId)
    ensures Current(sessions, log, session).Some? ==>
              var p := Current(sessions, log, session).value; p < |sessions| && sessions[p] == session
  {
    if log != [] {
      CurrentIsBelow(sessions, log[..|log| - 1], session);
    }
  }

  // ---------------------------------------------------------------------------------------------
  // The steps
  // ---------------------------------------------------------------------------------------------

  /** The active prompt of a session is the one accepted last. */
  ghost predicate LastIsActive(s: State) {
    forall session {:trigger Current(SessionsOf(s.prompts), s.log, session)} ::
      Current(SessionsOf(s.prompts), s.log, session)
      == if session in s.active then Some(s.active[session]) else None
  }

  predicate PlainEntry(e: Entry) {
    !e.Accepted? && !(e.Wrote? && e.line.Update?)
  }

  /** Entries that are neither acceptances nor updates change nothing, as long as no prompt changes its session. */
  lemma PlainStep(s: State, s': State, e: Entry, p: nat)
    requires LastIsActive(s) && PlainEntry(e) && s'.active == s.active
    requires s'.log == s.log || s'.log == s.log + [e]
    requires SessionsOf(s'.prompts) == SessionsOf(s.prompts)
    ensures LastIsActive(s')
    ensures UpdatesFor(SessionsOf(s'.prompts), s'.log, p) == UpdatesFor(SessionsOf(s.prompts), s.log, p)
  {
    hide Current, UpdatesFor;
    var sessions := SessionsOf(s.prompts);
    forall session ensures Current(sessions, s'.log, session) == Current(sessions, s.log, session) {
      LogSnoc(sessions, s.log, e, session, p);
    }
    LogSnoc(sessions, s.log, e, "", p);
    ConcatNothing(UpdatesFor(sessions, s.log, p));
  }

  lemma SameSessions(prompts: seq<PromptState>, k: nat, w: PromptState)
    requires k < |prompts| && w.session == prompts[k].session
    ensures SessionsOf(prompts[k := w]) == SessionsOf(prompts)
  {
  }

  /** What a step adds to what prompt `p` has shown. */
  function Adds(s: State, step: Step, p: nat): seq<Note> {
    if Takes(s, step, p) then ShownFor(s.prompts[p].pending, step.event) else []
  }

  ghost predicate Follows(s: State, step: Step, p: nat)
    requires p < |Next(s, step).prompts|
  {
    && LastIsActive(Next(s, step))
    && ShownOf(Next(s, step), p) == (if p < |s.prompts| then ShownOf(s, p) else []) + Adds(s, step, p)
  }

  /** A step of a worker that writes nothing the client is shown of the prompt and holds nothing. */
  lemma QuietFollows(s: State, step: Step, k: nat, e: Entry, p: nat)
    requires LastIsActive(s) && Ready(s, step) && k < |s.prompts| && PlainEntry(e) && p < |s.prompts|
    requires var s' := Next(s, step);
             && |s'.prompts| == |s.prompts| && s'.prompts == s.prompts[k := s'.prompts[k]]
             && s'.prompts[k].session == s.prompts[k].session && s'.active == s.active
             && (s'.log == s.log || s'.log == s.log + [e])
             && Held(s'.prompts[k].phase) == Held(s.prompts[k].phase) && !Takes(s, step, p)
    ensures Follows(s, step, p)
  {
    hide Next, Ready, LastIsActive, UpdatesFor, Held, Takes;
    var s' := Next(s, step);
    SameSessions(s.prompts, k, s'.prompts[k]);
    PlainStep(s, s', e, p);
    ConcatNothing(ShownOf(s, p));
  }

  lemma TakeFollows(s: State, step: Step, p: nat)
    requires LastIsActive(s) && Ready(s, step) && step.Event? && p < |s.prompts|
    ensures Follows(s, step, p)
  {
    hide LastIsActive, UpdatesFor, MapEvent, ShownFor;
    var k, s' := step.p, Next(s, step);
    var w, w' := s.prompts[k], s'.prompts[k];
    if !Takes(s, step, p) && (p != k) {
      SameSessions(s.prompts, k, w');
      PlainStep(s, s', Received(k), p);
      ConcatNothing(ShownOf(s, p));
    } else if w.cancelled {
      QuietFollows(s, step, k, Received(k), p);
    } else {
      SameSessions(s.prompts, k, w');
      PlainStep(s, s', Received(k), p);
      TakenShows(w, step.event);
      assert p == k && Held(w.phase) == [];
      ConcatNothing(UpdatesFor(SessionsOf(s.prompts), s.log, p));
    }
  }

  lemma TakenShows(w: PromptState, e: StreamEvent)
    requires !w.cancelled
    ensures Held(Taken(w, e).phase) == ShownFor(w.pending, e) && Taken(w, e).session == w.session
  {
    hide MapEvent, ShownFor;
    EventShows(e, w.pending);
    var r := MapEvent(e, w.pending);
    assert Taken(w, e).phase == if r.0.Some? then Noting(r.0.value) else Streaming;
  }

  lemma UpdateFollows(s: State, step: Step, p: nat)
    requires Inv(s) && LastIsActive(s) && Ready(s, step) && step.WriteUpdate? && p < |s.prompts|
    ensures Follows(s, step, p)
  {
    hide Inv, LastIsActive, UpdatesFor, Current;
    var k, s' := step.p, Next(s, step);
    var w := s.prompts[k];
    IsActive(s, k);
    ActiveIsLast(s, w.session);
    SameSessions(s.prompts, k, s'.prompts[k]);
    var e := Wrote(Update(w.session, w.phase.note));
    var sessions := SessionsOf(s.prompts);
    UpdateKeepsCurrent(s, s', e);
    LogSnoc(sessions, s.log, e, w.session, p);
    ConcatNothing(UpdatesFor(sessions, s.log, p));
    ConcatNothing(UpdatesFor(sessions, s.log, p) + [w.phase.note]);
    ConcatNothing(ShownOf(s, p));
  }

  lemma IsActive(s: State, k: nat)
    requires Inv(s) && k < |s.prompts| && !s.prompts[k].phase.Completed?
    ensures s.prompts[k].session in s.active && s.active[s.prompts[k].session] == k
  {
    assert PromptOk(s, k);
  }

  lemma ActiveIsLast(s: State, session: SessionId)
    requires LastIsActive(s)
    ensures Current(SessionsOf(s.prompts), s.log, session)
            == if session in s.active then Some(s.active[session]) else None
  {
  }

  lemma UpdateKeepsCurrent(s: State, s': State, e: Entry)
    requires LastIsActive(s) && !e.Accepted? && s'.active == s.active && s'.log == s.log + [e]
    requires SessionsOf(s'.prompts) == SessionsOf(s.prompts)
    ensures LastIsActive(s')
  {
    hide Current;
    forall session
      ensures Current(SessionsOf(s.prompts), s'.log, session) == Current(SessionsOf(s.prompts), s.log, session)
    {
      LogSnoc(SessionsOf(s.prompts), s.log, e, session, 0);
    }
  }

  lemma AcceptFollows(s: State, s': State, session: SessionId, w: PromptState, p: nat)
    requires Inv(s) && LastIsActive(s) && w.session == session && w.phase.Starting?
    requires s'.prompts == s.prompts + [w] && s'.active == s.active[session := |s.prompts|]
    requires s'.log == s.log + [Accepted(|s.prompts|)] && p <= |s.prompts|
    ensures LastIsActive(s')
    ensures ShownOf(s', p) == if p < |s.prompts| then ShownOf(s, p) else []
  {
    hide Inv, Current, UpdatesFor;
    var n, sessions, sessions' := |s.prompts|, SessionsOf(s.prompts), SessionsOf(s'.prompts);
    InvAccepts(s);
    assert sessions' == sessions + [session];
    forall x ensures Current(sessions', s'.log, x) == if x in s'.active then Some(s'.active[x]) else None {
      LogSnoc(sessions', s.log, Accepted(n), x, p);
      OneMoreSession(sessions, session, s.log, x);
      ActiveIsLast(s, x);
    }
    LogSnoc(sessions', s.log, Accepted(n), session, p);
    SameUpdates(sessions, session, s.log, p);
    ConcatNothing(UpdatesFor(sessions, s.log, p));
  }

  lemma InvAccepts(s: State)
    requires Inv(s)
    ensures AcceptedBelow(s.log, |s.prompts|)
  {
  }

  lemma AnswerFollows(s: State, step: Step, e: Entry, p: nat)
    requires LastIsActive(s) && step.Dispatch? && p < |s.prompts| && PlainEntry(e)
    requires var s' := Next(s, step);
             s'.prompts == s.prompts && s'.active == s.active && s'.log == s.log + [e]
    ensures Follows(s, step, p)
  {
    hide LastIsActive, Next, UpdatesFor;
    PlainStep(s, Next(s, step), e, p);
    ConcatNothing(ShownOf(s, p));
  }

  lemma CancelFollows(s: State, step: Step, p: nat)
    requires LastIsActive(s) && step.Dispatch? && step.req.Cancel? && p < |s.prompts|
    ensures Follows(s, step, p)
  {
    hide LastIsActive, UpdatesFor;
    var s' := Next(s, step);
    var s1 := s.(log := s.log + [Notified(s.requests)]);
    if s'.prompts == s.prompts && |s'.log| == |s.log| + 1 {
      AnswerFollows(s, step, s'.log[|s.log|], p);
    } else {
      var k := s.active[step.req.session.value];
      PlainStep(s, s1, Notified(s.requests), p);
      SameSessions(s.prompts, k, s.prompts[k].(cancelled := true));
      PlainStep(s1, s', Marked(k), p);
      ConcatNothing(ShownOf(s, p));
    }
  }

  lemma PromptFollows(s: State, step: Step, p: nat)
    requires Inv(s) && LastIsActive(s) && step.Dispatch? && step.req.Prompt? && p < |Next(s, step).prompts|
    ensures Follows(s, step, p)
  {
    hide Inv, LastIsActive, UpdatesFor, Held, Refusal, Texts, JoinLines;
    var s', req := Next(s, step), step.req;
    if |s'.prompts| == |s.prompts| {
      AnswerFollows(s, step, s'.log[|s.log|], p);
    } else {
      NotRefused(s, req.params, step.storeOk);
      AcceptFollows(s, s', req.params.value.session.value, s'.prompts[|s.prompts|], p);
      ConcatNothing(if p < |s.prompts| then ShownOf(s, p) else []);
    }
  }

  lemma OtherFollows(s: State, step: Step, p: nat)
    requires LastIsActive(s) && step.Dispatch? && !step.req.Prompt? && !step.req.Cancel? && p < |Next(s, step).prompts|
    ensures Follows(s, step, p)
  {
    hide LastIsActive, UpdatesFor, Follows;
    AnswerFollows(s, step, Next(s, step).log[|s.log|], p);
  }

  lemma CancelKeepsPrompts(s: State, step: Step)
    requires step.Dispatch? && step.req.Cancel?
    ensures |Next(s, step).prompts| == |s.prompts|
  {
  }

  lemma StepFollows(s: State, step: Step, p: nat)
    requires Inv(s) && LastIsActive(s) && p < |Next(s, step).prompts|
    ensures Follows(s, step, p)
  {
    hide Inv, LastIsActive, UpdatesFor, Handle, Feed, SessionsOf;
    if !Ready(s, step) {
      ConcatNothing(ShownOf(s, p));
    } else {
      match step
      case Dispatch(req, _, _) =>
        if req.Prompt? {
          PromptFollows(s, step, p);
        } else if req.Cancel? {
          CancelKeepsPrompts(s, step);
          CancelFollows(s, step, p);
        } else {
          OtherFollows(s, step, p);
        }
      case Event(k, event) =>
        FeedKeepsPrompts(s, k, event);
        TakeFollows(s, step, p);
      case WriteUpdate(_) => UpdateFollows(s, step, p);
      case StartStreaming(k) => QuietFollows(s, step, k, Received(k), p);
      case StartFails(k) => QuietFollows(s, step, k, Received(k), p);
      case ChannelClosed(k) => QuietFollows(s, step, k, Received(k), p);
      case WriteReply(k) => QuietFollows(s, step, k, Wrote(Reply(s.prompts[k].request, s.prompts[k].phase.reply)), p);
      case SetCompleted(k) => QuietFollows(s, step, k, Received(k), p);
    }
  }

  lemma FeedKeepsPrompts(s: State, k: nat, event: StreamEvent)
    requires k < |s.prompts|
    ensures |Feed(s, k, event).prompts| == |s.prompts|
  {
  }

  lemma FollowsMeans(s: State, step: Step, p: nat)
    requires p < |Next(s, step).prompts| && Follows(s, step, p)
    ensures LastIsActive(Next(s, step))
    ensures ShownOf(Next(s, step), p)
            == (if p < |s.prompts| then ShownOf(s, p) else [])
               + if Takes(s, step, p) then ShownFor(s.prompts[p].pending, step.event) else []
  {
    hide LastIsActive, ShownOf;
  }

  lemma ShownSnoc(events: seq<StreamEvent>, e: StreamEvent)
    ensures Shown(events + [e]) == Shown(events) + ShownFor(PendingAfter(events), e)
  {
    assert (events + [e])[..|events|] == events;
  }

  lemma NothingAtFirst()
    ensures LastIsActive(START) && START.prompts == [] && Shown([]) == []
  {
  }

  lemma {:induction false} RunKeepsLast(steps: seq<Step>)
    ensures LastIsActive(Run(steps))
  {
    hide Inv, LastIsActive, Next;
    if steps == [] {
      NothingAtFirst();
    } else {
      var front, step := steps[..|steps| - 1], steps[|steps| - 1];
      RunKeepsLast(front);
      RunKeepsInv(front);
      if |Next(Run(front), step).prompts| > 0 {
        StepFollows(Run(front), step, 0);
        FollowsMeans(Run(front), step, 0);
      } else {
        NextKeepsInv(Run(front), step);
        NoPrompts(Next(Run(front), step));
      }
    }
  }

  lemma NoPrompts(s: State)
    requires Inv(s) && s.prompts == []
    ensures LastIsActive(s)
  {
    forall session ensures Current(SessionsOf(s.prompts), s.log, session) == None && session !in s.active {
      CurrentIsBelow(SessionsOf(s.prompts), s.log, session);
      assert ActiveOk(s, session);
    }
  }

  /**
   * In every interleaving, the updates written for a prompt, with the one its worker is about to write, are those of
   * the events the worker has recorded, one for one and in their order.
   */
  lemma {:induction false} EventsAreShown(steps: seq<Step>, p: nat)
    requires p < |Run(steps).prompts|
    ensures ShownOf(Run(steps), p) == Shown(EventsTaken(steps, p))
  {
    hide Next, ShownOf, Shown, Inv, LastIsActive, Follows, Takes;
    if steps == [] {
      NothingAtFirst();
    } else {
      var front, step := steps[..|steps| - 1], steps[|steps| - 1];
      var s := Run(front);
      RunKeepsInv(front);
      RunKeepsLast(front);
      StepFollows(s, step, p);
      FollowsMeans(s, step, p);
      PendingFollows(front, p);
      NothingAtFirst();
      ConcatNothing(Shown(EventsTaken(front, p)));
      ConcatNothing(EventsTaken(front, p));
      if p < |s.prompts| {
        EventsAreShown(front, p);
      } else {
        NotTaken(s, step, p);
      }
      if Takes(s, step, p) {
        TakesEvent(s, step, p);
        ShownSnoc(EventsTaken(front, p), step.event);
      }
    }
  }

  lemma TakesEvent(s: State, step: Step, p: nat)
    requires Takes(s, step, p)
    ensures step.Event? && p < |s.prompts|
  {
  }

  lemma NotTaken(s: State, step: Step, p: nat)
    requires p >= |s.prompts|
    ensures !Takes(s, step, p)
  {
  }

  // ---------------------------------------------------------------------------------------------
  // The text and the thoughts
  // ---------------------------------------------------------------------------------------------

  function ChunkText(notes: seq<Note>): string {
    if notes == [] then ""
    else
      var last := notes[|notes| - 1];
      ChunkText(notes[..|notes| - 1]) + if last.MessageChunk? then last.text else ""
  }

  function ThoughtText(notes: seq<Note>): string {
    if notes == [] then ""
    else
      var last := notes[|notes| - 1];
      ThoughtText(notes[..|notes| - 1]) + if last.ThoughtChunk? then last.text else ""
  }

  function DeltaText(events: seq<StreamEvent>): string {
    if events == [] then ""
    else
      var last := events[|events| - 1];
      DeltaText(events[..|events| - 1]) + if last.TextDelta? then last.text else ""
  }

  function ThinkingText(events: seq<StreamEvent>): string {
    if events == [] then ""
    else
      var last := events[|events| - 1];
      ThinkingText(events[..|events| - 1]) + if last.ThinkingDelta? then last.text else ""
  }

  lemma TextsSnoc(notes: seq<Note>, more: seq<Note>)
    requires |more| <= 1
    ensures ChunkText(notes + more)
            == ChunkText(notes) + if more != [] && more[0].MessageChunk? then more[0].text else ""
    ensures ThoughtText(notes + more)
            == ThoughtText(notes) + if more != [] && more[0].ThoughtChunk? then more[0].text else ""
  {
    if more == [] {
      ConcatNothing(notes);
      ConcatNothing(ChunkText(notes));
      ConcatNothing(ThoughtText(notes));
    } else {
      assert (notes + more)[..|notes|] == notes;
    }
  }

  lemma {:induction false} ShownTexts(events: seq<StreamEvent>)
    ensures ChunkText(Shown(events)) == DeltaText(events) && ThoughtText(Shown(events)) == ThinkingText(events)
  {
    hide CallOf, PendingAfter;
    if events != [] {
      var before, e := events[..|events| - 1], events[|events| - 1];
      ShownTexts(before);
      TextsSnoc(Shown(before), ShownFor(PendingAfter(before), e));
    }
  }

  /**
   * The assistant text the client has been shown for a prompt, with the piece its worker is about to write, is the
   * text of the deltas the worker recorded, which is also the text it keeps; and likewise for the thoughts.
   */
  lemma TextIsShown(steps: seq<Step>, p: nat)
    requires p < |Run(steps).prompts|
    ensures var s, events := Run(steps), EventsTaken(steps, p);
            && ChunkText(ShownOf(s, p)) == DeltaText(events) == s.prompts[p].text
            && ThoughtText(ShownOf(s, p)) == ThinkingText(events)
  {
    hide *;
    EventsAreShown(steps, p);
    ShownTexts(EventsTaken(steps, p));
    PromptIsTold(steps, p);
  }

  // ---------------------------------------------------------------------------------------------
  // The reply
  // ---------------------------------------------------------------------------------------------

  /** What the client is told for the last reason the model gave, or when it gave none. */
  function ReasonTold(events: seq<StreamEvent>): Stop {
    if events == [] then EndTurn
    else
      var last := events[|events| - 1];
      if !last.ContentComplete? then ReasonTold(events[..|events| - 1])
      else if last.reason.ModelMaxTokens? then MaxTokens
      else if last.reason.ModelToolUse? then MaxTurnRequests
      else EndTurn
  }

  /** The stream of prompt `p` could not be started. */
  predicate StartFailed(steps: seq<Step>, p: nat) {
    steps != [] &&
    var front, step := steps[..|steps| - 1], steps[|steps| - 1];
    StartFailed(front, p) || (step == StartFails(p) && Ready(Run(front), step))
  }

  ghost predicate Told(w: PromptState, events: seq<StreamEvent>, failed: bool) {
    && w.text == DeltaText(events)
    && (w.phase.Starting? ==> events == [])
    && if Working(w.phase) then !failed && w.stop == ReasonTold(events)
       else w.phase.reply == Stopped(Cancelled)
            || w.phase.reply == if failed then Failed(Internal) else Stopped(ReasonTold(events))
  }

  lemma ToldSnoc(events: seq<StreamEvent>, e: StreamEvent)
    ensures DeltaText(events + [e]) == DeltaText(events) + if e.TextDelta? then e.text else ""
    ensures ReasonTold(events + [e]) == if e.ContentComplete? then StopFor(e.reason) else ReasonTold(events)
  {
    assert (events + [e])[..|events|] == events;
  }

  lemma TakenTells(w: PromptState, events: seq<StreamEvent>, failed: bool, e: StreamEvent)
    requires Told(w, events, failed) && w.phase.Streaming?
    ensures Told(Taken(w, e), if w.cancelled then events else events + [e], failed)
  {
    hide MapEvent, DeltaText, ReasonTold, StopFor;
    ToldSnoc(events, e);
    ConcatNothing(w.text);
  }

  /** How a step changes one prompt: its worker's own moves, or the raising of its flag. */
  lemma PromptTurn(s: State, step: Step, p: nat)
    requires p < |s.prompts|
    ensures p < |Next(s, step).prompts|
    ensures var w, w' := s.prompts[p], Next(s, step).prompts[p];
            if step == Event(p, if step.Event? then step.event else InternalEvent) && Ready(s, step) then
              w' == Taken(w, step.event)
            else
              && w'.text == w.text && w'.stop == w.stop
              && (w'.phase == w.phase
                  || (Working(w.phase) && w'.phase == Streaming)
                  || (step == StartFails(p) && Ready(s, step) && w'.phase == Drained(Failed(Internal)))
                  || (w.phase.Streaming? && w'.phase == Drained(Stopped(w.stop)))
                  || (!Working(w.phase) && !Working(w'.phase) && w'.phase.reply == w.phase.reply))
  {
    hide Taken, Refusal, Texts, JoinLines;
  }

  lemma FailsOnce(s: State, step: Step, p: nat)
    requires p < |s.prompts| && step == StartFails(p) && Ready(s, step)
    ensures s.prompts[p].phase.Starting? && Next(s, step).prompts[p].phase == Drained(Failed(Internal))
  {
  }

  lemma StepTells(s: State, step: Step, p: nat, events: seq<StreamEvent>, failed: bool)
    requires p < |s.prompts| && Told(s.prompts[p], events, failed)
    ensures p < |Next(s, step).prompts|
    ensures Told(Next(s, step).prompts[p], events + if Takes(s, step, p) then [step.event] else [],
                 failed || (step == StartFails(p) && Ready(s, step)))
  {
    hide Next, Taken, DeltaText, ReasonTold;
    PromptTurn(s, step, p);
    ConcatNothing(events);
    if step.Event? && step.p == p && Ready(s, step) {
      TakenTells(s.prompts[p], events, failed, step.event);
    }
    if step == StartFails(p) && Ready(s, step) {
      FailsOnce(s, step, p);
    }
  }

  lemma {:induction false} PromptIsTold(steps: seq<Step>, p: nat)
    requires p < |Run(steps).prompts|
    ensures Told(Run(steps).prompts[p], EventsTaken(steps, p), StartFailed(steps, p))
    ensures DeltaText(EventsTaken(steps, p)) == Run(steps).prompts[p].text
  {
    hide Next, Takes, DeltaText, ReasonTold, Inv;
    if steps == [] {
      NothingAtFirst();
    } else {
      var front, step := steps[..|steps| - 1], steps[|steps| - 1];
      if p < |Run(front).prompts| {
        PromptIsTold(front, p);
        StepTells(Run(front), step, p, EventsTaken(front, p), StartFailed(front, p));
      } else {
        PendingFollows(front, p);
        NotTaken(Run(front), step, p);
        NewPrompt(Run(front), step, p);
        NotYetFailed(front, p);
        ConcatNothing(EventsTaken(front, p));
      }
    }
  }

  lemma NewPrompt(s: State, step: Step, p: nat)
    requires |s.prompts| <= p < |Next(s, step).prompts|
    ensures Told(Next(s, step).prompts[p], [], false) && !(step == StartFails(p) && Ready(s, step))
  {
    hide Refusal, Texts, JoinLines;
  }

  lemma {:induction false} NotYetFailed(steps: seq<Step>, p: nat)
    requires p >= |Run(steps).prompts|
    ensures !StartFailed(steps, p)
  {
    hide Next;
    if steps != [] {
      var front, step := steps[..|steps| - 1], steps[|steps| - 1];
      PromptsStay(Run(front), step);
      NotYetFailed(front, p);
    }
  }

  /**
   * The reply of a prompt: `cancelled` when an event was taken after a cancel, an internal error when its stream
   * could not be started, and otherwise the last reason the model gave.
   */
  lemma ReplyNamesTheReason(steps: seq<Step>, p: nat)
    requires p < |Run(steps).prompts|
    ensures var s := Run(steps);
            var w := s.prompts[p];
            Replies(s.log, w.request)
            == if !w.phase.Replied? && !w.phase.Completed? then []
               else if FedAfterMark(s.log, p) then [Stopped(Cancelled)]
               else if StartFailed(steps, p) then [Failed(Internal)]
               else [Stopped(ReasonTold(EventsTaken(steps, p)))]
  {
    RunKeepsInv(steps);
    PromptIsTold(steps, p);
    hide Run, Replies, FedAfterMark, ReasonTold, DeltaText, StartFailed, EventsTaken;
    assert PromptOk(Run(steps), p);
    hide Inv;
  }
}
