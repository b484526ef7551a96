/**
 * Every interleaving of the dispatcher and its workers: one live prompt to a session, one reply to a
 * request, replies before the next prompt, and what a `cancelled` reply means.
 */
module AcpRuns {
  import opened Common
  import opened Acp

  // ---------------------------------------------------------------------------------------------
  // Reading the log
  // ---------------------------------------------------------------------------------------------

  /** The replies written to request `r`, in order. */
  function Replies(log: seq<Entry>, r: nat): seq<Body> {
    if log == [] then []
    else
      var last := log[|log| - 1];
      Replies(log[..|log| - 1], r)
      + if last.Wrote? && last.line.Reply? && last.line.request == r then [last.line.body] else []
  }

  predicate MarkedIn(log: seq<Entry>, p: nat) {
    log != [] && (log[|log| - 1] == Marked(p) || MarkedIn(log[..|log| - 1], p))
  }

  /** The worker of prompt `p` took an event after a cancel for `p` had been processed. */
  predicate FedAfterMark(log: seq<Entry>, p: nat) {
    log != [] &&
    var before := log[..|log| - 1];
    FedAfterMark(before, p) || (log[|log| - 1] == Received(p) && MarkedIn(before, p))
  }

  predicate AcceptedIn(log: seq<Entry>, p: nat) {
    log != [] && (log[|log| - 1] == Accepted(p) || AcceptedIn(log[..|log| - 1], p))
  }

  predicate NotifiedIn(log: seq<Entry>, r: nat) {
    log != [] && (log[|log| - 1] == Notified(r) || NotifiedIn(log[..|log| - 1], r))
  }

  // ---------------------------------------------------------------------------------------------
  // The invariant
  // ---------------------------------------------------------------------------------------------

  function ReplyOf(phase: Phase): seq<Body> {
    if phase.Replied? || phase.Completed? then [phase.reply] else []
  }

  predicate Working(phase: Phase) {
    phase.Starting? || phase.Streaming? || phase.Noting?
  }

  ghost predicate PromptOk(s: State, p: nat) {
    p < |s.prompts| &&
    var w := s.prompts[p];
    && w.request < s.requests
    && (!w.phase.Completed? ==> w.session in s.active && s.active[w.session] == p)
    && Replies(s.log, w.request) == ReplyOf(w.phase)
    && !NotifiedIn(s.log, w.request)
    && (w.cancelled <==> MarkedIn(s.log, p))
    && (FedAfterMark(s.log, p) <==> !Working(w.phase) && w.phase.reply == Stopped(Cancelled))
    && (Working(w.phase) ==> w.stop != Cancelled)
  }

  ghost predicate HasPrompt(s: State, r: nat) {
    exists p: nat :: p < |s.prompts| && s.prompts[p].request == r
  }

  ghost predicate RequestOk(s: State, r: nat) {
    if r >= s.requests then Replies(s.log, r) == [] && !NotifiedIn(s.log, r)
    else HasPrompt(s, r) || |Replies(s.log, r)| == if NotifiedIn(s.log, r) then 0 else 1
  }

  /** When the prompt accepted at position `j` was accepted, every earlier one on its session had its reply. */
  ghost predicate GateOk(s: State, j: nat) {
    j < |s.log| && s.log[j].Accepted? ==>
      var q := s.log[j].prompt;
      q < |s.prompts| &&
      forall p: nat {:trigger s.prompts[p]} ::
        p < |s.prompts| && s.prompts[p].session == s.prompts[q].session && AcceptedIn(s.log[..j], p) ==>
          |Replies(s.log[..j], s.prompts[p].request)| == 1
  }

  ghost predicate ActiveOk(s: State, session: SessionId) {
    session in s.active ==> s.active[session] < |s.prompts| && s.prompts[s.active[session]].session == session
  }

  ghost predicate Inv(s: State) {
    && (forall p: nat {:trigger PromptOk(s, p)} :: p < |s.prompts| ==> PromptOk(s, p))
    && (forall p: nat {:trigger AcceptedIn(s.log, p)} :: AcceptedIn(s.log, p) ==> p < |s.prompts|)
    && (forall p: nat {:trigger MarkedIn(s.log, p)} :: MarkedIn(s.log, p) ==> p < |s.prompts|)
    && (forall p: nat, q: nat {:trigger s.prompts[p], s.prompts[q]} :: p < q < |s.prompts| ==>
          s.prompts[p].request != s.prompts[q].request)
    && (forall r: nat {:trigger RequestOk(s, r)} :: RequestOk(s, r))
    && (forall session {:trigger ActiveOk(s, session)} :: ActiveOk(s, session))
    && (forall j: nat {:trigger GateOk(s, j)} :: GateOk(s, j))
  }

  // ---------------------------------------------------------------------------------------------
  // Appending to the log
  // ---------------------------------------------------------------------------------------------

  lemma LogGrows(log: seq<Entry>, e: Entry, p: nat, r: nat)
    ensures var log' := log + [e];
            && Replies(log', r) == Replies(log, r)
               + (if e.Wrote? && e.line.Reply? && e.line.request == r then [e.line.body] else [])
            && (MarkedIn(log', p) <==> MarkedIn(log, p) || e == Marked(p))
            && (FedAfterMark(log', p) <==> FedAfterMark(log, p) || (e == Received(p) && MarkedIn(log, p)))
            && (AcceptedIn(log', p) <==> AcceptedIn(log, p) || e == Accepted(p))
            && (NotifiedIn(log', r) <==> NotifiedIn(log, r) || e == Notified(r))
  {
    assert (log + [e])[..|log|] == log;
  }

  /** One entry that is not about the acceptance of a prompt leaves the gates of the earlier ones alone. */
  lemma GatesKept(s: State, s': State, j: nat)
    requires Inv(s) && s.log <= s'.log && |s.prompts| <= |s'.prompts|
    requires forall p: nat :: p < |s.prompts| ==>
               s'.prompts[p].session == s.prompts[p].session && s'.prompts[p].request == s.prompts[p].request
    requires j < |s.log|
    ensures GateOk(s', j)
  {
    assert GateOk(s, j);
    assert s'.log[..j] == s.log[..j];
    if s'.log[j].Accepted? {
      var q := s'.log[j].prompt;
      forall p: nat | p < |s'.prompts| && s'.prompts[p].session == s'.prompts[q].session && AcceptedIn(s'.log[..j], p)
        ensures |Replies(s'.log[..j], s'.prompts[p].request)| == 1
      {
        AcceptedEarlier(s.log, j, p);
        assert p < |s.prompts|;
        assert s.prompts[p].session == s.prompts[q].session;
      }
    }
  }

  lemma {:induction false} AcceptedEarlier(log: seq<Entry>, j: nat, p: nat)
    requires j <= |log| && AcceptedIn(log[..j], p)
    ensures AcceptedIn(log, p)
    decreases |log|
  {
    if j == |log| {
      assert log[..j] == log;
    } else {
      assert log[..|log| - 1][..j] == log[..j];
      AcceptedEarlier(log[..|log| - 1], j, p);
    }
  }

  lemma {:induction false} FedMeansMarked(log: seq<Entry>, p: nat)
    ensures FedAfterMark(log, p) ==> MarkedIn(log, p)
  {
    if log != [] {
      FedMeansMarked(log[..|log| - 1], p);
    }
  }

  /** The state after the log alone grew by one entry that concerns no gate. */
  lemma NewEntry(s: State, s': State, e: Entry)
    requires Inv(s) && s'.log == s.log + [e] && !e.Accepted?
    requires |s'.prompts| == |s.prompts|
    requires forall p: nat :: p < |s.prompts| ==>
               s'.prompts[p].session == s.prompts[p].session && s'.prompts[p].request == s.prompts[p].request
    requires s'.active == s.active && (e.Marked? ==> e.prompt < |s.prompts|)
    requires forall p: nat :: p < |s.prompts| ==> PromptOk(s', p)
    requires forall r: nat :: RequestOk(s', r)
    ensures Inv(s')
  {
    forall p: nat ensures (AcceptedIn(s'.log, p) ==> p < |s'.prompts|) && (MarkedIn(s'.log, p) ==> p < |s'.prompts|) {
      LogGrows(s.log, e, p, 0);
    }
    forall session ensures ActiveOk(s', session) {
      assert ActiveOk(s, session);
    }
    forall j: nat ensures GateOk(s', j) {
      if j < |s.log| {
        GatesKept(s, s', j);
      }
    }
  }

  lemma PromptRequestKept(s: State, s': State, r: nat)
    requires |s'.prompts| >= |s.prompts| && HasPrompt(s, r)
    requires forall p: nat :: p < |s.prompts| ==> s'.prompts[p].request == s.prompts[p].request
    ensures HasPrompt(s', r)
  {
    var p: nat :| p < |s.prompts| && s.prompts[p].request == r;
    assert s'.prompts[p].request == r;
  }

  lemma AnswerKeeps(s: State, s': State, body: Body)
    requires Inv(s) && s' == Answer(s, body)
    ensures Inv(s')
  {
    var e := Wrote(Reply(s.requests, body));
    forall p: nat | p < |s.prompts| ensures PromptOk(s', p) {
      assert PromptOk(s, p);
      LogGrows(s.log, e, p, s.prompts[p].request);
    }
    forall r: nat ensures RequestOk(s', r) {
      assert RequestOk(s, r);
      LogGrows(s.log, e, 0, r);
      if HasPrompt(s, r) {
        PromptRequestKept(s, s', r);
      }
    }
    NewEntry(s, s', e);
  }

  lemma NotifyKeeps(s: State, s': State)
    requires Inv(s) && s' == s.(requests := s.requests + 1, log := s.log + [Notified(s.requests)])
    ensures Inv(s')
  {
    var e := Notified(s.requests);
    forall p: nat | p < |s.prompts| ensures PromptOk(s', p) {
      assert PromptOk(s, p);
      LogGrows(s.log, e, p, s.prompts[p].request);
    }
    forall r: nat ensures RequestOk(s', r) {
      assert RequestOk(s, r);
      LogGrows(s.log, e, 0, r);
      if HasPrompt(s, r) {
        PromptRequestKept(s, s', r);
      }
    }
    NewEntry(s, s', e);
  }

  /** One worker changes its own prompt and writes at most one entry, not an acceptance. */
  lemma WorkerKeeps(s: State, s': State, k: nat, w: PromptState, e: Entry)
    requires Inv(s) && k < |s.prompts| && s' == s.(prompts := s.prompts[k := w], log := s.log + [e])
    requires w.request == s.prompts[k].request && w.session == s.prompts[k].session
    requires e == Marked(k) || e == Received(k) || (e.Wrote? && (e.line.Reply? ==> e.line.request == w.request))
    requires PromptOk(s', k)
    ensures Inv(s')
  {
    forall p: nat | p < |s.prompts| ensures PromptOk(s', p) {
      assert PromptOk(s, p);
      LogGrows(s.log, e, p, s.prompts[p].request);
      assert p < k ==> s.prompts[p].request != s.prompts[k].request;
      assert k < p ==> s.prompts[p].request != s.prompts[k].request;
    }
    forall r: nat ensures RequestOk(s', r) {
      assert RequestOk(s, r) && PromptOk(s, k);
      LogGrows(s.log, e, 0, r);
      if r == w.request {
        assert s'.prompts[k].request == r;
      } else if HasPrompt(s, r) {
        PromptRequestKept(s, s', r);
      }
    }
    NewEntry(s, s', e);
  }

  lemma PhaseKeeps(s: State, s': State, k: nat, phase: Phase)
    requires Inv(s) && k < |s.prompts| && s' == InPhase(s, k, phase)
    requires !s.prompts[k].phase.Completed? && ReplyOf(phase) == ReplyOf(s.prompts[k].phase)
    requires !Working(phase) && phase.reply == Stopped(Cancelled)
             <==> !Working(s.prompts[k].phase) && s.prompts[k].phase.reply == Stopped(Cancelled)
    requires Working(phase) ==> Working(s.prompts[k].phase)
    ensures Inv(s')
  {
    forall p: nat | p < |s'.prompts| ensures PromptOk(s', p) {
      assert PromptOk(s, p);
    }
    forall r: nat ensures RequestOk(s', r) {
      assert RequestOk(s, r);
      if HasPrompt(s, r) {
        PromptRequestKept(s, s', r);
      }
    }
    forall session ensures ActiveOk(s', session) {
      assert ActiveOk(s, session);
    }
    forall j: nat ensures GateOk(s', j) {
      if j < |s.log| {
        GatesKept(s, s', j);
      }
    }
  }

  lemma MarkKeeps(s: State, s': State, k: nat)
    requires Inv(s) && k < |s.prompts| && !s.prompts[k].phase.Completed?
    requires s' == s.(prompts := s.prompts[k := s.prompts[k].(cancelled := true)], log := s.log + [Marked(k)])
    ensures Inv(s')
  {
    assert PromptOk(s, k);
    LogGrows(s.log, Marked(k), k, s.prompts[k].request);
    assert PromptOk(s', k);
    WorkerKeeps(s, s', k, s'.prompts[k], Marked(k));
  }

  /** A cancelled worker leaves its loop. */
  lemma FeedCancelledKeeps(s: State, k: nat, event: StreamEvent)
    requires Inv(s) && k < |s.prompts| && s.prompts[k].phase.Streaming? && s.prompts[k].cancelled
    ensures Inv(Feed(s, k, event))
  {
    assert PromptOk(s, k);
    LogGrows(s.log, Received(k), k, s.prompts[k].request);
    var s' := Feed(s, k, event);
    assert PromptOk(s', k);
    WorkerKeeps(s, s', k, s'.prompts[k], Received(k));
  }

  lemma ReceiveKeeps(s: State, k: nat, w: PromptState)
    requires Inv(s) && k < |s.prompts| && s.prompts[k].phase.Streaming? && !s.prompts[k].cancelled
    requires w == s.prompts[k].(stop := w.stop, text := w.text, pending := w.pending, phase := w.phase)
             && w.stop != Cancelled && Working(w.phase)
    ensures Inv(s.(prompts := s.prompts[k := w], log := s.log + [Received(k)]))
  {
    var s' := s.(prompts := s.prompts[k := w], log := s.log + [Received(k)]);
    assert PromptOk(s, k);
    LogGrows(s.log, Received(k), k, w.request);
    assert PromptOk(s', k);
    WorkerKeeps(s, s', k, w, Received(k));
  }

  lemma UpdateKeeps(s: State, k: nat)
    requires Inv(s) && k < |s.prompts| && s.prompts[k].phase.Noting?
    ensures Inv(Noted(s, k))
  {
    var w, s' := s.prompts[k], Noted(s, k);
    var e := Wrote(Update(w.session, w.phase.note));
    assert PromptOk(s, k);
    LogGrows(s.log, e, k, w.request);
    assert PromptOk(s', k);
    WorkerKeeps(s, s', k, w.(phase := Streaming), e);
  }

  lemma FeedKeeps(s: State, k: nat, event: StreamEvent)
    requires Inv(s) && k < |s.prompts| && s.prompts[k].phase.Streaming?
    ensures Inv(Feed(s, k, event))
  {
    hide Inv, MapEvent;
    if s.prompts[k].cancelled {
      FeedCancelledKeeps(s, k, event);
    } else {
      WorkingStop(s, k);
      ReceiveKeeps(s, k, Taken(s.prompts[k], event));
    }
  }

  lemma WriteReplyKeeps(s: State, k: nat)
    requires Inv(s) && k < |s.prompts| && s.prompts[k].phase.Drained?
    ensures Inv(Next(s, WriteReply(k)))
  {
    hide Inv, Ready, PromptOk;
    var w, s' := s.prompts[k], Next(s, WriteReply(k));
    ReplyOk(s, k);
    WorkerKeeps(s, s', k, w.(phase := Replied(w.phase.reply)), Wrote(Reply(w.request, w.phase.reply)));
  }

  lemma ReplyOk(s: State, k: nat)
    requires Inv(s) && k < |s.prompts| && s.prompts[k].phase.Drained?
    ensures Ready(s, WriteReply(k)) && PromptOk(Next(s, WriteReply(k)), k)
  {
    var w, s' := s.prompts[k], Next(s, WriteReply(k));
    assert PromptOk(s, k);
    LogGrows(s.log, Wrote(Reply(w.request, w.phase.reply)), k, w.request);
    hide Inv, Replies, NotifiedIn, MarkedIn, FedAfterMark;
  }

  lemma AcceptKeeps(s: State, s': State, session: SessionId, w: PromptState)
    requires Inv(s) && !Live(s, session)
    requires w.request == s.requests && w.session == session && !w.cancelled && w.phase.Starting? && w.stop == EndTurn
    requires var n := |s.prompts|;
             s' == s.(requests := s.requests + 1, prompts := s.prompts + [w], active := s.active[session := n],
                      log := s.log + [Accepted(n)])
    ensures Inv(s')
  {
    var n := |s.prompts|;
    var e := Accepted(n);
    assert RequestOk(s, s.requests);
    assert ActiveOk(s, session);
    forall p: nat | p < |s'.prompts| ensures PromptOk(s', p) {
      LogGrows(s.log, e, p, s'.prompts[p].request);
      if p < n {
        assert PromptOk(s, p);
      } else {
        FedMeansMarked(s.log, n);
      }
    }
    forall r: nat ensures RequestOk(s', r) {
      assert RequestOk(s, r);
      LogGrows(s.log, e, 0, r);
      if r == s.requests {
        assert s'.prompts[n].request == r;
      } else if HasPrompt(s, r) {
        PromptRequestKept(s, s', r);
      }
    }
    forall p: nat ensures (AcceptedIn(s'.log, p) ==> p < |s'.prompts|) && (MarkedIn(s'.log, p) ==> p < |s'.prompts|) {
      LogGrows(s.log, e, p, 0);
    }
    forall x ensures ActiveOk(s', x) {
      assert ActiveOk(s, x);
    }
    forall p: nat, q: nat | p < q < |s'.prompts| ensures s'.prompts[p].request != s'.prompts[q].request {
      assert PromptOk(s, p);
    }
    forall j: nat ensures GateOk(s', j) {
      if j < |s.log| {
        GatesKept(s, s', j);
      } else if j == |s.log| {
        assert s'.log[..j] == s.log;
        forall p: nat | p < |s'.prompts| && s'.prompts[p].session == session && AcceptedIn(s.log, p)
          ensures |Replies(s.log, s'.prompts[p].request)| == 1
        {
          assert PromptOk(s, p);
        }
      }
    }
  }

  lemma OtherFields(s: State, s': State)
    requires Inv(s) && s' == s.(initialized := s'.initialized, sessions := s'.sessions)
    ensures Inv(s')
  {
    forall p: nat | p < |s'.prompts| ensures PromptOk(s', p) { assert PromptOk(s, p); }
    forall r: nat ensures RequestOk(s', r) {
      assert RequestOk(s, r);
      if HasPrompt(s, r) { PromptRequestKept(s, s', r); }
    }
    forall x ensures ActiveOk(s', x) { assert ActiveOk(s, x); }
    forall j: nat ensures GateOk(s', j) { assert GateOk(s, j); }
  }

  lemma HandleKeeps(s: State, req: Request, versionOk: bool, storeOk: bool)
    requires Inv(s)
    ensures Inv(Handle(s, req, versionOk, storeOk))
  {
    hide Inv, Refusal;
    var s' := Handle(s, req, versionOk, storeOk);
    if !versionOk || (!req.Initialize? && !req.Authenticate? && !s.initialized) {
      AnswerKeeps(s, s', Failed(InvalidRequest));
    } else if req.Cancel? {
      var s1 := s.(requests := s.requests + 1, log := s.log + [Notified(s.requests)]);
      NotifyKeeps(s, s1);
      if req.session.Some? && Live(s, req.session.value) {
        MarkKeeps(s1, s', s.active[req.session.value]);
      }
    } else if req.Prompt? {
      var refused := Refusal(s, req.params, storeOk);
      if refused.Some? {
        AnswerKeeps(s, s', Failed(refused.value));
      } else {
        NotRefused(s, req.params, storeOk);
        AcceptKeeps(s, s', req.params.value.session.value, s'.prompts[|s.prompts|]);
      }
    } else {
      var s1 := s.(initialized := s'.initialized, sessions := s'.sessions);
      OtherFields(s, s1);
      AnswerKeeps(s1, s', s'.log[|s.log|].line.body);
    }
  }

  lemma NotRefused(s: State, params: Option<PromptParams>, storeOk: bool)
    requires Refusal(s, params, storeOk).None?
    ensures params.Some? && params.value.session.Some? && !Live(s, params.value.session.value)
  {
  }

  lemma NextKeepsInv(s: State, step: Step)
    requires Inv(s)
    ensures Inv(Next(s, step))
  {
    hide Inv, Handle, Feed;
    if Ready(s, step) {
      match step
      case Dispatch(req, versionOk, storeOk) => HandleKeeps(s, req, versionOk, storeOk);
      case StartStreaming(p) => PhaseKeeps(s, Next(s, step), p, Streaming);
      case StartFails(p) => PhaseKeeps(s, Next(s, step), p, Drained(Failed(Internal)));
      case Event(p, event) => FeedKeeps(s, p, event);
      case WriteUpdate(p) => UpdateKeeps(s, p);
      case ChannelClosed(p) =>
        WorkingStop(s, p);
        PhaseKeeps(s, Next(s, step), p, Drained(Stopped(s.prompts[p].stop)));
      case WriteReply(p) => WriteReplyKeeps(s, p);
      case SetCompleted(p) => PhaseKeeps(s, Next(s, step), p, Completed(s.prompts[p].phase.reply));
    }
  }

  lemma WorkingStop(s: State, p: nat)
    requires Inv(s) && p < |s.prompts| && Working(s.prompts[p].phase)
    ensures s.prompts[p].stop != Cancelled
  {
    assert PromptOk(s, p);
  }

  lemma {:induction false} RunKeepsInv(steps: seq<Step>)
    ensures Inv(Run(steps))
  {
    if steps != [] {
      RunKeepsInv(steps[..|steps| - 1]);
      NextKeepsInv(Run(steps[..|steps| - 1]), steps[|steps| - 1]);
    }
  }

  // ---------------------------------------------------------------------------------------------
  // What holds in every interleaving
  // ---------------------------------------------------------------------------------------------

  /** Two prompts of one session are never both under way, and the one under way is the one a cancel reaches. */
  lemma OneLivePrompt(steps: seq<Step>, p: nat, q: nat)
    ensures var s := Run(steps);
            (p < |s.prompts| && q < |s.prompts| && s.prompts[p].session == s.prompts[q].session
             && !s.prompts[p].phase.Completed? && !s.prompts[q].phase.Completed?)
            ==> p == q && s.prompts[p].session in s.active && s.active[s.prompts[p].session] == p
  {
    RunKeepsInv(steps);
    assert p < |Run(steps).prompts| ==> PromptOk(Run(steps), p);
    assert q < |Run(steps).prompts| ==> PromptOk(Run(steps), q);
  }

  /** When a prompt is accepted, every prompt accepted before it on the session has had its one reply. */
  lemma ReplyBeforeNextPrompt(steps: seq<Step>, i: nat, j: nat)
    requires var log := Run(steps).log; i < j < |log| && log[i].Accepted? && log[j].Accepted?
    ensures var s := Run(steps);
            var p, q := s.log[i].prompt, s.log[j].prompt;
            && p < |s.prompts| && q < |s.prompts|
            && (s.prompts[p].session == s.prompts[q].session ==> |Replies(s.log[..j], s.prompts[p].request)| == 1)
  {
    RunKeepsInv(steps);
    var s := Run(steps);
    assert GateOk(s, j);
    AcceptedAt(s.log[..j], i);
    AcceptedEarlier(s.log, j, s.log[i].prompt);
  }

  lemma {:induction false} AcceptedAt(log: seq<Entry>, i: nat)
    requires i < |log| && log[i].Accepted?
    ensures AcceptedIn(log, log[i].prompt)
  {
    if i < |log| - 1 {
      AcceptedAt(log[..|log| - 1], i);
    }
  }

  /**
   * Every request gets exactly one reply, except that a cancel notification gets none and an accepted
   * prompt gets its one when its worker has finished; requests not yet received have none.
   */
  lemma ExactlyOneReply(steps: seq<Step>, r: nat)
    ensures var s := Run(steps);
            var n := |Replies(s.log, r)|;
            && (r >= s.requests ==> n == 0)
            && (r < s.requests && NotifiedIn(s.log, r) ==> n == 0)
            && (forall p: nat :: p < |s.prompts| && s.prompts[p].request == r ==>
                  n == if s.prompts[p].phase.Replied? || s.prompts[p].phase.Completed? then 1 else 0)
            && (r < s.requests && !NotifiedIn(s.log, r) && !HasPrompt(s, r) ==> n == 1)
  {
    RunKeepsInv(steps);
    var s := Run(steps);
    assert RequestOk(s, r);
    forall p: nat | p < |s.prompts| && s.prompts[p].request == r
      ensures |Replies(s.log, r)| == if s.prompts[p].phase.Replied? || s.prompts[p].phase.Completed? then 1 else 0
    {
      assert PromptOk(s, p);
    }
    assert HasPrompt(s, r) ==> !NotifiedIn(s.log, r) by {
      if HasPrompt(s, r) {
        var p: nat :| p < |s.prompts| && s.prompts[p].request == r;
        assert PromptOk(s, p);
      }
    }
  }

  /**
   * A prompt is answered `cancelled` exactly when its worker took a further event from its stream after a
   * cancel for that very prompt; a cancel that arrives after the last event is too late.
   */
  lemma CancelledReplyExactlyWhen(steps: seq<Step>, p: nat)
    requires p < |Run(steps).prompts|
    ensures var s := Run(steps);
            var w := s.prompts[p];
            && (Replies(s.log, w.request) == [Stopped(Cancelled)]
                <==> (w.phase.Replied? || w.phase.Completed?) && FedAfterMark(s.log, p))
            && (FedAfterMark(s.log, p) ==> MarkedIn(s.log, p))
  {
    RunKeepsInv(steps);
    assert PromptOk(Run(steps), p);
    FedMeansMarked(Run(steps).log, p);
  }

  /** The state in which one prompt has just been accepted on session `s`. */
  function OnePrompt(): State {
    Next(Next(Next(START, Dispatch(Initialize, true, true)), Dispatch(NewSession("s", true), true, true)),
         Dispatch(Prompt(Some(PromptParams(Some("s"), [Text("hi")]))), true, true))
  }

  lemma OnePromptState()
    ensures OnePrompt()
            == State(true, {"s"}, map["s" := 0], [PromptState(2, "s", "hi", false, Starting, EndTurn, "", [])], 3,
                     [Wrote(Reply(0, Success)), Wrote(Reply(1, Success)), Accepted(0)])
  {
    assert [Text("hi")][1..] == [];
  }

  /** A cancel while the last event has already been taken: the client is told `end_turn`. */
  lemma CancelCanComeTooLate()
    ensures var s := Next(Next(Next(Next(OnePrompt(), StartStreaming(0)), Dispatch(Cancel(Some("s")), true, true)),
                               ChannelClosed(0)), WriteReply(0));
            s.log[|s.log| - 2..] == [Marked(0), Wrote(Reply(2, Stopped(EndTurn)))]
  {
    hide OnePrompt;
    OnePromptState();
  }

  // ---------------------------------------------------------------------------------------------
  // The list of pending tool calls
  // ---------------------------------------------------------------------------------------------

  function PendingAfter(events: seq<StreamEvent>): Pending {
    if events == [] then [] else MapEvent(events[|events| - 1], PendingAfter(events[..|events| - 1])).1
  }

  function Started(events: seq<StreamEvent>): Pending {
    if events == [] then []
    else
      var e := events[|events| - 1];
      Started(events[..|events| - 1]) + if e.ToolUseStart? then [(e.name, e.id)] else []
  }

  function Resolved(events: seq<StreamEvent>): set<string> {
    set i | 0 <= i < |events| && events[i].ToolResult? :: events[i].id
  }

  predicate HasId(calls: Pending, id: string) {
    exists i :: 0 <= i < |calls| && calls[i].1 == id
  }

  function Unless(calls: Pending, done: set<string>): Pending {
    if calls == [] then []
    else if calls[0].1 in done then Unless(calls[1..], done)
    else [calls[0]] + Unless(calls[1..], done)
  }

  predicate DistinctIds(calls: Pending) {
    forall i, j :: 0 <= i < j < |calls| ==> calls[i].1 != calls[j].1
  }

  /** Call ids are not reused, and a result names a call that was started and has no result yet. */
  predicate Matched(events: seq<StreamEvent>) {
    events != [] ==>
      var before, e := events[..|events| - 1], events[|events| - 1];
      && Matched(before)
      && (e.ToolUseStart? ==> !HasId(Started(before), e.id) && e.id !in Resolved(before))
      && (e.ToolResult? ==> HasId(Started(before), e.id) && e.id !in Resolved(before))
  }

  lemma {:induction false} UnlessOneMore(calls: Pending, done: set<string>, id: string)
    requires DistinctIds(calls) && HasId(calls, id) && id !in done
    ensures var u := Unless(calls, done);
            PositionOfId(u, id).Some? && Without(u, PositionOfId(u, id).value) == Unless(calls, done + {id})
  {
    hide *;
    FirstOrLater(calls, id);
    var rest := calls[1..];
    UnlessTurn(calls, done);
    UnlessTurn(calls, done + {id});
    if calls[0].1 == id {
      UnlessAbsent(rest, done, id);
      TakesFirst(calls[0], Unless(rest, done));
    } else {
      UnlessOneMore(rest, done, id);
      var u := Unless(rest, done);
      PositionFinds(u, id, "");
      if calls[0].1 !in done {
        PositionCons(calls[0], u, id);
      }
    }
  }

  lemma FirstOrLater(calls: Pending, id: string)
    requires DistinctIds(calls) && HasId(calls, id)
    ensures calls != [] && DistinctIds(calls[1..]) && (HasId(calls[1..], id) <==> calls[0].1 != id)
  {
    var i :| 0 <= i < |calls| && calls[i].1 == id;
    if i > 0 {
      assert calls[1..][i - 1].1 == id;
    }
  }

  lemma UnlessTurn(calls: Pending, done: set<string>)
    requires calls != []
    ensures Unless(calls, done)
            == if calls[0].1 in done then Unless(calls[1..], done) else [calls[0]] + Unless(calls[1..], done)
  {
  }

  lemma TakesFirst(c: (string, string), calls: Pending)
    ensures PositionOfId([c] + calls, c.1) == Some(0) && Without([c] + calls, 0) == calls
  {
  }

  lemma PositionCons(c: (string, string), calls: Pending, id: string)
    requires c.1 != id && PositionOfId(calls, id).Some? && PositionOfId(calls, id).value < |calls|
    ensures PositionOfId([c] + calls, id) == Some(PositionOfId(calls, id).value + 1)
    ensures Without([c] + calls, PositionOfId(calls, id).value + 1)
            == [c] + Without(calls, PositionOfId(calls, id).value)
  {
    assert ([c] + calls)[1..] == calls;
    WithoutCons(c, calls, PositionOfId(calls, id).value);
  }

  lemma WithoutCons(c: (string, string), calls: Pending, i: nat)
    requires i < |calls|
    ensures Without([c] + calls, i + 1) == [c] + Without(calls, i)
  {
    assert ([c] + calls)[..i + 1] == [c] + calls[..i];
    assert ([c] + calls)[i + 2..] == calls[i + 1..];
    ConcatAssoc([c], calls[..i], calls[i + 1..]);
  }

  lemma {:induction false} UnlessAbsent(calls: Pending, done: set<string>, id: string)
    requires !HasId(calls, id)
    ensures Unless(calls, done + {id}) == Unless(calls, done)
  {
    if calls != [] {
      assert calls[0].1 != id;
      assert forall i :: 0 <= i < |calls[1..]| ==> calls[1..][i] == calls[i + 1];
      UnlessAbsent(calls[1..], done, id);
    }
  }

  lemma {:induction false} UnlessSnoc(calls: Pending, done: set<string>, c: (string, string))
    requires c.1 !in done
    ensures Unless(calls + [c], done) == Unless(calls, done) + [c]
  {
    if calls != [] {
      assert (calls + [c])[1..] == calls[1..] + [c];
      UnlessSnoc(calls[1..], done, c);
    }
  }

  lemma {:induction false} PendingAfterIs(events: seq<StreamEvent>)
    requires Matched(events)
    ensures PendingAfter(events) == Unless(Started(events), Resolved(events))
    ensures DistinctIds(Started(events))
  {
    hide Resolved, HasId, MapEvent, Unless, DistinctIds;
    if events == [] {
      NothingPending();
    } else {
      var before, e := events[..|events| - 1], events[|events| - 1];
      PendingAfterIs(before);
      ResolvedSnoc(before, e);
      assert before + [e] == events;
      PendingTurn(Started(before), Resolved(before), e);
    }
  }

  lemma NothingPending()
    ensures Unless([], Resolved([])) == [] && DistinctIds([])
  {
  }

  /** One event's effect on the list of the calls `calls` of which `done` are resolved. */
  lemma PendingTurn(calls: Pending, done: set<string>, e: StreamEvent)
    requires DistinctIds(calls)
    requires e.ToolUseStart? ==> !HasId(calls, e.id) && e.id !in done
    requires e.ToolResult? ==> HasId(calls, e.id) && e.id !in done
    ensures var calls' := calls + if e.ToolUseStart? then [(e.name, e.id)] else [];
            var done' := done + if e.ToolResult? then {e.id} else {};
            MapEvent(e, Unless(calls, done)).1 == Unless(calls', done') && DistinctIds(calls')
  {
    hide Unless;
    ConcatNothing(calls);
    assert done + {} == done;
    if e.ToolUseStart? {
      UnlessSnoc(calls, done, (e.name, e.id));
      forall i | 0 <= i < |calls| ensures calls[i].1 != e.id {
        assert HasId(calls, calls[i].1);
      }
    } else if e.ToolResult? {
      UnlessOneMore(calls, done, e.id);
    }
  }

  lemma ResolvedSnoc(before: seq<StreamEvent>, e: StreamEvent)
    ensures Resolved(before + [e]) == Resolved(before) + if e.ToolResult? then {e.id} else {}
  {
    var events := before + [e];
    forall id ensures id in Resolved(events) <==> id in Resolved(before) || (e.ToolResult? && id == e.id) {
      if id in Resolved(before) {
        var i :| 0 <= i < |before| && before[i].ToolResult? && before[i].id == id;
        assert events[i].id == id;
      }
      assert events[|before|] == e;
    }
  }

  /** The step hands an event to the worker of prompt `p`, which has not been told to stop. */
  predicate Takes(s: State, step: Step, p: nat) {
    step.Event? && step.p == p && Ready(s, step) && !s.prompts[p].cancelled
  }

  /** The events the worker of prompt `p` has recorded, in order. */
  function EventsTaken(steps: seq<Step>, p: nat): seq<StreamEvent> {
    if steps == [] then []
    else
      var front, step := steps[..|steps| - 1], steps[|steps| - 1];
      EventsTaken(front, p) + if Takes(Run(front), step, p) then [step.event] else []
  }

  lemma PendingStep(s: State, step: Step, p: nat)
    requires p < |Next(s, step).prompts|
    ensures var pending := if p < |s.prompts| then s.prompts[p].pending else [];
            Next(s, step).prompts[p].pending == if Takes(s, step, p) then MapEvent(step.event, pending).1 else pending
  {
    hide MapEvent, Refusal, JoinLines, Texts;
  }

  lemma PromptsStay(s: State, step: Step)
    ensures |s.prompts| <= |Next(s, step).prompts|
  {
    hide MapEvent, Refusal, JoinLines, Texts;
  }

  lemma PendingSnoc(events: seq<StreamEvent>, e: StreamEvent)
    ensures PendingAfter(events + [e]) == MapEvent(e, PendingAfter(events)).1
  {
    hide MapEvent;
    assert (events + [e])[..|events|] == events;
  }

  /** In every interleaving, a worker's list is what the events it has recorded make of it. */
  lemma {:induction false} PendingFollows(steps: seq<Step>, p: nat)
    ensures p < |Run(steps).prompts| ==> Run(steps).prompts[p].pending == PendingAfter(EventsTaken(steps, p))
    ensures p >= |Run(steps).prompts| ==> EventsTaken(steps, p) == []
  {
    hide Next, PendingAfter, MapEvent;
    if steps == [] {
      NothingYet();
    } else {
      var front, step := steps[..|steps| - 1], steps[|steps| - 1];
      PendingFollows(front, p);
      PromptsStay(Run(front), step);
      ConcatNothing(EventsTaken(front, p));
      if p < |Run(steps).prompts| {
        PendingStep(Run(front), step, p);
        NothingYet();
        if Takes(Run(front), step, p) {
          PendingSnoc(EventsTaken(front, p), step.event);
        }
      }
    }
  }

  lemma NothingYet()
    ensures PendingAfter([]) == []
  {
  }

  /**
   * In every interleaving in which results name started calls, a worker's list is the calls started and not yet
   * resolved, in the order they were started.
   */
  lemma PendingIsStartedUnresolved(steps: seq<Step>, p: nat)
    requires p < |Run(steps).prompts| && Matched(EventsTaken(steps, p))
    ensures var events := EventsTaken(steps, p);
            Run(steps).prompts[p].pending == Unless(Started(events), Resolved(events))
  {
    hide *;
    PendingFollows(steps, p);
    PendingAfterIs(EventsTaken(steps, p));
  }
}
