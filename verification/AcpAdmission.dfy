/**
 * What the dispatcher lets in: which requests are answered and how, when a prompt is accepted and with which
 * message, and which prompt a cancel reaches, told by the requests that came before.
 */
module AcpAdmission {
  import opened Common
  import opened Acp
  import opened AcpRuns

  /** An `initialize` of the right version came before. */
  predicate Initialized(steps: seq<Step>) {
    steps != [] &&
    var front, step := steps[..|steps| - 1], steps[|steps| - 1];
    Initialized(front) || (step.Dispatch? && step.req.Initialize? && step.versionOk)
  }

  predicate Heard(steps: seq<Step>, step: Step) {
    step.Dispatch? && step.versionOk && Initialized(steps)
  }

  /** The session was created or loaded, and not deleted since. */
  predicate Opened(steps: seq<Step>, session: SessionId) {
    steps != [] &&
    var front, step := steps[..|steps| - 1], steps[|steps| - 1];
    OpensOrCloses(Heard(front, step), step, session, Opened(front, session))
  }

  /** Whether the session is open after the step, when it was open or not before. */
  predicate OpensOrCloses(heard: bool, step: Step, session: SessionId, open: bool)
    requires heard ==> step.Dispatch?
  {
    if !heard then open
    else
      match step.req
      case NewSession(id, agentFound) => open || (id == session && agentFound && step.storeOk)
      case LoadSession(loaded, found) => open || (loaded == Some(session) && found)
      case DeleteConversation(deleted) => open && deleted != Some(session)
      case _ => open
  }

  ghost predicate Knows(s: State, steps: seq<Step>) {
    (s.initialized <==> Initialized(steps)) && forall session :: session in s.sessions <==> Opened(steps, session)
  }

  lemma StepKnows(s: State, steps: seq<Step>, step: Step)
    requires Knows(s, steps)
    ensures Knows(Next(s, step), steps + [step])
  {
    hide Refusal, Taken, Texts, JoinLines, Initialized, Opened;
    var s' := Next(s, step);
    HistoryTurn(steps, step, "");
    forall session ensures session in s'.sessions <==> Opened(steps + [step], session) {
      HistoryTurn(steps, step, session);
    }
  }

  lemma HistoryTurn(steps: seq<Step>, step: Step, session: SessionId)
    ensures Initialized(steps + [step])
            <==> Initialized(steps) || (step.Dispatch? && step.req.Initialize? && step.versionOk)
    ensures Opened(steps + [step], session)
            <==> OpensOrCloses(Heard(steps, step), step, session, Opened(steps, session))
  {
    assert (steps + [step])[..|steps|] == steps;
  }

  lemma {:induction false} RunKnows(steps: seq<Step>)
    ensures Knows(Run(steps), steps)
  {
    hide Next, Knows;
    if steps == [] {
      KnowsNothing();
    } else {
      var front, step := steps[..|steps| - 1], steps[|steps| - 1];
      RunKnows(front);
      StepKnows(Run(front), front, step);
      assert steps == front + [step];
    }
  }

  lemma KnowsNothing()
    ensures Knows(START, [])
  {
  }

  // ---------------------------------------------------------------------------------------------
  // The text of a prompt
  // ---------------------------------------------------------------------------------------------

  /** Text blocks, and resources whose text is embedded. */
  predicate CarriesText(b: Block) {
    b.Text? || (b.Resource? && b.content.Some?)
  }

  predicate IsTextOf(b: Block, text: string) {
    match b
    case Text(t) => text == t
    case Resource(content) => content == Some(text)
    case OtherBlock => false
  }

  /** `texts` are the texts of the blocks that carry one, in their order. */
  ghost predicate AreTexts(blocks: seq<Block>, texts: seq<string>) {
    Gives(blocks, texts, CarriesText, IsTextOf)
  }

  lemma {:induction false} TextsAreThose(blocks: seq<Block>)
    ensures AreTexts(blocks, Texts(blocks))
  {
    hide Gives;
    if blocks == [] {
      GivesNothing(CarriesText, IsTextOf);
    } else {
      TextsAreThose(blocks[1..]);
      assert blocks == [blocks[0]] + blocks[1..];
      ConcatNothing(Texts(blocks[1..]));
      if CarriesText(blocks[0]) {
        GivesFirst(blocks[0], Texts(blocks)[0], blocks[1..], Texts(blocks[1..]), CarriesText, IsTextOf);
      } else {
        PassesOver(blocks[0], blocks[1..], Texts(blocks[1..]), CarriesText, IsTextOf);
      }
    }
  }

  /** The texts with a line break between any two. */
  function WithBreaks(texts: seq<string>): string {
    if texts == [] then ""
    else if |texts| == 1 then texts[0]
    else WithBreaks(texts[..|texts| - 1]) + "\n" + texts[|texts| - 1]
  }

  lemma {:induction false} JoinsWithBreaks(texts: seq<string>)
    ensures JoinLines(texts) == WithBreaks(texts)
    decreases |texts|
  {
    if |texts| >= 2 {
      var front, last := texts[..|texts| - 1], texts[|texts| - 1];
      JoinsWithBreaks(front);
      JoinLast(front, last);
      assert front + [last] == texts;
    }
  }

  lemma {:induction false} JoinLast(texts: seq<string>, last: string)
    requires texts != []
    ensures JoinLines(texts + [last]) == JoinLines(texts) + "\n" + last
  {
    var all := texts + [last];
    assert all[1..] == texts[1..] + [last];
    if |texts| == 1 {
      assert all[1..] == [last];
    } else {
      JoinLast(texts[1..], last);
      ConcatAssoc(texts[0] + "\n", JoinLines(texts[1..]), "\n" + last);
    }
  }

  /** The message of a prompt: the texts of its blocks, in order, one to a line. */
  ghost predicate IsMessage(blocks: seq<Block>, message: string) {
    exists texts :: AreTexts(blocks, texts) && message == WithBreaks(texts)
  }

  lemma MessageIs(blocks: seq<Block>)
    ensures IsMessage(blocks, JoinLines(Texts(blocks)))
  {
    TextsAreThose(blocks);
    JoinsWithBreaks(Texts(blocks));
  }

  // ---------------------------------------------------------------------------------------------
  // The dispatcher in a run
  // ---------------------------------------------------------------------------------------------

  /** No prompt of the session is under way. */
  ghost predicate Free(s: State, session: SessionId) {
    forall p {:trigger s.prompts[p]} :: 0 <= p < |s.prompts| && s.prompts[p].session == session ==>
        s.prompts[p].phase.Completed?
  }

  lemma LiveOrFree(s: State, session: SessionId)
    requires Inv(s)
    ensures Live(s, session) <==> !Free(s, session)
  {
    assert ActiveOk(s, session);
    forall p: nat | p < |s.prompts| ensures PromptOk(s, p) {
    }
    if !Free(s, session) {
      var p :| 0 <= p < |s.prompts| && s.prompts[p].session == session && !s.prompts[p].phase.Completed?;
      assert PromptOk(s, p);
    }
  }

  /** A prompt names a session that is open and free. */
  ghost predicate Admissible(steps: seq<Step>, params: Option<PromptParams>) {
    && params.Some? && params.value.session.Some?
    && Opened(steps, params.value.session.value) && Free(Run(steps), params.value.session.value)
  }

  /**
   * In every run, a prompt is accepted if and only if the connection is initialized, the session is open, no prompt
   * of it is under way, its blocks carry text and the message could be stored. It then starts with exactly that
   * text; otherwise it is answered with the error that tells what was missing, and nothing else changes.
   */
  lemma PromptIsAcceptedExactlyWhen(steps: seq<Step>, params: Option<PromptParams>, versionOk: bool, storeOk: bool)
    returns (message: string)
    ensures params.Some? ==> IsMessage(params.value.blocks, message)
    ensures var step := Dispatch(Prompt(params), versionOk, storeOk);
            var s, s', heard := Run(steps), Next(Run(steps), step), Heard(steps, step);
            if heard && Admissible(steps, params) && message != "" && storeOk then
              var session, n := params.value.session.value, |s.prompts|;
              var started := PromptState(s.requests, session, message, false, Starting, EndTurn, "", []);
              s' == s.(requests := s.requests + 1, prompts := s.prompts + [started], active := s.active[session := n],
                       log := s.log + [Accepted(n)])
            else
              var error := if !heard then InvalidRequest
                           else if Admissible(steps, params) && message != "" then Internal else InvalidParams;
              s' == s.(requests := s.requests + 1, log := s.log + [Wrote(Reply(s.requests, Failed(error)))])
  {
    message := if params.Some? then JoinLines(Texts(params.value.blocks)) else "";
    RunKeepsInv(steps);
    RunKnows(steps);
    if params.Some? {
      MessageIs(params.value.blocks);
      if params.value.session.Some? {
        LiveOrFree(Run(steps), params.value.session.value);
      }
    }
    hide Run, Inv, Live, Free, Initialized, Opened, Texts, JoinLines, IsMessage;
  }

  /** In every run, a cancel raises the flag of the prompt of its session that is under way, and nothing else. */
  lemma CancelReaches(steps: seq<Step>, session: Option<SessionId>, storeOk: bool, p: nat)
    requires p < |Run(steps).prompts| && Initialized(steps)
    ensures var s, s' := Run(steps), Next(Run(steps), Dispatch(Cancel(session), true, storeOk));
            var w := s.prompts[p];
            && |s'.prompts| == |s.prompts| && s'.active == s.active && s'.sessions == s.sessions
            && s'.prompts[p] == w.(cancelled := w.cancelled || (session == Some(w.session) && !w.phase.Completed?))
            && (s'.log == s.log + [Notified(s.requests)]
                || exists q :: s'.log == s.log + [Notified(s.requests), Marked(q)])
  {
    RunKeepsInv(steps);
    RunKnows(steps);
    assert PromptOk(Run(steps), p);
    var s := Run(steps);
    hide Run, Inv, Initialized, Opened;
    var s' := Next(s, Dispatch(Cancel(session), true, storeOk));
    if session.Some? && Live(s, session.value) {
      var q := s.active[session.value];
      assert s'.log == s.log + [Notified(s.requests), Marked(q)];
      ActiveMeans(s, steps, session.value);
    }
  }

  lemma ActiveMeans(s: State, steps: seq<Step>, session: SessionId)
    requires s == Run(steps) && Live(s, session)
    ensures s.prompts[s.active[session]].session == session
  {
    RunKeepsInv(steps);
    assert ActiveOk(s, session);
  }

  /** In every run, how a request other than a prompt or a cancel is answered; no prompt changes. */
  lemma RequestIsAnswered(steps: seq<Step>, req: Request, versionOk: bool, storeOk: bool)
    requires !req.Prompt? && !req.Cancel?
    ensures var s, s' := Run(steps), Next(Run(steps), Dispatch(req, versionOk, storeOk));
            var answer :=
              if !versionOk || (!Initialized(steps) && req != Initialize && req != Authenticate) then
                Failed(InvalidRequest)
              else
                match req
                case NewSession(_, agentFound) =>
                  if !agentFound then Failed(InvalidParams) else if !storeOk then Failed(Internal) else Success
                case LoadSession(session, found) =>
                  if session.None? || !found then Failed(InvalidParams)
                  else if !storeOk then Failed(Internal)
                  else Success
                case OtherMethod(known) => if known then Success else Failed(MethodNotFound)
                case _ => Success;
            && s'.log == s.log + [Wrote(Reply(s.requests, answer))] && s'.requests == s.requests + 1
            && s'.prompts == s.prompts && s'.active == s.active
  {
    RunKnows(steps);
    hide Run, Initialized, Opened;
  }
}
