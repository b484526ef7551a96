/**
 * The debounced forwarding of one agent answer to a WebSocket, `stream_events_to_ws` of
 * `crates/api/src/ws.rs`: text deltas are gathered for a while, every other event goes out at once.
 *
 * What the channel, the clock, the timer and the socket do is an arbitrary list of inputs: events received
 * and timer firings, each with the time it happens and the fate of every send it can cause.
 */
module WsStream {
  import opened Common

  const DEBOUNCE_MS: nat := 100
  const DEBOUNCE_CHARS: nat := 200
  const DAY_MS: nat := 86_400_000

  datatype VerboseLevel = Off | On | Full

  /** A tool's arguments: their JSON text, and the two members the canvas tool looks up. */
  datatype ToolInput = ToolInput(json: string, html: Option<string>, title: Option<string>)

  datatype Usage = Usage(inputTokens: nat, outputTokens: nat)

  datatype StreamEvent =
    | TextDelta(text: string)
    | ToolUseStart(id: string, name: string)
    | ToolInputDelta(text: string)
    | ToolUseEnd(id: string, name: string, input: ToolInput)
    | ThinkingDelta(text: string)
    | ContentComplete(usage: Usage)
    | PhaseChange(phase: string, detail: Option<string>)
    | ToolExecutionResult(id: string, name: string, resultPreview: string, isError: bool)

  datatype Frame =
    | Text(content: string)
    | Typing(tool: string)
    | ToolStart(tool: string, id: string)
    | Canvas(html: string, title: string)
    | ToolEnd(tool: string, id: string, input: string)
    | ToolResult(tool: string, id: string, result: Option<string>, isError: bool)
    | Phase(phase: string, detail: Option<string>)

  /** A frame handed to the socket, and whether the socket took it. */
  datatype Attempt = Attempt(frame: Frame, ok: bool)

  datatype Input =
    | Received(event: StreamEvent, now: nat, verbose: VerboseLevel, flushOk: bool, typingOk: bool, eventOk: bool)
    | TimerFired(now: nat, flushOk: bool)

  /** The length in UTF-8. */
  function Bytes(s: string): nat {
    if s == "" then 0
    else
      var c := s[|s| - 1] as int;
      Bytes(s[..|s| - 1]) + if c < 0x80 then 1 else if c < 0x800 then 2 else if c < 0x1_0000 then 3 else 4
  }

  /** The octets of a character in UTF-8, section 3 of RFC 3629. */
  function Octets(c: char): seq<nat> {
    var n := c as int;
    if n <= 0x7F then [n]
    else if n <= 0x7FF then [0xC0 + n / 0x40, 0x80 + n % 0x40]
    else if n <= 0xFFFF then [0xE0 + n / 0x1000, 0x80 + n / 0x40 % 0x40, 0x80 + n % 0x40]
    else [0xF0 + n / 0x4_0000, 0x80 + n / 0x1000 % 0x40, 0x80 + n / 0x40 % 0x40, 0x80 + n % 0x40]
  }

  function Utf8(s: string): seq<nat> {
    if s == "" then [] else Octets(s[0]) + Utf8(s[1..])
  }

  lemma {:induction false} BytesOfText(s: string)
    ensures Bytes(s) == |Utf8(s)|
    decreases |s|
  {
    hide Octets;
    if s != "" {
      var front, c := s[..|s| - 1], s[|s| - 1];
      BytesOfText(front);
      Utf8Snoc(front, c);
      assert front + [c] == s;
      BytesOfChar(c);
    }
  }

  lemma BytesOfChar(c: char)
    ensures var n := c as int;
            |Octets(c)| == if n < 0x80 then 1 else if n < 0x800 then 2 else if n < 0x1_0000 then 3 else 4
  {
  }

  lemma {:induction false} Utf8Snoc(s: string, c: char)
    ensures Utf8(s + [c]) == Utf8(s) + Octets(c)
  {
    hide Octets;
    if s == "" {
      assert ("" + [c])[1..] == "";
      ConcatNothing(Octets(c));
    } else {
      assert (s + [c])[1..] == s[1..] + [c];
      Utf8Snoc(s[1..], c);
      ConcatAssoc(Octets(s[0]), Utf8(s[1..]), Octets(c));
    }
  }

  function Chars(s: string, n: nat): string {
    if |s| <= n then s else s[..n]
  }

  function OrElse(s: Option<string>, otherwise: string): string {
    match s
    case Some(v) => v
    case None => otherwise
  }

  function MapStreamEvent(e: StreamEvent, verbose: VerboseLevel): Option<Frame> {
    match e
    case ToolUseStart(id, name) => Some(ToolStart(name, id))
    case ToolUseEnd(id, name, input) =>
      if name == "canvas_present" then Some(Canvas(OrElse(input.html, ""), OrElse(input.title, "Canvas")))
      else (
        match verbose
        case Off => None
        case On => Some(ToolEnd(name, id, Chars(input.json, 100)))
        case Full => Some(ToolEnd(name, id, Chars(input.json, 500)))
      )
    case ToolExecutionResult(id, name, preview, isError) => (
      match verbose
      case Off => Some(ToolResult(name, id, None, isError))
      case On => Some(ToolResult(name, id, Some(Chars(preview, 200)), isError))
      case Full => Some(ToolResult(name, id, Some(preview), isError))
    )
    case PhaseChange(phase, detail) => Some(Phase(phase, detail))
    case _ => None
  }

  // ---------------------------------------------------------------------------------------------
  // The loop
  // ---------------------------------------------------------------------------------------------

  /** `open` is false once a failed send has ended the loop. */
  datatype State = State(buffer: string, text: string, thinking: string, usage: Option<Usage>, deadline: nat,
                         sent: seq<Attempt>, open: bool)

  function FarFuture(start: nat): nat {
    start + DAY_MS
  }

  /** `earlier` is what the connection had carried before. */
  function Begin(start: nat, earlier: seq<Attempt>): State {
    State("", "", "", None, FarFuture(start), earlier, true)
  }

  function Send(s: State, f: Frame, ok: bool): State {
    s.(sent := s.sent + [Attempt(f, ok)])
  }

  function Flush(s: State, ok: bool): State {
    if s.buffer == "" then s else Send(s, Text(s.buffer), ok).(buffer := "")
  }

  function TakeText(start: nat, s: State, text: string, now: nat, flushOk: bool): State {
    var s1 := s.(text := s.text + text, buffer := s.buffer + text);
    if Bytes(s1.buffer) >= DEBOUNCE_CHARS then Flush(s1, flushOk).(deadline := FarFuture(start))
    else if s1.deadline >= FarFuture(start) then s1.(deadline := now + DEBOUNCE_MS)
    else s1
  }

  function SendTyping(s: State, i: Input): State
    requires i.Received?
  {
    if i.event.ToolUseStart? then Send(s, Typing(i.event.name), i.typingOk) else s
  }

  function SendMapped(s: State, i: Input): State
    requires i.Received?
  {
    match MapStreamEvent(i.event, i.verbose)
    case None => s
    case Some(f) => Send(s, f, i.eventOk).(open := i.eventOk)
  }

  function TakeOther(start: nat, s: State, i: Input): State
    requires i.Received?
  {
    SendMapped(SendTyping(Flush(s, i.flushOk).(deadline := FarFuture(start)), i), i)
  }

  function Step(start: nat, s: State, i: Input): State {
    if !s.open then s
    else if i.TimerFired? then Flush(s, i.flushOk).(deadline := FarFuture(start))
    else
      match i.event
      case ContentComplete(usage) => s.(usage := Some(usage))
      case TextDelta(text) => TakeText(start, s, text, i.now, i.flushOk)
      case ThinkingDelta(text) => s.(thinking := s.thinking + text)
      case _ => TakeOther(start, s, i)
  }

  function Run(start: nat, earlier: seq<Attempt>, inputs: seq<Input>): State {
    if inputs == [] then Begin(start, earlier)
    else Step(start, Run(start, earlier, inputs[..|inputs| - 1]), inputs[|inputs| - 1])
  }

  lemma RunNext(start: nat, earlier: seq<Attempt>, inputs: seq<Input>, n: nat)
    requires n < |inputs|
    ensures Run(start, earlier, inputs[..n + 1]) == Step(start, Run(start, earlier, inputs[..n]), inputs[n])
  {
    assert inputs[..n + 1][..n] == inputs[..n];
  }

  /** The channel is closed after the last input. */
  function Closed(s: State, flushOk: bool): State {
    if s.open then Flush(s, flushOk) else s
  }

  datatype Answer = Answer(text: string, usage: Option<Usage>, silent: bool)

  function AnswerOf(s: State): Answer {
    var text := if s.text == "" && s.thinking != "" then s.thinking else s.text;
    Answer(text, s.usage, text == "" && s.usage.Some?)
  }

  class Socket {
    var sent: seq<Attempt>

    constructor ()
      ensures sent == []
    {
      sent := [];
    }

    method SendJson(f: Frame, ok: bool)
      modifies this
      ensures sent == old(sent) + [Attempt(f, ok)]
    {
      sent := sent + [Attempt(f, ok)];
    }

    method FlushTextBuffer(buffer: string, ok: bool) returns (rest: string)
      modifies this
      ensures rest == ""
      ensures sent == if buffer == "" then old(sent) else old(sent) + [Attempt(Text(buffer), ok)]
    {
      if buffer != "" {
        SendJson(Text(buffer), ok);
      }
      rest := "";
    }

    /** The branch for the events that are neither text nor the end of the content. */
    method ForwardNow(i: Input, buffer: string) returns (rest: string, open: bool)
      requires i.Received?
      modifies this
      ensures forall start, s: State :: s.buffer == buffer && s.sent == old(sent) && s.open ==>
                TakeOther(start, s, i) == s.(buffer := rest, sent := sent, deadline := FarFuture(start), open := open)
    {
      rest := FlushTextBuffer(buffer, i.flushOk);
      open := true;
      if i.event.ToolUseStart? {
        SendJson(Typing(i.event.name), i.typingOk);
      }
      var mapped := MapStreamEvent(i.event, i.verbose);
      if mapped.Some? {
        SendJson(mapped.value, i.eventOk);
        open := i.eventOk;
      }
    }

    method StreamEventsToWs(start: nat, inputs: seq<Input>, lastFlushOk: bool) returns (answer: Answer)
      modifies this
      ensures var s := Closed(Run(start, old(sent), inputs), lastFlushOk);
              sent == s.sent && answer == AnswerOf(s)
    {
      var buffer, text, thinking, usage, silent := "", "", "", None, false;
      var farFuture := start + DAY_MS;
      var deadline: nat := farFuture;
      var open := true;
      assert inputs[..|inputs|] == inputs;
      for n := 0 to |inputs|
        invariant farFuture == FarFuture(start)
        invariant Run(start, old(sent), inputs[..n]) == State(buffer, text, thinking, usage, deadline, sent, open)
      {
        var i := inputs[n];
        RunNext(start, old(sent), inputs, n);
        hide Run, Bytes, TakeOther;
        if open {
          if i.TimerFired? {
            buffer := FlushTextBuffer(buffer, i.flushOk);
            deadline := farFuture;
          } else if i.event.ContentComplete? {
            usage := Some(i.event.usage);
          } else if i.event.TextDelta? {
            text := text + i.event.text;
            buffer := buffer + i.event.text;
            if Bytes(buffer) >= DEBOUNCE_CHARS {
              buffer := FlushTextBuffer(buffer, i.flushOk);
              deadline := farFuture;
            } else if deadline >= farFuture {
              deadline := i.now + DEBOUNCE_MS;
            }
          } else if i.event.ThinkingDelta? {
            thinking := thinking + i.event.text;
          } else {
            buffer, open := ForwardNow(i, buffer);
            deadline := farFuture;
          }
        }
      }
      if open {
        buffer := FlushTextBuffer(buffer, lastFlushOk);
      }
      if text == "" && thinking != "" {
        text := thinking;
      }
      if text == "" && usage.Some? {
        silent := true;
      }
      return Answer(text, usage, silent);
    }
  }

  // ---------------------------------------------------------------------------------------------
  // The same frames as without debouncing, but for where the text is cut
  // ---------------------------------------------------------------------------------------------

  /** A frame list with its text taken apart: two lists that differ only in how text is cut become equal. */
  datatype Item = Character(c: char) | Whole(frame: Frame)

  function Letters(s: string): seq<Item> {
    seq(|s|, i requires 0 <= i < |s| => Character(s[i]))
  }

  function Items(f: Frame): seq<Item> {
    if f.Text? then Letters(f.content) else [Whole(f)]
  }

  function Flat(frames: seq<Frame>): seq<Item> {
    if frames == [] then [] else Flat(frames[..|frames| - 1]) + Items(frames[|frames| - 1])
  }

  function Frames(sent: seq<Attempt>): seq<Frame> {
    if sent == [] then [] else Frames(sent[..|sent| - 1]) + [sent[|sent| - 1].frame]
  }

  function TypingOf(i: Input): seq<Frame>
    requires i.Received?
  {
    if i.event.ToolUseStart? then [Typing(i.event.name)] else []
  }

  function FirstOf(s: string, n: nat): string {
    s[..Min(|s|, n)]
  }

  function Or(s: Option<string>, otherwise: string): string {
    if s.Some? then s.value else otherwise
  }

  /**
   * What the client is to see of an event other than text, at its level of detail: tool starts, phases and a canvas
   * always; a tool's arguments not at all, in 100 or in 500 characters; a result without its text, with 200
   * characters of it or with all of it.
   */
  function MappedOf(i: Input): seq<Frame>
    requires i.Received?
  {
    var e := i.event;
    if e.ToolUseStart? then [ToolStart(e.name, e.id)]
    else if e.PhaseChange? then [Phase(e.phase, e.detail)]
    else if e.ToolUseEnd? && e.name == "canvas_present" then [Canvas(Or(e.input.html, ""), Or(e.input.title, "Canvas"))]
    else if e.ToolUseEnd? && i.verbose != Off then
      [ToolEnd(e.name, e.id, FirstOf(e.input.json, if i.verbose == On then 100 else 500))]
    else if e.ToolExecutionResult? then
      var shown := if i.verbose == Off then None
                   else if i.verbose == On then Some(FirstOf(e.resultPreview, 200)) else Some(e.resultPreview);
      [ToolResult(e.name, e.id, shown, e.isError)]
    else []
  }

  lemma MapsAsDocumented(i: Input)
    requires i.Received?
    ensures MappedOf(i) == match MapStreamEvent(i.event, i.verbose) case None => [] case Some(f) => [f]
  {
    assert forall s: string, n: nat :: Chars(s, n) == FirstOf(s, n);
  }

  /** What an event puts on the wire when nothing is held back. */
  function Direct(i: Input): seq<Frame> {
    if i.TimerFired? then []
    else if i.event.TextDelta? then [Text(i.event.text)]
    else TypingOf(i) + MappedOf(i)
  }

  /** The event whose failed send ends the loop. */
  predicate Breaks(i: Input) {
    i.Received? && !i.eventOk && MappedOf(i) != []
  }

  predicate Stopped(inputs: seq<Input>) {
    inputs != [] && (Stopped(inputs[..|inputs| - 1]) || Breaks(inputs[|inputs| - 1]))
  }

  function Undebounced(inputs: seq<Input>): seq<Frame> {
    if inputs == [] then []
    else
      var front := inputs[..|inputs| - 1];
      Undebounced(front) + if Stopped(front) then [] else Direct(inputs[|inputs| - 1])
  }

  lemma FlatSnoc(frames: seq<Frame>, f: Frame)
    ensures Flat(frames + [f]) == Flat(frames) + Items(f)
  {
    assert (frames + [f])[..|frames|] == frames;
  }

  lemma {:induction false} FlatConcat(a: seq<Frame>, b: seq<Frame>)
    ensures Flat(a + b) == Flat(a) + Flat(b)
  {
    if b == [] {
      ConcatNothing(a);
      ConcatNothing(Flat(a));
    } else {
      assert (a + b)[..|a + b| - 1] == a + b[..|b| - 1];
      FlatConcat(a, b[..|b| - 1]);
      ConcatAssoc(Flat(a), Flat(b[..|b| - 1]), Items(b[|b| - 1]));
    }
  }

  lemma LettersConcat(a: string, b: string)
    ensures Letters(a + b) == Letters(a) + Letters(b)
  {
  }

  /** What a state has put on the wire and still holds back, together. */
  function Seen(s: State): seq<Item> {
    Flat(Frames(s.sent)) + Letters(s.buffer)
  }

  lemma SameSeen(s: State, s': State)
    requires s.sent == s'.sent && s.buffer == s'.buffer
    ensures Seen(s) == Seen(s')
  {
  }

  lemma SendSeen(s: State, f: Frame, ok: bool)
    requires s.buffer == ""
    ensures Seen(Send(s, f, ok)) == Seen(s) + Items(f)
  {
    assert (s.sent + [Attempt(f, ok)])[..|s.sent|] == s.sent;
    FlatSnoc(Frames(s.sent), f);
    assert Letters("") == [];
    ConcatNothing(Flat(Frames(s.sent)));
    ConcatNothing(Flat(Frames(s.sent)) + Items(f));
  }

  lemma FlushSeen(s: State, ok: bool)
    ensures Seen(Flush(s, ok)) == Seen(s) && Flush(s, ok).buffer == ""
  {
    if s.buffer != "" {
      assert (s.sent + [Attempt(Text(s.buffer), ok)])[..|s.sent|] == s.sent;
      FlatSnoc(Frames(s.sent), Text(s.buffer));
      ConcatNothing(Seen(s));
      assert Letters("") == [];
    }
  }

  lemma StepSeen(start: nat, s: State, i: Input)
    ensures Seen(Step(start, s, i)) == Seen(s) + if s.open then Flat(Direct(i)) else []
    ensures s.open ==> (Step(start, s, i).open <==> !Breaks(i))
  {
    ConcatNothing(Seen(s));
    hide Seen, Bytes, Letters;
    if s.open {
      if i.TimerFired? {
        FlushSeen(s, i.flushOk);
        SameSeen(Flush(s, i.flushOk), Step(start, s, i));
      } else if i.event.TextDelta? {
        TextSeen(start, s, i);
      } else if !i.event.ThinkingDelta? && !i.event.ContentComplete? {
        OtherSeen(start, s, i);
      } else {
        SameSeen(s, Step(start, s, i));
      }
    }
  }

  lemma TextSeen(start: nat, s: State, i: Input)
    requires i.Received? && i.event.TextDelta?
    ensures Seen(TakeText(start, s, i.event.text, i.now, i.flushOk)) == Seen(s) + Flat(Direct(i))
  {
    var t := i.event.text;
    var s1 := s.(text := s.text + t, buffer := s.buffer + t);
    FlatSnoc([], Text(t));
    ConcatNothing([Text(t)]);
    ConcatNothing(Letters(t));
    LettersConcat(s.buffer, t);
    ConcatAssoc(Flat(Frames(s.sent)), Letters(s.buffer), Letters(t));
    assert Seen(s1) == Seen(s) + Letters(t);
    FlushSeen(s1, i.flushOk);
  }

  lemma OtherSeen(start: nat, s: State, i: Input)
    requires i.Received? && !i.event.TextDelta? && !i.event.ThinkingDelta? && !i.event.ContentComplete?
    ensures Seen(TakeOther(start, s, i)) == Seen(s) + Flat(Direct(i))
  {
    hide Flush, Seen, Flat, SendTyping, SendMapped, TypingOf, MappedOf;
    FlushSeen(s, i.flushOk);
    var s1 := Flush(s, i.flushOk).(deadline := FarFuture(start));
    SameSeen(Flush(s, i.flushOk), s1);
    TypingSeen(s1, i);
    MappedSeen(SendTyping(s1, i), i);
    FlatConcat(TypingOf(i), MappedOf(i));
    ConcatAssoc(Seen(s), Flat(TypingOf(i)), Flat(MappedOf(i)));
  }

  lemma TypingSeen(s: State, i: Input)
    requires i.Received? && s.buffer == ""
    ensures Seen(SendTyping(s, i)) == Seen(s) + Flat(TypingOf(i)) && SendTyping(s, i).buffer == ""
  {
    hide Seen;
    ConcatNothing(Seen(s));
    if i.event.ToolUseStart? {
      SendSeen(s, Typing(i.event.name), i.typingOk);
      OneFrame(Typing(i.event.name));
    }
  }

  lemma MappedSeen(s: State, i: Input)
    requires i.Received? && s.buffer == ""
    ensures Seen(SendMapped(s, i)) == Seen(s) + Flat(MappedOf(i))
  {
    hide Seen, MapStreamEvent, MappedOf;
    MapsAsDocumented(i);
    ConcatNothing(Seen(s));
    var mapped := MapStreamEvent(i.event, i.verbose);
    if mapped.Some? {
      SendSeen(s, mapped.value, i.eventOk);
      OneFrame(mapped.value);
      SameSeen(Send(s, mapped.value, i.eventOk), SendMapped(s, i));
    }
  }

  lemma OneFrame(f: Frame)
    ensures Flat([f]) == Items(f)
  {
    FlatSnoc([], f);
    ConcatNothing(Items(f));
    ConcatNothing([f]);
  }

  /**
   * However events and timer firings interleave, what was put on the wire followed by what is still held
   * back is what forwarding every event at once would have sent, but for the cutting of text: no text is
   * lost, repeated or moved past another frame.
   */
  lemma {:induction false} DebouncingOnlyCutsText(start: nat, earlier: seq<Attempt>, inputs: seq<Input>)
    ensures Seen(Run(start, earlier, inputs)) == Flat(Frames(earlier)) + Flat(Undebounced(inputs))
    ensures Run(start, earlier, inputs).open <==> !Stopped(inputs)
  {
    if inputs == [] {
      assert Letters("") == [];
      ConcatNothing(Flat(Frames(earlier)));
    } else {
      var front, i := inputs[..|inputs| - 1], inputs[|inputs| - 1];
      DebouncingOnlyCutsText(start, earlier, front);
      StepSeen(start, Run(start, earlier, front), i);
      FlatConcat(Undebounced(front), if Stopped(front) then [] else Direct(i));
      ConcatAssoc(Flat(Frames(earlier)), Flat(Undebounced(front)), Flat(if Stopped(front) then [] else Direct(i)));
      hide Step, Seen;
    }
  }

  /** Nothing is held back once the loop has ended, whichever way it ended. */
  lemma {:induction false} StoppedHoldsNothing(start: nat, earlier: seq<Attempt>, inputs: seq<Input>)
    ensures !Run(start, earlier, inputs).open ==> Run(start, earlier, inputs).buffer == ""
  {
    if inputs != [] {
      StoppedHoldsNothing(start, earlier, inputs[..|inputs| - 1]);
    }
  }

  /** The whole answer: after the channel closed, the frames are those of undebounced forwarding. */
  lemma AllTextIsSent(start: nat, earlier: seq<Attempt>, inputs: seq<Input>, lastFlushOk: bool)
    ensures Flat(Frames(Closed(Run(start, earlier, inputs), lastFlushOk).sent))
            == Flat(Frames(earlier)) + Flat(Undebounced(inputs))
  {
    var s := Run(start, earlier, inputs);
    DebouncingOnlyCutsText(start, earlier, inputs);
    StoppedHoldsNothing(start, earlier, inputs);
    FlushSeen(s, lastFlushOk);
    assert Letters("") == [];
    ConcatNothing(Flat(Frames(Closed(s, lastFlushOk).sent)));
  }

  /** Nothing sent before is touched, and no frame of empty text is sent. */
  ghost predicate SaysSomething(earlier: seq<Attempt>, sent: seq<Attempt>) {
    && |earlier| <= |sent| && (forall k :: 0 <= k < |earlier| ==> sent[k] == earlier[k])
    && forall k :: |earlier| <= k < |sent| ==> sent[k].frame != Text("")
  }

  lemma FlushSays(earlier: seq<Attempt>, s: State, ok: bool)
    requires SaysSomething(earlier, s.sent)
    ensures SaysSomething(earlier, Flush(s, ok).sent)
  {
  }

  lemma OtherSays(start: nat, earlier: seq<Attempt>, s: State, i: Input)
    requires SaysSomething(earlier, s.sent) && i.Received?
    ensures SaysSomething(earlier, TakeOther(start, s, i).sent)
  {
    hide Flush, Chars;
    FlushSays(earlier, s, i.flushOk);
  }

  lemma StepSays(start: nat, earlier: seq<Attempt>, s: State, i: Input)
    requires SaysSomething(earlier, s.sent)
    ensures SaysSomething(earlier, Step(start, s, i).sent)
  {
    hide Flush, TakeOther, Bytes, SaysSomething;
    if i.TimerFired? {
      FlushSays(earlier, s, i.flushOk);
    } else if i.event.TextDelta? {
      FlushSays(earlier, s.(text := s.text + i.event.text, buffer := s.buffer + i.event.text), i.flushOk);
    } else {
      OtherSays(start, earlier, s, i);
    }
  }

  /** Frames of text are never empty, neither in the loop nor at its end; what was sent before stays. */
  lemma {:induction false} NoEmptyText(start: nat, earlier: seq<Attempt>, inputs: seq<Input>, lastFlushOk: bool)
    ensures SaysSomething(earlier, Run(start, earlier, inputs).sent)
    ensures SaysSomething(earlier, Closed(Run(start, earlier, inputs), lastFlushOk).sent)
  {
    hide Step, SaysSomething, Flush;
    if inputs == [] {
      NothingSent(earlier);
    } else {
      var front, i := inputs[..|inputs| - 1], inputs[|inputs| - 1];
      NoEmptyText(start, earlier, front, lastFlushOk);
      StepSays(start, earlier, Run(start, earlier, front), i);
    }
    FlushSays(earlier, Run(start, earlier, inputs), lastFlushOk);
  }

  lemma NothingSent(earlier: seq<Attempt>)
    ensures SaysSomething(earlier, earlier)
  {
  }

  // ---------------------------------------------------------------------------------------------
  // The answer
  // ---------------------------------------------------------------------------------------------

  /** The events taken from the channel: those up to the one whose failed send ended the loop. */
  function Heard(inputs: seq<Input>): seq<StreamEvent> {
    if inputs == [] then []
    else
      var front, i := inputs[..|inputs| - 1], inputs[|inputs| - 1];
      Heard(front) + if Stopped(front) || i.TimerFired? then [] else [i.event]
  }

  function TextOf(events: seq<StreamEvent>): string {
    if events == [] then ""
    else
      var e := events[|events| - 1];
      TextOf(events[..|events| - 1]) + if e.TextDelta? then e.text else ""
  }

  function ThinkingOf(events: seq<StreamEvent>): string {
    if events == [] then ""
    else
      var e := events[|events| - 1];
      ThinkingOf(events[..|events| - 1]) + if e.ThinkingDelta? then e.text else ""
  }

  function UsageOf(events: seq<StreamEvent>): Option<Usage> {
    if events == [] then None
    else
      var e := events[|events| - 1];
      if e.ContentComplete? then Some(e.usage) else UsageOf(events[..|events| - 1])
  }

  ghost predicate Gathered(s: State, events: seq<StreamEvent>) {
    s.text == TextOf(events) && s.thinking == ThinkingOf(events) && s.usage == UsageOf(events)
  }

  lemma StepFields(start: nat, s: State, i: Input)
    ensures Step(start, s, i).open ==> s.open
    ensures !s.open ==> Step(start, s, i) == s
    ensures s.open ==> Step(start, s, i).text == s.text + if i.Received? && i.event.TextDelta? then i.event.text else ""
    ensures s.open ==>
              Step(start, s, i).thinking
              == s.thinking + if i.Received? && i.event.ThinkingDelta? then i.event.text else ""
    ensures s.open ==>
              Step(start, s, i).usage
              == if i.Received? && i.event.ContentComplete? then Some(i.event.usage) else s.usage
  {
    hide Bytes;
    ConcatNothing(s.text);
    ConcatNothing(s.thinking);
    if s.open && i.Received? && !i.event.TextDelta? && !i.event.ThinkingDelta? && !i.event.ContentComplete? {
      OtherFields(start, s, i);
      hide TakeOther;
    }
  }

  lemma OtherFields(start: nat, s: State, i: Input)
    requires i.Received?
    ensures var s' := TakeOther(start, s, i);
            s'.text == s.text && s'.thinking == s.thinking && s'.usage == s.usage
  {
    hide MapStreamEvent;
  }

  lemma StepGathers(start: nat, s: State, i: Input, events: seq<StreamEvent>)
    requires Gathered(s, events)
    ensures Gathered(Step(start, s, i), if !s.open || i.TimerFired? then events else events + [i.event])
  {
    hide Step, TextOf, ThinkingOf, UsageOf;
    StepFields(start, s, i);
    ConcatNothing(s.text);
    ConcatNothing(s.thinking);
    if i.Received? {
      OneMoreEvent(events, i.event);
    }
  }

  lemma OneMoreEvent(events: seq<StreamEvent>, e: StreamEvent)
    ensures TextOf(events + [e]) == TextOf(events) + if e.TextDelta? then e.text else ""
    ensures ThinkingOf(events + [e]) == ThinkingOf(events) + if e.ThinkingDelta? then e.text else ""
    ensures UsageOf(events + [e]) == if e.ContentComplete? then Some(e.usage) else UsageOf(events)
  {
    assert (events + [e])[..|events|] == events;
  }

  lemma {:induction false} RunGathers(start: nat, earlier: seq<Attempt>, inputs: seq<Input>)
    ensures Gathered(Run(start, earlier, inputs), Heard(inputs))
  {
    if inputs != [] {
      var front := inputs[..|inputs| - 1];
      RunGathers(start, earlier, front);
      DebouncingOnlyCutsText(start, earlier, front);
      StepGathers(start, Run(start, earlier, front), inputs[|inputs| - 1], Heard(front));
      ConcatNothing(Heard(front));
      hide Step, Gathered, Seen, Flat, Frames, Undebounced;
    }
  }

  /** The returned text is the text of the deltas, or the thinking when there was none; silence means neither came. */
  lemma AnswerIsWhatWasHeard(start: nat, earlier: seq<Attempt>, inputs: seq<Input>, lastFlushOk: bool)
    ensures var a, events := AnswerOf(Closed(Run(start, earlier, inputs), lastFlushOk)), Heard(inputs);
            && a.text == (if TextOf(events) != "" then TextOf(events) else ThinkingOf(events))
            && a.usage == UsageOf(events)
            && (a.silent <==> TextOf(events) == "" && ThinkingOf(events) == "" && UsageOf(events).Some?)
  {
    RunGathers(start, earlier, inputs);
    hide Run, TextOf, ThinkingOf, UsageOf;
  }

  /** The contents of the text frames, in order. */
  function TextIn(sent: seq<Attempt>): string {
    if sent == [] then ""
    else
      var f := sent[|sent| - 1].frame;
      TextIn(sent[..|sent| - 1]) + if f.Text? then f.content else ""
  }

  lemma TextInSnoc(sent: seq<Attempt>, a: Attempt)
    ensures TextIn(sent + [a]) == TextIn(sent) + if a.frame.Text? then a.frame.content else ""
  {
    assert (sent + [a])[..|sent|] == sent;
  }

  lemma FlushText(s: State, ok: bool)
    ensures TextIn(Flush(s, ok).sent) + Flush(s, ok).buffer == TextIn(s.sent) + s.buffer
    ensures Flush(s, ok) == s.(sent := Flush(s, ok).sent, buffer := "")
  {
    if s.buffer != "" {
      TextInSnoc(s.sent, Attempt(Text(s.buffer), ok));
    }
  }

  lemma OtherText(start: nat, s: State, i: Input)
    requires i.Received?
    ensures TextIn(TakeOther(start, s, i).sent) == TextIn(s.sent) + s.buffer && TakeOther(start, s, i).buffer == ""
  {
    hide TextIn, Flush, SendTyping, SendMapped;
    FlushText(s, i.flushOk);
    var s1 := Flush(s, i.flushOk).(deadline := FarFuture(start));
    ConcatNothing(TextIn(s1.sent));
    PlainText(s1, i);
    PlainText(SendTyping(s1, i), i);
  }

  /** Frames other than text add nothing to the text on the wire. */
  lemma PlainText(s: State, i: Input)
    requires i.Received?
    ensures TextIn(SendTyping(s, i).sent) == TextIn(s.sent) && SendTyping(s, i).buffer == s.buffer
    ensures TextIn(SendMapped(s, i).sent) == TextIn(s.sent) && SendMapped(s, i).buffer == s.buffer
  {
    hide TextIn;
    ConcatNothing(TextIn(s.sent));
    if i.event.ToolUseStart? {
      TextInSnoc(s.sent, Attempt(Typing(i.event.name), i.typingOk));
    }
    var mapped := MapStreamEvent(i.event, i.verbose);
    if mapped.Some? {
      TextInSnoc(s.sent, Attempt(mapped.value, i.eventOk));
    }
  }

  lemma StepText(start: nat, s: State, i: Input, base: string)
    requires TextIn(s.sent) + s.buffer == base + s.text
    ensures TextIn(Step(start, s, i).sent) + Step(start, s, i).buffer == base + Step(start, s, i).text
  {
    hide TextIn, Bytes, Flush, TakeOther;
    if s.open && i.TimerFired? {
      FlushText(s, i.flushOk);
    } else if s.open && i.event.TextDelta? {
      var t := i.event.text;
      ConcatAssoc(TextIn(s.sent), s.buffer, t);
      ConcatAssoc(base, s.text, t);
      FlushText(s.(text := s.text + t, buffer := s.buffer + t), i.flushOk);
    } else if s.open && !i.event.ThinkingDelta? && !i.event.ContentComplete? {
      OtherText(start, s, i);
      OtherFields(start, s, i);
      ConcatNothing(TextIn(s.sent) + s.buffer);
    }
  }

  /** At every moment the text accumulated for the final response is the text put on the wire and the text held back. */
  lemma {:induction false} StreamedTextIsTheResponse(start: nat, earlier: seq<Attempt>, inputs: seq<Input>)
    ensures var s := Run(start, earlier, inputs);
            TextIn(s.sent) + s.buffer == TextIn(earlier) + s.text
  {
    if inputs != [] {
      var front := inputs[..|inputs| - 1];
      StreamedTextIsTheResponse(start, earlier, front);
      StepText(start, Run(start, earlier, front), inputs[|inputs| - 1], TextIn(earlier));
      hide Step, TextIn;
    }
  }

  // ---------------------------------------------------------------------------------------------
  // How much is held back, and how long
  // ---------------------------------------------------------------------------------------------

  lemma {:induction false} BufferStaysShort(start: nat, earlier: seq<Attempt>, inputs: seq<Input>)
    ensures Bytes(Run(start, earlier, inputs).buffer) == |Utf8(Run(start, earlier, inputs).buffer)| < 200
  {
    BytesOfText(Run(start, earlier, inputs).buffer);
    hide Step, Bytes, Utf8;
    if inputs == [] {
      NothingIsShort();
    } else {
      var front, i := inputs[..|inputs| - 1], inputs[|inputs| - 1];
      BufferStaysShort(start, earlier, front);
      StepStaysShort(start, Run(start, earlier, front), i);
    }
  }

  lemma NothingIsShort()
    ensures Bytes("") == 0
  {
  }

  lemma StepStaysShort(start: nat, s: State, i: Input)
    requires Bytes(s.buffer) < DEBOUNCE_CHARS
    ensures Bytes(Step(start, s, i).buffer) < DEBOUNCE_CHARS
  {
    hide Bytes, Flush, TakeOther;
    NothingIsShort();
    FlushEmpties(s, i.flushOk);
    if i.Received? && i.event.TextDelta? {
      FlushEmpties(s.(text := s.text + i.event.text, buffer := s.buffer + i.event.text), i.flushOk);
    } else if i.Received? {
      OtherEmpties(start, s, i);
    }
  }

  lemma FlushEmpties(s: State, ok: bool)
    ensures Flush(s, ok).buffer == ""
  {
  }

  lemma OtherEmpties(start: nat, s: State, i: Input)
    requires i.Received?
    ensures TakeOther(start, s, i).buffer == ""
  {
    hide MapStreamEvent;
  }

  function LastTime(start: nat, inputs: seq<Input>): nat {
    if inputs == [] then start else inputs[|inputs| - 1].now
  }

  /** The clock never goes back. */
  predicate Clocked(start: nat, inputs: seq<Input>) {
    inputs == [] ||
    var front := inputs[..|inputs| - 1];
    Clocked(start, front) && LastTime(start, front) <= inputs[|inputs| - 1].now
  }

  predicate IsDelta(i: Input) {
    i.Received? && i.event.TextDelta?
  }

  function LastDelta(start: nat, inputs: seq<Input>): nat {
    if inputs == [] then start
    else
      var i := inputs[|inputs| - 1];
      if IsDelta(i) then i.now else LastDelta(start, inputs[..|inputs| - 1])
  }

  /** The text of the deltas that came before time `t`. */
  function TextBefore(inputs: seq<Input>, t: int): string {
    if inputs == [] then ""
    else
      var i := inputs[|inputs| - 1];
      TextBefore(inputs[..|inputs| - 1], t) + if IsDelta(i) && i.now < t then i.event.text else ""
  }

  lemma {:induction false} LastDeltaIsPast(start: nat, inputs: seq<Input>)
    requires Clocked(start, inputs)
    ensures LastDelta(start, inputs) <= LastTime(start, inputs)
  {
    if inputs != [] {
      LastDeltaIsPast(start, inputs[..|inputs| - 1]);
    }
  }

  lemma {:induction false} AllBefore(start: nat, earlier: seq<Attempt>, inputs: seq<Input>, t: int)
    requires Clocked(start, inputs) && Run(start, earlier, inputs).open
    ensures TextBefore(inputs, t) <= Run(start, earlier, inputs).text
    ensures LastDelta(start, inputs) < t ==> TextBefore(inputs, t) == Run(start, earlier, inputs).text
  {
    hide *;
    if inputs == [] {
      NoText(start, earlier, t);
    } else {
      var front, i := inputs[..|inputs| - 1], inputs[|inputs| - 1];
      assert inputs == front + [i];
      RunTurn(start, earlier, front, i);
      StepFields(start, Run(start, earlier, front), i);
      ClockedTurn(start, front, i);
      BeforeSnoc(front, i, t);
      LastSnoc(start, front, i);
      LastDeltaIsPast(start, front);
      AllBefore(start, earlier, front, t);
      DeltaOrNot(i);
    }
  }

  lemma DeltaOrNot(i: Input)
    ensures IsDelta(i) <==> i.Received? && i.event.TextDelta?
  {
  }

  lemma NoText(start: nat, earlier: seq<Attempt>, t: int)
    ensures TextBefore([], t) == "" && Run(start, earlier, []).text == ""
  {
  }

  lemma {:induction false} BeforeGrows(start: nat, earlier: seq<Attempt>, inputs: seq<Input>, t: int, t': int)
    requires Clocked(start, inputs) && t <= t' && Run(start, earlier, inputs).open
    ensures TextBefore(inputs, t) <= TextBefore(inputs, t')
  {
    hide *;
    if inputs == [] {
      NoText(start, earlier, t);
    } else {
      var front, i := inputs[..|inputs| - 1], inputs[|inputs| - 1];
      assert inputs == front + [i];
      RunTurn(start, earlier, front, i);
      StepFields(start, Run(start, earlier, front), i);
      ClockedTurn(start, front, i);
      LastDeltaIsPast(start, front);
      BeforeSnoc(front, i, t);
      BeforeSnoc(front, i, t');
      BeforeGrows(start, earlier, front, t, t');
      AllBefore(start, earlier, front, t);
      AllBefore(start, earlier, front, t');
    }
  }

  /** The part of the answer that is on the wire. */
  function Out(s: State): string
    requires |s.buffer| <= |s.text|
  {
    s.text[..|s.text| - |s.buffer|]
  }

  /** When the timer comes due, no delta will have waited for more than 100 ms. */
  predicate InTime(inputs: seq<Input>, s: State)
    requires |s.buffer| <= |s.text|
  {
    TextBefore(inputs, s.deadline - DEBOUNCE_MS) <= Out(s)
  }

  /** A timer before the far future is in time; else none is set and nothing held, or it is set for the last delta. */
  ghost predicate Punctual(start: nat, inputs: seq<Input>, s: State) {
    && |s.buffer| <= |s.text|
    && if s.deadline < FarFuture(start) then s.deadline <= LastTime(start, inputs) + DEBOUNCE_MS && InTime(inputs, s)
       else || (s.deadline == FarFuture(start) && s.buffer == "")
            || s.deadline == LastDelta(start, inputs) + DEBOUNCE_MS
  }

  lemma ClockedTurn(start: nat, front: seq<Input>, i: Input)
    requires Clocked(start, front + [i])
    ensures Clocked(start, front) && LastTime(start, front) <= i.now
  {
    assert (front + [i])[..|front|] == front;
  }

  lemma LastSnoc(start: nat, front: seq<Input>, i: Input)
    ensures LastTime(start, front + [i]) == i.now
    ensures LastDelta(start, front + [i]) == if IsDelta(i) then i.now else LastDelta(start, front)
  {
    assert (front + [i])[..|front|] == front;
  }

  lemma RunTurn(start: nat, earlier: seq<Attempt>, front: seq<Input>, i: Input)
    ensures Run(start, earlier, front + [i]) == Step(start, Run(start, earlier, front), i)
  {
    hide Step;
    assert (front + [i])[..|front|] == front;
  }

  lemma PunctualAtFirst(start: nat, earlier: seq<Attempt>)
    ensures Punctual(start, [], Run(start, earlier, []))
  {
  }

  lemma {:induction false} RunIsPunctual(start: nat, earlier: seq<Attempt>, inputs: seq<Input>)
    requires Clocked(start, inputs) && Run(start, earlier, inputs).open
    ensures Punctual(start, inputs, Run(start, earlier, inputs))
  {
    hide *;
    if inputs == [] {
      PunctualAtFirst(start, earlier);
    } else {
      var front, i := inputs[..|inputs| - 1], inputs[|inputs| - 1];
      assert inputs == front + [i];
      var s := Run(start, earlier, front);
      ClockedTurn(start, front, i);
      RunTurn(start, earlier, front, i);
      StepFields(start, s, i);
      LastDeltaIsPast(start, front);
      RunIsPunctual(start, earlier, front);
      AllBefore(start, earlier, front, i.now);
      StepIsPunctual(start, front, s, i);
    }
  }

  lemma BeforeSnoc(front: seq<Input>, i: Input, t: int)
    ensures TextBefore(front + [i], t) == TextBefore(front, t) + if IsDelta(i) && i.now < t then i.event.text else ""
  {
    assert (front + [i])[..|front|] == front;
  }

  lemma StepIsPunctual(start: nat, front: seq<Input>, s: State, i: Input)
    requires s.open && Punctual(start, front, s) && TextBefore(front, i.now) <= s.text
    requires LastDelta(start, front) <= LastTime(start, front) <= i.now
    ensures Punctual(start, front + [i], Step(start, s, i))
  {
    hide Punctual, TakeText, TakeOther, Flush, TextBefore, LastDelta;
    if IsDelta(i) {
      TextIsPunctual(start, front, s, i);
    } else {
      OtherStep(start, s, i);
      hide Step;
      StaysPunctual(start, front, s, i, Step(start, s, i));
    }
  }

  lemma StaysPunctual(start: nat, front: seq<Input>, s: State, i: Input, s': State)
    requires Punctual(start, front, s) && LastTime(start, front) <= i.now && !IsDelta(i)
    requires s'.text == s.text && ((s'.buffer == s.buffer && s'.deadline == s.deadline)
                                   || (s'.buffer == "" && s'.deadline == FarFuture(start)))
    ensures Punctual(start, front + [i], s')
  {
    hide *;
    if s'.buffer == s.buffer && s'.deadline == s.deadline {
      SameIsPunctual(start, front, s, i, s');
    } else {
      FlushedIsPunctual(start, front + [i], s');
    }
  }

  lemma SameIsPunctual(start: nat, front: seq<Input>, s: State, i: Input, s': State)
    requires Punctual(start, front, s) && LastTime(start, front) <= i.now && !IsDelta(i)
    requires s'.text == s.text && s'.buffer == s.buffer && s'.deadline == s.deadline
    ensures Punctual(start, front + [i], s')
  {
    hide TextBefore, LastDelta, LastTime, IsDelta, InTime, FarFuture;
    LastSnoc(start, front, i);
    if |s.buffer| <= |s.text| {
      InTimeStays(front, s, i, s');
    }
  }

  lemma InTimeStays(front: seq<Input>, s: State, i: Input, s': State)
    requires |s.buffer| <= |s.text| && !IsDelta(i)
    requires s'.text == s.text && s'.buffer == s.buffer && s'.deadline == s.deadline
    ensures InTime(front + [i], s') <==> InTime(front, s)
  {
    hide *;
    var t := s.deadline - DEBOUNCE_MS;
    BeforeSnoc(front, i, t);
    ConcatNothing(TextBefore(front, t));
    InTimeMeans(front, s);
    InTimeMeans(front + [i], s');
  }

  lemma InTimeMeans(inputs: seq<Input>, s: State)
    requires |s.buffer| <= |s.text|
    ensures InTime(inputs, s)
            <==> TextBefore(inputs, s.deadline - DEBOUNCE_MS) <= s.text[..|s.text| - |s.buffer|]
  {
    hide TextBefore;
  }

  lemma OtherStep(start: nat, s: State, i: Input)
    requires s.open && !IsDelta(i)
    ensures var s' := Step(start, s, i);
            s'.text == s.text && ((s'.buffer == s.buffer && s'.deadline == s.deadline)
                                  || (s'.buffer == "" && s'.deadline == FarFuture(start)))
  {
    hide MapStreamEvent, TakeText;
  }

  lemma TextIsPunctual(start: nat, front: seq<Input>, s: State, i: Input)
    requires s.open && Punctual(start, front, s) && TextBefore(front, i.now) <= s.text && IsDelta(i)
    requires LastDelta(start, front) <= LastTime(start, front) <= i.now
    ensures Punctual(start, front + [i], TakeText(start, s, i.event.text, i.now, i.flushOk))
  {
    hide *;
    DeltaOrNot(i);
    var s' := TakeText(start, s, i.event.text, i.now, i.flushOk);
    TextTaken(start, s, i.event.text, i.now, i.flushOk);
    if s'.buffer == "" && s'.deadline == FarFuture(start) {
      FlushedIsPunctual(start, front + [i], s');
    } else if s.deadline >= FarFuture(start) {
      SetIsPunctual(start, front, s, i, s');
    } else {
      KeptIsPunctual(start, front, s, i, s');
    }
  }

  /** What a delta does to the timer: none is set after a flush, a new one when none was, and one that is set stays. */
  lemma TextTaken(start: nat, s: State, text: string, now: nat, flushOk: bool)
    ensures var s' := TakeText(start, s, text, now, flushOk);
            && s'.text == s.text + text
            && if Bytes(s.buffer + text) >= DEBOUNCE_CHARS then s'.buffer == "" && s'.deadline == FarFuture(start)
               else && s'.buffer == s.buffer + text
                    && s'.deadline == if s.deadline >= FarFuture(start) then now + DEBOUNCE_MS else s.deadline
  {
    hide Bytes;
  }

  lemma FlushedIsPunctual(start: nat, inputs: seq<Input>, s: State)
    requires s.buffer == "" && s.deadline == FarFuture(start)
    ensures Punctual(start, inputs, s)
  {
  }

  lemma SetIsPunctual(start: nat, front: seq<Input>, s: State, i: Input, s': State)
    requires Punctual(start, front, s) && TextBefore(front, i.now) <= s.text && IsDelta(i)
    requires LastDelta(start, front) <= i.now && s.deadline >= FarFuture(start)
    requires s'.text == s.text + i.event.text && s'.buffer == s.buffer + i.event.text
             && s'.deadline == i.now + DEBOUNCE_MS
    ensures Punctual(start, front + [i], s')
  {
    hide TextBefore, LastDelta, LastTime, IsDelta, InTime;
    LastSnoc(start, front, i);
    BeforeSnoc(front, i, i.now);
    ConcatNothing(TextBefore(front, i.now));
    InTimeMeans(front + [i], s');
    DeltaOrNot(i);
    SameOut(s, s', i.event.text);
  }

  lemma KeptIsPunctual(start: nat, front: seq<Input>, s: State, i: Input, s': State)
    requires Punctual(start, front, s) && IsDelta(i)
    requires LastTime(start, front) <= i.now && s.deadline < FarFuture(start)
    requires s'.text == s.text + i.event.text && s'.buffer == s.buffer + i.event.text && s'.deadline == s.deadline
    ensures Punctual(start, front + [i], s')
  {
    hide TextBefore, LastDelta, LastTime, IsDelta, InTime;
    LastSnoc(start, front, i);
    BeforeSnoc(front, i, s.deadline - DEBOUNCE_MS);
    ConcatNothing(TextBefore(front, s.deadline - DEBOUNCE_MS));
    InTimeMeans(front, s);
    InTimeMeans(front + [i], s');
    DeltaOrNot(i);
    SameOut(s, s', i.event.text);
  }

  /** Text that is held back adds nothing to what is on the wire. */
  lemma SameOut(s: State, s': State, more: string)
    requires |s.buffer| <= |s.text| && s'.text == s.text + more && s'.buffer == s.buffer + more
    ensures |s'.buffer| <= |s'.text| && s'.text[..|s'.text| - |s'.buffer|] == s.text[..|s.text| - |s.buffer|]
  {
  }

  /**
   * Unless a timer is set for the far future or later, every delta older than 100 ms is on the wire as long as the
   * timer has not come due; and that is so whenever the stream is still in its first 24 hours. Held text always has
   * a timer set, for at most 100 ms from the last input.
   */
  lemma TextIsAtMostAMomentLate(start: nat, earlier: seq<Attempt>, inputs: seq<Input>, now: nat)
    requires Clocked(start, inputs) && Run(start, earlier, inputs).open
    requires now <= Run(start, earlier, inputs).deadline
    ensures var s, day := Run(start, earlier, inputs), start + 24 * 60 * 60 * 1000;
            && |s.buffer| <= |s.text|
            && (s.deadline < day || s.buffer == "" ==> TextBefore(inputs, now - 100) <= Out(s))
            && (s.buffer != "" ==> s.deadline <= LastTime(start, inputs) + 100)
            && (LastTime(start, inputs) + 100 < day ==> s.deadline < day || s.buffer == "")
  {
    hide Run, TextBefore, Clocked, LastDelta, LastTime;
    var s := Run(start, earlier, inputs);
    RunIsPunctual(start, earlier, inputs);
    LastDeltaIsPast(start, inputs);
    BeforeGrows(start, earlier, inputs, now - DEBOUNCE_MS, s.deadline - DEBOUNCE_MS);
    AllBefore(start, earlier, inputs, now - DEBOUNCE_MS);
  }

  /**
   * Past the 24 hours it is not so. The timer of text held back is put off by a further delta if and only if it
   * is set for the far future or later and time has passed since the last delta; and then, and only then, text
   * that would have gone out in time does not.
   */
  lemma TimerIsPutOffExactlyWhen(start: nat, earlier: seq<Attempt>, front: seq<Input>, i: Input)
    requires Clocked(start, front + [i]) && Run(start, earlier, front).open && IsDelta(i)
    requires Run(start, earlier, front).buffer != ""
             && Bytes(Run(start, earlier, front).buffer + i.event.text) < DEBOUNCE_CHARS
    ensures var s, s' := Run(start, earlier, front), Run(start, earlier, front + [i]);
            && |s.buffer| <= |s.text| && |s'.buffer| <= |s'.text|
            && (s'.deadline > s.deadline <==>
                  s.deadline >= start + 24 * 60 * 60 * 1000 && i.now > LastDelta(start, front))
            && (InTime(front + [i], s') <==> InTime(front, s) && s'.deadline == s.deadline)
  {
    hide *;
    var s, s' := Run(start, earlier, front), Run(start, earlier, front + [i]);
    DeltaOrNot(i);
    ClockedTurn(start, front, i);
    RunTurn(start, earlier, front, i);
    TextStep(start, s, i);
    TextTaken(start, s, i.event.text, i.now, i.flushOk);
    RunIsPunctual(start, earlier, front);
    LastDeltaIsPast(start, front);
    AllBefore(start, earlier, front, i.now);
    HeldWaits(start, front, s, i, s');
    FarIsADay(start);
  }

  lemma FarIsADay(start: nat)
    ensures FarFuture(start) == start + 24 * 60 * 60 * 1000
  {
  }

  lemma TextStep(start: nat, s: State, i: Input)
    requires s.open && IsDelta(i)
    ensures Step(start, s, i) == TakeText(start, s, i.event.text, i.now, i.flushOk)
  {
    hide TakeText, TakeOther;
  }

  lemma HeldWaits(start: nat, front: seq<Input>, s: State, i: Input, s': State)
    requires Punctual(start, front, s) && LastDelta(start, front) <= LastTime(start, front) <= i.now && s.buffer != ""
    requires IsDelta(i)
    requires s'.text == s.text + i.event.text && s'.buffer == s.buffer + i.event.text
    requires s'.deadline == if s.deadline >= FarFuture(start) then i.now + DEBOUNCE_MS else s.deadline
    requires LastDelta(start, front) < i.now ==> TextBefore(front, i.now) == s.text
    ensures |s.buffer| <= |s.text| && |s'.buffer| <= |s'.text|
    ensures s'.deadline > s.deadline <==> s.deadline >= FarFuture(start) && i.now > LastDelta(start, front)
    ensures InTime(front + [i], s') <==> InTime(front, s) && s'.deadline == s.deadline
  {
    hide TextBefore, LastDelta, LastTime, IsDelta;
    BeforeSnoc(front, i, s'.deadline - DEBOUNCE_MS);
    ConcatNothing(TextBefore(front, s'.deadline - DEBOUNCE_MS));
    assert Out(s') == Out(s);
    assert |Out(s)| < |s.text|;
  }

  /** One character every 99 ms, from the end of the 24 hours on. */
  function Dripping(n: nat): seq<Input> {
    if n == 0 then []
    else Dripping(n - 1) + [Received(TextDelta("a"), DAY_MS + 99 * (n - 1), Off, true, true, true)]
  }

  function Drops(n: nat): string {
    if n == 0 then "" else Drops(n - 1) + "a"
  }

  lemma {:induction false} DropsLength(n: nat)
    ensures |Drops(n)| == n == Bytes(Drops(n))
  {
    if n > 0 {
      DropsLength(n - 1);
      assert Drops(n)[..n - 1] == Drops(n - 1);
    }
  }

  /**
   * No timer comes due before the next delta, up to 199 characters are held back, and the first of them waits for
   * almost 20 seconds.
   */
  lemma {:induction false} HeldPastTheDay(earlier: seq<Attempt>, n: nat)
    requires 0 < n < DEBOUNCE_CHARS
    ensures Clocked(0, Dripping(n)) && LastTime(0, Dripping(n)) == DAY_MS + 99 * (n - 1)
    ensures Run(0, earlier, Dripping(n))
            == State(Drops(n), Drops(n), "", None, DAY_MS + 99 * (n - 1) + 100, earlier, true)
  {
    hide TakeText, Run, Clocked, LastTime, Bytes;
    var i := Received(TextDelta("a"), DAY_MS + 99 * (n - 1), Off, true, true, true);
    var s := Run(0, earlier, Dripping(n - 1));
    if n == 1 {
      BeforeTheFirst(earlier);
    } else {
      HeldPastTheDay(earlier, n - 1);
    }
    DropsLength(n);
    RunTurn(0, earlier, Dripping(n - 1), i);
    ClockGoesOn(0, Dripping(n - 1), i);
    TextTaken(0, s, "a", i.now, true);
    FieldsTaken(0, s, "a", i.now, true);
  }

  lemma BeforeTheFirst(earlier: seq<Attempt>)
    ensures Run(0, earlier, []) == Begin(0, earlier) && Clocked(0, []) && LastTime(0, []) == 0
  {
  }

  lemma ClockGoesOn(start: nat, front: seq<Input>, i: Input)
    requires Clocked(start, front) && LastTime(start, front) <= i.now
    ensures Clocked(start, front + [i]) && LastTime(start, front + [i]) == i.now
  {
    assert (front + [i])[..|front|] == front;
  }

  lemma FieldsTaken(start: nat, s: State, text: string, now: nat, flushOk: bool)
    requires Bytes(s.buffer + text) < DEBOUNCE_CHARS
    ensures var s' := TakeText(start, s, text, now, flushOk);
            s'.thinking == s.thinking && s'.usage == s.usage && s'.sent == s.sent && s'.open == s.open
  {
  }
}
