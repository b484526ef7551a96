/**
 * The server-sent-event loop of `chat_stream` in `desktop/src/main.rs`: chunks of text are appended to a
 * buffer, complete frames are drained from it and turned into events for the user interface.
 * Chunks are the decoded characters; what a JSON payload says is a function supplied from outside.
 */
module SseStream {
  import opened Common

  /** The parts of a payload the loop looks at; a payload that does not parse has none of them. */
  datatype Payload = Payload(content: Option<string>, tool: string, input: string, phase: string, detail: string,
                             usage: string)

  type Decoder = string -> Payload

  datatype Emit =
    | Delta(text: string)
    | ToolStart(tool: string)
    | ToolEnd(tool: string, input: string)
    | Phase(phase: string, detail: string)
    | Done(usage: string, text: string)
    | Interrupted(partial: string)

  /** How the chunks end: the connection closes, or reading the next chunk fails. */
  datatype Ending = Closed | Broken

  datatype Outcome = Finished | StreamBroke

  // ---------------------------------------------------------------------------------------------
  // Strings
  // ---------------------------------------------------------------------------------------------

  /** The first position of a blank line. */
  function Find(s: string): (r: Option<nat>)
    ensures r.Some? ==> BlankAt(s, r.value)
  {
    if |s| < 2 then None
    else if s[0] == '\n' && s[1] == '\n' then Some(0)
    else match Find(s[1..])
         case None => None
         case Some(p) => Some(p + 1)
  }

  function WithoutCr(s: string): string {
    if s != [] && s[|s| - 1] == '\r' then s[..|s| - 1] else s
  }

  /** `str::lines`: terminated by a newline, with an optional carriage return before it. */
  function Lines(s: string): seq<string> {
    LinesFrom(s, [])
  }

  function LinesFrom(s: string, line: string): seq<string>
    decreases |s|
  {
    if s == [] then if line == [] then [] else [line]
    else if s[0] == '\n' then [WithoutCr(line)] + LinesFrom(s[1..], [])
    else LinesFrom(s[1..], line + [s[0]])
  }

  // ---------------------------------------------------------------------------------------------
  // One frame
  // ---------------------------------------------------------------------------------------------

  /** The trimmed value of the last line that starts with `prefix`. */
  function LastField(lines: seq<string>, prefix: string): string {
    if lines == [] then []
    else
      var last := lines[|lines| - 1];
      if prefix <= last then Trim(last[|prefix|..]) else LastField(lines[..|lines| - 1], prefix)
  }

  datatype Handled = Handled(emits: seq<Emit>, acc: string, stop: bool)

  function Handle(decode: Decoder, frame: string, acc: string): Handled {
    var event, data := LastField(Lines(frame), "event:"), LastField(Lines(frame), "data:");
    if data == [] then Handled([], acc, false)
    else
      var json := decode(data);
      if event == "chunk" then
        match json.content
        case None => Handled([], acc, false)
        case Some(text) => Handled([Delta(text)], acc + text, false)
      else if event == "tool_use" then Handled([ToolStart(json.tool)], acc, false)
      else if event == "tool_result" then Handled([ToolEnd(json.tool, json.input)], acc, false)
      else if event == "phase" then Handled([Phase(json.phase, json.detail)], acc, false)
      else if event == "done" then Handled([Done(json.usage, acc)], acc, true)
      else Handled([], acc, false)
  }

  // ---------------------------------------------------------------------------------------------
  // The whole stream at once
  // ---------------------------------------------------------------------------------------------

  /** The complete frames of a text, and what follows the last of them. */
  function Split(text: string): (seq<string>, string)
    decreases |text|
  {
    match Find(text)
    case None => ([], text)
    case Some(p) =>
      var rest := Split(text[p + 2..]);
      ([text[..p + 2]] + rest.0, rest.1)
  }

  /** Handling frames in order up to and including the first that stops. */
  function HandleAll(decode: Decoder, frames: seq<string>, acc: string): Handled {
    if frames == [] then Handled([], acc, false)
    else
      var first := Handle(decode, frames[0], acc);
      if first.stop then first
      else
        var rest := HandleAll(decode, frames[1..], first.acc);
        Handled(first.emits + rest.emits, rest.acc, rest.stop)
  }

  /** What the loop owes the user for a text, however it arrived. */
  function Spec(decode: Decoder, text: string, ending: Ending): (seq<Emit>, Outcome) {
    var h := HandleAll(decode, Split(text).0, []);
    if h.stop then (h.emits, Finished)
    else if ending == Broken then (h.emits, StreamBroke)
    else (h.emits + [Interrupted(h.acc)], Finished)
  }

  function Concat(chunks: seq<string>): string {
    if chunks == [] then [] else Concat(chunks[..|chunks| - 1]) + chunks[|chunks| - 1]
  }

  // ---------------------------------------------------------------------------------------------
  // Frames do not depend on where the text is cut
  // ---------------------------------------------------------------------------------------------

  predicate BlankAt(s: string, i: nat) {
    i + 2 <= |s| && s[i] == '\n' && s[i + 1] == '\n'
  }

  lemma {:induction false} FindInside(s: string)
    ensures forall i: nat :: BlankAt(s, i) ==> Find(s).Some? && Find(s).value <= i
  {
    if |s| >= 2 {
      FindInside(s[1..]);
      forall i: nat | BlankAt(s, i) ensures Find(s).Some? && Find(s).value <= i {
        if i > 0 {
          assert BlankAt(s[1..], i - 1);
        }
      }
    }
  }

  lemma {:induction false} FindPrefix(a: string, b: string)
    requires Find(a).Some?
    ensures Find(a + b) == Find(a)
  {
    assert (a + b)[1..] == a[1..] + b;
    if !(a[0] == '\n' && a[1] == '\n') {
      FindPrefix(a[1..], b);
    }
  }

  lemma {:induction false} SplitAppend(a: string, b: string)
    ensures Split(a + b) == (Split(a).0 + Split(Split(a).1 + b).0, Split(Split(a).1 + b).1)
    decreases |a|
  {
    hide Find;
    match Find(a) {
      case None =>
        assert [] + Split(a + b).0 == Split(a + b).0;
      case Some(p) =>
        FindPrefix(a, b);
        assert (a + b)[..p + 2] == a[..p + 2];
        assert (a + b)[p + 2..] == a[p + 2..] + b;
        SplitAppend(a[p + 2..], b);
        var rest := Split(a[p + 2..]);
        ConcatAssoc([a[..p + 2]], rest.0, Split(rest.1 + b).0);
    }
  }

  lemma {:induction false} HandleAppend(decode: Decoder, f: seq<string>, g: seq<string>, acc: string)
    ensures var h := HandleAll(decode, f, acc);
            HandleAll(decode, f + g, acc) ==
            if h.stop then h
            else var k := HandleAll(decode, g, h.acc); Handled(h.emits + k.emits, k.acc, k.stop)
  {
    hide Handle;
    if f == [] {
      assert f + g == g;
      assert [] + HandleAll(decode, g, acc).emits == HandleAll(decode, g, acc).emits;
    } else {
      assert (f + g)[1..] == f[1..] + g;
      var first := Handle(decode, f[0], acc);
      if !first.stop {
        HandleAppend(decode, f[1..], g, first.acc);
      }
    }
  }

  // ---------------------------------------------------------------------------------------------
  // The loop
  // ---------------------------------------------------------------------------------------------

  method ParseFrame(frame: string) returns (event: string, data: string)
    ensures event == LastField(Lines(frame), "event:") && data == LastField(Lines(frame), "data:")
  {
    event, data := [], [];
    var lines := Lines(frame);
    for i := 0 to |lines|
      invariant event == LastField(lines[..i], "event:") && data == LastField(lines[..i], "data:")
    {
      var line := lines[i];
      assert lines[..i + 1][..i] == lines[..i] && lines[..i + 1][i] == line;
      if "event:" <= line {
        assert line[0] == "event:"[0];
        assert !("data:" <= line);
        event := Trim(line[6..]);
      } else if "data:" <= line {
        data := Trim(line[5..]);
      }
    }
    assert lines[..|lines|] == lines;
  }

  method HandleFrame(decode: Decoder, frame: string, acc: string) returns (h: Handled)
    ensures h == Handle(decode, frame, acc)
  {
    var event, data := ParseFrame(frame);
    if data == [] {
      return Handled([], acc, false);
    }
    var json := decode(data);
    if event == "chunk" {
      if json.content.Some? {
        return Handled([Delta(json.content.value)], acc + json.content.value, false);
      }
    } else if event == "tool_use" {
      return Handled([ToolStart(json.tool)], acc, false);
    } else if event == "tool_result" {
      return Handled([ToolEnd(json.tool, json.input)], acc, false);
    } else if event == "phase" {
      return Handled([Phase(json.phase, json.detail)], acc, false);
    } else if event == "done" {
      return Handled([Done(json.usage, acc)], acc, true);
    }
    return Handled([], acc, false);
  }

  /**
   * The loop over the chunks. Whatever the chunks are, the events and the outcome are those of the text
   * they make up, and between two chunks the buffer holds exactly the text after its last complete frame.
   */
  method ChatStream(decode: Decoder, chunks: seq<string>, ending: Ending) returns (emits: seq<Emit>, outcome: Outcome)
    ensures (emits, outcome) == Spec(decode, Concat(chunks), ending)
  {
    hide Handle, Split, HandleAll, Spec;
    var buf, acc := [], [];
    emits := [];
    ghost var frames: seq<string> := [];
    NothingYet(decode);
    for i := 0 to |chunks|
      invariant Split(Concat(chunks[..i])) == (frames, buf)
      invariant HandleAll(decode, frames, []) == Handled(emits, acc, false)
    {
      assert chunks[..i + 1][..i] == chunks[..i];
      ghost var seen := Concat(chunks[..i + 1]);
      SplitAppend(Concat(chunks[..i]), chunks[i]);
      buf := buf + chunks[i];
      while Find(buf).Some?
        invariant Split(seen) == (frames + Split(buf).0, Split(buf).1)
        invariant HandleAll(decode, frames, []) == Handled(emits, acc, false)
        decreases |buf|
      {
        SplitFrame(frames, buf);
        var pos := Find(buf).value;
        var frame := buf[..pos + 2];
        buf := buf[pos + 2..];
        var h := HandleFrame(decode, frame, acc);
        HandleOneMore(decode, frames, frame);
        frames := frames + [frame];
        acc, emits := h.acc, emits + h.emits;
        if h.stop {
          StopsEarly(decode, frames, Split(buf).0, chunks, i, ending);
          return emits, Finished;
        }
      }
      SplitRest(frames, buf);
    }
    assert chunks[..|chunks|] == chunks;
    SpecAtEnd(decode, Concat(chunks), ending);
    if ending == Broken {
      return emits, StreamBroke;
    }
    emits := emits + [Interrupted(acc)];
    outcome := Finished;
  }

  lemma NothingYet(decode: Decoder)
    ensures Split("") == ([], "") && HandleAll(decode, [], []) == Handled([], [], false)
  {
  }

  lemma SplitFrame(frames: seq<string>, buf: string)
    requires Find(buf).Some?
    ensures var p := Find(buf).value;
            var rest := Split(buf[p + 2..]);
            (frames + Split(buf).0, Split(buf).1) == (frames + [buf[..p + 2]] + rest.0, rest.1)
  {
    hide Find, Split;
    SplitFirst(buf);
    ConcatAssoc(frames, [buf[..Find(buf).value + 2]], Split(buf[Find(buf).value + 2..]).0);
  }

  lemma SplitFirst(buf: string)
    requires Find(buf).Some?
    ensures var p := Find(buf).value;
            var rest := Split(buf[p + 2..]);
            Split(buf) == ([buf[..p + 2]] + rest.0, rest.1)
  {
  }

  lemma SplitRest(frames: seq<string>, buf: string)
    requires Find(buf).None?
    ensures (frames + Split(buf).0, Split(buf).1) == (frames, buf)
  {
    assert frames + [] == frames;
  }

  lemma SpecAtEnd(decode: Decoder, text: string, ending: Ending)
    requires !HandleAll(decode, Split(text).0, []).stop
    ensures var h := HandleAll(decode, Split(text).0, []);
            Spec(decode, text, ending)
            == if ending == Broken then (h.emits, StreamBroke) else (h.emits + [Interrupted(h.acc)], Finished)
  {
  }

  lemma HandleOneMore(decode: Decoder, frames: seq<string>, frame: string)
    requires !HandleAll(decode, frames, []).stop
    ensures var h := HandleAll(decode, frames, []);
            var k := Handle(decode, frame, h.acc);
            HandleAll(decode, frames + [frame], []) == Handled(h.emits + k.emits, k.acc, k.stop)
  {
    HandleAppend(decode, frames, [frame], []);
    OneFrame(decode, frame, HandleAll(decode, frames, []).acc);
  }

  lemma OneFrame(decode: Decoder, frame: string, acc: string)
    ensures HandleAll(decode, [frame], acc) == Handle(decode, frame, acc)
  {
    var h := Handle(decode, frame, acc);
    assert [frame][1..] == [];
    assert h.emits + [] == h.emits;
  }

  lemma {:induction false} ConcatFrom(chunks: seq<string>, i: nat)
    requires i <= |chunks|
    ensures Concat(chunks) == Concat(chunks[..i]) + Concat(chunks[i..])
    decreases |chunks| - i
  {
    if i == |chunks| {
      assert chunks[..i] == chunks && chunks[i..] == [];
    } else {
      var n := |chunks| - 1;
      ConcatFrom(chunks[..n], i);
      assert chunks[..n][..i] == chunks[..i] && chunks[..n][i..] == chunks[i..][..n - i];
    }
  }

  /**
   * Once a frame stopped the loop, neither the rest of the buffer nor the chunks not read would have changed
   * anything.
   */
  lemma StopsEarly(decode: Decoder, frames: seq<string>, more: seq<string>, chunks: seq<string>, i: nat, ending: Ending)
    requires i < |chunks| && Split(Concat(chunks[..i + 1])).0 == frames + more && HandleAll(decode, frames, []).stop
    ensures Spec(decode, Concat(chunks), ending) == (HandleAll(decode, frames, []).emits, Finished)
  {
    var seen, later := Concat(chunks[..i + 1]), Concat(chunks[i + 1..]);
    ConcatFrom(chunks, i + 1);
    SplitAppend(seen, later);
    HandleAppend(decode, frames, more, []);
    HandleAppend(decode, frames + more, Split(Split(seen).1 + later).0, []);
  }

  // ---------------------------------------------------------------------------------------------
  // What a split is, and what the user sees
  // ---------------------------------------------------------------------------------------------

  function Join(frames: seq<string>): string {
    if frames == [] then [] else frames[0] + Join(frames[1..])
  }

  /** A frame ends with its only blank line. */
  predicate IsFrame(f: string) {
    |f| >= 2 && Find(f) == Some(|f| - 2)
  }

  predicate AllFrames(frames: seq<string>) {
    frames == [] || (IsFrame(frames[0]) && AllFrames(frames[1..]))
  }

  /** `Split` is the only way to cut a text into frames and a rest without a blank line. */
  lemma {:induction false} SplitIsUnique(frames: seq<string>, rest: string)
    requires AllFrames(frames) && Find(rest).None?
    ensures Split(Join(frames) + rest) == (frames, rest)
  {
    if frames == [] {
      assert Join(frames) + rest == rest;
    } else {
      var tail := Join(frames[1..]) + rest;
      assert Join(frames) + rest == frames[0] + tail;
      FindPrefix(frames[0], tail);
      SplitIsUnique(frames[1..], rest);
      assert (frames[0] + tail)[..|frames[0]|] == frames[0] && (frames[0] + tail)[|frames[0]|..] == tail;
      assert [frames[0]] + frames[1..] == frames;
    }
  }

  lemma FirstFrame(text: string)
    requires Find(text).Some?
    ensures IsFrame(text[..Find(text).value + 2])
  {
    hide Find;
    var p := Find(text).value;
    var frame, tail := text[..p + 2], text[p + 2..];
    assert BlankAt(frame, p);
    FindInside(frame);
    FindPrefix(frame, tail);
    assert frame + tail == text;
  }

  lemma {:induction false} SplitCuts(text: string)
    ensures var s := Split(text);
            text == Join(s.0) + s.1 && Find(s.1).None? && AllFrames(s.0)
    decreases |text|
  {
    hide Find, IsFrame;
    match Find(text)
    case None =>
      ConcatNothing(text);
    case Some(p) =>
      FirstFrame(text);
      var frame, tail := text[..p + 2], text[p + 2..];
      SplitCuts(tail);
      var rest := Split(tail);
      JoinCons(frame, rest.0, rest.1);
      assert ([frame] + rest.0)[1..] == rest.0;
      assert text == frame + tail;
  }

  lemma JoinCons(frame: string, frames: seq<string>, rest: string)
    ensures Join([frame] + frames) + rest == frame + (Join(frames) + rest)
  {
    assert ([frame] + frames)[1..] == frames;
    ConcatAssoc(frame, Join(frames), rest);
  }

  /** What is carried from one chunk to the next; `stopped` once a frame has ended the loop. */
  datatype Parser = Parser(buf: string, emits: seq<Emit>, acc: string, stopped: bool)

  function Feed(decode: Decoder, p: Parser, chunk: string): Parser {
    if p.stopped then p
    else
      var (frames, rest) := Split(p.buf + chunk);
      var h := HandleAll(decode, frames, p.acc);
      Parser(if h.stop then "" else rest, p.emits + h.emits, h.acc, h.stop)
  }

  function FeedAll(decode: Decoder, chunks: seq<string>): Parser {
    if chunks == [] then Parser("", [], "", false)
    else Feed(decode, FeedAll(decode, chunks[..|chunks| - 1]), chunks[|chunks| - 1])
  }

  lemma {:induction false} FeedAllParsesText(decode: Decoder, chunks: seq<string>)
    ensures var p, (frames, rest) := FeedAll(decode, chunks), Split(Concat(chunks));
            && Handled(p.emits, p.acc, p.stopped) == HandleAll(decode, frames, "")
            && p.buf == if p.stopped then "" else rest
  {
    if chunks == [] {
      NothingYet(decode);
    } else {
      var front, last := chunks[..|chunks| - 1], chunks[|chunks| - 1];
      FeedAllParsesText(decode, front);
      SplitAppend(Concat(front), last);
      var p := FeedAll(decode, front);
      HandleAppend(decode, Split(Concat(front)).0, Split(Split(Concat(front)).1 + last).0, "");
      hide Split, HandleAll;
    }
  }

  /**
   * Parsing chunk by chunk, any two ways of receiving the same text emit the same events, accumulate the
   * same text, stop alike and carry the same buffer, which never holds a complete frame.
   */
  lemma ChunkingIsInvisible(decode: Decoder, chunks: seq<string>, chunks': seq<string>)
    requires Concat(chunks) == Concat(chunks')
    ensures FeedAll(decode, chunks) == FeedAll(decode, chunks')
    ensures Find(FeedAll(decode, chunks).buf).None?
  {
    FeedAllParsesText(decode, chunks);
    FeedAllParsesText(decode, chunks');
    SplitCuts(Concat(chunks));
    hide Split, HandleAll, FeedAll;
    assert Find("").None?;
  }

  function Deltas(emits: seq<Emit>): string {
    if emits == [] then [] else Deltas(emits[..|emits| - 1]) + match emits[|emits| - 1] case Delta(t) => t case _ => []
  }

  predicate Terminal(e: Emit) {
    e.Done? || e.Interrupted?
  }

  lemma {:induction false} DeltasConcat(a: seq<Emit>, b: seq<Emit>)
    ensures Deltas(a + b) == Deltas(a) + Deltas(b)
  {
    if b == [] {
      assert a + b == a;
    } else {
      assert (a + b)[..|a + b| - 1] == a + b[..|b| - 1];
      DeltasConcat(a, b[..|b| - 1]);
    }
  }

  /** The accumulated text is the deltas shown, and a `done` event ends the handling and carries it. */
  predicate Told(h: Handled, acc: string) {
    && h.acc == acc + Deltas(h.emits)
    && (h.stop ==> h.emits != [] && h.emits[|h.emits| - 1].Done? && h.emits[|h.emits| - 1].text == h.acc)
    && forall i :: 0 <= i < |h.emits| && Terminal(h.emits[i]) ==> h.stop && i == |h.emits| - 1
  }

  lemma {:induction false} HandleAllDeltas(decode: Decoder, frames: seq<string>, acc: string)
    ensures Told(HandleAll(decode, frames, acc), acc)
  {
    hide Handle, Told;
    if frames != [] {
      var first := Handle(decode, frames[0], acc);
      HandleDeltas(decode, frames[0], acc);
      if !first.stop {
        HandleAllDeltas(decode, frames[1..], first.acc);
        ToldInTurn(first, HandleAll(decode, frames[1..], first.acc), acc);
      }
    } else {
      NothingTold(acc);
    }
  }

  lemma NothingTold(acc: string)
    ensures Told(Handled([], acc, false), acc)
  {
    ConcatNothing(acc);
  }

  lemma ToldInTurn(first: Handled, rest: Handled, acc: string)
    requires Told(first, acc) && !first.stop && Told(rest, first.acc)
    ensures Told(Handled(first.emits + rest.emits, rest.acc, rest.stop), acc)
  {
    hide Deltas;
    DeltasConcat(first.emits, rest.emits);
    ConcatAssoc(acc, Deltas(first.emits), Deltas(rest.emits));
  }

  lemma HandleDeltas(decode: Decoder, frame: string, acc: string)
    ensures Told(Handle(decode, frame, acc), acc)
  {
    var h := Handle(decode, frame, acc);
    assert h.emits != [] ==> h.emits[..0] == [];
    ConcatNothing(acc);
  }

  /**
   * A finished stream shows exactly one closing event, at the very end, and the text it carries is the
   * deltas shown before it; a stream that broke shows none.
   */
  lemma ClosingTextIsTheDeltas(decode: Decoder, text: string, ending: Ending)
    ensures var (emits, outcome) := Spec(decode, text, ending);
            && (forall i :: 0 <= i < |emits| && Terminal(emits[i]) ==> outcome == Finished && i == |emits| - 1)
            && (outcome == Finished ==>
                  && emits != [] && Terminal(emits[|emits| - 1])
                  && Deltas(emits) == match emits[|emits| - 1]
                                      case Done(_, t) => t
                                      case Interrupted(t) => t
                                      case _ => [])
  {
    hide Split, HandleAll, Deltas;
    var h := HandleAll(decode, Split(text).0, []);
    HandleAllDeltas(decode, Split(text).0, []);
    ConcatNothing(Deltas(h.emits));
    DeltasConcat(h.emits, [Interrupted(h.acc)]);
    NoDelta(h.acc);
  }

  lemma NoDelta(text: string)
    ensures Deltas([Interrupted(text)]) == ""
  {
    assert [Interrupted(text)][..0] == [];
  }
}
