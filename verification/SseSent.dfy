/**
 * A stream as its sender writes it: frames made of lines, one for each event. Whatever the chunks, the user is
 * shown exactly the events that were sent, up to the closing one.
 */
module SseSent {
  import opened Common
  import opened SseStream

  /** What a frame tells; `SentNothing` stands for comments, unknown events and frames without a payload. */
  datatype Sent =
    | SentText(text: string)
    | SentTool(tool: string)
    | SentResult(tool: string, input: string)
    | SentPhase(phase: string, detail: string)
    | SentNothing

  // ---------------------------------------------------------------------------------------------
  // Frames as lines
  // ---------------------------------------------------------------------------------------------

  predicate GoodLine(line: string) {
    line != "" && '\n' !in line && line[|line| - 1] != '\r'
  }

  predicate GoodLines(lines: seq<string>) {
    lines != [] && forall i :: 0 <= i < |lines| ==> GoodLine(lines[i])
  }

  function Written(lines: seq<string>): string {
    if lines == [] then "" else lines[0] + "\n" + Written(lines[1..])
  }

  /** A frame: its lines and a blank one. */
  function FrameOf(lines: seq<string>): string {
    Written(lines) + "\n"
  }

  lemma LineTaken(line: string, rest: string, taken: string)
    requires '\n' !in line
    ensures LinesFrom(line + "\n" + rest, taken) == [WithoutCr(taken + line)] + LinesFrom(rest, [])
    decreases |line|
  {
    var s := line + "\n" + rest;
    if line == "" {
      assert s[1..] == rest;
      ConcatNothing(taken);
    } else {
      assert s[0] == line[0] && s[1..] == line[1..] + "\n" + rest;
      LineTaken(line[1..], rest, taken + [line[0]]);
      assert taken + [line[0]] + line[1..] == taken + line;
    }
  }

  lemma {:induction false} LinesOfFrame(lines: seq<string>)
    requires forall i :: 0 <= i < |lines| ==> GoodLine(lines[i])
    ensures Lines(FrameOf(lines)) == lines + [""]
  {
    hide *;
    if lines == [] {
      BlankFrame();
      assert lines + [""] == [""];
    } else {
      LinesOfFrame(lines[1..]);
      FirstLine(lines);
      assert lines + [""] == [lines[0]] + (lines[1..] + [""]);
    }
  }

  lemma FirstLine(lines: seq<string>)
    requires lines != [] && GoodLine(lines[0])
    ensures Lines(FrameOf(lines)) == [lines[0]] + Lines(FrameOf(lines[1..]))
  {
    hide *;
    var first, rest := lines[0], FrameOf(lines[1..]);
    FrameTurn(lines);
    assert first + ("\n" + rest) == first + "\n" + rest;
    EndsGood(first);
    LineTaken(first, rest, "");
    LinesAre(FrameOf(lines));
    LinesAre(rest);
  }

  lemma EndsGood(line: string)
    requires GoodLine(line)
    ensures '\n' !in line && WithoutCr("" + line) == line
  {
  }

  lemma BlankFrame()
    ensures FrameOf([]) == "\n" && Lines("\n") == [""]
  {
    assert "\n"[1..] == "";
  }

  lemma LinesAre(s: string)
    ensures Lines(s) == LinesFrom(s, [])
  {
  }

  lemma FindSkips(line: string, rest: string)
    requires '\n' !in line
    ensures Find(line + rest) == match Find(rest) case None => None case Some(p) => Some(p + |line|)
    decreases |line|
  {
    if line == "" {
      ConcatNothing(rest);
    } else {
      assert (line + rest)[1..] == line[1..] + rest;
      FindSkips(line[1..], rest);
      if |line + rest| < 2 {
        assert rest == "";
      }
    }
  }

  lemma {:induction false} FrameIsFrame(lines: seq<string>)
    requires GoodLines(lines)
    ensures IsFrame(FrameOf(lines))
  {
    hide *;
    GoodTurn(lines);
    var first, rest := lines[0], FrameOf(lines[1..]);
    FrameTurn(lines);
    FindSkips(first, "\n" + rest);
    IsFrameMeans(FrameOf(lines));
    IsFrameMeans(rest);
    if lines[1..] == [] {
      BlankFrame();
      BlankFirst();
    } else {
      FrameIsFrame(lines[1..]);
      StartsGood(lines[1..]);
      BreakFirst(rest);
    }
  }

  lemma GoodTurn(lines: seq<string>)
    requires GoodLines(lines)
    ensures lines != [] && '\n' !in lines[0] && (lines[1..] == [] || GoodLines(lines[1..]))
  {
  }

  lemma FrameTurn(lines: seq<string>)
    requires lines != []
    ensures FrameOf(lines) == lines[0] + ("\n" + FrameOf(lines[1..]))
    ensures |FrameOf(lines)| == |lines[0]| + 1 + |FrameOf(lines[1..])|
  {
  }

  lemma IsFrameMeans(f: string)
    ensures IsFrame(f) <==> |f| >= 2 && Find(f) == Some(|f| - 2)
  {
  }

  lemma BlankFirst()
    ensures "\n" + "\n" == "\n\n" && Find("\n\n") == Some(0)
  {
  }

  lemma StartsGood(lines: seq<string>)
    requires GoodLines(lines)
    ensures FrameOf(lines) != "" && FrameOf(lines)[0] != '\n'
  {
    assert FrameOf(lines)[0] == lines[0][0];
  }

  lemma BreakFirst(s: string)
    requires s != "" && s[0] != '\n'
    ensures Find("\n" + s) == match Find(s) case None => None case Some(p) => Some(p + 1)
  {
    assert ("\n" + s)[1..] == s;
  }

  // ---------------------------------------------------------------------------------------------
  // Fields
  // ---------------------------------------------------------------------------------------------

  /** `line` is the prefix and then `value`, with nothing but white space around it. */
  ghost predicate Says(line: string, prefix: string, value: string) {
    NoSpaceAround(value)
    && exists before, after :: line == prefix + before + value + after && AllSpace(before) && AllSpace(after)
  }

  /** The last line that starts with `prefix` says `value`; without such a line the value is empty. */
  ghost predicate IsField(lines: seq<string>, prefix: string, value: string) {
    || (value == "" && forall i :: 0 <= i < |lines| ==> !(prefix <= lines[i]))
    || exists i :: && 0 <= i < |lines| && Says(lines[i], prefix, value)
                   && forall j :: i < j < |lines| ==> !(prefix <= lines[j])
  }

  lemma SaysIsTrim(line: string, prefix: string, value: string)
    requires Says(line, prefix, value)
    ensures prefix <= line && Trim(line[|prefix|..]) == value
  {
    hide Trim, IsSpace, AllSpace, NoSpaceAround;
    var before, after :| line == prefix + before + value + after && AllSpace(before) && AllSpace(after);
    assert line[|prefix|..] == before + value + after;
    TrimIs(before, value, after);
  }

  lemma {:induction false} FieldIs(lines: seq<string>, prefix: string, value: string)
    requires IsField(lines, prefix, value)
    ensures LastField(lines, prefix) == value
  {
    hide Trim, Says;
    if lines != [] {
      var front, last := lines[..|lines| - 1], lines[|lines| - 1];
      if prefix <= last {
        var i :| && 0 <= i < |lines| && Says(lines[i], prefix, value)
                 && forall j :: i < j < |lines| ==> !(prefix <= lines[j]);
        SaysIsTrim(last, prefix, value);
      } else {
        if i :| && 0 <= i < |lines| && Says(lines[i], prefix, value)
                && forall j :: i < j < |lines| ==> !(prefix <= lines[j])
        {
          SaysIsTrim(lines[i], prefix, value);
          assert Says(front[i], prefix, value);
        }
        FieldIs(front, prefix, value);
      }
    }
  }

  // ---------------------------------------------------------------------------------------------
  // Events
  // ---------------------------------------------------------------------------------------------

  /** The frame is that of the event: its name, and a payload that says the rest. */
  ghost predicate Tells(decode: Decoder, lines: seq<string>, e: Sent, name: string, data: string) {
    && IsField(lines, "event:", name) && IsField(lines, "data:", data)
    && match e
       case SentText(text) => name == "chunk" && data != "" && decode(data).content == Some(text)
       case SentTool(tool) => name == "tool_use" && data != "" && decode(data).tool == tool
       case SentResult(tool, input) =>
         name == "tool_result" && data != "" && decode(data).tool == tool && decode(data).input == input
       case SentPhase(phase, detail) =>
         name == "phase" && data != "" && decode(data).phase == phase && decode(data).detail == detail
       case SentNothing =>
         || data == "" || name !in {"chunk", "tool_use", "tool_result", "phase", "done"}
         || (name == "chunk" && decode(data).content.None?)
  }

  ghost predicate IsFrameFor(decode: Decoder, lines: seq<string>, e: Sent) {
    GoodLines(lines) && exists name, data :: Tells(decode, lines, e, name, data)
  }

  ghost predicate IsClosing(decode: Decoder, lines: seq<string>, usage: string) {
    && GoodLines(lines) && IsField(lines, "event:", "done")
    && exists data :: IsField(lines, "data:", data) && data != "" && decode(data).usage == usage
  }

  function ShownFor(e: Sent): seq<Emit> {
    match e
    case SentText(text) => [Delta(text)]
    case SentTool(tool) => [ToolStart(tool)]
    case SentResult(tool, input) => [ToolEnd(tool, input)]
    case SentPhase(phase, detail) => [Phase(phase, detail)]
    case SentNothing => []
  }

  function Shown(events: seq<Sent>): seq<Emit> {
    if events == [] then [] else ShownFor(events[0]) + Shown(events[1..])
  }

  function TextOf(events: seq<Sent>): string {
    if events == [] then "" else (if events[0].SentText? then events[0].text else "") + TextOf(events[1..])
  }

  function Frames(lines: seq<seq<string>>): (frames: seq<string>)
    ensures |frames| == |lines| && forall i :: 0 <= i < |lines| ==> frames[i] == FrameOf(lines[i])
  {
    seq(|lines|, i requires 0 <= i < |lines| => FrameOf(lines[i]))
  }

  lemma BlankFieldIs(lines: seq<string>, prefix: string, value: string)
    requires prefix != ""
    ensures LastField(lines + [""], prefix) == LastField(lines, prefix)
  {
    assert (lines + [""])[..|lines|] == lines;
  }

  lemma FieldsOfFrame(lines: seq<string>, name: string, data: string)
    requires GoodLines(lines) && IsField(lines, "event:", name) && IsField(lines, "data:", data)
    ensures LastField(Lines(FrameOf(lines)), "event:") == name && LastField(Lines(FrameOf(lines)), "data:") == data
  {
    hide Lines, LastField, FrameOf, IsField;
    LinesOfFrame(lines);
    BlankFieldIs(lines, "event:", name);
    BlankFieldIs(lines, "data:", data);
    FieldIs(lines, "event:", name);
    FieldIs(lines, "data:", data);
  }

  lemma FrameHandled(decode: Decoder, lines: seq<string>, e: Sent, acc: string)
    requires IsFrameFor(decode, lines, e)
    ensures Handle(decode, FrameOf(lines), acc)
            == Handled(ShownFor(e), acc + if e.SentText? then e.text else "", false)
  {
    hide LastField, Lines, IsField, FrameOf;
    var name, data :| Tells(decode, lines, e, name, data);
    FieldsOfFrame(lines, name, data);
    ConcatNothing(acc);
  }

  lemma ClosingHandled(decode: Decoder, lines: seq<string>, usage: string, acc: string)
    requires IsClosing(decode, lines, usage)
    ensures Handle(decode, FrameOf(lines), acc) == Handled([Done(usage, acc)], acc, true)
  {
    hide LastField, Lines, IsField, FrameOf;
    var data :| IsField(lines, "data:", data) && data != "" && decode(data).usage == usage;
    FieldsOfFrame(lines, "done", data);
  }

  lemma {:induction false} FramesHandled(decode: Decoder, lines: seq<seq<string>>, events: seq<Sent>, acc: string)
    requires |lines| == |events| && forall i :: 0 <= i < |events| ==> IsFrameFor(decode, lines[i], events[i])
    ensures HandleAll(decode, Frames(lines), acc) == Handled(Shown(events), acc + TextOf(events), false)
  {
    hide Handle, IsFrameFor, FrameOf, ShownFor;
    if events == [] {
      ConcatNothing(acc);
    } else {
      var text := if events[0].SentText? then events[0].text else "";
      FrameHandled(decode, lines[0], events[0], acc);
      assert Frames(lines)[1..] == Frames(lines[1..]);
      FramesHandled(decode, lines[1..], events[1..], acc + text);
      ConcatAssoc(acc, text, TextOf(events[1..]));
    }
  }

  lemma {:induction false} AllAreFrames(lines: seq<seq<string>>)
    requires forall i :: 0 <= i < |lines| ==> GoodLines(lines[i])
    ensures AllFrames(Frames(lines))
  {
    hide IsFrame, GoodLines, FrameOf;
    if lines != [] {
      FrameIsFrame(lines[0]);
      assert Frames(lines)[1..] == Frames(lines[1..]);
      AllAreFrames(lines[1..]);
    }
  }

  lemma FramesAreGood(decode: Decoder, lines: seq<seq<string>>, events: seq<Sent>)
    requires |lines| == |events| && forall i :: 0 <= i < |events| ==> IsFrameFor(decode, lines[i], events[i])
    ensures forall i :: 0 <= i < |lines| ==> GoodLines(lines[i])
  {
    hide GoodLines, Tells;
  }

  lemma NoBlankInNothing()
    ensures Find("").None?
  {
  }

  /**
   * A stream without a closing frame: however it is cut into chunks, the user is shown what was sent, and then the
   * text so far as interrupted, or nothing when reading broke.
   */
  lemma SentIsShown(decode: Decoder, lines: seq<seq<string>>, events: seq<Sent>, ending: Ending)
    requires |lines| == |events| && forall i :: 0 <= i < |events| ==> IsFrameFor(decode, lines[i], events[i])
    ensures Spec(decode, Join(Frames(lines)), ending)
            == if ending == Broken then (Shown(events), StreamBroke)
               else (Shown(events) + [Interrupted(TextOf(events))], Finished)
  {
    hide Split, HandleAll, IsFrameFor, Frames, Find, Join, AllFrames, GoodLines;
    FramesAreGood(decode, lines, events);
    AllAreFrames(lines);
    NoBlankInNothing();
    SplitIsUnique(Frames(lines), "");
    ConcatNothing(Join(Frames(lines)));
    FramesHandled(decode, lines, events, "");
    ConcatNothing(TextOf(events));
  }

  /** A stream with a closing frame shows what was sent before it and then the end with the whole text. */
  lemma ClosedIsShown(decode: Decoder, lines: seq<seq<string>>, events: seq<Sent>, closing: seq<string>, usage: string,
                      more: string, ending: Ending)
    requires |lines| == |events| && forall i :: 0 <= i < |events| ==> IsFrameFor(decode, lines[i], events[i])
    requires IsClosing(decode, closing, usage)
    ensures Spec(decode, Join(Frames(lines)) + FrameOf(closing) + more, ending)
            == (Shown(events) + [Done(usage, TextOf(events))], Finished)
  {
    hide Split, HandleAll, IsFrameFor, Find, AllFrames, GoodLines, IsFrame, FrameOf, Shown, TextOf, Handle;
    var before, last, rest := Frames(lines), FrameOf(closing), Split(more);
    var all := before + [last] + rest.0;
    FramesAreGood(decode, lines, events);
    AllAreFrames(lines);
    ClosingIsGood(decode, closing, usage);
    FrameIsFrame(closing);
    SplitCuts(more);
    JoinAll(before, last, rest.0, rest.1, more);
    FramesTogether(before, last, rest.0);
    SplitIsUnique(all, rest.1);
    FramesHandled(decode, lines, events, "");
    ConcatNothing(TextOf(events));
    ClosingHandled(decode, closing, usage, TextOf(events));
    HandleAppend(decode, before + [last], rest.0, "");
    HandleAppend(decode, before, [last], "");
    OneFrame(decode, last, TextOf(events));
  }

  lemma ClosingIsGood(decode: Decoder, lines: seq<string>, usage: string)
    requires IsClosing(decode, lines, usage)
    ensures GoodLines(lines)
  {
    hide GoodLines, IsField;
  }

  lemma {:induction false} FramesTogether(before: seq<string>, last: string, after: seq<string>)
    requires AllFrames(before) && IsFrame(last) && AllFrames(after)
    ensures AllFrames(before + [last] + after)
  {
    hide IsFrame;
    var all := before + [last] + after;
    if before == [] {
      assert all[1..] == after;
    } else {
      assert all[1..] == before[1..] + [last] + after;
      FramesTogether(before[1..], last, after);
    }
  }

  lemma {:induction false} JoinAll(before: seq<string>, last: string, after: seq<string>, rest: string, more: string)
    requires more == Join(after) + rest
    ensures Join(before + [last] + after) + rest == Join(before) + last + more
  {
    var all := before + [last] + after;
    if before == [] {
      assert all[1..] == after;
      assert "" + last == last;
      ConcatAssoc(last, Join(after), rest);
    } else {
      assert all[1..] == before[1..] + [last] + after;
      JoinAll(before[1..], last, after, rest, more);
      assert Join(before) + last + more == before[0] + (Join(before[1..]) + last + more);
    }
  }
}
