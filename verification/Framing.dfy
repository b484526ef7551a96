/**
 * The Content-Length framing of JSON messages in `crates/cli/src/mcp.rs`, in the header style of the Base
 * Protocol of the Language Server Protocol 3.17. Reading headers as text and encoding JSON are parameters.
 */
module Framing {
  import opened Common

  type byte = i: int | 0 <= i < 256

  const LF: byte := 10
  const LENGTH_HEADER: string := "Content-Length: "
  const MAX_MCP_MESSAGE_SIZE: nat := 10 * 1024 * 1024
  const USIZE_LIMIT: nat := 0x1_0000_0000_0000_0000

  /** `text` is the decoding of UTF-8, `encode` and `decode` are those of JSON. */
  datatype Codec<!V> = Codec(text: seq<byte> -> Option<string>, encode: V -> seq<byte>, decode: seq<byte> -> Option<V>)

  predicate IsAscii(s: string) {
    forall i :: 0 <= i < |s| ==> s[i] as int < 128
  }

  function Ascii(s: string): seq<byte>
    requires IsAscii(s)
  {
    seq(|s|, i requires 0 <= i < |s| => s[i] as int)
  }

  ghost predicate Sound<V(!new)>(c: Codec<V>) {
    && (forall s: string :: IsAscii(s) ==> c.text(Ascii(s)) == Some(s))
    && forall v: V :: c.decode(c.encode(v)) == Some(v)
  }

  // ---------------------------------------------------------------------------------------------
  // Text
  // ---------------------------------------------------------------------------------------------

  predicate IsDigit(ch: char) {
    '0' <= ch <= '9'
  }

  predicate AllDigits(s: string) {
    forall i :: 0 <= i < |s| ==> IsDigit(s[i])
  }

  function Value(s: string): nat
    requires AllDigits(s)
  {
    if s == "" then 0 else Value(s[..|s| - 1]) * 10 + (s[|s| - 1] as int - '0' as int)
  }

  /** The parse of an unsigned 64-bit number: an optional plus sign, at least one digit, no overflow. */
  function ParseUsize(s: string): Option<nat> {
    var digits := if s != "" && s[0] == '+' then s[1..] else s;
    if digits == "" || !AllDigits(digits) || Value(digits) >= USIZE_LIMIT then None else Some(Value(digits))
  }

  function Decimal(n: nat): string {
    if n < 10 then [('0' as int + n) as char] else Decimal(n / 10) + [('0' as int + n % 10) as char]
  }

  // ---------------------------------------------------------------------------------------------
  // Reading and writing
  // ---------------------------------------------------------------------------------------------

  function LineLength(input: seq<byte>): (n: nat)
    ensures n <= |input| && (input != [] ==> n > 0)
  {
    if input == [] then 0 else if input[0] == LF then 1 else 1 + LineLength(input[1..])
  }

  datatype Headers = EndOfFile | NotText(rest: seq<byte>) | Body(length: nat, rest: seq<byte>)

  function LengthIn(header: string, length: nat): nat {
    if LENGTH_HEADER <= header then
      match ParseUsize(header[|LENGTH_HEADER|..])
      case Some(n) => n
      case None => 0
    else length
  }

  /** The header loop; `length` is what the headers so far have said. */
  function ReadHeaders(text: seq<byte> -> Option<string>, input: seq<byte>, length: nat): (h: Headers)
    ensures h.Body? ==> |h.rest| <= |input|
    decreases |input|
  {
    if input == [] then EndOfFile
    else
      var n := LineLength(input);
      match text(input[..n])
      case None => NotText(input[n..])
      case Some(line) =>
        var header := Trim(line);
        if header == "" then Body(length, input[n..]) else ReadHeaders(text, input[n..], LengthIn(header, length))
  }

  /** `Ended` stands for the end of the input, for a body of length zero and for one that is not JSON. */
  datatype Read<V> = Message(value: V) | Ended | Failed

  function ReadOne<V>(c: Codec<V>, input: seq<byte>): (r: (Read<V>, seq<byte>))
    ensures r.0.Message? ==> |r.1| < |input|
  {
    match ReadHeaders(c.text, input, 0)
    case EndOfFile => (Ended, [])
    case NotText(rest) => (Failed, rest)
    case Body(length, rest) =>
      if length == 0 then (Ended, rest)
      else if length > MAX_MCP_MESSAGE_SIZE then (Failed, rest[Min(length, |rest|)..])
      else if |rest| < length then (Failed, [])
      else
        match c.decode(rest[..length])
        case Some(v) => (Message(v), rest[length..])
        case None => (Ended, rest[length..])
  }

  /** The messages taken by the server loop, which stops at the first read that is not a message. */
  function Served<V>(c: Codec<V>, input: seq<byte>): seq<V>
    decreases |input|
  {
    match ReadOne(c, input)
    case (Message(v), rest) => [v] + Served(c, rest)
    case _ => []
  }

  function Header(length: nat): string {
    LENGTH_HEADER + Decimal(length) + "\r\n\r\n"
  }

  function Frame(body: seq<byte>): seq<byte> {
    DecimalText(|body|);
    Ascii(Header(|body|)) + body
  }

  function Written<V>(c: Codec<V>, messages: seq<V>): seq<byte> {
    if messages == [] then [] else Frame(c.encode(messages[0])) + Written(c, messages[1..])
  }

  lemma {:induction false} DecimalText(n: nat)
    ensures AllDigits(Decimal(n)) && Decimal(n) != "" && IsAscii(Decimal(n)) && Value(Decimal(n)) == n
  {
    if n >= 10 {
      DecimalText(n / 10);
      assert Decimal(n)[..|Decimal(n)| - 1] == Decimal(n / 10);
    } else {
      assert Decimal(n)[..0] == "";
    }
  }

  class Stream {
    var bytes: seq<byte>

    constructor (input: seq<byte>)
      ensures bytes == input
    {
      bytes := input;
    }

    method ReadLine() returns (line: seq<byte>)
      modifies this
      ensures line == old(bytes)[..LineLength(old(bytes))] && bytes == old(bytes)[LineLength(old(bytes))..]
    {
      var n := 0;
      ghost var all := bytes;
      while n < |bytes| && bytes[n] != LF
        invariant n <= |bytes| && bytes == all && LineLength(all) == n + LineLength(all[n..])
      {
        assert all[n..][1..] == all[n + 1..];
        n := n + 1;
      }
      if n < |bytes| {
        n := n + 1;
      }
      line, bytes := bytes[..n], bytes[n..];
    }

    /** A short read fails and uses up what there is. */
    method ReadExact(n: nat) returns (data: Option<seq<byte>>)
      modifies this
      ensures if n <= |old(bytes)| then data == Some(old(bytes)[..n]) && bytes == old(bytes)[n..]
              else data.None? && bytes == []
    {
      if n <= |bytes| {
        data, bytes := Some(bytes[..n]), bytes[n..];
      } else {
        data, bytes := None, [];
      }
    }

    method ReadMessage<V>(c: Codec<V>) returns (r: Read<V>)
      modifies this
      ensures (r, bytes) == ReadOne(c, old(bytes))
    {
      var contentLength: nat := 0;
      while true
        invariant ReadHeaders(c.text, old(bytes), 0) == ReadHeaders(c.text, bytes, contentLength)
        decreases |bytes|
      {
        var header := ReadLine();
        if header == [] {
          return Ended;
        }
        var line := c.text(header);
        if line.None? {
          return Failed;
        }
        var trimmed := Trim(line.value);
        if trimmed == "" {
          break;
        }
        contentLength := LengthIn(trimmed, contentLength);
      }
      if contentLength == 0 {
        return Ended;
      }
      if contentLength > MAX_MCP_MESSAGE_SIZE {
        Drain(contentLength);
        return Failed;
      }
      var body := ReadExact(contentLength);
      if body.None? {
        return Failed;
      }
      match c.decode(body.value)
      case Some(v) => return Message(v);
      case None => return Ended;
    }

    method Drain(length: nat)
      modifies this
      ensures bytes == old(bytes)[Min(length, |old(bytes)|)..]
    {
      var remaining := length;
      while remaining > 0
        invariant 0 <= remaining <= length && length - remaining <= |old(bytes)|
                  && bytes == old(bytes)[length - remaining..]
      {
        var toRead := Min(remaining, 4096);
        var chunk := ReadExact(toRead);
        if chunk.None? {
          assert old(bytes)[|old(bytes)|..] == [];
          return;
        }
        remaining := remaining - toRead;
      }
    }

    /** The server loop, with the messages it hands to the handler. */
    method Serve<V>(c: Codec<V>) returns (handled: seq<V>)
      modifies this
      ensures handled == Served(c, old(bytes))
    {
      handled := [];
      while true
        invariant Served(c, old(bytes)) == handled + Served(c, bytes)
        decreases |bytes|
      {
        ghost var rest := bytes;
        var r := ReadMessage(c);
        match r
        case Message(v) =>
          ConcatAssoc(handled, [v], Served(c, bytes));
          handled := handled + [v];
        case _ =>
          assert Served(c, rest) == [];
          return;
      }
    }

    method WriteMessage<V>(c: Codec<V>, message: V)
      modifies this
      ensures bytes == old(bytes) + Frame(c.encode(message))
    {
      var body := c.encode(message);
      DecimalText(|body|);
      bytes := bytes + (Ascii(LENGTH_HEADER + Decimal(|body|) + "\r\n\r\n") + body);
    }
  }

  // ---------------------------------------------------------------------------------------------
  // Reading back what was written
  // ---------------------------------------------------------------------------------------------

  lemma {:induction false} LineOf(line: seq<byte>, rest: seq<byte>)
    requires LF !in line
    ensures LineLength(line) == |line| && LineLength(line + [LF] + rest) == |line| + 1
  {
    if line != [] {
      LineOf(line[1..], rest);
      assert (line + [LF] + rest)[1..] == line[1..] + [LF] + rest;
    }
  }

  lemma AsciiConcat(a: string, b: string)
    requires IsAscii(a) && IsAscii(b)
    ensures IsAscii(a + b) && Ascii(a + b) == Ascii(a) + Ascii(b)
  {
  }

  lemma TrimLine(s: string, end: string)
    requires s != "" && !IsSpace(s[0]) && !IsSpace(s[|s| - 1]) && end in {"", "\r", "\r\n"}
    ensures Trim(s + end) == s
  {
    assert (s + "\r\n")[..|s| + 1] == s + "\r" && (s + "\r")[..|s|] == s && s + "" == s;
    assert TrimEnd(s) == s;
    assert TrimEnd(s + "\r") == s;
    assert TrimEnd(s + "\r\n") == TrimEnd(s + "\r");
  }

  /** The header line of a body of `n` bytes, without its line end. */
  function LengthLine(n: nat): string {
    LENGTH_HEADER + Decimal(n)
  }

  lemma LengthLineText(n: nat)
    ensures var s := LengthLine(n);
            && IsAscii(s) && s != "" && s[0] == 'C' && !IsSpace(s[0]) && !IsSpace(s[|s| - 1]) && '\n' !in s
            && (n < USIZE_LIMIT ==> LengthIn(s, 0) == n) && (n >= USIZE_LIMIT ==> LengthIn(s, 0) == 0)
  {
    DecimalText(n);
    var s, d := LengthLine(n), Decimal(n);
    assert s[|s| - 1] == d[|d| - 1] && s[|LENGTH_HEADER|..] == d;
    assert IsDigit(d[0]) && IsDigit(d[|d| - 1]);
  }

  lemma NoLineFeed(s: string)
    requires IsAscii(s) && '\n' !in s
    ensures LF !in Ascii(s)
  {
    assert forall i :: 0 <= i < |s| ==> s[i] != '\n' && s[i] as int != 10;
  }

  /** Reading a header line goes on after it with the length it states. */
  lemma OneHeader<V(!new)>(c: Codec<V>, s: string, tail: seq<byte>, length: nat)
    requires Sound(c) && IsAscii(s) && s != "" && !IsSpace(s[0]) && !IsSpace(s[|s| - 1]) && '\n' !in s
    ensures ReadHeaders(c.text, Ascii(s + "\r\n") + tail, length) == ReadHeaders(c.text, tail, LengthIn(s, length))
  {
    var line, full := Ascii(s + "\r"), Ascii(s + "\r\n");
    NoLineFeed(s + "\r");
    assert full == line + [LF];
    LineOf(line, tail);
    assert (full + tail)[..|line| + 1] == full && (full + tail)[|line| + 1..] == tail;
    TrimLine(s, "\r\n");
    assert c.text(full) == Some(s + "\r\n");
    hide Trim, LengthIn, LineLength;
  }

  /** The header block of a frame is read as the length it states. */
  lemma HeaderReadsBack<V(!new)>(c: Codec<V>, n: nat, rest: seq<byte>)
    requires Sound(c)
    ensures IsAscii(Header(n))
    ensures ReadHeaders(c.text, Ascii(Header(n)) + rest, 0) == Body(if n < USIZE_LIMIT then n else 0, rest)
  {
    var s := LengthLine(n);
    LengthLineText(n);
    assert Header(n) == s + "\r\n" + "\r\n";
    AsciiConcat(s + "\r\n", "\r\n");
    ConcatAssoc(Ascii(s + "\r\n"), Ascii("\r\n"), rest);
    OneHeader(c, s, Ascii("\r\n") + rest, 0);
    BlankLine(c, LengthIn(s, 0), rest);
  }

  lemma BlankLine<V(!new)>(c: Codec<V>, length: nat, rest: seq<byte>)
    requires Sound(c)
    ensures ReadHeaders(c.text, Ascii("\r\n") + rest, length) == Body(length, rest)
  {
    var input := Ascii("\r\n") + rest;
    assert input == [13] + [LF] + rest;
    LineOf([13], rest);
    assert input[..2] == Ascii("\r\n") && input[2..] == rest;
    assert c.text(Ascii("\r\n")) == Some("\r\n");
    assert TrimStart("\r\n") == TrimStart("\n") == TrimStart("");
  }

  /** One frame, whatever follows it: the body is taken when it has 1 byte to 10 MB, and nothing past it is touched. */
  lemma FrameReadsBack<V(!new)>(c: Codec<V>, body: seq<byte>, rest: seq<byte>)
    requires Sound(c)
    ensures 1 <= |body| <= MAX_MCP_MESSAGE_SIZE ==>
              ReadOne(c, Frame(body) + rest)
                == (if c.decode(body).Some? then Message(c.decode(body).value) else Ended, rest)
    ensures !(1 <= |body| <= MAX_MCP_MESSAGE_SIZE) ==> !ReadOne(c, Frame(body) + rest).0.Message?
  {
    HeaderReadsBack(c, |body|, body + rest);
    ConcatAssoc(Ascii(Header(|body|)), body, rest);
    assert (body + rest)[..|body|] == body && (body + rest)[|body|..] == rest;
    hide ReadHeaders, Header;
  }

  predicate Carried<V>(c: Codec<V>, message: V) {
    1 <= |c.encode(message)| <= MAX_MCP_MESSAGE_SIZE
  }

  /** The messages before the first whose body is empty or too large. */
  function CarriedPrefix<V>(c: Codec<V>, messages: seq<V>): seq<V> {
    if messages == [] || !Carried(c, messages[0]) then [] else [messages[0]] + CarriedPrefix(c, messages[1..])
  }

  /** The server takes from what was written exactly the messages before the first that cannot be carried. */
  lemma {:induction false} ServedIsWritten<V(!new)>(c: Codec<V>, messages: seq<V>)
    requires Sound(c)
    ensures Served(c, Written(c, messages)) == CarriedPrefix(c, messages)
  {
    if messages != [] {
      var body := c.encode(messages[0]);
      FrameReadsBack(c, body, Written(c, messages[1..]));
      ServedIsWritten(c, messages[1..]);
      hide ReadOne, Frame;
    } else {
      assert ReadHeaders(c.text, [], 0) == EndOfFile;
    }
  }

  /** As many reads as there were messages, and the bytes left after them. */
  function ReadMany<V>(c: Codec<V>, input: seq<byte>, n: nat): (seq<Read<V>>, seq<byte>)
    decreases n
  {
    if n == 0 then ([], input)
    else
      var (first, rest) := ReadOne(c, input);
      var (more, left) := ReadMany(c, rest, n - 1);
      ([first] + more, left)
  }

  function AllRead<V>(messages: seq<V>): seq<Read<V>> {
    seq(|messages|, i requires 0 <= i < |messages| => Message(messages[i]))
  }

  /** Every message of 1 byte to 10 MB comes back, in order, and exactly the bytes written are consumed. */
  lemma {:induction false} FramingRoundTrip<V(!new)>(c: Codec<V>, messages: seq<V>, after: seq<byte>)
    requires Sound(c) && forall i :: 0 <= i < |messages| ==> Carried(c, messages[i])
    ensures ReadMany(c, Written(c, messages) + after, |messages|) == (AllRead(messages), after)
  {
    hide Sound, ReadOne, Frame, Carried, AllRead;
    AllReadTurn(messages);
    if messages == [] {
      ConcatNothing(after);
    } else {
      assert Carried(c, messages[0]);
      FirstReadsBack(c, messages[0], Written(c, messages[1..]), after);
      FramingRoundTrip(c, messages[1..], after);
    }
  }

  lemma FirstReadsBack<V(!new)>(c: Codec<V>, message: V, more: seq<byte>, after: seq<byte>)
    requires Sound(c) && Carried(c, message)
    ensures ReadOne(c, Frame(c.encode(message)) + more + after) == (Message(message), more + after)
  {
    hide ReadOne, Frame;
    ConcatAssoc(Frame(c.encode(message)), more, after);
    FrameReadsBack(c, c.encode(message), more + after);
  }

  lemma AllReadTurn<V>(messages: seq<V>)
    ensures AllRead(messages) == if messages == [] then [] else [Message(messages[0])] + AllRead(messages[1..])
  {
  }

  // ---------------------------------------------------------------------------------------------
  // A stream that breaks off
  // ---------------------------------------------------------------------------------------------

  /** A header line that breaks off before its line feed is followed by the end of the input. */
  lemma CutLine<V(!new)>(c: Codec<V>, s: string)
    requires Sound(c) && IsAscii(s) && '\n' !in s && (s != "" ==> !IsSpace(s[0]))
    ensures ReadHeaders(c.text, Ascii(s), 0) == EndOfFile
  {
    if s != "" {
      NoLineFeed(s);
      LineOf(Ascii(s), []);
      assert Ascii(s)[..|s|] == Ascii(s) && Ascii(s)[|s|..] == [];
      assert c.text(Ascii(s)) == Some(s);
      TrimKeepsFirst(s);
    }
  }

  lemma {:induction false} TrimKeepsFirst(s: string)
    requires s != "" && !IsSpace(s[0])
    ensures Trim(s) != ""
  {
    if IsSpace(s[|s| - 1]) {
      TrimKeepsFirst(s[..|s| - 1]);
    }
  }

  lemma CutLines<V(!new)>(c: Codec<V>, s: string, k: nat)
    requires Sound(c) && IsAscii(s) && s != "" && !IsSpace(s[0]) && !IsSpace(s[|s| - 1]) && '\n' !in s && k < |s| + 4
    ensures var h := ReadHeaders(c.text, Ascii((s + "\r\n" + "\r\n")[..k]), 0);
            h == EndOfFile || (h.Body? && h.rest == [])
  {
    hide Sound, ReadHeaders, LengthIn, Ascii, IsSpace;
    var text := (s + "\r\n" + "\r\n")[..k];
    if k <= |s| + 1 {
      assert text == (s + "\r")[..k];
      CutLine(c, text);
    } else {
      var j := k - |s| - 2;
      var tail := "\r\n"[..j];
      assert text == s + "\r\n" + tail;
      AsciiConcat(s + "\r\n", tail);
      OneHeader(c, s, Ascii(tail), 0);
      assert j == 0 || j == 1;
      assert if j == 0 then tail == "" else tail == "\r";
      CutBlank(c, LengthIn(s, 0), tail);
    }
  }

  /** A header block that breaks off says nothing, or at its very end its length but without a body. */
  lemma CutHeader<V(!new)>(c: Codec<V>, n: nat, k: nat)
    requires Sound(c) && IsAscii(Header(n)) && k < |Header(n)|
    ensures var h := ReadHeaders(c.text, Ascii(Header(n))[..k], 0);
            h == EndOfFile || (h.Body? && h.rest == [])
  {
    hide Sound, ReadHeaders, Decimal;
    LengthLineText(n);
    assert Header(n) == LengthLine(n) + "\r\n" + "\r\n";
    CutLines(c, LengthLine(n), k);
    assert Ascii(Header(n))[..k] == Ascii(Header(n)[..k]);
  }

  lemma CutBlank<V(!new)>(c: Codec<V>, length: nat, tail: string)
    requires Sound(c) && tail in {"", "\r"}
    ensures var h := ReadHeaders(c.text, Ascii(tail), length);
            if tail == "" then h == EndOfFile else h == Body(length, [])
  {
    if tail == "\r" {
      var input := Ascii(tail);
      assert input == [13];
      LineOf([13], []);
      assert input[..1] == Ascii(tail) && input[1..] == [];
      assert c.text(Ascii(tail)) == Some(tail);
      assert TrimStart("\r") == TrimStart("");
    }
  }

  /** A frame that breaks off is not a message. */
  lemma CutFrame<V(!new)>(c: Codec<V>, body: seq<byte>, k: nat)
    requires Sound(c) && k < |Frame(body)|
    ensures !ReadOne(c, Frame(body)[..k]).0.Message?
  {
    var n := |body|;
    HeaderReadsBack(c, n, []);
    var head := Ascii(Header(n));
    if k < |head| {
      CutHeader(c, n, k);
      assert Frame(body)[..k] == head[..k];
    } else {
      var part := body[..k - |head|];
      HeaderReadsBack(c, n, part);
      assert Frame(body)[..k] == head + part;
    }
    hide ReadHeaders, Header;
  }

  /** How many messages before the first that cannot be carried have their frames within the first `k` bytes. */
  function CompleteFrames<V>(c: Codec<V>, messages: seq<V>, k: nat): (n: nat)
    ensures n <= |messages|
  {
    if messages == [] || !Carried(c, messages[0]) || k < |Frame(c.encode(messages[0]))| then 0
    else 1 + CompleteFrames(c, messages[1..], k - |Frame(c.encode(messages[0]))|)
  }

  /**
   * However a stream of written messages breaks off, the server takes exactly those whose frames are complete and
   * come before the first message that cannot be carried: none is made up, and none of these is lost.
   */
  lemma {:induction false} BrokenStreamServesPrefix<V(!new)>(c: Codec<V>, messages: seq<V>, k: nat)
    requires Sound(c) && k <= |Written(c, messages)|
    ensures Served(c, Written(c, messages)[..k]) == messages[..CompleteFrames(c, messages, k)]
  {
    hide *;
    CompleteTurn(c, messages, k);
    WrittenTurn(c, messages);
    if messages == [] {
      NothingServed(c);
    } else {
      var m, tail := messages[0], messages[1..];
      var body, more := c.encode(m), Written(c, tail);
      Decodes(c, m);
      CutConcat(Frame(body), more, k);
      CarriedMeans(c, m);
      if k < |Frame(body)| {
        CutFrame(c, body, k);
        ServedTurn(c, Frame(body)[..k]);
      } else {
        var rest := more[..k - |Frame(body)|];
        FrameReadsBack(c, body, rest);
        ServedTurn(c, Frame(body) + rest);
        BrokenStreamServesPrefix(c, tail, k - |Frame(body)|);
        PrefixCons(messages, CompleteFrames(c, tail, k - |Frame(body)|));
      }
    }
  }

  lemma CompleteTurn<V>(c: Codec<V>, messages: seq<V>, k: nat)
    ensures CompleteFrames(c, messages, k)
            == if messages == [] || !Carried(c, messages[0]) || k < |Frame(c.encode(messages[0]))| then 0
               else 1 + CompleteFrames(c, messages[1..], k - |Frame(c.encode(messages[0]))|)
  {
  }

  lemma WrittenTurn<V>(c: Codec<V>, messages: seq<V>)
    ensures Written(c, messages)
            == if messages == [] then [] else Frame(c.encode(messages[0])) + Written(c, messages[1..])
  {
    hide Frame;
  }

  lemma NothingServed<V>(c: Codec<V>)
    ensures Served(c, []) == []
  {
    assert ReadHeaders(c.text, [], 0) == EndOfFile;
  }

  lemma Decodes<V(!new)>(c: Codec<V>, message: V)
    requires Sound(c)
    ensures c.decode(c.encode(message)) == Some(message)
  {
  }

  lemma CarriedMeans<V>(c: Codec<V>, message: V)
    ensures Carried(c, message) <==> 1 <= |c.encode(message)| <= MAX_MCP_MESSAGE_SIZE
  {
  }

  lemma CutConcat(a: seq<byte>, b: seq<byte>, k: nat)
    requires k <= |a| + |b|
    ensures (a + b)[..k] == if k < |a| then a[..k] else a + b[..k - |a|]
  {
  }

  lemma PrefixCons<V>(all: seq<V>, n: nat)
    requires all != [] && n < |all|
    ensures [all[0]] + all[1..][..n] == all[..n + 1]
  {
  }

  lemma ServedTurn<V>(c: Codec<V>, input: seq<byte>)
    ensures var (r, rest) := ReadOne(c, input);
            Served(c, input) == if r.Message? then [r.value] + Served(c, rest) else []
  {
  }
}
