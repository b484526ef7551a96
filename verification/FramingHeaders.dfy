/**
 * Reading a message whose headers are any lines: the last stated length counts, every other header is passed over,
 * and the length decides what is read, dropped or refused.
 */
module FramingHeaders {
  import opened Common
  import opened Framing

  // ---------------------------------------------------------------------------------------------
  // Numbers
  // ---------------------------------------------------------------------------------------------

  function Zeros(n: nat): string {
    if n == 0 then "" else Zeros(n - 1) + "0"
  }

  /** The texts of a number: its decimal digits, zeros in front of them, and a plus sign before all. */
  ghost predicate IsNumber(text: string, n: nat) {
    exists zeros :: text == Zeros(zeros) + Decimal(n) || text == "+" + Zeros(zeros) + Decimal(n)
  }

  lemma ValueSnoc(front: string, c: char)
    requires AllDigits(front) && IsDigit(c)
    ensures AllDigits(front + [c]) && Value(front + [c]) == Value(front) * 10 + (c as int - '0' as int)
  {
    assert (front + [c])[..|front|] == front;
  }

  lemma DigitsSnoc(digits: string)
    requires AllDigits(digits) && digits != ""
    ensures var front, c := digits[..|digits| - 1], digits[|digits| - 1];
            digits == front + [c] && AllDigits(front) && IsDigit(c)
  {
  }

  lemma {:induction false} ZerosValue(zeros: nat, digits: string)
    requires AllDigits(digits)
    ensures AllDigits(Zeros(zeros) + digits) && Value(Zeros(zeros) + digits) == Value(digits)
    decreases |digits|
  {
    hide *;
    if digits == "" {
      ZerosAreZero(zeros);
      ConcatNothing(Zeros(zeros));
      ZerosAreZero(0);
    } else {
      var front, c := digits[..|digits| - 1], digits[|digits| - 1];
      DigitsSnoc(digits);
      ZerosValue(zeros, front);
      ValueSnoc(Zeros(zeros) + front, c);
      ValueSnoc(front, c);
      ConcatAssoc(Zeros(zeros), front, [c]);
    }
  }

  lemma {:induction false} ZerosAreZero(zeros: nat)
    ensures AllDigits(Zeros(zeros)) && Value(Zeros(zeros)) == 0 && Zeros(0) == ""
  {
    hide Value;
    if zeros == 0 {
      NoDigits();
    } else {
      ZerosAreZero(zeros - 1);
      ValueSnoc(Zeros(zeros - 1), '0');
    }
  }

  lemma NoDigits()
    ensures AllDigits("") && Value("") == 0
  {
  }

  lemma {:induction false} DigitsAre(digits: string) returns (zeros: nat)
    requires AllDigits(digits) && digits != ""
    ensures digits == Zeros(zeros) + Decimal(Value(digits))
    decreases |digits|
  {
    hide *;
    var front, c := digits[..|digits| - 1], digits[|digits| - 1];
    DigitsSnoc(digits);
    ValueSnoc(front, c);
    if front == "" {
      NoDigits();
      ZerosAreZero(0);
      zeros := 0;
      ConcatNothing([c]);
      DecimalDigit(0, c);
    } else {
      zeros := DigitsAre(front);
      DecimalDigit(Value(front), c);
      if Value(front) == 0 {
        zeros := OneZeroMore(zeros);
      } else {
        ConcatAssoc(Zeros(zeros), Decimal(Value(front)), [c]);
      }
    }
  }

  lemma OneZeroMore(zeros: nat) returns (more: nat)
    ensures Zeros(zeros) + Decimal(0) == Zeros(more)
  {
    more := zeros + 1;
    assert Decimal(0) == "0";
  }

  lemma DecimalDigit(n: nat, c: char)
    requires IsDigit(c)
    ensures var v := n * 10 + (c as int - '0' as int);
            Decimal(v) == if n == 0 then [c] else Decimal(n) + [c]
  {
    var d := c as int - '0' as int;
    assert (('0' as int + d) as char) == c;
    assert (n * 10 + d) / 10 == n && (n * 10 + d) % 10 == d;
  }

  lemma DecimalStarts(n: nat)
    ensures Decimal(n) != "" && IsDigit(Decimal(n)[0]) && AllDigits(Decimal(n)) && Value(Decimal(n)) == n
  {
    DecimalText(n);
  }

  lemma DigitsParse(digits: string)
    requires AllDigits(digits) && digits != ""
    ensures var n := Value(digits);
            var r := if n < 0x1_0000_0000_0000_0000 then Some(n) else None;
            ParseUsize(digits) == r && ParseUsize("+" + digits) == r
  {
    hide Value;
    assert IsDigit(digits[0]);
    assert ("+" + digits)[1..] == digits;
  }

  lemma ParsedDigits(text: string)
    requires ParseUsize(text).Some?
    ensures var plus := text != "" && text[0] == '+';
            var digits := if plus then text[1..] else text;
            && AllDigits(digits) && digits != "" && text == (if plus then "+" else "") + digits
            && Value(digits) == ParseUsize(text).value < 0x1_0000_0000_0000_0000
  {
    hide Value;
    ConcatNothing(text);
    assert text != "" && text[0] == '+' ==> text == "+" + text[1..];
  }

  /** A length is read exactly from the texts of the numbers below 2^64. */
  lemma LengthsAreNumbers(text: string, n: nat)
    ensures ParseUsize(text) == Some(n) <==> n < 0x1_0000_0000_0000_0000 && IsNumber(text, n)
  {
    hide Decimal, ParseUsize, Value, Zeros, AllDigits;
    if ParseUsize(text) == Some(n) {
      ParsedDigits(text);
      var plus := text != "" && text[0] == '+';
      var digits := if plus then text[1..] else text;
      var zeros := DigitsAre(digits);
      ConcatNothing(digits);
      ConcatAssoc("+", Zeros(zeros), Decimal(n));
    }
    if IsNumber(text, n) {
      var zeros :| text == Zeros(zeros) + Decimal(n) || text == "+" + Zeros(zeros) + Decimal(n);
      DecimalStarts(n);
      ZerosValue(zeros, Decimal(n));
      ConcatAssoc("+", Zeros(zeros), Decimal(n));
      DigitsParse(Zeros(zeros) + Decimal(n));
    }
  }

  // ---------------------------------------------------------------------------------------------
  // Header lines
  // ---------------------------------------------------------------------------------------------

  /** What a header line says: a length, in whatever way, or anything else. */
  datatype HeaderLine = ContentLength(text: string) | Other(line: string)

  function LineText(h: HeaderLine): string {
    match h
    case ContentLength(text) => "Content-Length: " + text
    case Other(line) => line
  }

  predicate GoodHeader(h: HeaderLine) {
    && LineText(h) != "" && NoSpaceAround(LineText(h))
    && (h.Other? ==> !("Content-Length: " <= LineText(h)))
  }

  /** The bytes of a line, without the line feed that ends it, say `text` with white space around it. */
  ghost predicate LineSays<V>(c: Codec<V>, line: seq<byte>, text: string) {
    && LF !in line
    && exists before, after :: && AllSpace(before) && AllSpace(after)
                               && c.text(line + [LF]) == Some(before + text + after)
  }

  ghost predicate LinesSay<V>(c: Codec<V>, lines: seq<seq<byte>>, headers: seq<HeaderLine>) {
    && |lines| == |headers|
    && forall i :: 0 <= i < |lines| ==> GoodHeader(headers[i]) && LineSays(c, lines[i], LineText(headers[i]))
  }

  function Block(lines: seq<seq<byte>>): seq<byte> {
    if lines == [] then [] else lines[0] + [LF] + Block(lines[1..])
  }

  /** The last stated length, which is 0 when it is no number. */
  ghost predicate States(headers: seq<HeaderLine>, n: nat) {
    if headers == [] then n == 0
    else
      var last := headers[|headers| - 1];
      if last.Other? then States(headers[..|headers| - 1], n)
      else if n == 0 then forall k: nat :: k > 0 && IsNumber(last.text, k) ==> k >= 0x1_0000_0000_0000_0000
      else n < 0x1_0000_0000_0000_0000 && IsNumber(last.text, n)
  }

  /** The length after some more headers. */
  function LengthAfter(headers: seq<HeaderLine>, length: nat): nat {
    if headers == [] then length else LengthAfter(headers[1..], LengthIn(LineText(headers[0]), length))
  }

  lemma HeaderLength(h: HeaderLine, length: nat)
    requires GoodHeader(h)
    ensures LengthIn(LineText(h), length)
            == if h.Other? then length else match ParseUsize(h.text) case Some(n) => n case None => 0
  {
    if h.ContentLength? {
      assert LineText(h)[|LENGTH_HEADER|..] == h.text;
    }
  }

  lemma {:induction false} LengthAfterSnoc(headers: seq<HeaderLine>, h: HeaderLine, length: nat)
    ensures LengthAfter(headers + [h], length) == LengthIn(LineText(h), LengthAfter(headers, length))
  {
    hide LengthIn;
    if headers == [] {
      assert ([] + [h])[1..] == [];
    } else {
      assert (headers + [h])[1..] == headers[1..] + [h];
      LengthAfterSnoc(headers[1..], h, LengthIn(LineText(headers[0]), length));
    }
  }

  lemma {:induction false} StatedIsRead(headers: seq<HeaderLine>, n: nat)
    requires (forall i :: 0 <= i < |headers| ==> GoodHeader(headers[i])) && States(headers, n)
    ensures LengthAfter(headers, 0) == n
  {
    hide GoodHeader, IsNumber, LengthIn;
    if headers != [] {
      var front, last := headers[..|headers| - 1], headers[|headers| - 1];
      assert headers == front + [last];
      LengthAfterSnoc(front, last, 0);
      HeaderLength(last, LengthAfter(front, 0));
      if last.Other? {
        StatedIsRead(front, n);
      } else {
        ParsedIs(last.text, n);
      }
    }
  }

  lemma ParsedIs(text: string, n: nat)
    requires if n == 0 then forall k: nat :: k > 0 && IsNumber(text, k) ==> k >= 0x1_0000_0000_0000_0000
             else n < 0x1_0000_0000_0000_0000 && IsNumber(text, n)
    ensures (match ParseUsize(text) case Some(k) => k case None => 0) == n
  {
    hide ParseUsize, IsNumber;
    LengthsAreNumbers(text, n);
    if ParseUsize(text).Some? {
      LengthsAreNumbers(text, ParseUsize(text).value);
    }
  }

  lemma LineIsRead<V>(c: Codec<V>, line: seq<byte>, text: string, tail: seq<byte>, length: nat)
    requires LineSays(c, line, text) && NoSpaceAround(text)
    ensures ReadHeaders(c.text, line + [LF] + tail, length)
            == if text == "" then Body(length, tail) else ReadHeaders(c.text, tail, LengthIn(text, length))
  {
    hide LengthIn, LineLength, Trim, AllSpace, NoSpaceAround;
    var before, after :| && AllSpace(before) && AllSpace(after)
                         && c.text(line + [LF]) == Some(before + text + after);
    TrimIs(before, text, after);
    LineOf(line, tail);
    var input := line + [LF] + tail;
    assert input[..|line| + 1] == line + [LF] && input[|line| + 1..] == tail;
  }

  lemma FirstSays<V>(c: Codec<V>, lines: seq<seq<byte>>, headers: seq<HeaderLine>)
    requires LinesSay(c, lines, headers) && lines != []
    ensures headers != [] && GoodHeader(headers[0]) && LineText(headers[0]) != "" && NoSpaceAround(LineText(headers[0]))
    ensures LineSays(c, lines[0], LineText(headers[0])) && LinesSay(c, lines[1..], headers[1..])
  {
    hide LineSays, NoSpaceAround;
  }

  lemma BlockTurn(lines: seq<seq<byte>>, tail: seq<byte>)
    ensures Block(lines) + tail
            == if lines == [] then tail else lines[0] + [LF] + (Block(lines[1..]) + tail)
  {
  }

  lemma LengthTurn(headers: seq<HeaderLine>, length: nat)
    ensures LengthAfter(headers, length)
            == if headers == [] then length else LengthAfter(headers[1..], LengthIn(LineText(headers[0]), length))
  {
  }

  lemma {:induction false} BlockReads<V>(c: Codec<V>, lines: seq<seq<byte>>, headers: seq<HeaderLine>,
                                         tail: seq<byte>, length: nat)
    requires LinesSay(c, lines, headers)
    ensures ReadHeaders(c.text, Block(lines) + tail, length)
            == ReadHeaders(c.text, tail, LengthAfter(headers, length))
    decreases |lines|
  {
    hide *;
    BlockTurn(lines, tail);
    LengthTurn(headers, length);
    SameLength(c, lines, headers);
    if lines != [] {
      FirstSays(c, lines, headers);
      var text := LineText(headers[0]);
      BlockReads(c, lines[1..], headers[1..], tail, LengthIn(text, length));
      LineIsRead(c, lines[0], text, Block(lines[1..]) + tail, length);
    }
  }

  lemma SameLength<V>(c: Codec<V>, lines: seq<seq<byte>>, headers: seq<HeaderLine>)
    requires LinesSay(c, lines, headers)
    ensures |lines| == |headers| && forall i :: 0 <= i < |headers| ==> GoodHeader(headers[i])
  {
    hide GoodHeader, LineSays;
  }

  lemma BlankSays()
    ensures NoSpaceAround("")
  {
  }

  /**
   * Whatever the header lines are, up to a blank one, the last stated length decides: nothing is read for 0, more than
   * 10 MB are dropped and refused, and otherwise exactly that many bytes are the message, if they are there and decode.
   */
  lemma StatedLengthIsRead<V>(c: Codec<V>, lines: seq<seq<byte>>, headers: seq<HeaderLine>, blank: seq<byte>,
                              tail: seq<byte>, n: nat)
    requires LinesSay(c, lines, headers) && LineSays(c, blank, "") && States(headers, n)
    ensures ReadOne(c, Block(lines) + (blank + [LF] + tail))
            == if n == 0 then (Ended, tail)
               else if n > 10 * 1024 * 1024 then (Failed, if n <= |tail| then tail[n..] else [])
               else if n > |tail| then (Failed, [])
               else (if c.decode(tail[..n]).Some? then Message(c.decode(tail[..n]).value) else Ended, tail[n..])
  {
    hide GoodHeader, LineSays, LinesSay, States, ReadHeaders, Block, LengthAfter, NoSpaceAround;
    SameLength(c, lines, headers);
    BlockReads(c, lines, headers, blank + [LF] + tail, 0);
    StatedIsRead(headers, n);
    BlankSays();
    LineIsRead(c, blank, "", tail, n);
  }

  /** Headers that come to no end are the end of the input, and a line that is no text is a failure right behind it. */
  lemma BrokenHeadersAreRefused<V>(c: Codec<V>, lines: seq<seq<byte>>, headers: seq<HeaderLine>, line: seq<byte>,
                                   tail: seq<byte>)
    requires LinesSay(c, lines, headers) && LF !in line && c.text(line + [LF]).None?
    ensures ReadOne(c, Block(lines)) == (Ended, [])
    ensures ReadOne(c, Block(lines) + (line + [LF] + tail)) == (Failed, tail)
  {
    hide *;
    var bad := line + [LF] + tail;
    BlockReads(c, lines, headers, [], 0);
    BlockReads(c, lines, headers, bad, 0);
    ConcatNothing(Block(lines));
    NothingToRead(c, LengthAfter(headers, 0));
    BadLine(c, line, tail, LengthAfter(headers, 0));
    RefusedAtOnce(c, Block(lines));
    RefusedAtOnce(c, Block(lines) + bad);
  }

  lemma NothingToRead<V>(c: Codec<V>, length: nat)
    ensures ReadHeaders(c.text, [], length) == EndOfFile
  {
  }

  lemma BadLine<V>(c: Codec<V>, line: seq<byte>, tail: seq<byte>, length: nat)
    requires LF !in line && c.text(line + [LF]).None?
    ensures ReadHeaders(c.text, line + [LF] + tail, length) == NotText(tail)
  {
    LineOf(line, tail);
    var input := line + [LF] + tail;
    assert input[..|line| + 1] == line + [LF] && input[|line| + 1..] == tail;
  }

  lemma RefusedAtOnce<V>(c: Codec<V>, input: seq<byte>)
    ensures ReadHeaders(c.text, input, 0) == EndOfFile ==> ReadOne(c, input) == (Ended, [])
    ensures ReadHeaders(c.text, input, 0).NotText? ==>
              ReadOne(c, input) == (Failed, ReadHeaders(c.text, input, 0).rest)
  {
    hide ReadHeaders;
  }
}
