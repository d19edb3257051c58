/** Bounded lines from a byte stream that arrives in chunks of any size. */
module LineReader {
  import opened Text

  const MAX_LINE: nat := 16384
  const LF: bv8 := 10
  const CR: bv8 := 13

  /** The library's text decoder: None when the bytes are not valid text. */
  type Decoder = seq<bv8> -> Option<string>

  datatype LineResult =
    | Line(text: string)
    | EndOfInput
    | Unterminated
    | TooLong
    | InvalidText

  /** A buffered reader over a peer that delivers what is pending a few bytes at a time. */
  class BufReader {
    var buffer: seq<bv8>
    var pending: seq<bv8>

    constructor (input: seq<bv8>)
      ensures Remaining() == input
    {
      buffer := [];
      pending := input;
    }

    ghost function Remaining(): seq<bv8>
      reads this
    {
      buffer + pending
    }

    /** What is buffered, after one delivery of arbitrary size when nothing was: empty only at the
        end of the input. */
    method FillBuf() returns (available: seq<bv8>)
      modifies this
      ensures Remaining() == old(Remaining())
      ensures available == buffer && (available == [] ==> Remaining() == [])
    {
      if buffer == [] && pending != [] {
        var size :| 1 <= size <= |pending|;
        buffer := pending[..size];
        pending := pending[size..];
      }
      available := buffer;
    }

    method Consume(count: nat)
      requires count <= |buffer|
      modifies this
      ensures buffer == old(buffer)[count..] && pending == old(pending)
      ensures Remaining() == old(Remaining())[count..]
    {
      buffer := buffer[count..];
    }
  }

  /** The first newline, or the length when there is none. */
  function NewlineAt(s: seq<bv8>): (i: nat)
    ensures i <= |s| && LF !in s[..i]
    ensures i < |s| ==> s[i] == LF
  {
    if s == [] || s[0] == LF then 0 else 1 + NewlineAt(s[1..])
  }

  lemma {:induction false} NewlineAtIs(s: seq<bv8>, i: nat)
    requires i <= |s| && LF !in s[..i]
    requires i < |s| ==> s[i] == LF
    ensures NewlineAt(s) == i
  {
    if i > 0 {
      assert s[0] in s[..i] && s[1..][..i - 1] == s[..i][1..];
      NewlineAtIs(s[1..], i - 1);
    }
  }

  lemma {:induction false} NewlineAtLeast(s: seq<bv8>, n: nat)
    requires n <= |s| && LF !in s[..n]
    ensures NewlineAt(s) >= n
  {
    if n > 0 {
      assert s[0] in s[..n] && s[1..][..n - 1] == s[..n][1..];
      NewlineAtLeast(s[1..], n - 1);
    }
  }

  function StripCr(line: seq<bv8>): seq<bv8> {
    if line != [] && line[|line| - 1] == CR then line[..|line| - 1] else line
  }

  /** What the next line of an input is, however it is delivered. */
  function NextLine(input: seq<bv8>, decode: Decoder): LineResult {
    if input == [] then EndOfInput
    else
      var end := NewlineAt(input);
      if (if end < |input| then end + 1 else end) > MAX_LINE then TooLong
      else if end == |input| then Unterminated
      else match decode(StripCr(input[..end]))
        case None => InvalidText
        case Some(text) => Line(text)
  }

  /** Reads one line, growing a buffer chunk by chunk. */
  method ReadLine(reader: BufReader, decode: Decoder) returns (result: LineResult)
    modifies reader
    ensures result == NextLine(old(reader.Remaining()), decode)
    ensures result.Line? || result.InvalidText? ==>
      reader.Remaining() == AfterLine(old(reader.Remaining()))
    ensures result.EndOfInput? ==> reader.Remaining() == []
  {
    hide NextLine, AfterLine, NewlineAt, StripCr;
    ghost var input := reader.Remaining();
    var bytes: seq<bv8> := [];
    while true
      invariant input == bytes + reader.Remaining()
      invariant LF !in bytes && |bytes| <= MAX_LINE
      decreases |reader.Remaining()|
    {
      var available := reader.FillBuf();
      if available == [] {
        EndedLine(input, decode);
        return if bytes == [] then EndOfInput else Unterminated;
      }
      var count := LineBytes(available);
      LineSoFar(input, bytes, available, reader.pending, decode);
      if |bytes| + count > MAX_LINE {
        return TooLong;
      }
      bytes := bytes + available[..count];
      reader.Consume(count);
      if bytes[|bytes| - 1] == LF {
        result := Finished(bytes, decode);
        return;
      }
    }
  }

  /** How many bytes of a chunk belong to the line: through its newline, or all of them. */
  function LineBytes(available: seq<bv8>): (count: nat)
    ensures count <= |available|
  {
    var position := NewlineAt(available);
    if position < |available| then position + 1 else |available|
  }

  /** A complete line without its newline and one carriage return, as text. */
  function Finished(bytes: seq<bv8>, decode: Decoder): LineResult
    requires bytes != []
  {
    match decode(StripCr(bytes[..|bytes| - 1]))
    case None => InvalidText
    case Some(text) => Line(text)
  }

  function AfterLine(input: seq<bv8>): seq<bv8> {
    if NewlineAt(input) < |input| then input[NewlineAt(input) + 1..] else []
  }

  lemma EndedLine(input: seq<bv8>, decode: Decoder)
    requires LF !in input && |input| <= MAX_LINE
    ensures NextLine(input, decode) == if input == [] then EndOfInput else Unterminated
  {
    NewlineAtIs(input, |input|);
  }

  /** What the bytes read and the next chunk settle about the whole line. */
  lemma LineSoFar(input: seq<bv8>, bytes: seq<bv8>, available: seq<bv8>, pending: seq<bv8>, decode: Decoder)
    requires input == bytes + (available + pending) && LF !in bytes && available != []
    ensures var count := LineBytes(available);
      var next := bytes + available[..count];
      && input == next + (available + pending)[count..]
      && (|next| > MAX_LINE ==> NextLine(input, decode) == TooLong)
      && (next[|next| - 1] != LF ==> LF !in next)
      && (next[|next| - 1] == LF && |next| <= MAX_LINE ==>
            NextLine(input, decode) == Finished(next, decode) && AfterLine(input) == (available + pending)[count..])
  {
    var position := NewlineAt(available);
    var count := LineBytes(available);
    var next := bytes + available[..count];
    assert input == next + (available + pending)[count..];
    if position < |available| {
      assert input[..|bytes| + position] == bytes + available[..position];
      assert next[..|next| - 1] == bytes + available[..position];
      NewlineAtIs(input, |bytes| + position);
    } else {
      assert available[..position] == available;
      NewlineAtLeast(input, |next|);
    }
  }

  // ---------------------------------------------------------------------------------------------
  // A whole input

  /** Every line an input yields, and what ends it. */
  function Commands(input: seq<bv8>, decode: Decoder): (seq<string>, LineResult)
    decreases |input|
  {
    match NextLine(input, decode)
    case Line(text) =>
      var (lines, end) := Commands(input[NewlineAt(input) + 1..], decode);
      ([text] + lines, end)
    case other => ([], other)
  }

  /** One line as a peer sends it, with or without a carriage return. */
  datatype SentLine = SentLine(bytes: seq<bv8>, crlf: bool) {
    function Wire(): seq<bv8> {
      bytes + (if crlf then [CR, LF] else [LF])
    }

    /** Within the limit, terminator included, and one line: a bare final CR would be stripped. */
    predicate Fits() {
      && LF !in bytes && |Wire()| <= MAX_LINE
      && (!crlf && bytes != [] ==> bytes[|bytes| - 1] != CR)
    }
  }

  function Wire(lines: seq<SentLine>): seq<bv8> {
    if lines == [] then [] else lines[0].Wire() + Wire(lines[1..])
  }

  /** A line is accepted exactly when, newline included, it is at most 16 KiB and valid text. */
  lemma AcceptedIff(line: seq<bv8>, rest: seq<bv8>, decode: Decoder)
    requires LF !in line
    ensures var input := line + [LF] + rest;
      && NewlineAt(input) == |line|
      && (NextLine(input, decode).Line? <==> |line| + 1 <= MAX_LINE && decode(StripCr(line)).Some?)
      && (NextLine(input, decode).Line? ==> NextLine(input, decode).text == decode(StripCr(line)).value)
      && (NextLine(input, decode) == TooLong <==> |line| + 1 > MAX_LINE)
      && (NextLine(input, decode) == InvalidText <==> |line| + 1 <= MAX_LINE && decode(StripCr(line)).None?)
  {
    var input := line + [LF] + rest;
    assert input[..|line|] == line;
    NewlineAtIs(input, |line|);
  }

  /** What a line and its terminator are read as: too long past 16 KiB, its text, or invalid text; the
      carriage return of the terminator is not part of it, and what follows is left for the next line. */
  lemma LineIs(body: seq<bv8>, crlf: bool, rest: seq<bv8>, decode: Decoder)
    requires 10 !in body && (!crlf && body != [] ==> body[|body| - 1] != 13)
    ensures var terminator: seq<bv8> := if crlf then [13, 10] else [10];
      var input := body + terminator + rest;
      && AfterLine(input) == rest
      && NextLine(input, decode) == (if |body| + |terminator| > 16384 then TooLong
                                     else match decode(body)
                                       case None => InvalidText
                                       case Some(text) => Line(text))
  {
    var line := body + if crlf then [CR] else [];
    assert body + (if crlf then [13, 10] else [10]) + rest == line + [LF] + rest;
    AcceptedIff(line, rest, decode);
    assert StripCr(line) == body;
    assert (line + [LF] + rest)[|line| + 1..] == rest;
  }

  /** Without its newline a line is no line: the input ends cleanly only where nothing is left. */
  lemma UnendedIs(line: seq<bv8>, decode: Decoder)
    requires 10 !in line
    ensures NextLine(line, decode)
         == if line == [] then EndOfInput else if |line| > 16384 then TooLong else Unterminated
  {
    NewlineAtIs(line, |line|);
  }

  predicate Readable(lines: seq<SentLine>, decode: Decoder) {
    forall i :: 0 <= i < |lines| ==> lines[i].Fits() && decode(lines[i].bytes).Some?
  }

  function Texts(lines: seq<SentLine>, decode: Decoder): seq<string>
    requires Readable(lines, decode)
  {
    if lines == [] then []
    else
      assert lines[0].Fits() && decode(lines[0].bytes).Some?;
      [decode(lines[0].bytes).value] + Texts(lines[1..], decode)
  }

  /** Lines sent are the lines read, terminators and all, then a clean end of input. */
  lemma {:induction false} SentLinesAreRead(lines: seq<SentLine>, decode: Decoder)
    requires Readable(lines, decode)
    ensures Commands(Wire(lines), decode) == (Texts(lines, decode), EndOfInput)
  {
    if lines != [] {
      var first := lines[0];
      var line := first.bytes + (if first.crlf then [CR] else []);
      var rest := Wire(lines[1..]);
      assert first.Fits() && decode(first.bytes).Some?;
      assert Wire(lines) == line + [LF] + rest;
      assert StripCr(line) == first.bytes;
      AcceptedIff(line, rest, decode);
      assert Wire(lines)[|line| + 1..] == rest;
      SentLinesAreRead(lines[1..], decode);
    }
  }
}
