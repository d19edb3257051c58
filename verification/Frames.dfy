/** The framed replies of a structured session: how one is written, and how a peer reads them back. */
module Frames {
  import opened Text

  /** Characters one result may show; terminators and the truncation notice are not charged. */
  const MAX_OUTPUT: nat := 65536
  const TRUNCATED := "[output truncated]"

  /** Where the session writes, always whole lines. Failures of the stream itself are not modelled. */
  class Sink {
    var lines: seq<string>

    constructor ()
      ensures lines == []
    {
      lines := [];
    }

    /** The characters the peer receives. */
    function Data(): string
      reads this
    {
      Unlines(lines)
    }

    method WriteLine(line: string)
      modifies this
      ensures lines == old(lines) + [line]
    {
      lines := lines + [line];
    }
  }

  function ReadyMark(nonce: string): string { "READY " + nonce }
  function ResultMark(nonce: string): string { "RESULT " + nonce }
  function EndMark(nonce: string): string { "END " + nonce }

  /** A line a reader could take for one of this session's own markers. */
  predicate LooksLikeMarker(nonce: string, line: string) {
    || StartsWith(line, ReadyMark(nonce))
    || StartsWith(line, ResultMark(nonce))
    || StartsWith(line, EndMark(nonce))
  }

  /** One character as one displayable line may hold it. */
  function SafeChar(c: char): char {
    if c == '\t' || c == '\n' then ' '
    else if IsBidi(c) || IsControl(c) then CONTROL_REPLACEMENT
    else c
  }

  function SanitizeLine(text: string): (r: string)
    ensures |r| == |text|
    ensures forall i :: 0 <= i < |r| ==> !IsControl(r[i]) && !IsBidi(r[i])
    ensures forall i :: 0 <= i < |r| && (text[i] == '\t' || text[i] == '\n') ==> r[i] == ' '
    ensures forall i :: 0 <= i < |r| && !IsControl(text[i]) && !IsBidi(text[i]) ==> r[i] == text[i]
    ensures forall i :: 0 <= i < |r| && (IsBidi(text[i]) || (IsControl(text[i]) && text[i] !in "\t\n")) ==>
      r[i] == CONTROL_REPLACEMENT
  {
    seq(|text|, i requires 0 <= i < |text| => SafeChar(text[i]))
  }

  function Escaped(nonce: string, line: string): string {
    var safe := SanitizeLine(line);
    if LooksLikeMarker(nonce, safe) then "> " + safe else safe
  }

  function EscapedLines(nonce: string, text: string): (r: seq<string>)
    ensures |r| == |Split(text, NEWLINE)|
  {
    var lines := Split(text, NEWLINE);
    seq(|lines|, i requires 0 <= i < |lines| => Escaped(nonce, lines[i]))
  }

  /** All characters of some lines, terminators left out. */
  function Flat(lines: seq<string>): string {
    if lines == [] then "" else lines[0] + Flat(lines[1..])
  }

  function Take(s: string, n: nat): string {
    if |s| <= n then s else s[..n]
  }

  /** Lines cut to a character budget; a line met with no budget left is not shown at all. */
  function Clipped(lines: seq<string>, budget: nat): seq<string> {
    if lines == [] || budget == 0 then []
    else
      var shown := Take(lines[0], budget);
      [shown] + Clipped(lines[1..], budget - |shown|)
  }

  function BodyWithin(lines: seq<string>, budget: nat): seq<string> {
    Clipped(lines, budget) + if |Flat(lines)| >= budget then [TRUNCATED] else []
  }

  /** The lines between RESULT and END. */
  function Body(nonce: string, text: string): seq<string> {
    BodyWithin(EscapedLines(nonce, text), MAX_OUTPUT)
  }

  datatype Frame = Frame(status: string, body: seq<string>)

  function FrameLines(nonce: string, frame: Frame): seq<string> {
    [ResultMark(nonce) + " " + frame.status] + frame.body + [EndMark(nonce)]
  }

  function FramesLines(nonce: string, frames: seq<Frame>): seq<string> {
    if frames == [] then [] else FrameLines(nonce, frames[0]) + FramesLines(nonce, frames[1..])
  }

  /** Writes one result frame. */
  method WriteResult(out: Sink, nonce: string, status: string, text: string)
    modifies out
    ensures out.lines == old(out.lines) + FrameLines(nonce, Frame(status, Body(nonce, text)))
  {
    out.WriteLine(ResultMark(nonce) + " " + status);
    WriteBody(out, nonce, Split(text, NEWLINE), EscapedLines(nonce, text), MAX_OUTPUT);
    out.WriteLine(EndMark(nonce));
  }

  /** The loop of a result: each line escaped, clipped and charged, until the budget is gone. */
  method WriteBody(out: Sink, nonce: string, lines: seq<string>, ghost all: seq<string>, budget: nat)
    requires |all| == |lines| && forall i :: 0 <= i < |lines| ==> all[i] == Escaped(nonce, lines[i])
    requires budget > 0
    modifies out
    ensures out.lines == old(out.lines) + BodyWithin(all, budget)
  {
    hide Escaped;
    var remaining := budget;
    var i := 0;
    assert all[0..] == all;
    while i < |lines| && remaining != 0
      invariant 0 <= i <= |lines| && 0 <= remaining
      invariant out.lines + Clipped(all[i..], remaining) == old(out.lines) + Clipped(all, budget)
      invariant if remaining == 0 then |Flat(all)| >= budget else |Flat(all)| == budget - remaining + |Flat(all[i..])|
    {
      var clipped := Take(Escaped(nonce, lines[i]), remaining);
      ClippedStep(all, i, remaining, out.lines);
      out.WriteLine(clipped);
      remaining := remaining - |clipped|;
      i := i + 1;
    }
    assert out.lines == old(out.lines) + Clipped(all, budget);
    if remaining == 0 {
      out.WriteLine(TRUNCATED);
    }
  }

  lemma ClippedStep(lines: seq<string>, i: nat, remaining: nat, shown: seq<string>)
    requires i < |lines| && remaining > 0
    ensures |Flat(lines[i..])| == |lines[i]| + |Flat(lines[i + 1..])|
    ensures var clipped := Take(lines[i], remaining);
      shown + Clipped(lines[i..], remaining)
      == (shown + [clipped]) + Clipped(lines[i + 1..], remaining - |clipped|)
  {
    var clipped := Take(lines[i], remaining);
    var rest := Clipped(lines[i + 1..], remaining - |clipped|);
    assert lines[i..][0] == lines[i] && lines[i..][1..] == lines[i + 1..];
    assert shown + ([clipped] + rest) == (shown + [clipped]) + rest;
  }

  // ---------------------------------------------------------------------------------------------
  // The budget

  lemma {:induction false} FlatConcat(a: seq<string>, b: seq<string>)
    ensures Flat(a + b) == Flat(a) + Flat(b)
  {
    if a == [] {
      assert a + b == b;
    } else {
      assert (a + b)[1..] == a[1..] + b;
      FlatConcat(a[1..], b);
    }
  }

  lemma {:induction false} ClippedSpends(lines: seq<string>, budget: nat)
    ensures var shown := Clipped(lines, budget);
      && |shown| <= |lines| && Flat(shown) == Take(Flat(lines), budget)
      && (|shown| < |lines| ==> |Flat(shown)| == budget)
  {
    if lines != [] && budget != 0 {
      var head := Take(lines[0], budget);
      assert Clipped(lines, budget)[1..] == Clipped(lines[1..], budget - |head|);
      ClippedSpends(lines[1..], budget - |head|);
    }
  }

  lemma {:induction false} ClippedKeepsWholeLines(lines: seq<string>, budget: nat)
    ensures var shown := Clipped(lines, budget);
      && |shown| <= |lines|
      && (forall i :: 0 <= i < |shown| - 1 ==> shown[i] == lines[i])
      && (shown != [] ==> StartsWith(lines[|shown| - 1], shown[|shown| - 1]))
  {
    if lines != [] && budget != 0 {
      var head := Take(lines[0], budget);
      var tail := Clipped(lines[1..], budget - |head|);
      assert Clipped(lines, budget) == [head] + tail;
      ClippedKeepsWholeLines(lines[1..], budget - |head|);
    }
  }

  lemma {:induction false} ClippedNeedsItsLastLine(lines: seq<string>, budget: nat)
    ensures var shown := Clipped(lines, budget);
      |shown| <= |lines| && (shown != [] ==> |Flat(lines[..|shown| - 1])| < budget)
  {
    if lines != [] && budget != 0 {
      var head := Take(lines[0], budget);
      var tail := Clipped(lines[1..], budget - |head|);
      ClippedNeedsItsLastLine(lines[1..], budget - |head|);
      if tail == [] {
        assert lines[..0] == [];
      } else {
        assert lines[..|tail|][1..] == lines[1..][..|tail| - 1];
        assert lines[..|tail|][0] == lines[0];
      }
    }
  }

  /** The clipped lines are the longest prefix of the lines that the budget pays for: every line but
      the last is whole, the characters are exactly the first `budget` ones, and a line is left out
      only once the budget is spent. */
  lemma ClippedIsLongestPrefix(lines: seq<string>, budget: nat)
    ensures var shown := Clipped(lines, budget);
      && |shown| <= |lines|
      && Flat(shown) == Take(Flat(lines), budget)
      && (forall i :: 0 <= i < |shown| - 1 ==> shown[i] == lines[i])
      && (shown != [] ==> StartsWith(lines[|shown| - 1], shown[|shown| - 1]))
      && (|shown| < |lines| ==> |Flat(shown)| == budget)
      && (shown != [] ==> |Flat(lines[..|shown| - 1])| < budget)
  {
    hide Clipped, Flat, Take, StartsWith;
    ClippedSpends(lines, budget);
    ClippedKeepsWholeLines(lines, budget);
    ClippedNeedsItsLastLine(lines, budget);
  }

  /** The frame budget of one result, whatever was printed. */
  lemma BodyBudget(nonce: string, text: string)
    ensures var lines := EscapedLines(nonce, text);
      var shown := Clipped(lines, MAX_OUTPUT);
      && |Flat(shown)| <= MAX_OUTPUT
      && Flat(shown) == Take(Flat(lines), MAX_OUTPUT)
      && Body(nonce, text)[..|shown|] == shown
      && (|Body(nonce, text)| == |shown| + 1 <==> |Flat(lines)| >= MAX_OUTPUT)
      && (|Flat(lines)| < MAX_OUTPUT ==> Body(nonce, text) == lines)
      && (|Flat(lines)| >= MAX_OUTPUT ==> Body(nonce, text)[|shown|] == TRUNCATED)
  {
    var lines := EscapedLines(nonce, text);
    ClippedIsLongestPrefix(lines, MAX_OUTPUT);
    if |Flat(lines)| < MAX_OUTPUT {
      UnspentBudgetKeepsAll(lines, MAX_OUTPUT);
    }
  }

  lemma {:induction false} UnspentBudgetKeepsAll(lines: seq<string>, budget: nat)
    requires |Flat(lines)| < budget
    ensures Clipped(lines, budget) == lines
  {
    if lines != [] {
      UnspentBudgetKeepsAll(lines[1..], budget - |lines[0]|);
    }
  }

  lemma {:induction false} UnlinesLength(lines: seq<string>)
    ensures |Unlines(lines)| == |Flat(lines)| + |lines|
    ensures Utf8Length(Unlines(lines)) == Utf8Length(Flat(lines)) + |lines|
  {
    if lines != [] {
      UnlinesLength(lines[1..]);
      Utf8Concat(lines[0], Flat(lines[1..]));
      Utf8Concat(lines[0] + [NEWLINE], Unlines(lines[1..]));
      Utf8Concat(lines[0], [NEWLINE]);
    }
  }

  /** The documented bound, 64 KiB a result, holds of the bytes really sent exactly when the escaped
      text takes no more than that in UTF-8, one byte for each line's terminator included. */
  lemma SentBodyFitsIff(nonce: string, text: string)
    ensures Utf8Length(Unlines(Body(nonce, text))) <= MAX_OUTPUT
       <==> Utf8Length(Flat(EscapedLines(nonce, text))) + |Split(text, NEWLINE)| <= MAX_OUTPUT
  {
    var lines := EscapedLines(nonce, text);
    var shown := Clipped(lines, MAX_OUTPUT);
    BodyBudget(nonce, text);
    UnlinesLength(Body(nonce, text));
    if |Flat(lines)| >= MAX_OUTPUT {
      assert Body(nonce, text) == shown + [TRUNCATED];
      FlatConcat(shown, [TRUNCATED]);
      Utf8Concat(Flat(shown), Flat([TRUNCATED]));
      Utf8AtLeast(Flat(shown));
      Utf8AtLeast(Flat(lines));
    }
  }

  function Newlines(n: nat): string {
    seq(n, i => NEWLINE)
  }

  lemma {:induction false} SplitNewlines(n: nat)
    ensures |Split(Newlines(n), NEWLINE)| == n + 1
    ensures forall i :: 0 <= i <= n ==> Split(Newlines(n), NEWLINE)[i] == ""
  {
    if n > 0 {
      assert Newlines(n)[1..] == Newlines((n - 1) as nat);
      SplitNewlines((n - 1) as nat);
    }
  }

  lemma {:induction false} BlankLinesAreFlat(lines: seq<string>)
    requires forall i :: 0 <= i < |lines| ==> lines[i] == ""
    ensures Flat(lines) == ""
  {
    if lines != [] {
      assert lines[0] == "";
      BlankLinesAreFlat(lines[1..]);
    }
  }

  /** Blank lines cost nothing, so no bound on the sent text follows from the budget: `n` newlines
      come back as `n + 1` untruncated lines. */
  lemma BlankLinesAreFree(nonce: string, n: nat)
    ensures Body(nonce, Newlines(n)) == EscapedLines(nonce, Newlines(n))
    ensures |Unlines(Body(nonce, Newlines(n)))| == n + 1
  {
    var lines := EscapedLines(nonce, Newlines(n));
    SplitNewlines(n);
    forall i | 0 <= i < |lines| ensures lines[i] == "" {
      assert Split(Newlines(n), NEWLINE)[i] == "";
      assert SanitizeLine("") == "";
      assert !LooksLikeMarker(nonce, "");
    }
    BlankLinesAreFlat(lines);
    BodyBudget(nonce, Newlines(n));
    UnlinesLength(lines);
  }

  function Repeated(c: char, n: nat): string {
    seq(n, i => c)
  }

  lemma {:induction false} RepeatedIsOneLine(c: char, n: nat)
    requires c != NEWLINE
    ensures Split(Repeated(c, n), NEWLINE) == [Repeated(c, n)]
    ensures Utf8Length(Repeated(c, n)) == Utf8Width(c) * n
  {
    if n > 0 {
      assert Repeated(c, n)[1..] == Repeated(c, n - 1) && [c] + Repeated(c, n - 1) == Repeated(c, n);
      RepeatedIsOneLine(c, n - 1);
    }
  }

  lemma RepeatedIsNoMarker(nonce: string, c: char, n: nat)
    ensures !LooksLikeMarker(nonce, Repeated(c, n))
  {
    var text := Repeated(c, n);
    assert ReadyMark(nonce)[..2] == "RE" && ResultMark(nonce)[..2] == "RE" && EndMark(nonce)[..2] == "EN";
    forall mark | StartsWith(text, mark) && |mark| >= 2 ensures mark[0] == mark[1] {
      assert text[..|mark|][0] == c && text[..|mark|][1] == c;
    }
  }

  /** Wide characters are charged like narrow ones: a line of `n` of them, within the budget, is sent
      whole, at its full width. */
  lemma WideLinesAreUnderpaid(nonce: string, c: char, n: nat)
    requires !IsControl(c) && !IsBidi(c) && n < MAX_OUTPUT
    ensures Body(nonce, Repeated(c, n)) == [Repeated(c, n)]
    ensures Utf8Length(Unlines(Body(nonce, Repeated(c, n)))) == Utf8Width(c) * n + 1
  {
    hide LooksLikeMarker, Clipped, Take, Utf8Width;
    var text := Repeated(c, n);
    RepeatedIsOneLine(c, n);
    assert SanitizeLine(text) == text;
    RepeatedIsNoMarker(nonce, c, n);
    var lines := EscapedLines(nonce, text);
    assert lines == [text] && Flat(lines) == text + "" == text;
    BodyBudget(nonce, text);
    UnlinesLength(lines);
  }

  // ---------------------------------------------------------------------------------------------
  // No forgery

  lemma EscapedIsNoMarker(nonce: string, line: string)
    ensures !LooksLikeMarker(nonce, Escaped(nonce, line)) && OneLine(Escaped(nonce, line))
  {
    var safe := SanitizeLine(line);
    assert IsControl(NEWLINE);
    if LooksLikeMarker(nonce, safe) {
      var escaped := "> " + safe;
      assert escaped[0] == '>';
      assert ReadyMark(nonce)[0] == 'R' && ResultMark(nonce)[0] == 'R' && EndMark(nonce)[0] == 'E';
    }
  }

  lemma PrefixOfSafeLine(nonce: string, line: string, prefix: string)
    requires StartsWith(line, prefix) && OneLine(line) && !LooksLikeMarker(nonce, line)
    ensures OneLine(prefix) && !LooksLikeMarker(nonce, prefix)
  {
    forall mark | StartsWith(prefix, mark) ensures StartsWith(line, mark) {
      assert line[..|mark|] == prefix[..|mark|];
    }
  }

  /** No line of a body, cut or not, can be read as a marker of this session, whatever text asked
      for it: the printing script may even know the nonce. */
  lemma BodyHoldsNoMarker(nonce: string, text: string, i: nat)
    requires i < |Body(nonce, text)|
    ensures OneLine(Body(nonce, text)[i]) && !LooksLikeMarker(nonce, Body(nonce, text)[i])
  {
    hide Escaped, LooksLikeMarker, OneLine, Clipped, Flat, Take, StartsWith;
    var lines := EscapedLines(nonce, text);
    var shown := Clipped(lines, MAX_OUTPUT);
    ClippedIsLongestPrefix(lines, MAX_OUTPUT);
    if i < |shown| {
      EscapedIsNoMarker(nonce, Split(text, NEWLINE)[i]);
      assert lines[i] == Escaped(nonce, Split(text, NEWLINE)[i]);
      if i < |shown| - 1 {
        assert shown[i] == lines[i];
      }
      PrefixOfSafeLine(nonce, lines[i], shown[i]);
    } else {
      assert Body(nonce, text)[i] == TRUNCATED;
      TruncatedIsNoMarker(nonce);
    }
  }

  lemma TruncatedIsNoMarker(nonce: string)
    ensures OneLine(TRUNCATED) && !LooksLikeMarker(nonce, TRUNCATED)
  {
    assert TRUNCATED[0] == '[';
    assert ReadyMark(nonce)[0] == 'R' && ResultMark(nonce)[0] == 'R' && EndMark(nonce)[0] == 'E';
  }

  // ---------------------------------------------------------------------------------------------
  // Reading a session back

  /** A frame a peer can take apart again. */
  ghost predicate Sound(nonce: string, frame: Frame) {
    && OneLine(frame.status)
    && forall i :: 0 <= i < |frame.body| ==> OneLine(frame.body[i]) && !LooksLikeMarker(nonce, frame.body[i])
  }

  /** A peer's reader: outside a frame only RESULT may follow, inside one only END closes it, and a
      marker anywhere else is a broken stream. */
  function Scan(nonce: string, lines: seq<string>, open: Option<Frame>): Option<seq<Frame>> {
    if lines == [] then
      if open.None? then Some([]) else None
    else
      var head := ResultMark(nonce) + " ";
      match open
      case None =>
        if StartsWith(lines[0], head) then Scan(nonce, lines[1..], Some(Frame(lines[0][|head|..], []))) else None
      case Some(frame) =>
        if lines[0] == EndMark(nonce) then
          match Scan(nonce, lines[1..], None)
          case None => None
          case Some(rest) => Some([frame] + rest)
        else if LooksLikeMarker(nonce, lines[0]) then None
        else Scan(nonce, lines[1..], Some(frame.(body := frame.body + [lines[0]])))
  }

  /** Reads a whole session: READY, then frames, each line terminated. */
  function Decode(nonce: string, data: string): Option<seq<Frame>> {
    var lines := Split(data, NEWLINE);
    if |lines| >= 2 && lines[0] == ReadyMark(nonce) && lines[|lines| - 1] == "" then
      Scan(nonce, lines[1..|lines| - 1], None)
    else None
  }

  lemma {:induction false} ScanBody(
      nonce: string, status: string, before: seq<string>, body: seq<string>, rest: seq<string>)
    requires Sound(nonce, Frame(status, body))
    ensures Scan(nonce, body + [EndMark(nonce)] + rest, Some(Frame(status, before)))
         == Scan(nonce, [EndMark(nonce)] + rest, Some(Frame(status, before + body)))
    decreases body
  {
    if body == [] {
      assert body + [EndMark(nonce)] + rest == [EndMark(nonce)] + rest && before + body == before;
    } else {
      var lines := body + [EndMark(nonce)] + rest;
      assert lines[0] == body[0] && lines[1..] == body[1..] + [EndMark(nonce)] + rest;
      assert StartsWith(EndMark(nonce), EndMark(nonce));
      ScanBody(nonce, status, before + [body[0]], body[1..], rest);
      assert before + [body[0]] + body[1..] == before + body;
    }
  }

  lemma {:induction false} ScanFrames(nonce: string, frames: seq<Frame>)
    requires forall i :: 0 <= i < |frames| ==> Sound(nonce, frames[i])
    ensures Scan(nonce, FramesLines(nonce, frames), None) == Some(frames)
  {
    if frames != [] {
      var frame, rest := frames[0], FramesLines(nonce, frames[1..]);
      var head := ResultMark(nonce) + " ";
      var lines := FramesLines(nonce, frames);
      assert lines[0] == head + frame.status && lines[0][..|head|] == head && lines[0][|head|..] == frame.status;
      assert lines[1..] == frame.body + [EndMark(nonce)] + rest;
      ScanBody(nonce, frame.status, [], frame.body, rest);
      assert [] + frame.body == frame.body;
      assert ([EndMark(nonce)] + rest)[1..] == rest;
      ScanFrames(nonce, frames[1..]);
      assert [frame] + frames[1..] == frames;
      assert Scan(nonce, lines, None) == Scan(nonce, lines[1..], Some(Frame(frame.status, [])));
    }
  }

  lemma {:induction false} FramesLinesAreLines(nonce: string, frames: seq<Frame>)
    requires OneLine(nonce)
    requires forall i :: 0 <= i < |frames| ==> Sound(nonce, frames[i])
    ensures AllOneLine(FramesLines(nonce, frames))
  {
    if frames != [] {
      assert Sound(nonce, frames[0]);
      FramesLinesAreLines(nonce, frames[1..]);
      assert AllOneLine(FrameLines(nonce, frames[0]));
    }
  }

  /** The frame round trip: a peer that splits the written bytes into lines and looks for markers
      recovers exactly the frames, in order, with their statuses and shown lines. */
  lemma {:induction false} FrameRoundTrip(nonce: string, frames: seq<Frame>)
    requires OneLine(nonce)
    requires forall i :: 0 <= i < |frames| ==> Sound(nonce, frames[i])
    ensures Decode(nonce, Unlines([ReadyMark(nonce)] + FramesLines(nonce, frames))) == Some(frames)
  {
    var lines := [ReadyMark(nonce)] + FramesLines(nonce, frames);
    FramesLinesAreLines(nonce, frames);
    SplitUnlines(lines);
    assert (lines + [""])[1..|lines|] == FramesLines(nonce, frames);
    ScanFrames(nonce, frames);
  }

  lemma {:induction false} FramesLinesSnoc(nonce: string, frames: seq<Frame>, frame: Frame)
    ensures FramesLines(nonce, frames + [frame]) == FramesLines(nonce, frames) + FrameLines(nonce, frame)
  {
    if frames == [] {
      assert frames + [frame] == [frame];
    } else {
      assert (frames + [frame])[1..] == frames[1..] + [frame];
      FramesLinesSnoc(nonce, frames[1..], frame);
    }
  }

  lemma WrittenFrameIsSound(nonce: string, status: string, text: string)
    requires OneLine(status)
    ensures Sound(nonce, Frame(status, Body(nonce, text)))
  {
    forall i | 0 <= i < |Body(nonce, text)|
      ensures OneLine(Body(nonce, text)[i]) && !LooksLikeMarker(nonce, Body(nonce, text)[i])
    {
      BodyHoldsNoMarker(nonce, text, i);
    }
  }

  // ---------------------------------------------------------------------------------------------
  // The nonce

  const DIGITS := "0123456789abcdef"

  function HexDigit(n: nat): (c: char)
    requires n < 16
    ensures c != NEWLINE
  {
    DIGITS[n]
  }

  function HighDigit(b: bv8): (c: char)
    ensures c != NEWLINE
  {
    HexDigit((b / 16) as nat)
  }

  function LowDigit(b: bv8): (c: char)
    ensures c != NEWLINE
  {
    HexDigit((b % 16) as nat)
  }

  /** Random bytes in lower-case hexadecimal, two digits each, the high one first. */
  function Nonce(bytes: seq<bv8>): (nonce: string)
    ensures |nonce| == 2 * |bytes| && OneLine(nonce)
  {
    if bytes == [] then "" else [HighDigit(bytes[0]), LowDigit(bytes[0])] + Nonce(bytes[1..])
  }

  lemma {:induction false} NonceDigits(bytes: seq<bv8>, i: nat)
    requires i < |bytes|
    ensures Nonce(bytes)[2 * i] == HighDigit(bytes[i]) && Nonce(bytes)[2 * i + 1] == LowDigit(bytes[i])
  {
    hide HighDigit, LowDigit;
    if i > 0 {
      NonceDigits(bytes[1..], i - 1);
    }
  }

  lemma DigitsDiffer(m: nat, n: nat)
    requires m < 16 && n < 16 && HexDigit(m) == HexDigit(n)
    ensures m == n
  {
  }

  lemma DigitsTellByte(a: bv8, b: bv8)
    requires HighDigit(a) == HighDigit(b) && LowDigit(a) == LowDigit(b)
    ensures a == b
  {
    DigitsDiffer((a / 16) as nat, (b / 16) as nat);
    DigitsDiffer((a % 16) as nat, (b % 16) as nat);
    assert a / 16 == b / 16 && a % 16 == b % 16;
  }

  /** The digits tell the bytes: sessions with different random bytes never share a nonce. */
  lemma NoncesTellBytes(a: seq<bv8>, b: seq<bv8>)
    requires Nonce(a) == Nonce(b)
    ensures a == b
  {
    hide HighDigit, LowDigit, Nonce;
    forall i | 0 <= i < |a| ensures a[i] == b[i] {
      NonceDigits(a, i);
      NonceDigits(b, i);
      DigitsTellByte(a[i], b[i]);
    }
  }
}
