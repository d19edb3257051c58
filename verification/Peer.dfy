/** What a peer reads: the bytes of a session, the lines of a reply and the digits of a nonce, said in
    characters. */
module Peer {
  import opened Text
  import opened Frames

  // ---------------------------------------------------------------------------------------------
  // Bytes on the wire

  /** Frames as they follow one another in the stream. */
  function OnTheWire(nonce: string, frames: seq<Frame>): string {
    if frames == [] then ""
    else
      "RESULT " + nonce + " " + frames[0].status + "\n" + Unlines(frames[0].body) + "END " + nonce + "\n"
      + OnTheWire(nonce, frames[1..])
  }

  lemma {:induction false} UnlinesConcat(a: seq<string>, b: seq<string>)
    ensures Unlines(a + b) == Unlines(a) + Unlines(b)
  {
    if a == [] {
      assert a + b == b;
    } else {
      assert (a + b)[1..] == a[1..] + b;
      UnlinesConcat(a[1..], b);
    }
  }

  lemma OneUnline(line: string)
    ensures Unlines([line]) == line + "\n"
  {
    assert Unlines([line]) == line + [NEWLINE] + Unlines([]);
  }

  /** A session is READY, then every frame between its RESULT and its END, each line terminated. */
  lemma SessionOnTheWire(nonce: string, frames: seq<Frame>)
    ensures Unlines([ReadyMark(nonce)] + FramesLines(nonce, frames))
         == "READY " + nonce + "\n" + OnTheWire(nonce, frames)
  {
    UnlinesConcat([ReadyMark(nonce)], FramesLines(nonce, frames));
    OneUnline(ReadyMark(nonce));
    WireIs(nonce, frames);
  }

  lemma {:induction false} WireIs(nonce: string, frames: seq<Frame>)
    ensures Unlines(FramesLines(nonce, frames)) == OnTheWire(nonce, frames)
  {
    if frames != [] {
      WireIs(nonce, frames[1..]);
      FrameOnTheWire(nonce, frames[0]);
      UnlinesConcat(FrameLines(nonce, frames[0]), FramesLines(nonce, frames[1..]));
    }
  }

  lemma FrameOnTheWire(nonce: string, frame: Frame)
    ensures Unlines(FrameLines(nonce, frame))
         == "RESULT " + nonce + " " + frame.status + "\n" + Unlines(frame.body) + "END " + nonce + "\n"
  {
    var head := ResultMark(nonce) + " " + frame.status;
    UnlinesConcat([head] + frame.body, [EndMark(nonce)]);
    UnlinesConcat([head], frame.body);
    OneUnline(head);
    OneUnline(EndMark(nonce));
  }

  // ---------------------------------------------------------------------------------------------
  // The lines of a reply

  /** The line begins with one of the three marks of a session. */
  predicate Marked(nonce: string, line: string) {
    StartsWith(line, "READY " + nonce) || StartsWith(line, "RESULT " + nonce) || StartsWith(line, "END " + nonce)
  }

  /** A piece of a text as a peer may see it whole. */
  function Drawn(nonce: string, piece: string): string {
    (if Marked(nonce, SanitizeLine(piece)) then "> " else "") + SanitizeLine(piece)
  }

  lemma EscapedIsDrawn(nonce: string, text: string, i: nat)
    requires i < |Split(text, NEWLINE)|
    ensures EscapedLines(nonce, text)[i] == Drawn(nonce, Split(text, NEWLINE)[i])
  {
    hide SanitizeLine;
  }

  /** What a reply shows: its pieces in order, each whole but for the last, then the truncation line exactly
      when the characters reach the budget; without it nothing is missing. */
  lemma BodyIsDrawn(nonce: string, text: string) returns (shown: nat)
    ensures var body, pieces := Body(nonce, text), Split(text, NEWLINE);
      && shown <= |pieces| && shown <= |body| <= shown + 1
      && (forall i :: 0 <= i < shown - 1 ==> body[i] == Drawn(nonce, pieces[i]))
      && (shown > 0 ==> StartsWith(Drawn(nonce, pieces[shown - 1]), body[shown - 1]))
      && (|body| == shown ==>
            && shown == |pieces| && |Flat(body)| < 65536
            && forall i :: 0 <= i < shown ==> body[i] == Drawn(nonce, pieces[i]))
      && (|body| > shown ==> body[shown] == "[output truncated]" && |Flat(body[..shown])| == 65536)
  {
    hide Drawn, Clipped, Flat, Escaped, StartsWith, Take;
    var lines := EscapedLines(nonce, text);
    shown := |Clipped(lines, MAX_OUTPUT)|;
    BodyBudget(nonce, text);
    ClippedIsLongestPrefix(lines, MAX_OUTPUT);
    TakeLength(Flat(lines), MAX_OUTPUT);
    forall i | 0 <= i < |lines| ensures lines[i] == Drawn(nonce, Split(text, NEWLINE)[i]) {
      EscapedIsDrawn(nonce, text, i);
    }
  }

  lemma TakeLength(s: string, n: nat)
    ensures |Take(s, n)| == if |s| <= n then |s| else n
  {
  }

  lemma {:induction false} SplitLength(text: string)
    ensures |Flat(Split(text, NEWLINE))| + |Split(text, NEWLINE)| == |text| + 1
  {
    if text != "" {
      var rest := Split(text[1..], NEWLINE);
      SplitLength(text[1..]);
      if text[0] == NEWLINE {
        assert Split(text, NEWLINE)[1..] == rest;
      } else {
        assert Split(text, NEWLINE)[1..] == rest[1..];
        assert Flat(Split(text, NEWLINE)) == [text[0]] + rest[0] + Flat(rest[1..]);
      }
    }
  }

  /** Nothing a terminal must not see, and nothing that looks like a mark. */
  predicate Clean(nonce: string, piece: string) {
    && (forall k :: 0 <= k < |piece| ==> !IsControl(piece[k]) && !IsBidi(piece[k]))
    && !Marked(nonce, piece)
  }

  lemma CleanIsDrawn(nonce: string, piece: string)
    requires Clean(nonce, piece)
    ensures Drawn(nonce, piece) == piece
  {
    hide IsControl, IsBidi, Marked;
    assert SanitizeLine(piece) == piece;
  }

  /** Clean text within the budget comes through as it is: its lines are the lines of the reply, and joining
      them gives the text back. */
  lemma CleanTextComesThrough(nonce: string, text: string)
    requires forall i :: 0 <= i < |Split(text, NEWLINE)| ==> Clean(nonce, Split(text, NEWLINE)[i])
    requires |text| + 1 - |Split(text, NEWLINE)| < 65536
    ensures Body(nonce, text) == Split(text, NEWLINE) && Joined(Body(nonce, text), NEWLINE) == text
  {
    hide Clean, Drawn, Escaped, Clipped, Flat, Take;
    var lines := EscapedLines(nonce, text);
    forall i | 0 <= i < |lines| ensures lines[i] == Split(text, NEWLINE)[i] {
      EscapedIsDrawn(nonce, text, i);
      CleanIsDrawn(nonce, Split(text, NEWLINE)[i]);
    }
    assert lines == Split(text, NEWLINE);
    SplitIsJoined(text, NEWLINE);
    SplitLength(text);
    BodyBudget(nonce, text);
  }

  // ---------------------------------------------------------------------------------------------
  // The nonce

  /** What a hexadecimal digit is worth. */
  function DigitValue(c: char): nat {
    if '0' <= c <= '9' then c as nat - '0' as nat else if 'a' <= c <= 'f' then c as nat - 'a' as nat + 10 else 16
  }

  /** A nonce is the random bytes in lower-case hexadecimal, the high digit first. */
  lemma NonceIsHexadecimal(bytes: seq<bv8>, i: nat)
    requires i < |bytes|
    ensures var high, low := DigitValue(Nonce(bytes)[2 * i]), DigitValue(Nonce(bytes)[2 * i + 1]);
      high < 16 && low < 16 && 16 * high + low == bytes[i] as nat
  {
    hide Nonce, HexDigit;
    NonceDigits(bytes, i);
    DigitIsWorth((bytes[i] / 16) as nat);
    DigitIsWorth((bytes[i] % 16) as nat);
  }

  lemma DigitIsWorth(n: nat)
    requires n < 16
    ensures DigitValue(HexDigit(n)) == n
  {
  }
}
