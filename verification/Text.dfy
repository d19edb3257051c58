/** Text as the console handles it: Unicode scalar values, lines, and the characters a terminal
    must never be shown. */
module Text {
  datatype Option<+T> = None | Some(value: T)

  const NEWLINE := '\n'
  /** What is drawn where a control character was removed. */
  const CONTROL_REPLACEMENT := '\U{fffd}'

  /** Unicode general category Cc. */
  predicate IsControl(c: char) {
    c as int < 0x20 || 0x7f <= c as int <= 0x9f
  }

  /** The bidirectional marks, embeddings, overrides and isolates. */
  predicate IsBidi(c: char) {
    var n := c as int;
    n == 0x200e || n == 0x200f || 0x202a <= n <= 0x202e || 0x2066 <= n <= 0x2069
  }

  /** The Unicode White_Space property. */
  predicate IsWhitespace(c: char) {
    var n := c as int;
    || 0x09 <= n <= 0x0d || n == 0x20 || n == 0x85 || n == 0xa0 || n == 0x1680
    || 0x2000 <= n <= 0x200a || n == 0x2028 || n == 0x2029 || n == 0x202f || n == 0x205f || n == 0x3000
  }

  /** The two marks, the three ways into an embedding or out of it and the two overrides, and the four isolates. */
  lemma BidiCharactersAre(c: char)
    ensures IsBidi(c) <==>
      c in ['\U{200e}', '\U{200f}', '\U{202a}', '\U{202b}', '\U{202c}', '\U{202d}', '\U{202e}', '\U{2066}', '\U{2067}',
            '\U{2068}', '\U{2069}']
  {
  }

  /** The 25 characters that are white space. */
  lemma WhitespaceCharactersAre(c: char)
    ensures IsWhitespace(c) <==>
      c in ['\t', '\n', '\U{0b}', '\U{0c}', '\r', ' ', '\U{85}', '\U{a0}', '\U{1680}', '\U{2000}', '\U{2001}',
            '\U{2002}', '\U{2003}', '\U{2004}', '\U{2005}', '\U{2006}', '\U{2007}', '\U{2008}', '\U{2009}', '\U{200a}',
            '\U{2028}', '\U{2029}', '\U{202f}', '\U{205f}', '\U{3000}']
  {
  }

  predicate IsAsciiAlphanumeric(c: char) {
    'a' <= c <= 'z' || 'A' <= c <= 'Z' || '0' <= c <= '9'
  }

  predicate StartsWith(s: string, prefix: string) {
    |prefix| <= |s| && s[..|prefix|] == prefix
  }

  function TrimStart(s: string): (r: string)
    ensures |r| <= |s| && r == s[|s| - |r|..]
  {
    if s != "" && IsWhitespace(s[0]) then TrimStart(s[1..]) else s
  }

  function TrimEnd(s: string): (r: string)
    ensures |r| <= |s| && r == s[..|r|]
  {
    if s != "" && IsWhitespace(s[|s| - 1]) then TrimEnd(s[..|s| - 1]) else s
  }

  function Trim(s: string): string {
    TrimEnd(TrimStart(s))
  }

  predicate AllWhitespace(s: string) {
    forall i :: 0 <= i < |s| ==> IsWhitespace(s[i])
  }

  lemma {:induction false} TrimStartIs(s: string)
    ensures forall i :: 0 <= i < |s| - |TrimStart(s)| ==> IsWhitespace(s[i])
    ensures TrimStart(s) != "" ==> !IsWhitespace(TrimStart(s)[0])
  {
    hide IsWhitespace;
    if s != "" && IsWhitespace(s[0]) {
      TrimStartIs(s[1..]);
      forall i | 0 <= i < |s| - |TrimStart(s)| ensures IsWhitespace(s[i]) {
        assert i > 0 ==> s[i] == s[1..][i - 1];
      }
    }
  }

  lemma {:induction false} TrimEndIs(s: string)
    ensures forall i :: |TrimEnd(s)| <= i < |s| ==> IsWhitespace(s[i])
    ensures TrimEnd(s) != "" ==> !IsWhitespace(TrimEnd(s)[|TrimEnd(s)| - 1])
  {
    hide IsWhitespace;
    if s != "" && IsWhitespace(s[|s| - 1]) {
      TrimEndIs(s[..|s| - 1]);
      forall i | |TrimEnd(s)| <= i < |s| ensures IsWhitespace(s[i]) {
        assert i < |s| - 1 ==> s[i] == s[..|s| - 1][i];
      }
    }
  }

  /** Trimming takes whitespace off both ends, all of it, and nothing else. */
  lemma TrimIs(s: string) returns (front: string, back: string)
    ensures s == front + Trim(s) + back && AllWhitespace(front) && AllWhitespace(back)
    ensures Trim(s) != "" ==> !IsWhitespace(Trim(s)[0]) && !IsWhitespace(Trim(s)[|Trim(s)| - 1])
  {
    hide IsWhitespace, TrimStart, TrimEnd;
    var rest := TrimStart(s);
    TrimStartIs(s);
    TrimEndIs(rest);
    front, back := s[..|s| - |rest|], rest[|Trim(s)|..];
    assert rest == Trim(s) + back && s == front + rest;
    assert s == front + Trim(s) + back;
  }

  lemma TrimKeeps(s: string, k: nat)
    requires k < |s| && !IsWhitespace(s[k])
    ensures Trim(s) != ""
  {
    hide IsWhitespace, TrimStart, TrimEnd;
    var rest := TrimStart(s);
    TrimStartIs(s);
    TrimEndIs(rest);
    assert rest[k - (|s| - |rest|)] == s[k];
  }

  /** Trimming leaves nothing exactly of a text that is all whitespace. */
  lemma BlankIff(s: string)
    ensures Trim(s) != "" <==> exists k :: 0 <= k < |s| && !IsWhitespace(s[k])
  {
    hide IsWhitespace, Trim;
    var front, back := TrimIs(s);
    if Trim(s) != "" {
      assert s[|front|] == Trim(s)[0];
    }
    if k :| 0 <= k < |s| && !IsWhitespace(s[k]) {
      TrimKeeps(s, k);
    }
  }

  /** The pieces between separators: always at least one, as the standard library splits. */
  function Split(s: string, separator: char): (parts: seq<string>)
    ensures |parts| >= 1
    ensures forall i :: 0 <= i < |parts| ==> separator !in parts[i]
  {
    if s == "" then [""]
    else
      var rest := Split(s[1..], separator);
      if s[0] == separator then [""] + rest else [[s[0]] + rest[0]] + rest[1..]
  }

  /** Every line followed by its terminator. */
  function Unlines(lines: seq<string>): string {
    if lines == [] then "" else lines[0] + [NEWLINE] + Unlines(lines[1..])
  }

  predicate OneLine(s: string) {
    NEWLINE !in s
  }

  predicate AllOneLine(lines: seq<string>) {
    forall i :: 0 <= i < |lines| ==> OneLine(lines[i])
  }

  lemma {:induction false} SplitWhole(s: string, separator: char)
    requires separator !in s
    ensures Split(s, separator) == [s]
  {
    if s != "" {
      SplitWhole(s[1..], separator);
      assert [s[0]] + s[1..] == s;
    }
  }

  lemma {:induction false} SplitAtSeparator(s: string, separator: char, t: string)
    ensures Split(s + [separator] + t, separator) == Split(s, separator) + Split(t, separator)
  {
    var whole := s + [separator] + t;
    if s == "" {
      assert whole[1..] == t;
    } else {
      assert whole[1..] == s[1..] + [separator] + t;
      SplitAtSeparator(s[1..], separator, t);
    }
  }

  /** Parts put together again, with the separator in between. */
  function Joined(parts: seq<string>, separator: char): string
    requires parts != []
  {
    if |parts| == 1 then parts[0] else parts[0] + [separator] + Joined(parts[1..], separator)
  }

  /** Joining the parts gives the text back. */
  lemma {:induction false} SplitIsJoined(s: string, separator: char)
    ensures Joined(Split(s, separator), separator) == s
  {
    if s != "" {
      SplitIsJoined(s[1..], separator);
      var rest := Split(s[1..], separator);
      if s[0] == separator {
        assert ([""] + rest)[1..] == rest;
        assert "" + [separator] + s[1..] == s;
      } else {
        assert ([[s[0]] + rest[0]] + rest[1..])[1..] == rest[1..];
        assert [s[0]] + s[1..] == s;
      }
    }
  }

  /** Splitting inverts writing lines one after another; the last piece is the empty remainder. */
  lemma {:induction false} SplitUnlines(lines: seq<string>)
    requires AllOneLine(lines)
    ensures Split(Unlines(lines), NEWLINE) == lines + [""]
  {
    if lines != [] {
      assert AllOneLine(lines[1..]);
      SplitUnlines(lines[1..]);
      SplitWhole(lines[0], NEWLINE);
      SplitAtSeparator(lines[0], NEWLINE, Unlines(lines[1..]));
    }
  }

  /** Bytes a character takes in UTF-8, section 3 of RFC 3629. */
  function Utf8Width(c: char): nat {
    if c as int < 0x80 then 1 else if c as int < 0x800 then 2 else if c as int < 0x1_0000 then 3 else 4
  }

  /** How many scalar values fit into so many bytes: 7 bits in one, and 5 more in each further byte past 11. */
  function Payload(bytes: nat): nat {
    if bytes <= 1 then 128 else if bytes == 2 then 2048 else 32 * Payload(bytes - 1)
  }

  /** The width is the least number of bytes a character fits into. */
  lemma WidthIsLeast(c: char)
    ensures 1 <= Utf8Width(c) <= 4 && (c as int) < Payload(Utf8Width(c))
    ensures forall n :: 1 <= n < Utf8Width(c) ==> c as int >= Payload(n)
  {
    assert Payload(3) == 65536 && Payload(4) == 2097152;
  }

  function Utf8Length(s: string): nat {
    if s == "" then 0 else Utf8Width(s[0]) + Utf8Length(s[1..])
  }

  lemma {:induction false} Utf8Concat(a: string, b: string)
    ensures Utf8Length(a + b) == Utf8Length(a) + Utf8Length(b)
  {
    if a == "" {
      assert a + b == b;
    } else {
      assert (a + b)[1..] == a[1..] + b;
      Utf8Concat(a[1..], b);
    }
  }

  lemma {:induction false} Utf8AtLeast(s: string)
    ensures Utf8Length(s) >= |s|
  {
    if s != "" {
      Utf8AtLeast(s[1..]);
    }
  }
}
