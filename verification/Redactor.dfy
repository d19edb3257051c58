/** Finding credentials inside one string: a scanner over runs of token characters, and the
    declarative rule it implements. */
module Redactor {
  import opened Text

  const MIN_SECRET_LENGTH: nat := 20
  const MIN_SEGMENT_LENGTH: nat := 16

  /** The external marker drawn over a hidden text of so many characters. */
  type Marker = nat -> string

  predicate IsTokenChar(c: char) {
    IsAsciiAlphanumeric(c) || c == '_' || c == '-' || c == '.' || c == '+' || c == '/' || c == '='
  }

  predicate IsSecretBody(value: string) {
    && |value| >= MIN_SECRET_LENGTH
    && forall i :: 0 <= i < |value| ==> IsAsciiAlphanumeric(value[i]) || value[i] == '_' || value[i] == '-'
  }

  predicate HasSecretPrefix(run: string, prefix: string) {
    StartsWith(run, prefix) && IsSecretBody(run[|prefix|..])
  }

  /** A credential by its own shape: a known prefix before a long body, or three long dotted
      segments. */
  predicate RunIsSecret(run: string) {
    || HasSecretPrefix(run, "ghp_") || HasSecretPrefix(run, "gho_") || HasSecretPrefix(run, "ghu_")
    || HasSecretPrefix(run, "ghs_") || HasSecretPrefix(run, "ghr_") || HasSecretPrefix(run, "github_pat_")
    || HasSecretPrefix(run, "sk-")
    || (var segments := Split(run, '.');
        |segments| == 3 && forall i :: 0 <= i < 3 ==> |segments[i]| >= MIN_SEGMENT_LENGTH && IsSecretBody(segments[i]))
  }

  function AsciiLower(c: char): char {
    if 'A' <= c <= 'Z' then (c as int + 32) as char else c
  }

  function AsciiLowercase(s: string): string {
    seq(|s|, i requires 0 <= i < |s| => AsciiLower(s[i]))
  }

  predicate SchemeIntroducesSecret(word: string) {
    AsciiLowercase(word) in {"bearer", "basic", "token"}
  }

  // ---------------------------------------------------------------------------------------------
  // Segments

  /** A text is separators and maximal runs of token characters, in order. */
  datatype Segment = Separator(c: char) | Run(text: string) {
    function Text(): string {
      match this case Separator(c) => [c] case Run(text) => text
    }

    predicate Valid() {
      match this
      case Separator(c) => !IsTokenChar(c)
      case Run(text) => text != "" && forall i :: 0 <= i < |text| ==> IsTokenChar(text[i])
    }
  }

  /** How far token characters reach. */
  function RunLength(s: string): (n: nat)
    ensures n <= |s| && (forall i :: 0 <= i < n ==> IsTokenChar(s[i])) && (n < |s| ==> !IsTokenChar(s[n]))
  {
    if s == "" || !IsTokenChar(s[0]) then 0 else 1 + RunLength(s[1..])
  }

  function Segments(s: string): (segs: seq<Segment>)
    decreases |s|
  {
    if s == "" then []
    else
      var n := RunLength(s);
      if n == 0 then [Separator(s[0])] + Segments(s[1..])
      else [Run(s[..n])] + Segments(s[n..])
  }

  function Spelled(segs: seq<Segment>): string {
    if segs == [] then "" else segs[0].Text() + Spelled(segs[1..])
  }

  /** Valid pieces with no two runs side by side: the runs are maximal. */
  predicate Maximal(segs: seq<Segment>) {
    && (forall i :: 0 <= i < |segs| ==> segs[i].Valid())
    && forall i :: 0 < i < |segs| ==> segs[i - 1].Separator? || segs[i].Separator?
  }

  lemma MaximalConcat(a: seq<Segment>, b: seq<Segment>)
    requires Maximal(a) && Maximal(b)
    requires a != [] && b != [] ==> a[|a| - 1].Separator? || b[0].Separator?
    ensures Maximal(a + b)
  {
    var c := a + b;
    forall i | 0 < i < |c| ensures c[i - 1].Separator? || c[i].Separator? {
      if i > |a| {
        assert c[i - 1] == b[i - 1 - |a|] && c[i] == b[i - |a|];
      } else if i < |a| {
        assert c[i - 1] == a[i - 1] && c[i] == a[i];
      }
    }
  }

  /** Segmenting loses nothing and yields maximal runs. */
  lemma {:induction false} SegmentsAreMaximal(s: string)
    ensures Spelled(Segments(s)) == s && Maximal(Segments(s))
    decreases |s|
  {
    if s != "" {
      var n := RunLength(s);
      var first, rest := if n == 0 then s[..1] else s[..n], if n == 0 then s[1..] else s[n..];
      assert first + rest == s;
      SegmentsAreMaximal(rest);
      var head := Segments(s)[0];
      assert Segments(s) == [head] + Segments(rest) && head.Text() == first;
      if n > 0 && rest != "" {
        assert RunLength(rest) == 0;
      }
      MaximalConcat([head], Segments(rest));
    }
  }

  lemma {:induction false} RunLengthIs(s: string, n: nat)
    requires n <= |s| && (forall i :: 0 <= i < n ==> IsTokenChar(s[i])) && (n < |s| ==> !IsTokenChar(s[n]))
    ensures RunLength(s) == n
  {
    if n > 0 {
      RunLengthIs(s[1..], n - 1);
    }
  }

  lemma SegmentsOfSeparator(c: char, rest: string)
    requires !IsTokenChar(c)
    ensures Segments([c] + rest) == [Separator(c)] + Segments(rest)
  {
    hide IsTokenChar;
    var s := [c] + rest;
    assert RunLength(s) == 0 && s[1..] == rest;
  }

  lemma SegmentsOfRun(run: string, rest: string)
    requires Run(run).Valid() && (rest != "" ==> !IsTokenChar(rest[0]))
    ensures Segments(run + rest) == [Run(run)] + Segments(rest)
  {
    hide IsTokenChar;
    var s := run + rest;
    RunLengthIs(s, |run|);
    assert s[..|run|] == run && s[|run|..] == rest;
  }

  /** It is the only way to cut a text into maximal runs and separators. */
  lemma {:induction false} SegmentsAreUnique(segs: seq<Segment>)
    requires Maximal(segs)
    ensures Segments(Spelled(segs)) == segs
  {
    hide IsTokenChar, Segments;
    if segs == [] {
      assert Segments("") == [] by { NothingToCut(); }
    } else {
      var rest := Spelled(segs[1..]);
      assert segs[0].Valid();
      TailIsMaximal(segs);
      SegmentsAreUnique(segs[1..]);
      match segs[0]
      case Separator(c) => SegmentsOfSeparator(c, rest);
      case Run(text) =>
        RunMeetsSeparator(segs);
        SegmentsOfRun(text, rest);
    }
  }

  lemma NothingToCut()
    ensures Segments("") == []
  {
  }

  lemma TailIsMaximal(segs: seq<Segment>)
    requires Maximal(segs) && segs != []
    ensures Maximal(segs[1..])
  {
    hide IsTokenChar;
  }

  lemma RunMeetsSeparator(segs: seq<Segment>)
    requires Maximal(segs) && segs != [] && segs[0].Run?
    ensures Spelled(segs[1..]) != "" ==> !IsTokenChar(Spelled(segs[1..])[0])
  {
    hide IsTokenChar;
    if |segs| > 1 {
      assert segs[1].Valid() && (segs[0].Separator? || segs[1].Separator?);
    }
  }

  // ---------------------------------------------------------------------------------------------
  // The rule

  /** Only whitespace lies between a scheme word and segment `i`. */
  predicate Introduced(segs: seq<Segment>, i: nat)
    requires i <= |segs|
  {
    exists j :: 0 <= j < i && segs[j].Run? && SchemeIntroducesSecret(segs[j].text)
      && forall k :: j < k < i ==> segs[k].Separator? && IsWhitespace(segs[k].c)
  }

  /** Segment `i` is a credential. */
  predicate Qualifies(segs: seq<Segment>, i: nat)
    requires i < |segs|
    ensures Qualifies(segs, i) ==> segs[i].Run?
  {
    segs[i].Run? && (RunIsSecret(segs[i].text) || (|segs[i].text| >= MIN_SECRET_LENGTH && Introduced(segs, i)))
  }

  predicate Finds(segs: seq<Segment>) {
    exists i :: 0 <= i < |segs| && Qualifies(segs, i)
  }

  /** One segment as shown: a credential as its marker, everything else verbatim. */
  function Piece(segs: seq<Segment>, i: nat, marker: Marker): string
    requires i < |segs|
  {
    if Qualifies(segs, i) then marker(|segs[i].text|) else segs[i].Text()
  }

  /** The first `n` segments as shown. */
  function Shown(segs: seq<Segment>, n: nat, marker: Marker): string
    requires n <= |segs|
  {
    if n == 0 then "" else Shown(segs, n - 1, marker) + Piece(segs, n - 1, marker)
  }

  /** What redaction of a text is, said without a scanner. */
  function Redaction(text: string, marker: Marker): Option<string> {
    var segs := Segments(text);
    if Finds(segs) then Some(Shown(segs, |segs|, marker)) else None
  }

  /** The run the scanner still remembers before segment `i`. */
  function Remembered(segs: seq<Segment>, i: nat): Option<string>
    requires i <= |segs|
  {
    if i == 0 then None
    else match segs[i - 1]
      case Run(text) => Some(text)
      case Separator(c) => if IsWhitespace(c) then Remembered(segs, i - 1) else None
  }

  /** The one remembered run decides the introduction. */
  lemma {:induction false} RememberedMeansIntroduced(segs: seq<Segment>, i: nat)
    requires i <= |segs|
    ensures Introduced(segs, i) <==> Remembered(segs, i).Some? && SchemeIntroducesSecret(Remembered(segs, i).value)
  {
    if i > 0 {
      RememberedMeansIntroduced(segs, i - 1);
      var last := segs[i - 1];
      if last.Separator? && IsWhitespace(last.c) && Introduced(segs, i - 1) {
        var j :| 0 <= j < i - 1 && segs[j].Run? && SchemeIntroducesSecret(segs[j].text)
          && forall k :: j < k < i - 1 ==> segs[k].Separator? && IsWhitespace(segs[k].c);
        assert forall k :: j < k < i ==> segs[k].Separator? && IsWhitespace(segs[k].c);
      }
    }
  }

  // ---------------------------------------------------------------------------------------------
  // The scanner

  /** Some segment before `n` is a credential. */
  predicate FindsBefore(segs: seq<Segment>, n: nat)
    requires n <= |segs|
  {
    exists k :: 0 <= k < n && Qualifies(segs, k)
  }

  lemma FindsStep(segs: seq<Segment>, i: nat)
    requires i < |segs|
    ensures FindsBefore(segs, i + 1) <==> FindsBefore(segs, i) || Qualifies(segs, i)
  {
    hide Qualifies;
    if FindsBefore(segs, i) {
      var k :| 0 <= k < i && Qualifies(segs, k);
      assert k < i + 1;
    }
  }

  /** One turn of the scanner: the next segment, whether it is a credential, what is shown for it and
      what is remembered after it. */
  lemma ScanStep(segs: seq<Segment>, i: nat, rest: string, marker: Marker)
    requires i <= |segs| && segs[i..] == Segments(rest) && rest != ""
    ensures i < |segs|
    ensures RunLength(rest) == 0 ==>
      && segs[i + 1..] == Segments(rest[1..]) && !Qualifies(segs, i)
      && Shown(segs, i + 1, marker) == Shown(segs, i, marker) + [rest[0]]
      && Remembered(segs, i + 1) == if IsWhitespace(rest[0]) then Remembered(segs, i) else None
    ensures RunLength(rest) > 0 ==>
      var n := RunLength(rest);
      && segs[i + 1..] == Segments(rest[n..]) && Remembered(segs, i + 1) == Some(rest[..n])
      && Shown(segs, i + 1, marker)
         == Shown(segs, i, marker) + (if Qualifies(segs, i) then marker(n) else rest[..n])
      && (Qualifies(segs, i) <==>
            || RunIsSecret(rest[..n])
            || (n >= MIN_SECRET_LENGTH && Remembered(segs, i).Some?
                && SchemeIntroducesSecret(Remembered(segs, i).value)))
  {
    hide RunIsSecret, SchemeIntroducesSecret, IsWhitespace, IsTokenChar;
    assert segs[i] == segs[i..][0] && segs[i + 1..] == segs[i..][1..];
    RememberedMeansIntroduced(segs, i);
  }

  /** Replaces every credential inside one string, or answers None when there was none. */
  method RedactText(text: string, marker: Marker) returns (redacted: Option<string>)
    ensures redacted == Redaction(text, marker)
  {
    hide Segments, Shown, Remembered, Qualifies, FindsBefore, RunIsSecret, SchemeIntroducesSecret, IsWhitespace;
    ghost var segs := Segments(text);
    ghost var i := 0;
    var output, found := "", false;
    var previousRun: Option<string> := None;
    var rest := text;
    NothingScanned(segs, marker);
    while rest != ""
      invariant 0 <= i <= |segs| && segs[i..] == Segments(rest)
      invariant output == Shown(segs, i, marker)
      invariant previousRun == Remembered(segs, i)
      invariant found <==> FindsBefore(segs, i)
      decreases |rest|
    {
      var n := RunLength(rest);
      ScanStep(segs, i, rest, marker);
      FindsStep(segs, i);
      if n == 0 {
        if !IsWhitespace(rest[0]) {
          previousRun := None;
        }
        output := output + [rest[0]];
        rest := rest[1..];
      } else {
        var run := rest[..n];
        var introduced := previousRun.Some? && SchemeIntroducesSecret(previousRun.value) && |run| >= MIN_SECRET_LENGTH;
        if introduced || RunIsSecret(run) {
          output := output + marker(|run|);
          found := true;
        } else {
          output := output + run;
        }
        previousRun := Some(run);
        rest := rest[n..];
      }
      i := i + 1;
    }
    AllScanned(segs, i);
    redacted := if found then Some(output) else None;
  }

  lemma NothingScanned(segs: seq<Segment>, marker: Marker)
    ensures segs[0..] == segs && Shown(segs, 0, marker) == "" && Remembered(segs, 0).None? && !FindsBefore(segs, 0)
  {
  }

  lemma AllScanned(segs: seq<Segment>, i: nat)
    requires i <= |segs| && segs[i..] == Segments("")
    ensures i == |segs| && (FindsBefore(segs, i) <==> Finds(segs))
  {
  }

  // ---------------------------------------------------------------------------------------------
  // Redacting twice

  /** A marker that cannot itself be mistaken for a credential, nor introduce one. */
  predicate Inert(mark: string) {
    && mark != ""
    && !IsTokenChar(mark[|mark| - 1]) && !IsWhitespace(mark[|mark| - 1])
    && var segs := Segments(mark);
       forall i :: 0 <= i < |segs| && segs[i].Run? ==> |segs[i].text| < MIN_SECRET_LENGTH
  }

  /** Such markers exist: a bracketed word is one. */
  lemma BracketedWordIsInert(word: string)
    requires 0 < |word| < MIN_SECRET_LENGTH && forall i :: 0 <= i < |word| ==> IsTokenChar(word[i])
    ensures Inert("[" + word + "]")
  {
    var segs := [Separator('[')] + ([Run(word)] + [Separator(']')]);
    SpelledConcat([Run(word)], [Separator(']')]);
    SpelledConcat([Separator('[')], [Run(word)] + [Separator(']')]);
    assert Spelled([Run(word)]) == word + "" && Spelled([Separator(']')]) == "]" && Spelled([Separator('[')]) == "[";
    assert "[" + (word + "]") == "[" + word + "]";
    SegmentsAreUnique(segs);
  }

  predicate InertMarker(marker: Marker, longest: nat) {
    forall n :: 0 <= n <= longest ==> Inert(marker(n))
  }

  /** The segments a redacted text is made of. */
  function Rewritten(segs: seq<Segment>, n: nat, marker: Marker): seq<Segment>
    requires n <= |segs|
  {
    if n == 0 then [] else Rewritten(segs, n - 1, marker) + RewrittenPiece(segs, n - 1, marker)
  }

  function RewrittenPiece(segs: seq<Segment>, i: nat, marker: Marker): seq<Segment>
    requires i < |segs|
  {
    if Qualifies(segs, i) then Segments(marker(|segs[i].text|)) else [segs[i]]
  }

  lemma {:induction false} SpelledConcat(a: seq<Segment>, b: seq<Segment>)
    ensures Spelled(a + b) == Spelled(a) + Spelled(b)
  {
    if a == [] {
      assert a + b == b;
    } else {
      assert (a + b)[1..] == a[1..] + b;
      SpelledConcat(a[1..], b);
    }
  }

  /** The last piece of an inert marker is its closing separator. */
  lemma {:induction false} LastSegment(s: string)
    requires s != "" && !IsTokenChar(s[|s| - 1])
    ensures Segments(s) != [] && Segments(s)[|Segments(s)| - 1] == Separator(s[|s| - 1])
    decreases |s|
  {
    var n := RunLength(s);
    var rest := if n == 0 then s[1..] else s[n..];
    if rest != "" {
      assert rest[|rest| - 1] == s[|s| - 1];
      LastSegment(rest);
    }
  }

  /** Each piece is cut on its own as it is cut inside, and a run touches its edge only where the
      original run did. */
  lemma PieceIsMaximal(segs: seq<Segment>, i: nat, marker: Marker)
    requires i < |segs| && segs[i].Valid()
    requires Qualifies(segs, i) ==> Inert(marker(|segs[i].text|))
    ensures var piece := RewrittenPiece(segs, i, marker);
      && piece != [] && Maximal(piece) && Spelled(piece) == Piece(segs, i, marker)
      && (piece[|piece| - 1].Separator? || segs[i].Run?)
      && (Qualifies(segs, i) || piece == [segs[i]])
      && (Qualifies(segs, i) ==> piece[|piece| - 1].Separator? && segs[i].Run?)
  {
    hide Qualifies;
    if Qualifies(segs, i) {
      SegmentsAreMaximal(marker(|segs[i].text|));
      LastSegment(marker(|segs[i].text|));
    } else {
      assert Spelled([segs[i]]) == segs[i].Text() + "";
    }
  }

  /** The redacted text is cut as its pieces say: markers meet separators on both sides. */
  lemma {:induction false} RewrittenIsMaximal(segs: seq<Segment>, n: nat, marker: Marker, longest: nat)
    requires n <= |segs| && Maximal(segs) && InertMarker(marker, longest)
    requires forall i :: 0 <= i < |segs| ==> |segs[i].Text()| <= longest
    ensures var out := Rewritten(segs, n, marker);
      && Maximal(out) && Spelled(out) == Shown(segs, n, marker)
      && (out != [] ==> n > 0 && (out[|out| - 1].Separator? || segs[n - 1].Run?))
  {
    hide Qualifies;
    if n > 0 {
      RewrittenIsMaximal(segs, n - 1, marker, longest);
      var before, piece := Rewritten(segs, n - 1, marker), RewrittenPiece(segs, n - 1, marker);
      assert segs[n - 1].Valid() && |segs[n - 1].Text()| <= longest;
      PieceIsMaximal(segs, n - 1, marker);
      if n > 1 {
        assert segs[n - 2].Separator? || segs[n - 1].Separator?;
      }
      MaximalConcat(before, piece);
      SpelledConcat(before, piece);
    }
  }

  /** An inert marker after quiet pieces leaves nothing to find and nothing to remember. */
  lemma MarkedRunIsQuiet(segs: seq<Segment>, n: nat, before: seq<Segment>, marker: Marker)
    requires n < |segs| && Qualifies(segs, n) && Inert(marker(|segs[n].text|))
    requires forall i :: 0 <= i < |before| ==> !Qualifies(before, i)
    ensures var out := before + RewrittenPiece(segs, n, marker);
      (forall i :: 0 <= i < |out| ==> !Qualifies(out, i)) && Remembered(out, |out|).None?
  {
    hide Qualifies, Remembered, Segments, IsTokenChar, IsWhitespace;
    var mark := marker(|segs[n].text|);
    LastSegment(mark);
    ShortRunsAreQuiet(before, Segments(mark));
  }

  /** Nothing in the rewritten pieces qualifies, and whatever the scanner would remember after them
      it also remembered in the original, or nothing at all. */
  lemma {:induction false} RewrittenIsQuiet(segs: seq<Segment>, n: nat, marker: Marker, longest: nat)
    requires n <= |segs| && InertMarker(marker, longest)
    requires forall i :: 0 <= i < |segs| ==> |segs[i].Text()| <= longest
    ensures var out := Rewritten(segs, n, marker);
      && (forall i :: 0 <= i < |out| ==> !Qualifies(out, i))
      && (Remembered(out, |out|) == Remembered(segs, n) || Remembered(out, |out|).None?)
  {
    if n > 0 {
      hide Qualifies, Remembered, Segments, IsTokenChar, IsWhitespace;
      RewrittenIsQuiet(segs, n - 1, marker, longest);
      var before, piece := Rewritten(segs, n - 1, marker), RewrittenPiece(segs, n - 1, marker);
      assert Rewritten(segs, n, marker) == before + piece;
      if Qualifies(segs, n - 1) {
        assert |segs[n - 1].Text()| <= longest;
        MarkedRunIsQuiet(segs, n - 1, before, marker);
      } else {
        KeptRunIsQuiet(segs, n - 1, before);
      }
    }
  }

  lemma {:induction false} RememberedPrefix(a: seq<Segment>, b: seq<Segment>, i: nat)
    requires i <= |a|
    ensures Remembered(a + b, i) == Remembered(a, i)
  {
    if i > 0 {
      RememberedPrefix(a, b, i - 1);
    }
  }

  lemma QualifiesPrefix(a: seq<Segment>, b: seq<Segment>, i: nat)
    requires i < |a|
    ensures Qualifies(a + b, i) <==> Qualifies(a, i)
  {
    hide RunIsSecret, SchemeIntroducesSecret;
    RememberedPrefix(a, b, i);
    RememberedMeansIntroduced(a, i);
    RememberedMeansIntroduced(a + b, i);
  }

  lemma ShortRunIsNoSecret(run: string)
    requires |run| < MIN_SECRET_LENGTH
    ensures !RunIsSecret(run)
  {
    if |Split(run, '.')| == 3 {
      SplitIsNoLonger(run, '.', 0);
    }
  }

  lemma {:induction false} SplitIsNoLonger(s: string, separator: char, i: nat)
    requires i < |Split(s, separator)|
    ensures |Split(s, separator)[i]| <= |s|
  {
    if s != "" {
      if s[0] == separator {
        if i > 0 { SplitIsNoLonger(s[1..], separator, i - 1); }
      } else {
        SplitIsNoLonger(s[1..], separator, i);
      }
    }
  }

  lemma ShortRunsAreQuiet(a: seq<Segment>, b: seq<Segment>)
    requires forall i :: 0 <= i < |a| ==> !Qualifies(a, i)
    requires forall i :: 0 <= i < |b| && b[i].Run? ==> |b[i].text| < MIN_SECRET_LENGTH
    requires b != [] && b[|b| - 1].Separator? && !IsWhitespace(b[|b| - 1].c)
    ensures forall i :: 0 <= i < |a + b| ==> !Qualifies(a + b, i)
    ensures Remembered(a + b, |a + b|).None?
  {
    forall i | 0 <= i < |a + b| ensures !Qualifies(a + b, i) {
      if i < |a| {
        QualifiesPrefix(a, b, i);
      } else if (a + b)[i].Run? {
        assert (a + b)[i] == b[i - |a|];
        ShortRunIsNoSecret((a + b)[i].text);
      }
    }
    assert (a + b)[|a + b| - 1] == b[|b| - 1];
  }

  lemma KeptRunIsQuiet(segs: seq<Segment>, n: nat, before: seq<Segment>)
    requires n < |segs| && !Qualifies(segs, n)
    requires forall i :: 0 <= i < |before| ==> !Qualifies(before, i)
    requires Remembered(before, |before|) == Remembered(segs, n) || Remembered(before, |before|).None?
    ensures var out := before + [segs[n]];
      && (forall i :: 0 <= i < |out| ==> !Qualifies(out, i))
      && (Remembered(out, |out|) == Remembered(segs, n + 1) || Remembered(out, |out|).None?)
  {
    hide RunIsSecret, SchemeIntroducesSecret;
    var out := before + [segs[n]];
    RememberedPrefix(before, [segs[n]], |before|);
    RememberedMeansIntroduced(out, |before|);
    RememberedMeansIntroduced(segs, n);
    forall i | 0 <= i < |out| ensures !Qualifies(out, i) {
      if i < |before| {
        QualifiesPrefix(before, [segs[n]], i);
      }
    }
  }

  lemma {:induction false} SegmentsAreNoLonger(s: string, i: nat)
    requires i < |Segments(s)|
    ensures |Segments(s)[i].Text()| <= |s|
    decreases |s|
  {
    var n := RunLength(s);
    if i > 0 {
      SegmentsAreNoLonger(if n == 0 then s[1..] else s[n..], i - 1);
    }
  }

  /** Redaction is finished after one pass: a redacted text, cut into runs again from scratch, holds
      nothing more to redact. */
  lemma RedactionIsFinal(text: string, marker: Marker)
    requires InertMarker(marker, |text|)
    requires Redaction(text, marker).Some?
    ensures Redaction(Redaction(text, marker).value, marker).None?
  {
    var segs := Segments(text);
    SegmentsAreMaximal(text);
    forall i | 0 <= i < |segs| ensures |segs[i].Text()| <= |text| {
      SegmentsAreNoLonger(text, i);
    }
    RewrittenIsMaximal(segs, |segs|, marker, |text|);
    RewrittenIsQuiet(segs, |segs|, marker, |text|);
    SegmentsAreUnique(Rewritten(segs, |segs|, marker));
  }
}
