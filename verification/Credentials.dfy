/** What redaction finds in a text, said in words, gaps and runs. */
module Credentials {
  import opened Text
  import opened Redactor

  // ---------------------------------------------------------------------------------------------
  // Shapes

  predicate BodyChar(c: char) {
    'a' <= c <= 'z' || 'A' <= c <= 'Z' || '0' <= c <= '9' || c == '_' || c == '-'
  }

  predicate LongBody(s: string) {
    |s| >= 20 && forall i :: 0 <= i < |s| ==> BodyChar(s[i])
  }

  /** How the issuers of some tokens begin them. */
  predicate IssuerPrefix(s: string) {
    || s == "ghp_" || s == "gho_" || s == "ghu_" || s == "ghs_" || s == "ghr_" || s == "github_pat_" || s == "sk-"
  }

  /** A token by its own look: an issuer's prefix before a long body, or three long bodies between dots. */
  ghost predicate Issued(run: string) {
    || (exists prefix, body :: IssuerPrefix(prefix) && LongBody(body) && run == prefix + body)
    || (exists a, b, c :: LongBody(a) && LongBody(b) && LongBody(c) && run == a + "." + b + "." + c)
  }

  lemma PrefixedIff(run: string, prefix: string)
    ensures HasSecretPrefix(run, prefix) <==> exists body :: LongBody(body) && run == prefix + body
  {
    if HasSecretPrefix(run, prefix) {
      var body := run[|prefix|..];
      assert LongBody(body) && run == prefix + body;
    }
    if body :| LongBody(body) && run == prefix + body {
      assert run[|prefix|..] == body && run[..|prefix|] == prefix;
    }
  }

  lemma BodyHoldsNoDot(s: string)
    requires LongBody(s)
    ensures '.' !in s
  {
  }

  lemma ThreeBodies(run: string, a: string, b: string, c: string)
    requires LongBody(a) && LongBody(b) && LongBody(c) && run == a + "." + b + "." + c
    ensures Split(run, '.') == [a, b, c]
  {
    hide LongBody;
    BodyHoldsNoDot(a);
    BodyHoldsNoDot(b);
    BodyHoldsNoDot(c);
    assert a + "." + b + "." + c == a + "." + (b + "." + c);
    SplitAtSeparator(a, '.', b + "." + c);
    SplitAtSeparator(b, '.', c);
    SplitWhole(a, '.');
    SplitWhole(b, '.');
    SplitWhole(c, '.');
  }

  lemma ThreeSegments(run: string)
    requires |Split(run, '.')| == 3
    ensures var parts := Split(run, '.'); run == parts[0] + "." + parts[1] + "." + parts[2]
  {
    var parts := Split(run, '.');
    SplitIsJoined(run, '.');
    assert Joined(parts[1..], '.') == parts[1] + "." + Joined(parts[1..][1..], '.');
    assert parts[1..][1..] == [parts[2]];
  }

  lemma DottedIff(run: string)
    ensures (var parts := Split(run, '.');
             |parts| == 3 && forall i :: 0 <= i < 3 ==> |parts[i]| >= MIN_SEGMENT_LENGTH && IsSecretBody(parts[i]))
       <==> exists a, b, c :: LongBody(a) && LongBody(b) && LongBody(c) && run == a + "." + b + "." + c
  {
    var parts := Split(run, '.');
    if |parts| == 3 && forall i :: 0 <= i < 3 ==> |parts[i]| >= MIN_SEGMENT_LENGTH && IsSecretBody(parts[i]) {
      ThreeSegments(run);
      assert LongBody(parts[0]) && LongBody(parts[1]) && LongBody(parts[2]);
    }
    if a, b, c :| LongBody(a) && LongBody(b) && LongBody(c) && run == a + "." + b + "." + c {
      ThreeBodies(run, a, b, c);
    }
  }

  lemma IssuedIff(run: string)
    ensures RunIsSecret(run) <==> Issued(run)
  {
    hide HasSecretPrefix, LongBody, IsSecretBody;
    DottedIff(run);
    PrefixedIff(run, "ghp_");
    PrefixedIff(run, "gho_");
    PrefixedIff(run, "ghu_");
    PrefixedIff(run, "ghs_");
    PrefixedIff(run, "ghr_");
    PrefixedIff(run, "github_pat_");
    PrefixedIff(run, "sk-");
    assert IssuerPrefix("ghp_") && IssuerPrefix("gho_") && IssuerPrefix("ghu_") && IssuerPrefix("ghs_")
        && IssuerPrefix("ghr_") && IssuerPrefix("github_pat_") && IssuerPrefix("sk-");
  }

  // ---------------------------------------------------------------------------------------------
  // Schemes

  /** Letter by letter the lower-case or the upper-case spelling. */
  predicate InEitherCase(word: string, lower: string, upper: string)
    requires |lower| == |upper|
  {
    |word| == |lower| && forall i :: 0 <= i < |word| ==> word[i] == lower[i] || word[i] == upper[i]
  }

  /** A word after which a credential follows. */
  predicate Scheme(word: string) {
    || InEitherCase(word, "bearer", "BEARER") || InEitherCase(word, "basic", "BASIC")
    || InEitherCase(word, "token", "TOKEN")
  }

  lemma LowercaseIff(word: string, lower: string, upper: string)
    requires |lower| == |upper|
    requires forall i :: 0 <= i < |lower| ==> 'a' <= lower[i] <= 'z' && upper[i] as int == lower[i] as int - 32
    ensures AsciiLowercase(word) == lower <==> InEitherCase(word, lower, upper)
  {
    var folded := AsciiLowercase(word);
    if |word| == |lower| {
      forall i | 0 <= i < |word| ensures folded[i] == lower[i] <==> word[i] == lower[i] || word[i] == upper[i] {
      }
    }
  }

  lemma SchemeIff(word: string)
    ensures SchemeIntroducesSecret(word) <==> Scheme(word)
  {
    hide AsciiLowercase, InEitherCase;
    LowercaseIff(word, "bearer", "BEARER");
    LowercaseIff(word, "basic", "BASIC");
    LowercaseIff(word, "token", "TOKEN");
  }

  // ---------------------------------------------------------------------------------------------
  // A run in its text

  /** What tokens are made of. */
  predicate TokenChar(c: char) {
    'a' <= c <= 'z' || 'A' <= c <= 'Z' || '0' <= c <= '9' || c in "_-.+/="
  }

  lemma TokenCharsAre()
    ensures forall c :: IsTokenChar(c) <==> TokenChar(c)
  {
  }

  predicate IsRun(s: string) {
    s != "" && forall i :: 0 <= i < |s| ==> TokenChar(s[i])
  }

  /** Nothing in `before` belongs to a run that begins behind it. */
  predicate EndsApart(before: string) {
    before == "" || !TokenChar(before[|before| - 1])
  }

  predicate StartsApart(after: string) {
    after == "" || !TokenChar(after[0])
  }

  /** The text ends in a scheme word and a gap of nothing but whitespace. */
  ghost predicate Announced(before: string) {
    exists front, word, gap ::
      && before == front + word + gap && EndsApart(front) && Scheme(word) && gap != "" && AllWhitespace(gap)
  }

  /** The segments around a run. */
  lemma CutAround(before: string, run: string, after: string)
    requires EndsApart(before) && IsRun(run) && StartsApart(after)
    ensures Segments(before + run + after) == Segments(before) + [Run(run)] + Segments(after)
  {
    hide IsTokenChar, TokenChar, Segments, Spelled;
    TokenCharsAre();
    var left, right := Segments(before), Segments(after);
    SegmentsAreMaximal(before);
    SegmentsAreMaximal(after);
    if before != "" {
      LastSegment(before);
    }
    if after != "" {
      FirstSegment(after);
    } else {
      NothingToCut();
    }
    NothingBeforeNothing(before);
    MaximalConcat(left, [Run(run)]);
    MaximalConcat(left + [Run(run)], right);
    SpelledConcat(left, [Run(run)]);
    SpelledConcat(left + [Run(run)], right);
    SpelledRun(run);
    SegmentsAreUnique(left + [Run(run)] + right);
  }

  lemma NothingBeforeNothing(before: string)
    ensures before == "" ==> Segments(before) == []
  {
  }

  lemma SpelledRun(run: string)
    ensures Spelled([Run(run)]) == run
  {
    assert Spelled([Run(run)]) == run + Spelled([]);
  }

  lemma FirstSegment(s: string)
    requires s != "" && !IsTokenChar(s[0])
    ensures Segments(s) != [] && Segments(s)[0] == Separator(s[0])
  {
    assert RunLength(s) == 0;
  }

  function SeparatorsOf(gap: string): (segs: seq<Segment>)
    ensures |segs| == |gap| && forall i :: 0 <= i < |gap| ==> segs[i] == Separator(gap[i])
  {
    seq(|gap|, i requires 0 <= i < |gap| => Separator(gap[i]))
  }

  lemma WhitespaceIsNoToken(c: char)
    requires IsWhitespace(c)
    ensures !IsTokenChar(c)
  {
  }

  lemma {:induction false} SegmentsOfGap(gap: string)
    requires AllWhitespace(gap)
    ensures Segments(gap) == SeparatorsOf(gap)
  {
    hide IsTokenChar, TokenChar, IsWhitespace;
    TokenCharsAre();
    if gap != "" {
      WhitespaceIsNoToken(gap[0]);
      SegmentsOfGap(gap[1..]);
      SegmentsOfSeparator(gap[0], gap[1..]);
      assert [gap[0]] + gap[1..] == gap;
    } else {
      NothingToCut();
    }
  }

  /** The segments of an announcement. */
  lemma CutAnnouncement(front: string, word: string, gap: string)
    requires EndsApart(front) && IsRun(word) && gap != "" && AllWhitespace(gap)
    ensures Segments(front + word + gap) == Segments(front) + [Run(word)] + SeparatorsOf(gap)
    ensures EndsApart(front + word + gap)
  {
    hide IsTokenChar, TokenChar, IsWhitespace, Segments;
    TokenCharsAre();
    WhitespaceIsNoToken(gap[0]);
    WhitespaceIsNoToken(gap[|gap| - 1]);
    CutAround(front, word, gap);
    SegmentsOfGap(gap);
  }

  lemma SchemeIsRun(word: string)
    requires Scheme(word)
    ensures IsRun(word) && |word| < 20
  {
  }

  lemma {:induction false} SpelledGap(segs: seq<Segment>)
    requires forall k :: 0 <= k < |segs| ==> segs[k].Separator? && IsWhitespace(segs[k].c)
    ensures AllWhitespace(Spelled(segs)) && |Spelled(segs)| == |segs|
  {
    hide IsWhitespace;
    if segs != [] {
      SpelledGap(segs[1..]);
    }
  }

  /** Past a valid last separator a text ends apart. */
  lemma {:induction false} SpelledEndsApart(segs: seq<Segment>)
    requires segs != [] && segs[|segs| - 1].Separator? && segs[|segs| - 1].Valid()
    ensures EndsApart(Spelled(segs))
  {
    hide IsTokenChar, TokenChar;
    TokenCharsAre();
    var last := |segs| - 1;
    SpelledConcat(segs[..last], [segs[last]]);
    assert segs[..last] + [segs[last]] == segs && Spelled([segs[last]]) == [segs[last].c] + Spelled([]);
  }

  /** Introduced by its segments means announced by the text before it. */
  lemma IntroducedIff(before: string)
    requires EndsApart(before)
    ensures Introduced(Segments(before), |Segments(before)|) <==> Announced(before)
  {
    hide IsTokenChar, TokenChar, IsWhitespace, Segments, Scheme, SchemeIntroducesSecret;
    TokenCharsAre();
    var segs := Segments(before);
    if Introduced(segs, |segs|) {
      IntroducedIsAnnounced(before);
    }
    if front, word, gap :| before == front + word + gap && EndsApart(front) && Scheme(word) && gap != ""
                           && AllWhitespace(gap) {
      SchemeIsRun(word);
      SchemeIff(word);
      CutAnnouncement(front, word, gap);
      assert segs[|Segments(front)|] == Run(word);
    }
  }

  lemma IntroducedIsAnnounced(before: string)
    requires EndsApart(before) && Introduced(Segments(before), |Segments(before)|)
    ensures Announced(before)
  {
    hide IsTokenChar, TokenChar, IsWhitespace, Segments, Scheme, SchemeIntroducesSecret, Spelled;
    TokenCharsAre();
    var segs := Segments(before);
    var j :| 0 <= j < |segs| && segs[j].Run? && SchemeIntroducesSecret(segs[j].text)
      && forall k :: j < k < |segs| ==> segs[k].Separator? && IsWhitespace(segs[k].c);
    SegmentsAreMaximal(before);
    var front, word, gap := Spelled(segs[..j]), segs[j].text, Spelled(segs[j + 1..]);
    SchemeIff(word);
    SpelledGap(segs[j + 1..]);
    SpelledConcat(segs[..j], [segs[j]]);
    SpelledConcat(segs[..j] + [segs[j]], segs[j + 1..]);
    assert segs[..j] + [segs[j]] + segs[j + 1..] == segs;
    SpelledRun(word);
    assert before == front + word + gap;
    WordsEndInside(front, word);
    assert front + word + "" == front + word;
    FrontEndsApart(segs, j);
  }

  lemma FrontEndsApart(segs: seq<Segment>, j: nat)
    requires Maximal(segs) && j < |segs| && segs[j].Run?
    ensures EndsApart(Spelled(segs[..j]))
  {
    hide IsTokenChar, TokenChar;
    TokenCharsAre();
    if j == 0 {
      NothingSpelled();
    } else {
      assert segs[j - 1].Valid() && segs[j].Run? && segs[j - 1].Separator?;
      SpelledEndsApart(segs[..j]);
    }
  }

  lemma NothingSpelled()
    ensures Spelled([]) == ""
  {
  }

  lemma WordsEndInside(front: string, word: string)
    requires Scheme(word)
    ensures !EndsApart(front + word)
  {
    hide IsTokenChar, TokenChar;
    TokenCharsAre();
    SchemeIsRun(word);
    assert (front + word)[|front + word| - 1] == word[|word| - 1];
  }

  lemma IntroducedBefore(segs: seq<Segment>, more: seq<Segment>)
    ensures Introduced(segs + more, |segs|) <==> Introduced(segs, |segs|)
  {
    hide SchemeIntroducesSecret, IsWhitespace;
    RememberedPrefix(segs, more, |segs|);
    RememberedMeansIntroduced(segs, |segs|);
    RememberedMeansIntroduced(segs + more, |segs|);
  }

  lemma IssuedIsLong(run: string)
    requires Issued(run)
    ensures |run| >= 20
  {
  }

  /** Wherever a whole run stands, it is hidden exactly when it looks issued, or has 20 characters and is
      announced; shorter ones are kept whatever precedes them. */
  lemma RunIsHiddenIff(before: string, run: string, after: string, marker: Marker)
    requires EndsApart(before) && IsRun(run) && StartsApart(after)
    ensures var segs, i := Segments(before + run + after), |Segments(before)|;
      && segs == Segments(before) + [Run(run)] + Segments(after)
      && (Qualifies(segs, i) <==> Issued(run) || (|run| >= 20 && Announced(before)))
      && Piece(segs, i, marker) == (if Issued(run) || (|run| >= 20 && Announced(before)) then marker(|run|) else run)
      && (|run| < 20 ==> Piece(segs, i, marker) == run)
  {
    hide Segments, Issued, Announced, RunIsSecret, Introduced, EndsApart, StartsApart, IsRun;
    CutAround(before, run, after);
    var left := Segments(before);
    assert left + [Run(run)] + Segments(after) == left + ([Run(run)] + Segments(after));
    IntroducedBefore(left, [Run(run)] + Segments(after));
    IntroducedIff(before);
    IssuedIff(run);
    if Issued(run) {
      IssuedIsLong(run);
    }
  }

  // ---------------------------------------------------------------------------------------------
  // Whole texts

  /** What is shown up to the first credential is the text itself. */
  lemma {:induction false} KeptIsSpelled(segs: seq<Segment>, n: nat, marker: Marker)
    requires n <= |segs| && forall i :: 0 <= i < n ==> !Qualifies(segs, i)
    ensures Shown(segs, n, marker) == Spelled(segs[..n])
  {
    hide Qualifies;
    if n > 0 {
      KeptIsSpelled(segs, n - 1, marker);
      SpelledConcat(segs[..n - 1], [segs[n - 1]]);
      assert segs[..n - 1] + [segs[n - 1]] == segs[..n];
      assert Spelled([segs[n - 1]]) == segs[n - 1].Text() + Spelled([]);
    } else {
      NothingSpelled();
    }
  }

  /** A lone run is hidden exactly when it looks issued. */
  lemma LoneRunIsHiddenIff(run: string, marker: Marker)
    requires IsRun(run)
    ensures Redaction(run, marker) == if Issued(run) then Some(marker(|run|)) else None
  {
    hide Segments, Issued, Qualifies, IsRun;
    RunIsHiddenIff("", run, "", marker);
    NothingToCut();
    assert "" + run + "" == run && [] + [Run(run)] + [] == [Run(run)];
    NothingAnnounces();
    OneSegment(run, marker);
  }

  lemma OneSegment(run: string, marker: Marker)
    ensures var segs := [Run(run)];
      && (Finds(segs) <==> Qualifies(segs, 0)) && Shown(segs, 1, marker) == Piece(segs, 0, marker)
  {
    hide Qualifies;
    assert Shown([Run(run)], 1, marker) == "" + Piece([Run(run)], 0, marker);
  }

  lemma NothingAnnounces()
    ensures !Announced("")
  {
  }

  lemma BodyIsRun(s: string)
    requires LongBody(s)
    ensures IsRun(s)
  {
  }

  lemma PrefixIsRun(s: string)
    requires IssuerPrefix(s)
    ensures IsRun(s)
  {
  }

  lemma DotIsRun()
    ensures IsRun(".")
  {
  }

  lemma RunConcat(a: string, b: string)
    requires IsRun(a) && IsRun(b)
    ensures IsRun(a + b)
  {
    hide IsTokenChar, TokenChar;
    TokenCharsAre();
  }

  /** An issuer's prefix before any long body is found, and so are three long bodies between dots. */
  lemma IssuedTokensAreFound(prefix: string, body: string, marker: Marker)
    requires IssuerPrefix(prefix) && LongBody(body)
    ensures Redaction(prefix + body, marker) == Some(marker(|prefix| + |body|))
  {
    hide LongBody, IssuerPrefix, IsRun, Redaction;
    PrefixIsRun(prefix);
    BodyIsRun(body);
    RunConcat(prefix, body);
    LoneRunIsHiddenIff(prefix + body, marker);
  }

  lemma DottedTokensAreFound(a: string, b: string, c: string, marker: Marker)
    requires LongBody(a) && LongBody(b) && LongBody(c)
    ensures Redaction(a + "." + b + "." + c, marker) == Some(marker(|a| + |b| + |c| + 2))
  {
    hide LongBody, IsRun, Redaction;
    BodyIsRun(a);
    BodyIsRun(b);
    BodyIsRun(c);
    DotIsRun();
    RunConcat(a, ".");
    RunConcat(a + ".", b);
    RunConcat(a + "." + b, ".");
    RunConcat(a + "." + b + ".", c);
    LoneRunIsHiddenIff(a + "." + b + "." + c, marker);
  }

  /** A scheme word in any case, any whitespace, and a run of 20 characters: the run alone is hidden. */
  lemma AnnouncedRunIsFound(word: string, gap: string, run: string, marker: Marker)
    requires Scheme(word) && gap != "" && AllWhitespace(gap) && IsRun(run) && |run| >= 20
    ensures Redaction(word + gap + run, marker) == Some(word + gap + marker(|run|))
  {
    hide Segments, Scheme, AllWhitespace, IsRun, Qualifies, Finds, Shown, Piece, Spelled, Issued;
    hide IsTokenChar, TokenChar;
    TokenCharsAre();
    var before := word + gap;
    assert "" + word + gap == before;
    SchemeIsRun(word);
    CutAnnouncement("", word, gap);
    NothingToCut();
    RunIsHiddenIff(before, run, "", marker);
    assert before + run + "" == word + gap + run;
    assert Announced(before);
    var segs, n := Segments(word + gap + run), |Segments(before)|;
    assert segs[0] == Run(word) && segs[..n] == Segments(before) && |segs| == n + 1;
    assert segs[n] == Run(run);
    WordIsKept(segs, word, n);
    KeptIsSpelled(segs, n, marker);
    SegmentsAreMaximal(before);
    LastIsHidden(segs, n, marker);
  }

  lemma LastIsHidden(segs: seq<Segment>, n: nat, marker: Marker)
    requires |segs| == n + 1 && Qualifies(segs, n)
    ensures Finds(segs) && Shown(segs, n + 1, marker) == Shown(segs, n, marker) + marker(|segs[n].text|)
  {
    hide Qualifies;
  }

  lemma WordIsKept(segs: seq<Segment>, word: string, n: nat)
    requires n <= |segs| && (n > 0 ==> segs[0] == Run(word)) && |word| < 20
    requires forall i :: 0 < i < n ==> segs[i].Separator?
    ensures forall i :: 0 <= i < n ==> !Qualifies(segs, i)
  {
    ShortRunIsNoSecret(word);
  }
}
