/** What a displayed value hides, said by the letters of its keys and the text of its strings. */
module Hiding {
  import opened Text
  import opened JsonWalk
  import opened Positions
  import Redactor
  import Credentials

  // ---------------------------------------------------------------------------------------------
  // Keys

  /** The same letter in either case; the Kelvin sign lower-cases to an ASCII one. */
  predicate SameLetter(c: char, letter: char) {
    || c == letter
    || ('a' <= letter <= 'z' && c as int == letter as int - 32)
    || (letter == 'k' && c == '\U{212a}')
  }

  /** The key reads as the word once dashes and underscores are passed over. */
  predicate Reads(key: string, word: string) {
    if key == "" then word == ""
    else if key[0] == '-' || key[0] == '_' then Reads(key[1..], word)
    else word != "" && SameLetter(key[0], word[0]) && Reads(key[1..], word[1..])
  }

  /** A word in lower-case letters only. */
  predicate IsWord(word: string) {
    forall i :: 0 <= i < |word| ==> 'a' <= word[i] <= 'z'
  }

  lemma DottedIsNoWord(rest: string)
    ensures !IsWord(['i', '\U{0307}'] + rest)
  {
    assert (['i', '\U{0307}'] + rest)[1] == '\U{0307}';
  }

  lemma LetterIff(c: char, rest: string, word: string)
    requires IsWord(word) && c != '-' && c != '_'
    ensures Lowercase(c) + rest == word <==> word != "" && SameLetter(c, word[0]) && rest == word[1..]
  {
    if c as int == 0x130 {
      DottedIsNoWord(rest);
    } else {
      assert (Lowercase(c) + rest)[1..] == rest;
    }
    if word != "" && SameLetter(c, word[0]) && rest == word[1..] {
      assert Lowercase(c) == [word[0]] && [word[0]] + word[1..] == word;
    }
  }

  lemma {:induction false} FoldedIff(key: string, word: string)
    requires IsWord(word)
    ensures Folded(key) == word <==> Reads(key, word)
  {
    hide Lowercase, SameLetter;
    if key != "" {
      if key[0] == '-' || key[0] == '_' {
        FoldedIff(key[1..], word);
      } else {
        LetterIff(key[0], Folded(key[1..]), word);
        if word != "" {
          FoldedIff(key[1..], word[1..]);
        }
      }
    }
  }

  /** A key is secret exactly when it reads as one of these words, in any case, dashes and underscores
      anywhere. */
  lemma KeyIsSecretIff(key: string)
    ensures KeyIsSecret(key) <==>
      || Reads(key, "apikey") || Reads(key, "authorization") || Reads(key, "cookie") || Reads(key, "credential")
      || Reads(key, "credentials") || Reads(key, "password") || Reads(key, "privatekey") || Reads(key, "secret")
      || Reads(key, "session") || Reads(key, "sessiontoken") || Reads(key, "token")
  {
    hide Folded, Reads;
    FoldedIff(key, "apikey");
    FoldedIff(key, "authorization");
    FoldedIff(key, "cookie");
    FoldedIff(key, "credential");
    FoldedIff(key, "credentials");
    FoldedIff(key, "password");
    FoldedIff(key, "privatekey");
    FoldedIff(key, "secret");
    FoldedIff(key, "session");
    FoldedIff(key, "sessiontoken");
    FoldedIff(key, "token");
  }

  // ---------------------------------------------------------------------------------------------
  // Values

  /** What stands for a value under a secret key: one marker as long as the value prints. */
  function Marked(v: Json, lib: Library): Json {
    match v
    case Null => Null
    case Str(text) => Str(lib.marker(|text|))
    case other => Str(lib.marker(lib.printedLength(other)))
  }

  /** A value under a secret key is hidden whole, whatever its text, and reported by its key. */
  lemma UnderSecretKeyIsMarked(v: Json, path: string, lib: Library)
    ensures Walked(v, true, lib) == Marked(v, lib)
    ensures Found(v, true, path, lib) == if v.Null? then [] else [Redaction(path, Key)]
  {
  }

  /** A string elsewhere keeps everything around the credentials in it, and is reported by its shape; one
      without any is kept as it is. */
  lemma StringKeepsItsText(text: string, path: string, lib: Library)
    ensures match Redactor.Redaction(text, lib.marker)
      case None => Walked(Str(text), false, lib) == Str(text) && Found(Str(text), false, path, lib) == []
      case Some(shown) =>
        Walked(Str(text), false, lib) == Str(shown) && Found(Str(text), false, path, lib) == [Redaction(path, Shape)]
  {
  }

  /** So an authorization header keeps its scheme, and only the credential is drawn over. */
  lemma HeaderKeepsItsScheme(word: string, gap: string, run: string, path: string, lib: Library)
    requires Credentials.Scheme(word) && gap != "" && AllWhitespace(gap) && Credentials.IsRun(run) && |run| >= 20
    ensures Walked(Str(word + gap + run), false, lib) == Str(word + gap + lib.marker(|run|))
    ensures Found(Str(word + gap + run), false, path, lib) == [Redaction(path, Shape)]
  {
    hide Redactor.Redaction;
    Credentials.AnnouncedRunIsFound(word, gap, run, lib.marker);
    StringKeepsItsText(word + gap + run, path, lib);
  }

  /** Nothing is hidden at a position or above it. */
  ghost predicate Reached(v: Json, pos: Position, lib: Library) {
    At(v, pos).Some? && forall n :: 0 <= n <= |pos| ==> !Hidden(v, false, pos[..n], lib)
  }

  lemma {:induction false} AtSnoc(v: Json, pos: Position, i: nat)
    requires At(v, pos).Some? && i < Count(At(v, pos).value)
    ensures At(v, pos + [i]) == Some(Child(At(v, pos).value, i))
    decreases |pos|
  {
    if pos == [] {
      assert [i][1..] == [];
    } else {
      assert (pos + [i])[0] == pos[0] && (pos + [i])[1..] == pos[1..] + [i];
      AtSnoc(Child(v, pos[0]), pos[1..], i);
    }
  }

  lemma {:induction false} WalkedIsReached(v: Json, secretKey: bool, pos: Position, lib: Library)
    requires At(v, pos).Some? && forall n :: 0 <= n < |pos| ==> !Hidden(v, secretKey, pos[..n], lib)
    ensures var above := if pos == [] then secretKey
                         else At(v, pos[..|pos| - 1]).Some?
                              && pos[|pos| - 1] < Count(At(v, pos[..|pos| - 1]).value)
                              && UnderSecretKey(At(v, pos[..|pos| - 1]).value, pos[|pos| - 1]);
      At(Walked(v, secretKey, lib), pos) == Some(Walked(At(v, pos).value, above, lib))
    decreases |pos|
  {
    if pos != [] {
      assert pos[..0] == [] && !Hidden(v, secretKey, pos[..0], lib);
      var i, rest := pos[0], pos[1..];
      RebuiltIs(v, WalkedChildren(v, Count(v), lib));
      WalkedChildrenAre(v, Count(v), lib, i);
      forall n | 0 <= n < |rest| ensures !Hidden(Child(v, i), UnderSecretKey(v, i), rest[..n], lib) {
        assert pos[..n + 1][0] == i && pos[..n + 1][1..] == rest[..n];
        assert !Hidden(v, secretKey, pos[..n + 1], lib);
      }
      WalkedIsReached(Child(v, i), UnderSecretKey(v, i), rest, lib);
      if rest != [] {
        assert pos[..|pos| - 1][0] == i && pos[..|pos| - 1][1..] == rest[..|rest| - 1];
      }
    }
  }

  /** Wherever a field stands whose key reads as a secret, its value is one marker; elsewhere a string shows its
      text but for the credentials in it. */
  lemma FieldIsDrawn(v: Json, pos: Position, i: nat, lib: Library)
    requires Reached(v, pos, lib) && i < Count(At(v, pos).value)
    ensures var parent := At(v, pos).value;
      var value, shown := Child(parent, i), At(Walked(v, false, lib), pos + [i]);
      && (parent.Obj? && KeyIsSecret(parent.fields[i].key) ==> shown == Some(Marked(value, lib)))
      && (!(parent.Obj? && KeyIsSecret(parent.fields[i].key)) && value.Str? ==>
            match Redactor.Redaction(value.text, lib.marker)
            case None => shown == Some(value)
            case Some(text) => shown == Some(Str(text)))
  {
    hide Redactor.Redaction, KeyIsSecret, Walked, Hidden;
    var full, parent := pos + [i], At(v, pos).value;
    AtSnoc(v, pos, i);
    assert full[..|full| - 1] == pos;
    forall n | 0 <= n < |full| ensures !Hidden(v, false, full[..n], lib) {
      assert full[..n] == pos[..n];
    }
    WalkedIsReached(v, false, full, lib);
    UnderSecretKeyIsMarked(Child(parent, i), "", lib);
    if Child(parent, i).Str? {
      StringKeepsItsText(Child(parent, i).text, "", lib);
    }
  }
}
