/** What a dotted path tells about the position it names: exactly when two positions share one, and the
    keys for which no two do. */
module Paths {
  import opened Text
  import opened JsonWalk
  import opened Positions

  // ---------------------------------------------------------------------------------------------
  // A path as names

  function Names(v: Json, pos: Position): seq<string>
    requires At(v, pos).Some?
    decreases |pos|
  {
    if pos == [] then [] else [Name(v, pos[0])] + Names(Child(v, pos[0]), pos[1..])
  }

  function Dotted(prefix: string, names: seq<string>): string
    decreases names
  {
    if names == [] then prefix else Dotted(Join(prefix, names[0]), names[1..])
  }

  lemma {:induction false} PathIsDotted(v: Json, prefix: string, pos: Position)
    requires At(v, pos).Some?
    ensures PathTo(v, prefix, pos) == Dotted(prefix, Names(v, pos))
    decreases |pos|
  {
    if pos != [] {
      PathIsDotted(Child(v, pos[0]), Join(prefix, Name(v, pos[0])), pos[1..]);
    }
  }

  // ---------------------------------------------------------------------------------------------
  // What a path still tells

  /** The names a path spells: empty ones at the front leave no trace. */
  function Spoken(names: seq<string>): seq<string> {
    if names != [] && names[0] == "" then Spoken(names[1..]) else names
  }

  /** The names cut at their own dots. */
  function Pieces(names: seq<string>): seq<string> {
    if names == [] then [] else Split(names[0], '.') + Pieces(names[1..])
  }

  /** All that can be read off the path of a position. */
  function Spelling(v: Json, pos: Position): seq<string>
    requires At(v, pos).Some?
  {
    Pieces(Spoken(Names(v, pos)))
  }

  lemma {:induction false} SplitDotted(prefix: string, names: seq<string>)
    requires prefix != ""
    ensures Dotted(prefix, names) != "" && Split(Dotted(prefix, names), '.') == Split(prefix, '.') + Pieces(names)
    decreases names
  {
    hide Split;
    if names != [] {
      SplitAtSeparator(prefix, '.', names[0]);
      SplitDotted(Join(prefix, names[0]), names[1..]);
      var first, rest := Split(names[0], '.'), Pieces(names[1..]);
      assert Split(prefix, '.') + first + rest == Split(prefix, '.') + (first + rest);
    }
  }

  /** A path is empty exactly when nothing is spoken, and split at its dots it gives the pieces. */
  lemma {:induction false} DottedSpells(names: seq<string>)
    ensures Dotted("", names) == "" <==> Spoken(names) == []
    ensures Pieces(Spoken(names)) == if Dotted("", names) == "" then [] else Split(Dotted("", names), '.')
  {
    if names != [] {
      if names[0] == "" {
        DottedSpells(names[1..]);
      } else {
        SplitDotted(names[0], names[1..]);
      }
    }
  }

  lemma SpellingIs(v: Json, pos: Position)
    requires At(v, pos).Some?
    ensures Spelling(v, pos) == if PathTo(v, "", pos) == "" then [] else Split(PathTo(v, "", pos), '.')
  {
    PathIsDotted(v, "", pos);
    DottedSpells(Names(v, pos));
  }

  /** Two positions of any value share a path exactly when they share a spelling. */
  lemma PathsAgreeIff(v: Json, a: Position, b: Position)
    requires At(v, a).Some? && At(v, b).Some?
    ensures PathTo(v, "", a) == PathTo(v, "", b) <==> Spelling(v, a) == Spelling(v, b)
  {
    hide Spelling, PathTo, Split, Joined;
    SpellingIs(v, a);
    SpellingIs(v, b);
    SplitIsJoined(PathTo(v, "", a), '.');
    SplitIsJoined(PathTo(v, "", b), '.');
  }

  // ---------------------------------------------------------------------------------------------
  // Redactions of one value

  lemma {:induction false} BeforeIsStrict(a: Position, b: Position)
    requires Before(a, b)
    ensures a != b
  {
    if a != [] && a[0] == b[0] {
      BeforeIsStrict(a[1..], b[1..]);
    }
  }

  /** Hidden positions are spelled apart. */
  predicate SpelledApart(v: Json, lib: Library) {
    var hits := Hits(v, false, lib);
    forall i, j :: 0 <= i < j < |hits| && At(v, hits[i]).Some? && At(v, hits[j]).Some? ==>
      Spelling(v, hits[i]) != Spelling(v, hits[j])
  }

  lemma FoundPath(v: Json, lib: Library, i: nat)
    requires i < |Found(v, false, "", lib)|
    ensures i < |Hits(v, false, lib)| && At(v, Hits(v, false, lib)[i]).Some?
    ensures Found(v, false, "", lib)[i].path == PathTo(v, "", Hits(v, false, lib)[i])
  {
    FoundLength(v, false, "", lib);
    FoundAreHits(v, false, "", lib, i);
  }

  /** Two redactions of one value share a path exactly when their positions share a spelling. */
  lemma RedactionsAgreeIff(v: Json, lib: Library, i: nat, j: nat)
    requires i < |Found(v, false, "", lib)| && j < |Found(v, false, "", lib)|
    ensures i < |Hits(v, false, lib)| && j < |Hits(v, false, lib)|
    ensures var a, b := Hits(v, false, lib)[i], Hits(v, false, lib)[j];
      && At(v, a).Some? && At(v, b).Some?
      && (Found(v, false, "", lib)[i].path == Found(v, false, "", lib)[j].path <==> Spelling(v, a) == Spelling(v, b))
  {
    FoundPath(v, lib, i);
    FoundPath(v, lib, j);
    PathsAgreeIff(v, Hits(v, false, lib)[i], Hits(v, false, lib)[j]);
  }

  /** No two redactions of a value share a path exactly when its hidden positions are spelled apart. */
  lemma PathsAreDistinctIff(v: Json, lib: Library)
    ensures var found := Found(v, false, "", lib);
      (forall i, j :: 0 <= i < j < |found| ==> found[i].path != found[j].path) <==> SpelledApart(v, lib)
  {
    hide Found, Hits, Spelling, At;
    var found, hits := Found(v, false, "", lib), Hits(v, false, lib);
    FoundLength(v, false, "", lib);
    forall k | 0 <= k < |hits| ensures At(v, hits[k]).Some? {
      FoundPath(v, lib, k);
    }
    forall i, j | 0 <= i < j < |found|
      ensures found[i].path == found[j].path <==> Spelling(v, hits[i]) == Spelling(v, hits[j])
    {
      RedactionsAgreeIff(v, lib, i, j);
    }
  }

  // ---------------------------------------------------------------------------------------------
  // Plain keys

  /** Keys that cannot blur a dotted path: non-empty, without dots, distinct within their object. */
  predicate Plain(v: Json)
    decreases v
  {
    && (forall i :: 0 <= i < Count(v) ==> Name(v, i) != "" && '.' !in Name(v, i))
    && (v.Obj? ==> forall i, j :: 0 <= i < j < Count(v) ==> Name(v, i) != Name(v, j))
    && forall i :: 0 <= i < Count(v) ==> Plain(Child(v, i))
  }

  lemma {:induction false} DotFreePieces(names: seq<string>)
    requires forall i :: 0 <= i < |names| ==> '.' !in names[i]
    ensures Pieces(names) == names
  {
    if names != [] {
      SplitWhole(names[0], '.');
      DotFreePieces(names[1..]);
      assert [names[0]] + names[1..] == names;
    }
  }

  function ValueOf(digits: string): int {
    if digits == "" then 0 else 10 * ValueOf(digits[..|digits| - 1]) + digits[|digits| - 1] as int - '0' as int
  }

  lemma {:induction false} ItoaReadsBack(n: nat)
    ensures ValueOf(Itoa(n)) == n
  {
    if n >= 10 {
      ItoaReadsBack(n / 10);
      assert Itoa(n)[..|Itoa(n)| - 1] == Itoa(n / 10);
    } else {
      assert Itoa(n)[..0] == "";
    }
  }

  lemma SiblingsDiffer(v: Json, i: nat, j: nat)
    requires Plain(v) && i < Count(v) && j < Count(v) && i != j
    ensures Name(v, i) != Name(v, j)
  {
    if v.Arr? {
      ItoaReadsBack(i);
      ItoaReadsBack(j);
    }
  }

  lemma {:induction false} NamesAreDotFree(v: Json, pos: Position, k: nat)
    requires Plain(v) && At(v, pos).Some? && k < |Names(v, pos)|
    ensures Names(v, pos)[k] != "" && '.' !in Names(v, pos)[k]
    decreases |pos|
  {
    if k > 0 {
      NamesAreDotFree(Child(v, pos[0]), pos[1..], k - 1);
    }
  }

  lemma {:induction false} NamesDiffer(v: Json, a: Position, b: Position)
    requires Plain(v) && At(v, a).Some? && At(v, b).Some? && a != b
    ensures Names(v, a) != Names(v, b)
    decreases |a|
  {
    if a != [] && b != [] {
      if a[0] != b[0] {
        SiblingsDiffer(v, a[0], b[0]);
        assert Names(v, a)[0] != Names(v, b)[0];
      } else {
        assert a == [a[0]] + a[1..] && b == [b[0]] + b[1..];
        NamesDiffer(Child(v, a[0]), a[1..], b[1..]);
        assert Names(v, a)[1..] != Names(v, b)[1..];
      }
    }
  }

  /** Under plain keys every name is spoken and whole. */
  lemma PlainSpelling(v: Json, pos: Position)
    requires Plain(v) && At(v, pos).Some?
    ensures Spelling(v, pos) == Names(v, pos)
  {
    var names := Names(v, pos);
    forall k | 0 <= k < |names| ensures names[k] != "" && '.' !in names[k] {
      NamesAreDotFree(v, pos, k);
    }
    DotFreePieces(names);
  }

  /** With plain keys, no two redactions of one value share a path. */
  lemma PlainPathsAreDistinct(v: Json, lib: Library, i: nat, j: nat)
    requires Plain(v) && i < j < |Found(v, false, "", lib)|
    ensures Found(v, false, "", lib)[i].path != Found(v, false, "", lib)[j].path
  {
    hide Plain, Spelling, Names;
    RedactionsAgreeIff(v, lib, i, j);
    var a, b := Hits(v, false, lib)[i], Hits(v, false, lib)[j];
    HitsInOrder(v, false, lib, i, j);
    BeforeIsStrict(a, b);
    PlainSpelling(v, a);
    PlainSpelling(v, b);
    NamesDiffer(v, a, b);
  }

  // ---------------------------------------------------------------------------------------------
  // Keys that blur

  lemma {:induction false} FoldedKeepsDots(key: string)
    requires '.' in key
    ensures '.' in Folded(key)
  {
    if key[0] == '.' {
      assert Lowercase('.') == ['.'];
    } else {
      FoldedKeepsDots(key[1..]);
    }
  }

  lemma DottedIsNoSecret(key: string)
    requires '.' in key
    ensures !KeyIsSecret(key)
  {
    FoldedKeepsDots(key);
    NamesHoldNoDots();
  }

  lemma NamesHoldNoDots()
    ensures forall name :: name in SECRET_KEYS ==> '.' !in name
  {
  }

  lemma FoundUnderOneKey(key: string, value: Json, prefix: string, lib: Library)
    ensures Found(Obj([Field(key, value)]), false, prefix, lib)
         == Found(value, KeyIsSecret(key), Join(prefix, key), lib)
  {
    var v := Obj([Field(key, value)]);
    assert FoundBelow(v, 1, prefix, lib)
        == FoundBelow(v, 0, prefix, lib) + Found(value, KeyIsSecret(key), Join(prefix, key), lib);
  }

  lemma FoundInObject(v: Json, prefix: string, lib: Library)
    requires v.Obj?
    ensures Found(v, false, prefix, lib) == FoundBelow(v, Count(v), prefix, lib)
  {
  }

  lemma FoundUnderTwoKeys(first: Field, second: Field, lib: Library)
    ensures Found(Obj([first, second]), false, "", lib)
      == Found(first.value, KeyIsSecret(first.key), first.key, lib)
         + Found(second.value, KeyIsSecret(second.key), second.key, lib)
  {
    hide KeyIsSecret, Found, Itoa;
    var v := Obj([first, second]);
    assert FoundBelow(v, 1, "", lib)
        == FoundBelow(v, 0, "", lib) + Found(first.value, KeyIsSecret(first.key), first.key, lib);
    assert FoundBelow(v, 2, "", lib)
        == FoundBelow(v, 1, "", lib) + Found(second.value, KeyIsSecret(second.key), second.key, lib);
    FoundInObject(v, "", lib);
  }

  /** Without plain keys they may: whatever the names, a dotted key and two nested ones spell the same
      path, and secrets under both are reported under one. */
  lemma DottedKeysCollide(a: string, b: string, key: string, x: Json, y: Json, lib: Library)
    requires a != "" && !KeyIsSecret(a) && !KeyIsSecret(b) && KeyIsSecret(key) && !x.Null? && !y.Null?
    ensures var dotted, nested := Obj([Field(key, x)]), Obj([Field(b, Obj([Field(key, y)]))]);
      var path := a + "." + b + "." + key;
      Found(Obj([Field(a + "." + b, dotted), Field(a, nested)]), false, "", lib)
      == [Redaction(path, Key), Redaction(path, Key)]
  {
    hide Found, KeyIsSecret;
    var dotted, inner := Obj([Field(key, x)]), Obj([Field(key, y)]);
    assert (a + "." + b)[|a|] == '.';
    DottedIsNoSecret(a + "." + b);
    FoundUnderTwoKeys(Field(a + "." + b, dotted), Field(a, Obj([Field(b, inner)])), lib);
    FoundUnderOneKey(b, inner, a, lib);
    FoundUnderOneKey(key, x, a + "." + b, lib);
    FoundUnderOneKey(key, y, a + "." + b, lib);
    FoundAtSecret(x, a + "." + b + "." + key, lib);
    FoundAtSecret(y, a + "." + b + "." + key, lib);
  }

  /** An empty key leaves no trace in a path: what is under it collides with what is beside it. */
  lemma EmptyKeysCollide(key: string, x: Json, y: Json, lib: Library)
    requires KeyIsSecret(key) && !x.Null? && !y.Null?
    ensures Found(Obj([Field("", Obj([Field(key, x)])), Field(key, y)]), false, "", lib)
         == [Redaction(key, Key), Redaction(key, Key)]
  {
    assert Folded("") == "" && !KeyIsSecret("");
    hide Found, KeyIsSecret;
    FoundUnderTwoKeys(Field("", Obj([Field(key, x)])), Field(key, y), lib);
    FoundUnderOneKey(key, x, "", lib);
    FoundAtSecret(x, key, lib);
    FoundAtSecret(y, key, lib);
  }

  lemma FoundAtSecret(v: Json, path: string, lib: Library)
    requires !v.Null?
    ensures Found(v, true, path, lib) == [Redaction(path, Key)]
  {
  }
}
