/** What the walk hides, said by position: the list it reports is exactly the hidden positions in
    document order, and nothing but those changes. */
module Positions {
  import opened JsonWalk

  // ---------------------------------------------------------------------------------------------
  // The hidden positions, in document order

  function Under(i: nat, positions: seq<Position>): seq<Position> {
    if positions == [] then [] else [[i] + positions[0]] + Under(i, positions[1..])
  }

  function Hits(v: Json, secretKey: bool, lib: Library): seq<Position>
    decreases v, 1
  {
    if HiddenFor(v, secretKey, lib).Some? then [[]] else HitsBelow(v, Count(v), lib)
  }

  function HitsBelow(v: Json, n: nat, lib: Library): seq<Position>
    requires n <= Count(v)
    decreases v, 0, n
  {
    if n == 0 then []
    else HitsBelow(v, n - 1, lib) + Under(n - 1, Hits(Child(v, n - 1), UnderSecretKey(v, n - 1), lib))
  }

  /** Earlier in the document: above, or under an earlier child of the same node. */
  predicate Before(a: Position, b: Position)
    decreases |a|
  {
    && b != []
    && (a == [] || a[0] < b[0] || (a[0] == b[0] && Before(a[1..], b[1..])))
  }

  lemma {:induction false} UnderIs(i: nat, positions: seq<Position>)
    ensures |Under(i, positions)| == |positions|
    ensures forall k :: 0 <= k < |positions| ==> Under(i, positions)[k] == [i] + positions[k]
  {
    if positions != [] {
      UnderIs(i, positions[1..]);
    }
  }

  lemma UnderHolds(i: nat, positions: seq<Position>, pos: Position)
    ensures pos in Under(i, positions) <==> pos != [] && pos[0] == i && pos[1..] in positions
  {
    UnderIs(i, positions);
    if pos != [] && pos[0] == i && pos[1..] in positions {
      var k :| 0 <= k < |positions| && positions[k] == pos[1..];
      assert Under(i, positions)[k] == [i] + pos[1..] == pos;
    }
    if pos in Under(i, positions) {
      var k :| 0 <= k < |positions| && Under(i, positions)[k] == pos;
      assert pos[1..] == positions[k];
    }
  }

  /** The listed positions are the hidden ones, no more and no less. */
  lemma {:induction false} HitsAreHidden(v: Json, secretKey: bool, lib: Library, pos: Position)
    ensures pos in Hits(v, secretKey, lib) <==> Hidden(v, secretKey, pos, lib)
    decreases v, 1
  {
    if HiddenFor(v, secretKey, lib).None? {
      HitsBelowAreHidden(v, Count(v), lib, pos);
    }
  }

  lemma {:induction false} HitsBelowAreHidden(v: Json, n: nat, lib: Library, pos: Position)
    requires n <= Count(v)
    ensures pos in HitsBelow(v, n, lib) <==>
      pos != [] && pos[0] < n && Hidden(Child(v, pos[0]), UnderSecretKey(v, pos[0]), pos[1..], lib)
    decreases v, 0, n
  {
    hide UnderSecretKey, Hits, Hidden, HiddenFor, Under;
    if n > 0 {
      HitsBelowAreHidden(v, n - 1, lib, pos);
      UnderHolds(n - 1, Hits(Child(v, n - 1), UnderSecretKey(v, n - 1), lib), pos);
      if pos != [] && pos[0] == n - 1 {
        HitsAreHidden(Child(v, n - 1), UnderSecretKey(v, n - 1), lib, pos[1..]);
      }
    }
  }

  /** They are listed in document order, each once. */
  lemma {:induction false} HitsInOrder(v: Json, secretKey: bool, lib: Library, i: nat, j: nat)
    requires i < j < |Hits(v, secretKey, lib)|
    ensures Before(Hits(v, secretKey, lib)[i], Hits(v, secretKey, lib)[j])
    decreases v, 1
  {
    HitsBelowInOrder(v, Count(v), lib, i, j);
  }

  lemma {:induction false} HitsBelowInOrder(v: Json, n: nat, lib: Library, i: nat, j: nat)
    requires n <= Count(v) && i < j < |HitsBelow(v, n, lib)|
    ensures Before(HitsBelow(v, n, lib)[i], HitsBelow(v, n, lib)[j])
    decreases v, 0, n
  {
    hide UnderSecretKey, Hits, Hidden, HiddenFor;
    var before := HitsBelow(v, n - 1, lib);
    var child := Hits(Child(v, n - 1), UnderSecretKey(v, n - 1), lib);
    UnderIs(n - 1, child);
    if j < |before| {
      HitsBelowInOrder(v, n - 1, lib, i, j);
    } else if i < |before| {
      HitsBelowAreHidden(v, n - 1, lib, before[i]);
    } else {
      HitsInOrder(Child(v, n - 1), UnderSecretKey(v, n - 1), lib, i - |before|, j - |before|);
      assert ([n - 1] + child[i - |before|])[1..] == child[i - |before|];
      assert ([n - 1] + child[j - |before|])[1..] == child[j - |before|];
    }
  }

  // ---------------------------------------------------------------------------------------------
  // The reported list

  /** The dotted path of a position, grown from a prefix. */
  function PathTo(v: Json, prefix: string, pos: Position): string
    requires At(v, pos).Some?
    decreases |pos|
  {
    if pos == [] then prefix
    else PathTo(Child(v, pos[0]), Join(prefix, Name(v, pos[0])), pos[1..])
  }

  function WhyHidden(v: Json, secretKey: bool, pos: Position, lib: Library): Reason
    requires Hidden(v, secretKey, pos, lib)
    decreases |pos|
  {
    if pos == [] then HiddenFor(v, secretKey, lib).value
    else WhyHidden(Child(v, pos[0]), UnderSecretKey(v, pos[0]), pos[1..], lib)
  }

  lemma {:induction false} HiddenIsThere(v: Json, secretKey: bool, pos: Position, lib: Library)
    requires Hidden(v, secretKey, pos, lib)
    ensures At(v, pos).Some?
    decreases |pos|
  {
    if pos != [] {
      HiddenIsThere(Child(v, pos[0]), UnderSecretKey(v, pos[0]), pos[1..], lib);
    }
  }

  /** Entry `k` of the reported list names the `k`-th hidden position and the rule that hid it. */
  lemma {:induction false} FoundAreHits(v: Json, secretKey: bool, prefix: string, lib: Library, k: nat)
    requires k < |Hits(v, secretKey, lib)|
    ensures |Found(v, secretKey, prefix, lib)| == |Hits(v, secretKey, lib)|
    ensures var pos := Hits(v, secretKey, lib)[k];
      && Hidden(v, secretKey, pos, lib) && At(v, pos).Some?
      && Found(v, secretKey, prefix, lib)[k] == Redaction(PathTo(v, prefix, pos), WhyHidden(v, secretKey, pos, lib))
    decreases v, 1
  {
    var pos := Hits(v, secretKey, lib)[k];
    HitsAreHidden(v, secretKey, lib, pos);
    HiddenIsThere(v, secretKey, pos, lib);
    if HiddenFor(v, secretKey, lib).None? {
      FoundBelowAreHits(v, Count(v), prefix, lib, k);
    }
  }

  lemma {:induction false} FoundBelowAreHits(v: Json, n: nat, prefix: string, lib: Library, k: nat)
    requires n <= Count(v) && k < |HitsBelow(v, n, lib)|
    ensures |FoundBelow(v, n, prefix, lib)| == |HitsBelow(v, n, lib)|
    ensures var pos := HitsBelow(v, n, lib)[k];
      && pos != [] && pos[0] < n && At(Child(v, pos[0]), pos[1..]).Some?
      && Hidden(Child(v, pos[0]), UnderSecretKey(v, pos[0]), pos[1..], lib)
      && FoundBelow(v, n, prefix, lib)[k]
         == Redaction(PathTo(Child(v, pos[0]), Join(prefix, Name(v, pos[0])), pos[1..]),
                      WhyHidden(Child(v, pos[0]), UnderSecretKey(v, pos[0]), pos[1..], lib))
    decreases v, 0, n
  {
    hide Found, Hits, HiddenFor, Hidden, WhyHidden, PathTo, At, UnderSecretKey, Itoa, Join;
    var before := HitsBelow(v, n - 1, lib);
    var child := Hits(Child(v, n - 1), UnderSecretKey(v, n - 1), lib);
    UnderIs(n - 1, child);
    FoundLengths(v, n - 1, prefix, lib);
    if k < |before| {
      FoundBelowAreHits(v, n - 1, prefix, lib, k);
      FoundLength(Child(v, n - 1), UnderSecretKey(v, n - 1), Join(prefix, Name(v, n - 1)), lib);
    } else {
      FoundAreHits(Child(v, n - 1), UnderSecretKey(v, n - 1), Join(prefix, Name(v, n - 1)), lib, k - |before|);
      assert ([n - 1] + child[k - |before|])[1..] == child[k - |before|];
    }
  }

  lemma {:induction false} FoundLength(v: Json, secretKey: bool, prefix: string, lib: Library)
    ensures |Found(v, secretKey, prefix, lib)| == |Hits(v, secretKey, lib)|
    decreases v, 1
  {
    FoundLengths(v, Count(v), prefix, lib);
  }

  lemma {:induction false} FoundLengths(v: Json, n: nat, prefix: string, lib: Library)
    requires n <= Count(v)
    ensures |FoundBelow(v, n, prefix, lib)| == |HitsBelow(v, n, lib)|
    decreases v, 0, n
  {
    hide UnderSecretKey, Found, Hits, HiddenFor, Join, Itoa, Under;
    if n > 0 {
      FoundLengths(v, n - 1, prefix, lib);
      FoundLength(Child(v, n - 1), UnderSecretKey(v, n - 1), Join(prefix, Name(v, n - 1)), lib);
      UnderIs(n - 1, Hits(Child(v, n - 1), UnderSecretKey(v, n - 1), lib));
    }
  }

  // ---------------------------------------------------------------------------------------------
  // The displayed value

  lemma {:induction false} WalkedChildrenAre(v: Json, n: nat, lib: Library, i: nat)
    requires i < n <= Count(v)
    ensures WalkedChildren(v, n, lib)[i] == Walked(Child(v, i), UnderSecretKey(v, i), lib)
  {
    if i < n - 1 {
      WalkedChildrenAre(v, n - 1, lib, i);
    }
  }

  lemma RebuiltIs(v: Json, children: seq<Json>)
    requires |children| == Count(v)
    ensures var w := Rebuilt(v, children);
      && Count(w) == Count(v) && (w.Arr? <==> v.Arr?) && (w.Obj? <==> v.Obj?)
      && (Count(v) == 0 ==> w == v)
      && forall i :: 0 <= i < Count(v) ==> Child(w, i) == children[i] && Name(w, i) == Name(v, i)
  {
  }

  /** Above no hidden position a node keeps its kind, its number of children and their names, and a
      leaf keeps its value; at a hidden position stands the replacement, with nothing below it. */
  lemma {:induction false} WalkedAt(v: Json, secretKey: bool, lib: Library, pos: Position)
    requires At(v, pos).Some?
    requires forall n :: 0 <= n < |pos| ==> !Hidden(v, secretKey, pos[..n], lib)
    ensures var shown := At(Walked(v, secretKey, lib), pos);
      var original := At(v, pos).value;
      && shown.Some?
      && (Hidden(v, secretKey, pos, lib) ==>
            var underSecret := WhyHidden(v, secretKey, pos, lib) == Key;
            && HiddenFor(original, underSecret, lib).Some?
            && shown.value == Replacement(original, underSecret, lib) && Count(shown.value) == 0)
      && (!Hidden(v, secretKey, pos, lib) ==>
            && Count(shown.value) == Count(original)
            && (shown.value.Arr? <==> original.Arr?) && (shown.value.Obj? <==> original.Obj?)
            && (Count(original) == 0 ==> shown.value == original)
            && forall i :: 0 <= i < Count(original) ==> Name(shown.value, i) == Name(original, i))
    decreases |pos|
  {
    if pos == [] {
      if HiddenFor(v, secretKey, lib).None? {
        RebuiltIs(v, WalkedChildren(v, Count(v), lib));
      }
    } else {
      assert pos[..0] == [] && !Hidden(v, secretKey, pos[..0], lib);
      var i, rest := pos[0], pos[1..];
      RebuiltIs(v, WalkedChildren(v, Count(v), lib));
      WalkedChildrenAre(v, Count(v), lib, i);
      forall n | 0 <= n < |rest| ensures !Hidden(Child(v, i), UnderSecretKey(v, i), rest[..n], lib) {
        assert pos[..n + 1][0] == i && pos[..n + 1][1..] == rest[..n];
        assert !Hidden(v, secretKey, pos[..n + 1], lib);
      }
      WalkedAt(Child(v, i), UnderSecretKey(v, i), lib, rest);
    }
  }

  /** No value other than null survives under a secret key: it is hidden itself, or something above
      it was hidden whole. */
  lemma {:induction false} SecretKeyHides(v: Json, secretKey: bool, lib: Library, pos: Position, i: nat)
    requires At(v, pos).Some? && i < Count(At(v, pos).value)
    requires UnderSecretKey(At(v, pos).value, i) && !Child(At(v, pos).value, i).Null?
    ensures exists n :: 0 <= n <= |pos| + 1 && Hidden(v, secretKey, (pos + [i])[..n], lib)
    decreases |pos|
  {
    var full := pos + [i];
    if HiddenFor(v, secretKey, lib).Some? {
      assert full[..0] == [] && Hidden(v, secretKey, full[..0], lib);
    } else if pos == [] {
      assert full[..1] == [i] && full[..1][1..] == [];
      assert Hidden(v, secretKey, full[..1], lib);
    } else {
      var child, rest := Child(v, pos[0]), pos[1..];
      SecretKeyHides(child, UnderSecretKey(v, pos[0]), lib, rest, i);
      var n :| 0 <= n <= |rest| + 1 && Hidden(child, UnderSecretKey(v, pos[0]), (rest + [i])[..n], lib);
      assert full[..n + 1][0] == pos[0] && full[..n + 1][1..] == (rest + [i])[..n];
      assert Hidden(v, secretKey, full[..n + 1], lib);
    }
  }

  /** An empty report means the value is shown as it is. */
  lemma {:induction false} NothingFoundNothingChanged(v: Json, secretKey: bool, prefix: string, lib: Library)
    requires Found(v, secretKey, prefix, lib) == []
    ensures Walked(v, secretKey, lib) == v
    decreases v, 1
  {
    NothingFoundBelow(v, Count(v), prefix, lib);
    RebuiltIs(v, WalkedChildren(v, Count(v), lib));
    var w := Walked(v, secretKey, lib);
    if v.Arr? {
      assert w.items == v.items;
    } else if v.Obj? {
      forall i | 0 <= i < |v.fields| ensures w.fields[i] == v.fields[i] {
        assert Child(w, i) == Child(v, i) && Name(w, i) == Name(v, i);
      }
      assert w.fields == v.fields;
    }
  }

  lemma {:induction false} NothingFoundBelow(v: Json, n: nat, prefix: string, lib: Library)
    requires n <= Count(v) && FoundBelow(v, n, prefix, lib) == []
    ensures forall i :: 0 <= i < n ==> WalkedChildren(v, n, lib)[i] == Child(v, i)
    decreases v, 0, n
  {
    hide Walked, Found, UnderSecretKey, Itoa, Join, Name, Child;
    if n > 0 {
      assert FoundBelow(v, n - 1, prefix, lib) == [];
      NothingFoundBelow(v, n - 1, prefix, lib);
      NothingFoundNothingChanged(Child(v, n - 1), UnderSecretKey(v, n - 1), Join(prefix, Name(v, n - 1)), lib);
    }
  }
}
