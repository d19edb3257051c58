/** Revealing hidden fields one key press at a time. */
module Reveal {
  import opened Text
  import opened JsonWalk
  import opened CallList
  import Paths

  datatype Payload = Input | Output

  datatype RevealedField = RevealedField(call: Target, payload: Payload, path: string)

  /** The fields of one call that redaction hides, in document order. */
  function Candidates(target: Target, input: Json, lib: Library): seq<RevealedField> {
    FieldsOf(target, Found(input, false, "", lib))
  }

  function FieldsOf(target: Target, redactions: seq<Redaction>): (fields: seq<RevealedField>)
    ensures |fields| == |redactions|
    ensures forall i :: 0 <= i < |fields| ==> fields[i] == RevealedField(target, Input, redactions[i].path)
  {
    seq(|redactions|, i requires 0 <= i < |redactions| => RevealedField(target, Input, redactions[i].path))
  }

  function FirstHidden(candidates: seq<RevealedField>, revealed: seq<RevealedField>): Option<RevealedField> {
    if candidates == [] then None
    else if candidates[0] !in revealed then Some(candidates[0])
    else FirstHidden(candidates[1..], revealed)
  }

  /** One press reveals the first field still hidden, and only that one. */
  function Press(revealed: seq<RevealedField>, candidates: seq<RevealedField>): seq<RevealedField> {
    match FirstHidden(candidates, revealed)
    case None => revealed
    case Some(field) => revealed + [field]
  }

  function Presses(revealed: seq<RevealedField>, candidates: seq<RevealedField>, k: nat): seq<RevealedField> {
    if k == 0 then revealed else Press(Presses(revealed, candidates, k - 1), candidates)
  }

  ghost function StillHidden(candidates: seq<RevealedField>, revealed: seq<RevealedField>): set<RevealedField> {
    set f | f in candidates && f !in revealed
  }

  lemma {:induction false} FirstHiddenIs(candidates: seq<RevealedField>, revealed: seq<RevealedField>)
    ensures match FirstHidden(candidates, revealed)
      case None => forall f :: f in candidates ==> f in revealed
      case Some(field) =>
        exists i :: 0 <= i < |candidates| && candidates[i] == field && field !in revealed
                    && forall k :: 0 <= k < i ==> candidates[k] in revealed
  {
    if candidates != [] {
      if candidates[0] in revealed {
        FirstHiddenIs(candidates[1..], revealed);
        var first := FirstHidden(candidates[1..], revealed);
        if first.Some? {
          var i :| 0 <= i < |candidates[1..]| && candidates[1..][i] == first.value && first.value !in revealed
            && forall k :: 0 <= k < i ==> candidates[1..][k] in revealed;
          assert candidates[i + 1] == first.value;
          forall k | 0 <= k < i + 1 ensures candidates[k] in revealed {
            assert k > 0 ==> candidates[k] == candidates[1..][k - 1];
          }
        }
      } else {
        assert candidates[0] == FirstHidden(candidates, revealed).value;
      }
    }
  }

  /** Each press takes exactly one field out of hiding until none is left, and touches nothing else. */
  lemma PressShrinks(revealed: seq<RevealedField>, candidates: seq<RevealedField>)
    ensures revealed <= Press(revealed, candidates)
    ensures FirstHidden(candidates, revealed).None? <==> StillHidden(candidates, revealed) == {}
    ensures FirstHidden(candidates, revealed).Some? ==>
      var field := FirstHidden(candidates, revealed).value;
      && field in StillHidden(candidates, revealed)
      && Press(revealed, candidates) == revealed + [field]
      && StillHidden(candidates, Press(revealed, candidates)) == StillHidden(candidates, revealed) - {field}
  {
    FirstHiddenIs(candidates, revealed);
    if FirstHidden(candidates, revealed).None? {
      assert StillHidden(candidates, revealed) == {};
    } else {
      var field := FirstHidden(candidates, revealed).value;
      assert field in StillHidden(candidates, revealed);
      assert forall f :: f in revealed + [field] <==> f in revealed || f == field;
    }
  }

  predicate Distinct(fields: seq<RevealedField>) {
    forall i, j :: 0 <= i < j < |fields| ==> fields[i] != fields[j]
  }

  predicate NoneRevealed(candidates: seq<RevealedField>, revealed: seq<RevealedField>) {
    forall i :: 0 <= i < |candidates| ==> candidates[i] !in revealed
  }

  /** With the first `k` revealed, the next press finds candidate `k`. */
  lemma NextInOrder(revealed: seq<RevealedField>, candidates: seq<RevealedField>, k: nat)
    requires Distinct(candidates) && NoneRevealed(candidates, revealed) && k < |candidates|
    ensures FirstHidden(candidates, revealed + candidates[..k]) == Some(candidates[k])
  {
    hide FirstHidden;
    var before := revealed + candidates[..k];
    FirstHiddenIs(candidates, before);
    assert candidates[k] !in before;
    var first := FirstHidden(candidates, before);
    var i :| 0 <= i < |candidates| && candidates[i] == first.value && first.value !in before
      && forall m :: 0 <= m < i ==> candidates[m] in before;
    forall m | 0 <= m < k ensures candidates[m] in before {
      assert candidates[..k][m] == candidates[m];
    }
    assert i == k;
  }

  lemma {:induction false} PressesFollowOrder(revealed: seq<RevealedField>, candidates: seq<RevealedField>, k: nat)
    requires Distinct(candidates) && NoneRevealed(candidates, revealed) && k <= |candidates|
    ensures Presses(revealed, candidates, k) == revealed + candidates[..k]
  {
    hide FirstHidden, Distinct, NoneRevealed;
    if k > 0 {
      PressesFollowOrder(revealed, candidates, k - 1);
      NextInOrder(revealed, candidates, k - 1);
      assert revealed + candidates[..k] == revealed + candidates[..k - 1] + [candidates[k - 1]];
    }
  }

  /** Press `k` reveals redaction `k`, for every `k`, exactly when no two redactions of the call share
      a path and none was revealed before. */
  lemma PressesEnumerateIff(revealed: seq<RevealedField>, candidates: seq<RevealedField>)
    ensures (forall k :: 0 <= k <= |candidates| ==> Presses(revealed, candidates, k) == revealed + candidates[..k])
       <==> Distinct(candidates) && NoneRevealed(candidates, revealed)
  {
    if Distinct(candidates) && NoneRevealed(candidates, revealed) {
      forall k | 0 <= k <= |candidates|
        ensures Presses(revealed, candidates, k) == revealed + candidates[..k]
      {
        PressesFollowOrder(revealed, candidates, k);
      }
    } else {
      var j := RepeatedAt(revealed, candidates);
      var before := revealed + candidates[..j];
      if Presses(revealed, candidates, j) == before {
        FirstHiddenIs(candidates, before);
        var pressed := Press(before, candidates);
        assert |pressed| == |before| || pressed[|before|] !in before;
        assert pressed != before + [candidates[j]];
        assert revealed + candidates[..j + 1] == before + [candidates[j]];
        assert Presses(revealed, candidates, j + 1) != revealed + candidates[..j + 1];
      }
    }
  }

  lemma RepeatedAt(revealed: seq<RevealedField>, candidates: seq<RevealedField>) returns (j: nat)
    requires !(Distinct(candidates) && NoneRevealed(candidates, revealed))
    ensures j < |candidates| && candidates[j] in revealed + candidates[..j]
  {
    if !NoneRevealed(candidates, revealed) {
      j :| 0 <= j < |candidates| && candidates[j] in revealed;
    } else {
      var i: nat;
      i, j :| 0 <= i < j < |candidates| && candidates[i] == candidates[j];
      assert candidates[..j][i] == candidates[j];
    }
  }

  /** As many presses as there are redactions always leave nothing hidden, shared paths or not. */
  lemma {:induction false} PressesRevealAll(revealed: seq<RevealedField>, candidates: seq<RevealedField>, k: nat)
    requires k <= |candidates|
    ensures forall i :: 0 <= i < k ==> candidates[i] in Presses(revealed, candidates, k)
  {
    if k > 0 {
      PressesRevealAll(revealed, candidates, k - 1);
      var before, after := Presses(revealed, candidates, k - 1), Presses(revealed, candidates, k);
      FirstHiddenIs(candidates, before);
      assert forall f :: f in before ==> f in after;
    }
  }

  /** In a call whose input has plain keys, the presses enumerate its redactions one by one. */
  lemma PlainCallsEnumerate(target: Target, input: Json, lib: Library, revealed: seq<RevealedField>, k: nat)
    requires Paths.Plain(input)
    requires forall f :: f in revealed ==> f.call != target
    requires k <= |Found(input, false, "", lib)|
    ensures Presses(revealed, Candidates(target, input, lib), k)
         == revealed + FieldsOf(target, Found(input, false, "", lib)[..k])
  {
    var found, candidates := Found(input, false, "", lib), Candidates(target, input, lib);
    forall i, j | 0 <= i < j < |candidates| ensures candidates[i] != candidates[j] {
      Paths.PlainPathsAreDistinct(input, lib, i, j);
    }
    PressesFollowOrder(revealed, candidates, k);
    assert candidates[..k] == FieldsOf(target, found[..k]);
  }
}
