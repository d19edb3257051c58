/** The calls of a transcript in document order: what the cursor of the console indexes. */
module CallList {
  import opened Record
  import opened Transcript

  /** Which call, as (turn, script, call). */
  type Target = (nat, nat, nat)

  function Row(turn: nat, script: nat, calls: nat): (r: seq<Target>)
    ensures |r| == calls && forall k :: 0 <= k < calls ==> r[k] == (turn, script, k)
  {
    seq(calls, k => (turn, script, k))
  }

  /** The calls of the first `n` scripts of a turn. */
  function TurnTargets(turn: nat, scripts: seq<ScriptNode>, n: nat): seq<Target>
    requires n <= |scripts|
  {
    if n == 0 then [] else TurnTargets(turn, scripts, n - 1) + Row(turn, n - 1, |scripts[n - 1].calls|)
  }

  /** Every call of the first `n` turns. */
  function AllTargets(views: seq<TurnView>, n: nat): seq<Target>
    requires n <= |views|
  {
    if n == 0 then []
    else AllTargets(views, n - 1) + TurnTargets(n - 1, views[n - 1].scripts, |views[n - 1].scripts|)
  }

  /** Every call of a conversation. */
  function Calls(views: seq<TurnView>): seq<Target> {
    AllTargets(views, |views|)
  }

  predicate Exists(views: seq<TurnView>, target: Target) {
    && target.0 < |views| && target.1 < |views[target.0].scripts|
    && target.2 < |views[target.0].scripts[target.1].calls|
  }

  lemma {:induction false} TurnTargetsExist(turn: nat, scripts: seq<ScriptNode>, n: nat, target: Target)
    requires n <= |scripts|
    ensures target in TurnTargets(turn, scripts, n) <==>
      target.0 == turn && target.1 < n && target.2 < |scripts[target.1].calls|
  {
    if n > 0 {
      TurnTargetsExist(turn, scripts, n - 1, target);
      var row := Row(turn, n - 1, |scripts[n - 1].calls|);
      if target.0 == turn && target.1 == n - 1 && target.2 < |row| {
        assert row[target.2] == target;
      }
    }
  }

  /** The list holds exactly the calls there are. */
  lemma {:induction false} TargetsExist(views: seq<TurnView>, n: nat, target: Target)
    requires n <= |views|
    ensures target in AllTargets(views, n) <==> target.0 < n && Exists(views, target)
  {
    if n > 0 {
      TargetsExist(views, n - 1, target);
      TurnTargetsExist(n - 1, views[n - 1].scripts, |views[n - 1].scripts|, target);
    }
  }

  /** Earlier in the document: in an earlier turn, or an earlier script of it, or earlier in that script. */
  predicate Earlier(a: Target, b: Target) {
    a.0 < b.0 || (a.0 == b.0 && (a.1 < b.1 || (a.1 == b.1 && a.2 < b.2)))
  }

  lemma {:induction false} TurnTargetsInOrder(turn: nat, scripts: seq<ScriptNode>, n: nat, i: nat, j: nat)
    requires n <= |scripts| && i < j < |TurnTargets(turn, scripts, n)|
    ensures Earlier(TurnTargets(turn, scripts, n)[i], TurnTargets(turn, scripts, n)[j])
  {
    var before := TurnTargets(turn, scripts, n - 1);
    if j < |before| {
      TurnTargetsInOrder(turn, scripts, n - 1, i, j);
    } else if i < |before| {
      TurnTargetsExist(turn, scripts, n - 1, before[i]);
    }
  }

  /** They are listed in document order, each once. */
  lemma {:induction false} TargetsInOrder(views: seq<TurnView>, n: nat, i: nat, j: nat)
    requires n <= |views| && i < j < |AllTargets(views, n)|
    ensures Earlier(AllTargets(views, n)[i], AllTargets(views, n)[j])
  {
    hide TurnTargets, Earlier;
    var before, scripts := AllTargets(views, n - 1), views[n - 1].scripts;
    var last := TurnTargets(n - 1, scripts, |scripts|);
    if j < |before| {
      TargetsInOrder(views, n - 1, i, j);
    } else {
      TurnTargetsExist(n - 1, scripts, |scripts|, last[j - |before|]);
      if i < |before| {
        TargetsExist(views, n - 1, before[i]);
        EarlierTurn(before[i], last[j - |before|]);
      } else {
        TurnTargetsInOrder(n - 1, scripts, |scripts|, i - |before|, j - |before|);
      }
    }
  }

  lemma EarlierTurn(a: Target, b: Target)
    requires a.0 < b.0
    ensures Earlier(a, b)
  {
  }

  // ---------------------------------------------------------------------------------------------
  // One turn

  /** Only how many calls each script makes decides the list. */
  lemma {:induction false} SameTargets(turn: nat, a: seq<ScriptNode>, b: seq<ScriptNode>, n: nat)
    requires n <= |a| && n <= |b| && forall i :: 0 <= i < n ==> |a[i].calls| == |b[i].calls|
    ensures TurnTargets(turn, a, n) == TurnTargets(turn, b, n)
  {
    if n > 0 {
      SameTargets(turn, a, b, n - 1);
    }
  }

  lemma {:induction false} TargetsGrow(turn: nat, scripts: seq<ScriptNode>, m: nat, n: nat)
    requires m <= n <= |scripts|
    ensures TurnTargets(turn, scripts, m) <= TurnTargets(turn, scripts, n)
    ensures (forall k :: m <= k < n ==> scripts[k].calls == []) ==>
      TurnTargets(turn, scripts, m) == TurnTargets(turn, scripts, n)
    decreases n
  {
    if m < n {
      TargetsGrow(turn, scripts, m, n - 1);
    }
  }

  /** Where call `k` of script `r` is listed. */
  lemma TargetAt(turn: nat, scripts: seq<ScriptNode>, r: nat, k: nat, n: nat)
    requires r < n <= |scripts| && k < |scripts[r].calls|
    ensures var p := |TurnTargets(turn, scripts, r)| + k;
      p < |TurnTargets(turn, scripts, n)| && TurnTargets(turn, scripts, n)[p] == (turn, r, k)
  {
    TargetsGrow(turn, scripts, r + 1, n);
  }

  /** A call lands before the end of its turn's list: an earlier script is still running and a later
      one already has calls. */
  predicate LandsInside(scripts: seq<ScriptNode>, e: SessionEvent) {
    && e.Capability?
    && LastRunning(scripts) >= 0
    && exists j :: LastRunning(scripts) < j < |scripts| && scripts[j].calls != []
  }

  /** The calls of one whole turn. */
  function TurnCalls(turn: nat, scripts: seq<ScriptNode>): seq<Target> {
    TurnTargets(turn, scripts, |scripts|)
  }

  lemma {:induction false} OneLonger(turn: nat, scripts: seq<ScriptNode>, r: nat, longer: ScriptNode, n: nat)
    requires r < n <= |scripts| && |longer.calls| == |scripts[r].calls| + 1
    ensures |TurnTargets(turn, scripts[r := longer], n)| == |TurnTargets(turn, scripts, n)| + 1
  {
    if r < n - 1 {
      OneLonger(turn, scripts, r, longer, n - 1);
    } else {
      SameTargets(turn, scripts, scripts[r := longer], r);
    }
  }

  lemma RowGrows(turn: nat, script: nat, calls: nat)
    ensures Row(turn, script, calls) <= Row(turn, script, calls + 1)
  {
  }

  lemma UpToRow(turn: nat, scripts: seq<ScriptNode>, r: nat)
    requires r < |scripts|
    ensures TurnTargets(turn, scripts, r + 1) == TurnTargets(turn, scripts, r) + Row(turn, r, |scripts[r].calls|)
  {
  }

  lemma RowLength(turn: nat, script: nat, calls: nat)
    ensures |Row(turn, script, calls)| == calls
  {
  }

  /** A longer row keeps everything listed up to it, and its new call stands right after. */
  lemma LongerRow(turn: nat, scripts: seq<ScriptNode>, r: nat, longer: ScriptNode)
    requires r < |scripts| && |longer.calls| == |scripts[r].calls| + 1
    ensures var p := |TurnTargets(turn, scripts, r + 1)|;
      var after := TurnCalls(turn, scripts[r := longer]);
      && TurnTargets(turn, scripts, r + 1) <= after
      && p < |after| && after[p] == (turn, r, |scripts[r].calls|)
      && |after| == |TurnCalls(turn, scripts)| + 1
  {
    hide Row, TurnTargets;
    var changed := scripts[r := longer];
    SameTargets(turn, scripts, changed, r);
    UpToRow(turn, scripts, r);
    UpToRow(turn, changed, r);
    RowLength(turn, r, |scripts[r].calls|);
    TargetAt(turn, changed, r, |scripts[r].calls|, |scripts|);
    TargetsGrow(turn, changed, r + 1, |scripts|);
    RowGrows(turn, r, |scripts[r].calls|);
    OneLonger(turn, scripts, r, longer, |scripts|);
  }

  /** Past the rows of the first `n` scripts, every target is of a later script. */
  lemma {:induction false} TargetsBeyond(turn: nat, scripts: seq<ScriptNode>, n: nat, p: nat, m: nat)
    requires n <= m <= |scripts| && |TurnTargets(turn, scripts, n)| <= p < |TurnTargets(turn, scripts, m)|
    ensures TurnTargets(turn, scripts, m)[p].1 >= n
  {
    if n < m && p < |TurnTargets(turn, scripts, m - 1)| {
      TargetsBeyond(turn, scripts, n, p, m - 1);
    }
  }

  /** A call in a running script moves what is listed after that script. */
  lemma CallStableIff(turn: nat, scripts: seq<ScriptNode>, call: CapabilityCall)
    requires LastRunning(scripts) >= 0
    ensures var before, after := TurnCalls(turn, scripts), TurnCalls(turn, WithCall(scripts, call));
      && |after| == |before| + 1
      && (before <= after <==> !LandsInside(scripts, Capability(call)))
  {
    hide TurnTargets, LastRunning;
    var r := LastRunning(scripts);
    LongerRow(turn, scripts, r, scripts[r].(calls := scripts[r].calls + [call]));
    var p := |TurnTargets(turn, scripts, r + 1)|;
    TargetsGrow(turn, scripts, r + 1, |scripts|);
    if LandsInside(scripts, Capability(call)) {
      var j :| r < j < |scripts| && scripts[j].calls != [];
      TargetAt(turn, scripts, j, 0, |scripts|);
      TargetsGrow(turn, scripts, r + 1, j);
      TargetsBeyond(turn, scripts, r + 1, p, |scripts|);
    }
  }

  /** One event keeps every place of its turn's list exactly when it does not land inside. */
  lemma TurnStableIff(turn: nat, scripts: seq<ScriptNode>, e: SessionEvent)
    ensures var before, after := TurnCalls(turn, scripts), TurnCalls(turn, Absorbed(scripts, e));
      && (before <= after <==> !LandsInside(scripts, e))
      && (if e.Capability? then |after| == |before| + 1 else after == before)
  {
    var after := Absorbed(scripts, e);
    if e.Capability? && LastRunning(scripts) >= 0 {
      CallStableIff(turn, scripts, e.call);
    } else {
      SameTargets(turn, scripts, after, |scripts|);
    }
  }

  // ---------------------------------------------------------------------------------------------
  // All turns

  lemma {:induction false} SameTurns(a: seq<TurnView>, b: seq<TurnView>, n: nat)
    requires n <= |a| && n <= |b| && forall i :: 0 <= i < n ==> a[i].scripts == b[i].scripts
    ensures AllTargets(a, n) == AllTargets(b, n)
  {
    if n > 0 {
      SameTurns(a, b, n - 1);
    }
  }

  /** The calls of turns `m` to `n`. */
  function LaterTargets(views: seq<TurnView>, m: nat, n: nat): seq<Target>
    requires m <= n <= |views|
    decreases n
  {
    if m == n then [] else LaterTargets(views, m, n - 1) + TurnCalls(n - 1, views[n - 1].scripts)
  }

  lemma {:induction false} SplitTargets(views: seq<TurnView>, m: nat, n: nat)
    requires m <= n <= |views|
    ensures AllTargets(views, n) == AllTargets(views, m) + LaterTargets(views, m, n)
    decreases n
  {
    if m < n {
      SplitTargets(views, m, n - 1);
    }
  }

  lemma {:induction false} SameLater(a: seq<TurnView>, b: seq<TurnView>, m: nat, n: nat)
    requires m <= n <= |a| && |b| == |a| && forall i :: m <= i < n ==> a[i].scripts == b[i].scripts
    ensures LaterTargets(a, m, n) == LaterTargets(b, m, n)
    decreases n
  {
    if m < n {
      SameLater(a, b, m, n - 1);
    }
  }

  predicate HasCalls(scripts: seq<ScriptNode>) {
    exists s :: 0 <= s < |scripts| && scripts[s].calls != []
  }

  lemma HasCallsIff(turn: nat, scripts: seq<ScriptNode>)
    ensures TurnCalls(turn, scripts) != [] <==> HasCalls(scripts)
  {
    if HasCalls(scripts) {
      var s :| 0 <= s < |scripts| && scripts[s].calls != [];
      TargetAt(turn, scripts, s, 0, |scripts|);
    } else {
      TargetsGrow(turn, scripts, 0, |scripts|);
    }
  }

  lemma CallsOfTurn(turn: nat, scripts: seq<ScriptNode>, p: nat)
    requires p < |TurnCalls(turn, scripts)|
    ensures TurnCalls(turn, scripts)[p].0 == turn
  {
    TurnTargetsExist(turn, scripts, |scripts|, TurnCalls(turn, scripts)[p]);
  }

  lemma {:induction false} LaterIsEmpty(views: seq<TurnView>, m: nat, n: nat)
    requires m <= n <= |views| && forall t :: m <= t < n ==> !HasCalls(views[t].scripts)
    ensures LaterTargets(views, m, n) == []
    decreases n
  {
    hide HasCalls, TurnCalls;
    if m < n {
      LaterIsEmpty(views, m, n - 1);
      HasCallsIff(n - 1, views[n - 1].scripts);
    }
  }

  lemma {:induction false} LaterHas(views: seq<TurnView>, m: nat, n: nat, t: nat)
    requires m <= t < n <= |views| && HasCalls(views[t].scripts)
    ensures LaterTargets(views, m, n) != []
    decreases n
  {
    hide HasCalls, TurnCalls;
    if t < n - 1 {
      LaterHas(views, m, n - 1, t);
    } else {
      HasCallsIff(t, views[t].scripts);
    }
  }

  lemma {:induction false} LaterIsLater(views: seq<TurnView>, m: nat, n: nat)
    requires m <= n <= |views| && LaterTargets(views, m, n) != []
    ensures LaterTargets(views, m, n)[0].0 >= m
    decreases n
  {
    hide HasCalls, TurnCalls;
    if LaterTargets(views, m, n - 1) != [] {
      LaterIsLater(views, m, n - 1);
    } else {
      CallsOfTurn(n - 1, views[n - 1].scripts, 0);
    }
  }

  /** What later turns list, if anything, starts past this turn. */
  lemma LaterIs(views: seq<TurnView>, m: nat)
    requires m <= |views|
    ensures var later := LaterTargets(views, m, |views|);
      && (later == [] <==> !exists t :: m <= t < |views| && HasCalls(views[t].scripts))
      && (later != [] ==> later[0].0 >= m)
  {
    hide HasCalls, LaterTargets;
    if t :| m <= t < |views| && HasCalls(views[t].scripts) {
      LaterHas(views, m, |views|, t);
      LaterIsLater(views, m, |views|);
    } else {
      LaterIsEmpty(views, m, |views|);
    }
  }

  /** The call an event brings is not the last of the list: its own turn lists some after it, or a
      later turn does. */
  predicate MovesCalls(views: seq<TurnView>, e: SessionEvent) {
    var o := OpenIn(views);
    && e.Capability? && o >= 0
    && (LandsInside(views[o].scripts, e) || exists t :: o < t < |views| && HasCalls(views[t].scripts))
  }

  /** One turn's part of a longer list. */
  lemma PartStable(before: seq<Target>, part: seq<Target>, changed: seq<Target>, later: seq<Target>)
    requires |changed| == |part| + 1
    requires later != [] ==> later[0] != changed[|part|]
    ensures before + part + later <= before + changed + later <==> part <= changed && later == []
  {
    var a, b := before + part + later, before + changed + later;
    var p := |before| + |part|;
    if later != [] {
      assert a[p] == later[0] && b[p] == changed[|part|];
    } else {
      assert a == before + part && b == before + changed;
      assert a[|before|..] == part && b[|before|..p] == changed[..|part|];
    }
  }

  /** One event keeps every index of the call list naming the same call, in every turn, exactly when
      the call it brings is listed last. */
  lemma CursorStableIff(views: seq<TurnView>, e: SessionEvent)
    ensures Calls(views) <= Calls(AbsorbedIn(views, e)) <==> !MovesCalls(views, e)
  {
    hide OpenIn, TurnCalls, HasCalls, LandsInside, Absorbed, AllTargets, LaterTargets;
    var o, after := OpenIn(views), AbsorbedIn(views, e);
    if o >= 0 {
      var scripts := views[o].scripts;
      SameTurns(views, after, o);
      SameLater(views, after, o + 1, |views|);
      SplitTargets(views, o + 1, |views|);
      SplitTargets(after, o + 1, |views|);
      TurnStableIff(o, scripts, e);
      TurnSteps(views, o);
      TurnSteps(after, o);
      var later := LaterTargets(views, o + 1, |views|);
      if e.Capability? {
        LaterIs(views, o + 1);
        CallsOfTurn(o, after[o].scripts, |TurnCalls(o, scripts)|);
        PartStable(AllTargets(views, o), TurnCalls(o, scripts), TurnCalls(o, after[o].scripts), later);
      }
    }
  }

  lemma TurnSteps(views: seq<TurnView>, o: nat)
    requires o < |views|
    ensures AllTargets(views, o + 1) == AllTargets(views, o) + TurnCalls(o, views[o].scripts)
  {
  }
}
