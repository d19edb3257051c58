/** The transcript as the inverse of the recorder, and the order in which it lists calls. */
module Replay {
  import opened Text
  import opened Record
  import opened Transcript
  import opened CallList

  // ---------------------------------------------------------------------------------------------
  // The tree a recorded session rebuilds

  function NodeOf(script: Script, start: nat): ScriptNode {
    ScriptNode(Wrap(start), script.text, CallsOf(script.calls, start + 1),
               Some(ScriptRun(Wrap(start), script.text, script.outcome)))
  }

  function Nodes(scripts: seq<Script>): (nodes: seq<ScriptNode>)
    ensures |nodes| == |scripts|
  {
    if scripts == [] then []
    else
      var before := scripts[..|scripts| - 1];
      Nodes(before) + [NodeOf(scripts[|scripts| - 1], TotalWidth(before))]
  }

  /** What the operator can read back from a node. */
  function ScriptOf(node: ScriptNode): Script
    requires node.outcome.Some?
  {
    Script(node.script,
           seq(|node.calls|, i requires 0 <= i < |node.calls| =>
             PlannedCall(node.calls[i].capability, node.calls[i].input, node.calls[i].outcome)),
           node.outcome.value.outcome)
  }

  /** Node `i` of the tree is script `i`, and says everything about it. */
  lemma {:induction false} NodesAre(scripts: seq<Script>, i: nat)
    requires i < |scripts|
    ensures Nodes(scripts)[i] == NodeOf(scripts[i], TotalWidth(scripts[..i]))
    ensures ScriptOf(Nodes(scripts)[i]) == scripts[i]
  {
    var before := scripts[..|scripts| - 1];
    if i < |before| {
      NodesAre(before, i);
      assert before[..i] == scripts[..i];
    } else {
      assert ScriptOf(NodeOf(scripts[i], TotalWidth(scripts[..i]))).calls == scripts[i].calls;
    }
  }

  predicate AllFinished(nodes: seq<ScriptNode>) {
    forall i :: 0 <= i < |nodes| ==> !nodes[i].IsRunning()
  }

  predicate Unused(nodes: seq<ScriptNode>, sequence: nat) {
    forall i :: 0 <= i < |nodes| ==> nodes[i].sequence != sequence
  }

  lemma {:induction false} FoldedConcat(scripts: seq<ScriptNode>, a: seq<SessionEvent>, b: seq<SessionEvent>)
    ensures Folded(scripts, a + b) == Folded(Folded(scripts, a), b)
    decreases a
  {
    if a == [] {
      assert a + b == b;
    } else {
      assert (a + b)[1..] == a[1..] + b;
      FoldedConcat(Absorbed(scripts, a[0]), a[1..], b);
    }
  }

  lemma {:induction false} FoldCalls(nodes: seq<ScriptNode>, open: ScriptNode, calls: seq<CapabilityCall>)
    requires AllFinished(nodes) && open.IsRunning()
    ensures Folded(nodes + [open], CallEvents(calls)) == nodes + [open.(calls := open.calls + calls)]
    decreases calls
  {
    if calls == [] {
      assert open.(calls := open.calls + calls) == open;
    } else {
      var longer := open.(calls := open.calls + [calls[0]]);
      assert CallEvents(calls)[1..] == CallEvents(calls[1..]);
      assert LastRunning(nodes + [open]) == |nodes|;
      assert Absorbed(nodes + [open], Capability(calls[0])) == nodes + [longer];
      FoldCalls(nodes, longer, calls[1..]);
      assert open.calls + [calls[0]] + calls[1..] == open.calls + calls;
    }
  }

  lemma FoldScript(nodes: seq<ScriptNode>, script: Script, start: nat)
    requires AllFinished(nodes) && Unused(nodes, Wrap(start))
    ensures Folded(nodes, ScriptEvents(script, start)) == nodes + [NodeOf(script, start)]
  {
    var calls := CallsOf(script.calls, start + 1);
    var started := ScriptStarted(Wrap(start), script.text);
    var run := ScriptRun(Wrap(start), script.text, script.outcome);
    var open := ScriptNode(Wrap(start), script.text, [], None);
    var full := open.(calls := calls);
    FoldedConcat(nodes, [started] + CallEvents(calls), [ScriptFinished(run)]);
    FoldedConcat(nodes, [started], CallEvents(calls));
    assert Folded(nodes, [started]) == nodes + [open];
    FoldCalls(nodes, open, calls);
    assert open.calls + calls == calls;
    FirstIsLast(nodes, full);
    assert Folded(nodes + [full], [ScriptFinished(run)]) == Absorbed(nodes + [full], ScriptFinished(run));
  }

  lemma {:induction false} FirstIsLast(nodes: seq<ScriptNode>, last: ScriptNode)
    requires Unused(nodes, last.sequence)
    ensures FirstWith(nodes + [last], last.sequence) == |nodes|
  {
    forall k | 0 <= k < |nodes| ensures (nodes + [last])[k].sequence != last.sequence {
      assert (nodes + [last])[k] == nodes[k];
    }
    assert (nodes + [last])[|nodes|] == last;
  }

  /** No two scripts carry the same ordinal: with a 64-bit counter, until it wraps onto one. */
  predicate OrdinalsDistinct(scripts: seq<Script>) {
    forall i, j :: 0 <= i < j < |scripts| ==> Wrap(TotalWidth(scripts[..i])) != Wrap(TotalWidth(scripts[..j]))
  }

  lemma {:induction false} WidthsGrow(scripts: seq<Script>, i: nat, j: nat)
    requires i < j <= |scripts|
    ensures TotalWidth(scripts[..i]) < TotalWidth(scripts[..j])
    decreases j
  {
    assert scripts[..j][..j - 1] == scripts[..j - 1];
    if i < j - 1 {
      WidthsGrow(scripts, i, j - 1);
    }
  }

  lemma InRangeTheyDiffer(a: nat, b: nat)
    requires a < b < U64_RANGE
    ensures Wrap(a) != Wrap(b)
  {
  }

  lemma ShortSessionsAreDistinct(scripts: seq<Script>)
    requires TotalWidth(scripts) <= U64_RANGE
    ensures OrdinalsDistinct(scripts)
  {
    hide Wrap, TotalWidth;
    forall i, j | 0 <= i < j < |scripts|
      ensures Wrap(TotalWidth(scripts[..i])) != Wrap(TotalWidth(scripts[..j]))
    {
      WidthsGrow(scripts, i, j);
      WidthsGrow(scripts, j, |scripts|);
      assert scripts[..|scripts|] == scripts;
      InRangeTheyDiffer(TotalWidth(scripts[..i]), TotalWidth(scripts[..j]));
    }
  }

  lemma PrefixIsDistinct(scripts: seq<Script>, n: nat)
    requires OrdinalsDistinct(scripts) && n <= |scripts|
    ensures OrdinalsDistinct(scripts[..n])
  {
    hide Wrap, TotalWidth;
    forall i, j | 0 <= i < j < n
      ensures Wrap(TotalWidth(scripts[..n][..i])) != Wrap(TotalWidth(scripts[..n][..j]))
    {
      assert scripts[..n][..i] == scripts[..i] && scripts[..n][..j] == scripts[..j];
    }
  }

  /** With distinct ordinals the next script's is not taken. */
  lemma NextIsUnused(scripts: seq<Script>, n: nat)
    requires OrdinalsDistinct(scripts) && n < |scripts|
    ensures Unused(Nodes(scripts[..n]), Wrap(TotalWidth(scripts[..n])))
  {
    hide Wrap, TotalWidth;
    var before := scripts[..n];
    forall i | 0 <= i < n ensures Nodes(before)[i].sequence != Wrap(TotalWidth(before)) {
      NodesAre(before, i);
      assert before[..i] == scripts[..i];
    }
  }

  lemma {:induction false} DistinctRebuilds(scripts: seq<Script>)
    requires OrdinalsDistinct(scripts)
    ensures Folded([], RecordedEvents(scripts)) == Nodes(scripts) && AllFinished(Nodes(scripts))
  {
    hide Wrap, TotalWidth, OrdinalsDistinct, ScriptEvents;
    if scripts != [] {
      var last := |scripts| - 1;
      var before := scripts[..last];
      PrefixIsDistinct(scripts, last);
      DistinctRebuilds(before);
      NextIsUnused(scripts, last);
      FoldedConcat([], RecordedEvents(before), ScriptEvents(scripts[last], TotalWidth(before)));
      FoldScript(Nodes(before), scripts[last], TotalWidth(before));
    }
  }

  // ---------------------------------------------------------------------------------------------
  // A repeated ordinal loses a script's outcome for good

  /** Node `j` runs and is not the first of its ordinal. */
  predicate Shadowed(nodes: seq<ScriptNode>, i: nat, j: nat) {
    i < j < |nodes| && nodes[i].sequence == nodes[j].sequence && nodes[j].IsRunning()
  }

  lemma ShadowedStays(nodes: seq<ScriptNode>, i: nat, j: nat, e: SessionEvent)
    requires Shadowed(nodes, i, j)
    ensures Shadowed(Absorbed(nodes, e), i, j)
  {
  }

  lemma {:induction false} ShadowedForever(nodes: seq<ScriptNode>, i: nat, j: nat, events: seq<SessionEvent>)
    requires Shadowed(nodes, i, j)
    ensures Shadowed(Folded(nodes, events), i, j)
    decreases events
  {
    if events != [] {
      ShadowedStays(nodes, i, j, events[0]);
      ShadowedForever(Absorbed(nodes, events[0]), i, j, events[1..]);
    }
  }

  lemma {:induction false} EventsOfPrefix(scripts: seq<Script>, n: nat) returns (rest: seq<SessionEvent>)
    requires n <= |scripts|
    ensures RecordedEvents(scripts) == RecordedEvents(scripts[..n]) + rest
  {
    if n == |scripts| {
      assert scripts[..n] == scripts;
      rest := [];
    } else {
      var before := scripts[..|scripts| - 1];
      var more := EventsOfPrefix(before, n);
      assert before[..n] == scripts[..n];
      rest := more + ScriptEvents(scripts[|scripts| - 1], TotalWidth(before));
    }
  }

  lemma {:induction false} NodesAllFinished(scripts: seq<Script>)
    ensures AllFinished(Nodes(scripts))
  {
    if scripts != [] {
      NodesAllFinished(scripts[..|scripts| - 1]);
    }
  }

  /** The first script whose ordinal was taken already. */
  lemma {:induction false} FirstRepeat(scripts: seq<Script>) returns (i: nat, j: nat)
    requires !OrdinalsDistinct(scripts)
    ensures i < j < |scripts| && Wrap(TotalWidth(scripts[..i])) == Wrap(TotalWidth(scripts[..j]))
    ensures OrdinalsDistinct(scripts[..j])
  {
    hide Wrap, TotalWidth;
    var last := |scripts| - 1;
    var before := scripts[..last];
    if OrdinalsDistinct(before) {
      forall k, l | 0 <= k < l < last
        ensures Wrap(TotalWidth(scripts[..k])) != Wrap(TotalWidth(scripts[..l]))
      {
        assert before[..k] == scripts[..k] && before[..l] == scripts[..l];
      }
      i, j :| 0 <= i < j < |scripts| && Wrap(TotalWidth(scripts[..i])) == Wrap(TotalWidth(scripts[..j]));
    } else {
      i, j := FirstRepeat(before);
      assert before[..i] == scripts[..i] && before[..j] == scripts[..j];
    }
  }

  /** From the moment the second script of one ordinal starts, its node is shadowed. */
  lemma RepeatShadows(scripts: seq<Script>, i: nat, script: Script)
    requires OrdinalsDistinct(scripts) && i < |scripts|
    requires Wrap(TotalWidth(scripts[..i])) == Wrap(TotalWidth(scripts))
    ensures Shadowed(Absorbed(Nodes(scripts), ScriptStarted(Wrap(TotalWidth(scripts)), script.text)), i, |scripts|)
  {
    hide Wrap, TotalWidth;
    NodesAre(scripts, i);
  }

  lemma {:induction false} RepeatBreaks(scripts: seq<Script>)
    requires !OrdinalsDistinct(scripts)
    ensures Folded([], RecordedEvents(scripts)) != Nodes(scripts)
  {
    hide Wrap, TotalWidth, OrdinalsDistinct;
    var i, j := FirstRepeat(scripts);
    var before, script := scripts[..j], scripts[j];
    assert before[..i] == scripts[..i];
    DistinctRebuilds(before);
    RepeatShadows(before, i, script);
    var started, tail := StartedFirst(scripts, j);
    FoldedConcat([], RecordedEvents(before), [started] + tail);
    assert ([started] + tail)[1..] == tail;
    ShadowedForever(Absorbed(Nodes(before), started), i, j, tail);
    NodesAllFinished(scripts);
  }

  /** After what the scripts before it emitted, a script's start is the next event. */
  lemma StartedFirst(scripts: seq<Script>, j: nat) returns (started: SessionEvent, tail: seq<SessionEvent>)
    requires j < |scripts|
    ensures started == ScriptStarted(Wrap(TotalWidth(scripts[..j])), scripts[j].text)
    ensures RecordedEvents(scripts) == RecordedEvents(scripts[..j]) + ([started] + tail)
  {
    hide Wrap, TotalWidth;
    var script, start, prefix := scripts[j], TotalWidth(scripts[..j]), scripts[..j + 1];
    started := ScriptStarted(Wrap(start), script.text);
    var own := CallEvents(CallsOf(script.calls, start + 1))
      + [ScriptFinished(ScriptRun(Wrap(start), script.text, script.outcome))];
    assert prefix[..j] == scripts[..j] && ScriptEvents(script, start) == [started] + own;
    var rest := EventsOfPrefix(scripts, j + 1);
    tail := own + rest;
  }

  /** The round trip: folding what the recorder emitted rebuilds every script with its own calls,
      order and outcome, exactly when the 64-bit ordinals of the scripts do not repeat. */
  lemma RecordedSessionRebuildsIff(scripts: seq<Script>)
    ensures Folded([], RecordedEvents(scripts)) == Nodes(scripts) <==> OrdinalsDistinct(scripts)
  {
    if OrdinalsDistinct(scripts) {
      DistinctRebuilds(scripts);
    } else {
      RepeatBreaks(scripts);
    }
  }

  // ---------------------------------------------------------------------------------------------
  // Other events in between

  function ScriptPart(events: seq<SessionEvent>): seq<SessionEvent> {
    if events == [] then []
    else (if IsScriptEvent(events[0]) then [events[0]] else []) + ScriptPart(events[1..])
  }

  /** Usage, progress and endings in between never disturb the tree. */
  lemma {:induction false} OnlyScriptEventsMatter(nodes: seq<ScriptNode>, events: seq<SessionEvent>)
    ensures Folded(nodes, events) == Folded(nodes, ScriptPart(events))
    decreases events
  {
    if events != [] {
      OnlyScriptEventsMatter(Absorbed(nodes, events[0]), events[1..]);
      if IsScriptEvent(events[0]) {
        assert ScriptPart(events)[1..] == ScriptPart(events[1..]);
      } else {
        assert ScriptPart(events) == ScriptPart(events[1..]);
      }
    }
  }

  // ---------------------------------------------------------------------------------------------
  // The order of calls

  lemma FoldedFour(nodes: seq<ScriptNode>, a: SessionEvent, b: SessionEvent, c: SessionEvent, d: SessionEvent)
    ensures Folded(nodes, [a, b, c, d]) == Absorbed(Absorbed(Absorbed(Absorbed(nodes, a), b), c), d)
  {
    assert [a, b, c, d][1..] == [b, c, d] && [b, c, d][1..] == [c, d] && [c, d][1..] == [d];
    var n2 := Absorbed(Absorbed(nodes, a), b);
    assert Folded(nodes, [a, b, c, d]) == Folded(Absorbed(nodes, a), [b, c, d]) == Folded(n2, [c, d]);
    assert Folded(n2, [c, d]) == Folded(Absorbed(n2, c), [d]) == Absorbed(Absorbed(n2, c), d);
  }

  /** A call with no open script is kept, and so is the next one; but the list is then no longer only
      extended at its end. */
  lemma StrayCallsMoveTheCursor(
      a: CapabilityCall, b: CapabilityCall, c: CapabilityCall, sequence: nat, script: string, run: ScriptRun)
    requires run.sequence == sequence && a.sequence != sequence
    ensures var stray := [Capability(a), ScriptStarted(sequence, script), Capability(b), ScriptFinished(run)];
      var nodes := Folded([], stray);
      && Calls([TurnView(nodes, true)]) == [(0, 0, 0), (0, 1, 0)]
      && Calls([TurnView(Absorbed(nodes, Capability(c)), true)]) == [(0, 0, 0), (0, 0, 1), (0, 1, 0)]
      && MovesCalls([TurnView(nodes, true)], Capability(c))
  {
    hide AllTargets, MovesCalls, AbsorbedIn;
    var first, second := ScriptNode(a.sequence, "", [a], None), ScriptNode(sequence, script, [b], None);
    FoldedFour([], Capability(a), ScriptStarted(sequence, script), Capability(b), ScriptFinished(run));
    var open := ScriptNode(sequence, script, [], None);
    assert Absorbed([], Capability(a)) == [first];
    assert Absorbed([first], ScriptStarted(sequence, script)) == [first, open];
    assert open.calls + [b] == [b];
    assert LastRunning([first, open]) == 1 && Absorbed([first, open], Capability(b)) == [first, second];
    FirstIsLast([first], second);
    assert [first] + [second] == [first, second];
    var nodes := [first, second.(outcome := Some(run))];
    assert Absorbed([first, second], ScriptFinished(run)) == nodes;
    assert nodes[..1] == [first] && LastRunning([first]) == 0 && LastRunning(nodes) == 0;
    assert [a] + [c] == [a, c];
    assert Absorbed(nodes, Capability(c)) == [first.(calls := [a, c]), nodes[1]];
    OneTurn(nodes[0], nodes[1]);
    OneTurn(first.(calls := [a, c]), nodes[1]);
    OneTurnAbsorbs(nodes, Capability(c));
    CursorStableIff([TurnView(nodes, true)], Capability(c));
    assert Row(0, 0, 1) + Row(0, 1, 1) == [(0, 0, 0), (0, 1, 0)];
    var before, after := [(0, 0, 0), (0, 1, 0)], [(0, 0, 0), (0, 0, 1), (0, 1, 0)];
    assert Row(0, 0, 2) + Row(0, 1, 1) == after && before[1] != after[1];
  }

  lemma OneTurn(a: ScriptNode, b: ScriptNode)
    ensures Calls([TurnView([a, b], true)]) == Row(0, 0, |a.calls|) + Row(0, 1, |b.calls|)
  {
    hide Row;
    var nodes := [a, b];
    assert TurnTargets(0, nodes, 1) == Row(0, 0, |a.calls|);
    assert AllTargets([TurnView(nodes, true)], 1) == [] + TurnTargets(0, nodes, 2);
  }

  lemma OneTurnAbsorbs(nodes: seq<ScriptNode>, e: SessionEvent)
    requires !e.Finished?
    ensures AbsorbedIn([TurnView(nodes, true)], e) == [TurnView(Absorbed(nodes, e), true)]
  {
    hide Absorbed;
    assert OpenIn([TurnView(nodes, true)]) == 0;
  }

  /** A turn whose task died without an ending still accepts events: after a second turn has made its
      call and ended, a further call lands in the first, before everything the second lists. */
  lemma UnendedTurnMovesTheCursor(a: CapabilityCall, b: CapabilityCall, ending: Ending)
    ensures var views := FoldedIn(WithTurn(WithTurn([])), [Capability(a), Finished(ending)]);
      && Calls(views) == [(1, 0, 0)]
      && Calls(AbsorbedIn(views, Capability(b))) == [(0, 0, 0), (1, 0, 0)]
  {
    hide AllTargets, TurnTargets, AbsorbedIn;
    var one, other := ScriptNode(a.sequence, "", [a], None), ScriptNode(b.sequence, "", [b], None);
    var empty, ended := TurnView([], true), TurnView([one], false);
    TwoTurnsRun(a, b, ending);
    TwoTurns(empty, ended);
    TwoTurns(TurnView([other], true), ended);
    OneScript(0, other);
    OneScript(1, one);
    assert TurnTargets(0, [], 0) == [] by { NoScripts(0); }
    assert Row(0, 0, 1) + Row(1, 0, 1) == [(0, 0, 0), (1, 0, 0)] && [] + Row(1, 0, 1) == [(1, 0, 0)];
  }

  lemma NoScripts(turn: nat)
    ensures TurnTargets(turn, [], 0) == []
  {
  }

  /** What those events leave, and what the further call makes of it. */
  lemma TwoTurnsRun(a: CapabilityCall, b: CapabilityCall, ending: Ending)
    ensures var one, other := ScriptNode(a.sequence, "", [a], None), ScriptNode(b.sequence, "", [b], None);
      var views := FoldedIn(WithTurn(WithTurn([])), [Capability(a), Finished(ending)]);
      && views == [TurnView([], true), TurnView([one], false)]
      && AbsorbedIn(views, Capability(b)) == [TurnView([other], true), TurnView([one], false)]
  {
    var one, other := ScriptNode(a.sequence, "", [a], None), ScriptNode(b.sequence, "", [b], None);
    var empty := TurnView([], true);
    var both, called, ended := [empty, empty], [empty, TurnView([one], true)], [empty, TurnView([one], false)];
    FoldedTwo(both, Capability(a), Finished(ending));
    assert WithTurn(WithTurn([])) == both;
    assert OpenIn(both) == 1 && Absorbed([], Capability(a)) == [one] && Absorbed([], Capability(b)) == [other];
    assert AbsorbedIn(both, Capability(a)) == called;
    assert AbsorbedIn(called, Finished(ending)) == ended;
    assert ended[..1] == [empty] && OpenIn([empty]) == 0 && OpenIn(ended) == 0;
    assert AbsorbedIn(ended, Capability(b)) == [TurnView([other], true), TurnView([one], false)];
  }

  lemma FoldedTwo(views: seq<TurnView>, a: SessionEvent, b: SessionEvent)
    ensures FoldedIn(views, [a, b]) == AbsorbedIn(AbsorbedIn(views, a), b)
  {
    hide AbsorbedIn;
    var called := AbsorbedIn(views, a);
    assert [a, b][1..] == [b];
    assert FoldedIn(called, [b]) == FoldedIn(AbsorbedIn(called, b), []);
  }

  lemma OneScript(turn: nat, script: ScriptNode)
    ensures TurnTargets(turn, [script], 1) == Row(turn, 0, |script.calls|)
  {
    hide Row;
    assert TurnTargets(turn, [script], 0) == [];
  }

  lemma TwoTurns(a: TurnView, b: TurnView)
    ensures Calls([a, b]) == TurnTargets(0, a.scripts, |a.scripts|) + TurnTargets(1, b.scripts, |b.scripts|)
  {
    hide TurnTargets;
    assert AllTargets([a, b], 1) == [] + TurnTargets(0, a.scripts, |a.scripts|);
  }

  /** Along these events no call ever lands inside the turn's list. */
  predicate Steady(nodes: seq<ScriptNode>, events: seq<SessionEvent>)
    decreases events
  {
    events == [] || (!LandsInside(nodes, events[0]) && Steady(Absorbed(nodes, events[0]), events[1..]))
  }

  lemma {:induction false} SteadyConcat(nodes: seq<ScriptNode>, a: seq<SessionEvent>, b: seq<SessionEvent>)
    ensures Steady(nodes, a + b) <==> Steady(nodes, a) && Steady(Folded(nodes, a), b)
    decreases a
  {
    if a == [] {
      assert a + b == b;
    } else {
      assert (a + b)[1..] == a[1..] + b;
      SteadyConcat(Absorbed(nodes, a[0]), a[1..], b);
    }
  }

  lemma {:induction false} CallsAreSteady(nodes: seq<ScriptNode>, open: ScriptNode, calls: seq<CapabilityCall>)
    requires AllFinished(nodes) && open.IsRunning()
    ensures Steady(nodes + [open], CallEvents(calls))
    decreases calls
  {
    if calls != [] {
      var longer := open.(calls := open.calls + [calls[0]]);
      assert CallEvents(calls)[1..] == CallEvents(calls[1..]);
      assert LastRunning(nodes + [open]) == |nodes|;
      assert Absorbed(nodes + [open], Capability(calls[0])) == nodes + [longer];
      CallsAreSteady(nodes, longer, calls[1..]);
    }
  }

  /** One recorded script, after finished ones. */
  lemma ScriptIsSteady(nodes: seq<ScriptNode>, script: Script, start: nat)
    requires AllFinished(nodes)
    ensures Steady(nodes, ScriptEvents(script, start))
  {
    hide Wrap;
    var calls := CallsOf(script.calls, start + 1);
    var started, run := ScriptStarted(Wrap(start), script.text), ScriptRun(Wrap(start), script.text, script.outcome);
    SteadyConcat(nodes, [started] + CallEvents(calls), [ScriptFinished(run)]);
    SteadyConcat(nodes, [started], CallEvents(calls));
    CallsAreSteady(nodes, ScriptNode(Wrap(start), script.text, [], None), calls);
  }

  lemma {:induction false} RecordedIsSteady(scripts: seq<Script>)
    requires OrdinalsDistinct(scripts)
    ensures Steady([], RecordedEvents(scripts))
  {
    hide Wrap, TotalWidth, OrdinalsDistinct, ScriptEvents;
    if scripts != [] {
      var last := |scripts| - 1;
      var before := scripts[..last];
      PrefixIsDistinct(scripts, last);
      RecordedIsSteady(before);
      DistinctRebuilds(before);
      SteadyConcat([], RecordedEvents(before), ScriptEvents(scripts[last], TotalWidth(before)));
      ScriptIsSteady(Nodes(before), scripts[last], TotalWidth(before));
    }
  }

  lemma {:induction false} SteadyOfScriptPart(nodes: seq<ScriptNode>, events: seq<SessionEvent>)
    ensures Steady(nodes, events) <==> Steady(nodes, ScriptPart(events))
    decreases events
  {
    if events != [] {
      SteadyOfScriptPart(Absorbed(nodes, events[0]), events[1..]);
      if IsScriptEvent(events[0]) {
        assert ScriptPart(events)[1..] == ScriptPart(events[1..]);
      } else {
        assert ScriptPart(events) == ScriptPart(events[1..]);
      }
    }
  }

  // ---------------------------------------------------------------------------------------------
  // A session streaming into a conversation

  /** Along these events the call list of the whole conversation is only ever extended at its end. */
  predicate Stable(views: seq<TurnView>, events: seq<SessionEvent>)
    decreases events
  {
    events == [] || (!MovesCalls(views, events[0]) && Stable(AbsorbedIn(views, events[0]), events[1..]))
  }

  lemma {:induction false} StableConcat(views: seq<TurnView>, a: seq<SessionEvent>, b: seq<SessionEvent>)
    ensures Stable(views, a + b) <==> Stable(views, a) && Stable(FoldedIn(views, a), b)
    ensures FoldedIn(views, a + b) == FoldedIn(FoldedIn(views, a), b)
    decreases a
  {
    if a == [] {
      assert a + b == b;
    } else {
      assert (a + b)[1..] == a[1..] + b;
      StableConcat(AbsorbedIn(views, a[0]), a[1..], b);
    }
  }

  lemma {:induction false} StableExtends(views: seq<TurnView>, events: seq<SessionEvent>)
    requires Stable(views, events)
    ensures Calls(views) <= Calls(FoldedIn(views, events))
    decreases events
  {
    hide Calls, MovesCalls, AbsorbedIn;
    if events != [] {
      CursorStableIff(views, events[0]);
      StableExtends(AbsorbedIn(views, events[0]), events[1..]);
    }
  }

  /** A session ends after the last event of its scripts. */
  predicate EndsLast(events: seq<SessionEvent>) {
    forall k :: 0 <= k < |events| && events[k].Finished? ==> ScriptPart(events[k..]) == []
  }

  lemma EndsLastTail(events: seq<SessionEvent>)
    requires EndsLast(events) && events != []
    ensures EndsLast(events[1..])
  {
    forall k | 0 <= k < |events[1..]| && events[1..][k].Finished? ensures ScriptPart(events[1..][k..]) == [] {
      assert events[1..][k..] == events[k + 1..] && events[k + 1].Finished?;
    }
  }

  lemma {:induction false} NothingMoves(views: seq<TurnView>, events: seq<SessionEvent>)
    requires ScriptPart(events) == []
    ensures Stable(views, events)
    decreases events
  {
    hide AbsorbedIn;
    if events != [] {
      NothingMoves(AbsorbedIn(views, events[0]), events[1..]);
    }
  }

  /** What is steady in the last turn is stable in the conversation, whatever the turns before hold. */
  lemma {:induction false} SteadyIsStable(before: seq<TurnView>, nodes: seq<ScriptNode>, events: seq<SessionEvent>)
    requires Steady(nodes, events) && EndsLast(events)
    ensures Stable(before + [TurnView(nodes, true)], events)
    decreases events
  {
    hide Absorbed, LandsInside, EndsLast;
    if events != [] {
      var views := before + [TurnView(nodes, true)];
      assert OpenIn(views) == |before| && views[|before|].scripts == nodes;
      var next := AbsorbedIn(views, events[0]);
      assert next == before + [TurnView(Absorbed(nodes, events[0]), !events[0].Finished?)];
      EndsLastTail(events);
      if events[0].Finished? {
        EndedHere(events);
        NothingMoves(next, events[1..]);
      } else {
        SteadyIsStable(before, Absorbed(nodes, events[0]), events[1..]);
      }
    }
  }

  lemma EndedHere(events: seq<SessionEvent>)
    requires EndsLast(events) && events != [] && events[0].Finished?
    ensures ScriptPart(events[1..]) == []
  {
    assert events[0..] == events;
  }

  /** While a recorded session streams into the last turn of any conversation, with anything else
      mixed between its script events, the call list is only ever extended at its end: an index keeps
      naming the same call. */
  lemma {:induction false} CursorIsStable(
      before: seq<TurnView>, scripts: seq<Script>, events: seq<SessionEvent>, i: nat, j: nat)
    requires OrdinalsDistinct(scripts) && ScriptPart(events) == RecordedEvents(scripts) && EndsLast(events)
    requires i <= j <= |events|
    ensures var views := before + [TurnView([], true)];
      Calls(FoldedIn(views, events[..i])) <= Calls(FoldedIn(views, events[..j]))
  {
    hide Calls, OrdinalsDistinct, EndsLast;
    var views := before + [TurnView([], true)];
    RecordedIsSteady(scripts);
    SteadyOfScriptPart([], events);
    SteadyIsStable(before, [], events);
    assert events == events[..j] + events[j..] && events[..j] == events[..i] + events[i..j];
    StableConcat(views, events[..j], events[j..]);
    StableConcat(views, events[..i], events[i..j]);
    StableExtends(FoldedIn(views, events[..i]), events[i..j]);
  }
}
