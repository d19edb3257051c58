/** The operator's record of a conversation, folded from the event stream. */
module Transcript {
  import opened Limits
  import opened Text
  import opened Record

  datatype TurnStatus = Running | Answered(text: string) | Suppressed | Failed(error: string)

  datatype ScriptNode = ScriptNode(
    sequence: nat, script: string, calls: seq<CapabilityCall>, outcome: Option<ScriptRun>)
  {
    predicate IsRunning() { outcome.None? }
  }

  datatype TurnTokens = TurnTokens(input: Option<nat>, output: Option<nat>, unreported: nat)

  // ---------------------------------------------------------------------------------------------
  // The fold, as a function

  /** The last node still running, or -1. */
  function LastRunning(scripts: seq<ScriptNode>): (i: int)
    ensures -1 <= i < |scripts|
    ensures i >= 0 ==> scripts[i].IsRunning()
    ensures forall k :: i < k < |scripts| ==> !scripts[k].IsRunning()
  {
    if scripts == [] then -1
    else if scripts[|scripts| - 1].IsRunning() then |scripts| - 1
    else LastRunning(scripts[..|scripts| - 1])
  }

  /** The first node with an ordinal, or the length. */
  function FirstWith(scripts: seq<ScriptNode>, sequence: nat): (i: nat)
    ensures i <= |scripts|
    ensures i < |scripts| ==> scripts[i].sequence == sequence
    ensures forall k :: 0 <= k < i ==> scripts[k].sequence != sequence
  {
    if scripts == [] || scripts[0].sequence == sequence then 0 else 1 + FirstWith(scripts[1..], sequence)
  }

  function WithCall(scripts: seq<ScriptNode>, call: CapabilityCall): seq<ScriptNode> {
    var r := LastRunning(scripts);
    if r >= 0 then scripts[r := scripts[r].(calls := scripts[r].calls + [call])]
    else scripts + [ScriptNode(call.sequence, "", [call], None)]
  }

  function WithOutcome(scripts: seq<ScriptNode>, run: ScriptRun): seq<ScriptNode> {
    var f := FirstWith(scripts, run.sequence);
    if f < |scripts| then scripts[f := scripts[f].(outcome := Some(run))]
    else scripts + [ScriptNode(run.sequence, run.script, [], Some(run))]
  }

  /** One event folded into a turn's scripts. */
  function Absorbed(scripts: seq<ScriptNode>, e: SessionEvent): seq<ScriptNode> {
    match e
    case ScriptStarted(sequence, script) => scripts + [ScriptNode(sequence, script, [], None)]
    case Capability(call) => WithCall(scripts, call)
    case ScriptFinished(run) => WithOutcome(scripts, run)
    case _ => scripts
  }

  function Folded(scripts: seq<ScriptNode>, events: seq<SessionEvent>): seq<ScriptNode>
    decreases events
  {
    if events == [] then scripts else Folded(Absorbed(scripts, events[0]), events[1..])
  }

  // ---------------------------------------------------------------------------------------------
  // Over several turns

  /** The scripts of a turn, and whether it still accepts events. */
  datatype TurnView = TurnView(scripts: seq<ScriptNode>, running: bool)

  /** The last turn still running, or -1. */
  function OpenIn(views: seq<TurnView>): (i: int)
    ensures -1 <= i < |views|
    ensures i >= 0 ==> views[i].running
    ensures forall k :: i < k < |views| ==> !views[k].running
  {
    if views == [] then -1
    else if views[|views| - 1].running then |views| - 1
    else OpenIn(views[..|views| - 1])
  }

  /** A prompt opens a turn at the end. */
  function WithTurn(views: seq<TurnView>): seq<TurnView> {
    views + [TurnView([], true)]
  }

  /** One event folded into a conversation: into its open turn, or nowhere. */
  function AbsorbedIn(views: seq<TurnView>, e: SessionEvent): seq<TurnView> {
    var o := OpenIn(views);
    if o < 0 then views else views[o := TurnView(Absorbed(views[o].scripts, e), !e.Finished?)]
  }

  function FoldedIn(views: seq<TurnView>, events: seq<SessionEvent>): seq<TurnView>
    decreases events
  {
    if events == [] then views else FoldedIn(AbsorbedIn(views, events[0]), events[1..])
  }

  // ---------------------------------------------------------------------------------------------
  // Tokens and endings

  function SaturatingAdd(a: nat, b: nat, max: nat): nat {
    if a + b > max then max else a + b
  }

  function Added(total: Option<nat>, part: Option<nat>): Option<nat> {
    match part
    case None => total
    case Some(n) => Some(SaturatingAdd(if total.Some? then total.value else 0, n, U64_MAX))
  }

  function AbsorbedTokens(tokens: TurnTokens, usage: Option<Usage>): TurnTokens {
    if usage.None? || (usage.value.input.None? && usage.value.output.None?) then
      tokens.(unreported := SaturatingAdd(tokens.unreported, 1, U32_MAX))
    else TurnTokens(Added(tokens.input, usage.value.input), Added(tokens.output, usage.value.output), tokens.unreported)
  }

  /** Tokens over a stream of usage reports. */
  function CountedTokens(tokens: TurnTokens, usages: seq<Option<Usage>>): TurnTokens {
    if usages == [] then tokens
    else AbsorbedTokens(CountedTokens(tokens, usages[..|usages| - 1]), usages[|usages| - 1])
  }

  /** What the usages report of one side, and whether any does. */
  function Reported(usages: seq<Option<Usage>>, output: bool): Option<nat> {
    if usages == [] then None
    else
      var before, last := Reported(usages[..|usages| - 1], output), usages[|usages| - 1];
      var part := if last.None? then None else if output then last.value.output else last.value.input;
      if part.None? then before else Some((if before.Some? then before.value else 0) + part.value)
  }

  /** How many report neither side. */
  function Silent(usages: seq<Option<Usage>>): nat {
    if usages == [] then 0
    else
      var last := usages[|usages| - 1];
      Silent(usages[..|usages| - 1]) + if last.None? || last == Some(Usage(None, None)) then 1 else 0
  }

  function AtMost(total: Option<nat>, max: nat): Option<nat> {
    match total
    case None => None
    case Some(n) => Some(if n > max then max else n)
  }

  /** The counted tokens are the sums of what was reported, each side for itself, held at 64 bits, and the number
      of silent reports, held at 32. */
  lemma {:induction false} TokensAreSums(usages: seq<Option<Usage>>)
    ensures CountedTokens(TurnTokens(None, None, 0), usages)
         == TurnTokens(AtMost(Reported(usages, false), U64_MAX), AtMost(Reported(usages, true), U64_MAX),
                       if Silent(usages) > U32_MAX then U32_MAX else Silent(usages))
  {
    hide Added;
    if usages != [] {
      var before, last := usages[..|usages| - 1], usages[|usages| - 1];
      TokensAreSums(before);
      if last.Some? {
        AddedIs(Reported(before, false), last.value.input);
        AddedIs(Reported(before, true), last.value.output);
      }
    }
  }

  lemma AddedIs(total: Option<nat>, part: Option<nat>)
    ensures Added(AtMost(total, U64_MAX), part)
         == AtMost(if part.None? then total else Some((if total.Some? then total.value else 0) + part.value), U64_MAX)
  {
  }

  function EndedAs(ending: Ending): (status: TurnStatus)
    ensures status != Running
  {
    match ending
    case Answer(text) => Answered(text)
    case Silence => Suppressed
    case Failure(error) => TurnStatus.Failed(error)
  }

  // ---------------------------------------------------------------------------------------------
  // The record itself

  class Turn {
    const ordinal: nat
    const prompt: string
    var scripts: seq<ScriptNode>
    var tokens: TurnTokens
    var status: TurnStatus
    var stopRequested: bool
    var inReplayWindow: bool

    constructor Opened(ordinal: nat, prompt: string)
      ensures this.ordinal == ordinal && this.prompt == prompt
      ensures scripts == [] && status == Running && !stopRequested && inReplayWindow
      ensures tokens == TurnTokens(None, None, 0)
    {
      this.ordinal := ordinal;
      this.prompt := prompt;
      scripts := [];
      tokens := TurnTokens(None, None, 0);
      status := Running;
      stopRequested := false;
      inReplayWindow := true;
    }

    /** Folds one session event into this turn. */
    method Absorb(e: SessionEvent)
      modifies this`scripts, this`tokens, this`status
      ensures scripts == Absorbed(old(scripts), e)
      ensures tokens == if e.ModelUsage? then AbsorbedTokens(old(tokens), e.usage) else old(tokens)
      ensures status == if e.Finished? then EndedAs(e.ending) else old(status)
      ensures forall text :: e == Finished(Answer(text)) ==> status == Answered(text)
      ensures forall error :: e == Finished(Failure(error)) ==> status == TurnStatus.Failed(error)
      ensures e == Finished(Silence) ==> status == Suppressed
    {
      match e
      case ScriptStarted(sequence, script) =>
        scripts := scripts + [ScriptNode(sequence, script, [], None)];
      case Capability(call) =>
        var i := FindRunning();
        if i >= 0 {
          scripts := scripts[i := scripts[i].(calls := scripts[i].calls + [call])];
        } else {
          scripts := scripts + [ScriptNode(call.sequence, "", [call], None)];
        }
      case ScriptFinished(run) =>
        var i := FindSequence(run.sequence);
        if i < |scripts| {
          scripts := scripts[i := scripts[i].(outcome := Some(run))];
        } else {
          scripts := scripts + [ScriptNode(run.sequence, run.script, [], Some(run))];
        }
      case ModelUsage(usage) =>
        tokens := AbsorbedTokens(tokens, usage);
      case Progress(_) =>
      case ShellFinished(_) =>
      case Finished(ending) =>
        status := EndedAs(ending);
    }

    /** Searches backwards for a script that has not reported. */
    method FindRunning() returns (i: int)
      ensures i == LastRunning(scripts)
    {
      i := |scripts| - 1;
      assert scripts[..i + 1] == scripts;
      while i >= 0 && !scripts[i].IsRunning()
        invariant -1 <= i < |scripts|
        invariant LastRunning(scripts) == LastRunning(scripts[..i + 1])
      {
        assert scripts[..i + 1][..i] == scripts[..i];
        i := i - 1;
      }
    }

    method FindSequence(sequence: nat) returns (i: nat)
      ensures i == FirstWith(scripts, sequence)
    {
      i := 0;
      while i < |scripts| && scripts[i].sequence != sequence
        invariant i <= |scripts|
        invariant forall k :: 0 <= k < i ==> scripts[k].sequence != sequence
      {
        i := i + 1;
      }
    }

    /** Capability invocations across every script of this turn. */
    method CapabilityCalls() returns (count: nat)
      ensures count == |AllCalls(scripts)|
    {
      count := 0;
      var i := 0;
      assert scripts[..0] == [];
      while i < |scripts|
        invariant 0 <= i <= |scripts| && count == |AllCalls(scripts[..i])|
      {
        assert scripts[..i + 1][..i] == scripts[..i];
        count := count + |scripts[i].calls|;
        i := i + 1;
      }
      assert scripts[..i] == scripts;
    }
  }

  function ViewsOf(turns: seq<Turn>): (views: seq<TurnView>)
    reads turns
    ensures |views| == |turns|
    ensures forall i :: 0 <= i < |turns| ==> views[i] == TurnView(turns[i].scripts, turns[i].status == Running)
  {
    if turns == [] then []
    else [TurnView(turns[0].scripts, turns[0].status == Running)] + ViewsOf(turns[1..])
  }

  class Conversation {
    var turns: seq<Turn>

    ghost predicate Valid()
      reads this
    {
      forall i, j :: 0 <= i < j < |turns| ==> turns[i] != turns[j]
    }

    constructor ()
      ensures Valid() && turns == []
    {
      turns := [];
    }

    method Open(prompt: string) returns (index: nat)
      requires Valid()
      modifies this
      ensures Valid() && index == |old(turns)|
      ensures |turns| == index + 1 && turns[..index] == old(turns) && fresh(turns[index])
      ensures turns[index].ordinal == index + 1 && turns[index].prompt == prompt
      ensures turns[index].status == Running && turns[index].scripts == []
      ensures ViewsOf(turns) == WithTurn(old(ViewsOf(turns)))
    {
      var turn := new Turn.Opened(|turns| + 1, prompt);
      turns := turns + [turn];
      index := |turns| - 1;
    }

    /** The last turn still running, if any: the one that accepts events. */
    method RunningMut() returns (i: int)
      requires Valid()
      ensures -1 <= i < |turns|
      ensures i >= 0 ==> turns[i].status == Running
      ensures forall k :: i < k < |turns| ==> turns[k].status != Running
      ensures i == OpenIn(ViewsOf(turns))
    {
      i := |turns| - 1;
      while i >= 0 && turns[i].status != Running
        invariant -1 <= i < |turns|
        invariant forall k :: i < k < |turns| ==> turns[k].status != Running
      {
        i := i - 1;
      }
    }

    /** One event into the open turn; without one it is dropped. */
    method Absorb(e: SessionEvent)
      requires Valid()
      modifies turns
      ensures Valid()
      ensures forall i :: 0 <= i < |turns| ==>
        turns[i].scripts == if old(IsOpen(turns, i)) then Absorbed(old(turns[i].scripts), e) else old(turns[i].scripts)
      ensures forall i :: 0 <= i < |turns| ==>
        turns[i].status == if old(IsOpen(turns, i)) && e.Finished? then EndedAs(e.ending) else old(turns[i].status)
      ensures forall i :: 0 <= i < |turns| ==>
        turns[i].tokens
        == if old(IsOpen(turns, i)) && e.ModelUsage? then AbsorbedTokens(old(turns[i].tokens), e.usage)
           else old(turns[i].tokens)
      ensures forall i :: 0 <= i < |turns| ==>
        turns[i].stopRequested == old(turns[i].stopRequested) && turns[i].inReplayWindow == old(turns[i].inReplayWindow)
      ensures ViewsOf(turns) == AbsorbedIn(old(ViewsOf(turns)), e)
    {
      hide Absorbed, AbsorbedTokens, EndedAs, OpenIn, ViewsOf;
      var i := RunningMut();
      if i >= 0 {
        turns[i].Absorb(e);
      }
    }

    /** Marks the suffix of turns the model still replays. */
    method MarkReplayWindow(remembered: nat)
      requires Valid()
      modifies turns
      ensures Valid()
      ensures forall i :: 0 <= i < |turns| ==>
        (turns[i].inReplayWindow <==> i + remembered >= |turns|) && turns[i].scripts == old(turns[i].scripts)
    {
      var boundary := if remembered > |turns| then 0 else |turns| - remembered;
      var i := 0;
      while i < |turns|
        invariant 0 <= i <= |turns|
        invariant forall k :: 0 <= k < i ==> (turns[k].inReplayWindow <==> k >= boundary)
        invariant forall k :: 0 <= k < |turns| ==> turns[k].scripts == old(turns[k].scripts)
      {
        turns[i].inReplayWindow := i >= boundary;
        i := i + 1;
      }
    }
  }

  ghost predicate IsOpen(turns: seq<Turn>, i: nat)
    requires i < |turns|
    reads turns
  {
    turns[i].status == Running && forall k :: i < k < |turns| ==> turns[k].status != Running
  }

  // ---------------------------------------------------------------------------------------------
  // Conservation

  function AllCalls(scripts: seq<ScriptNode>): multiset<CapabilityCall> {
    if scripts == [] then multiset{}
    else AllCalls(scripts[..|scripts| - 1]) + multiset(scripts[|scripts| - 1].calls)
  }

  function Emitted(events: seq<SessionEvent>): multiset<CapabilityCall> {
    if events == [] then multiset{}
    else (if events[0].Capability? then multiset{events[0].call} else multiset{}) + Emitted(events[1..])
  }

  lemma {:induction false} AllCallsUpdate(scripts: seq<ScriptNode>, i: nat, node: ScriptNode)
    requires i < |scripts|
    ensures AllCalls(scripts[i := node]) + multiset(scripts[i].calls) == AllCalls(scripts) + multiset(node.calls)
  {
    var updated := scripts[i := node];
    var last := |scripts| - 1;
    if i == last {
      assert updated[..last] == scripts[..last];
    } else {
      AllCallsUpdate(scripts[..last], i, node);
      assert updated[..last] == scripts[..last][i := node] && scripts[..last][i] == scripts[i];
      assert updated[last] == scripts[last];
      var rest, own := AllCalls(updated[..last]), multiset(scripts[last].calls);
      assert (rest + own) + multiset(scripts[i].calls) == (rest + multiset(scripts[i].calls)) + own;
    }
  }

  lemma MultisetCancel<T>(a: multiset<T>, b: multiset<T>, common: multiset<T>)
    requires a + common == b + common
    ensures a == b
  {
    assert a == (a + common) - common && b == (b + common) - common;
  }

  lemma AllCallsSnoc(scripts: seq<ScriptNode>, node: ScriptNode)
    ensures AllCalls(scripts + [node]) == AllCalls(scripts) + multiset(node.calls)
  {
    assert (scripts + [node])[..|scripts|] == scripts;
  }

  lemma CallConserves(scripts: seq<ScriptNode>, call: CapabilityCall)
    ensures AllCalls(WithCall(scripts, call)) == AllCalls(scripts) + multiset{call}
  {
    var r := LastRunning(scripts);
    if r >= 0 {
      var before := multiset(scripts[r].calls);
      AllCallsUpdate(scripts, r, scripts[r].(calls := scripts[r].calls + [call]));
      assert multiset(scripts[r].calls + [call]) == before + multiset{call};
      assert AllCalls(scripts) + (before + multiset{call}) == (AllCalls(scripts) + multiset{call}) + before;
      MultisetCancel(AllCalls(WithCall(scripts, call)), AllCalls(scripts) + multiset{call}, before);
    } else {
      AllCallsSnoc(scripts, ScriptNode(call.sequence, "", [call], None));
    }
  }

  lemma OutcomeConserves(scripts: seq<ScriptNode>, run: ScriptRun)
    ensures AllCalls(WithOutcome(scripts, run)) == AllCalls(scripts)
  {
    var f := FirstWith(scripts, run.sequence);
    if f < |scripts| {
      AllCallsUpdate(scripts, f, scripts[f].(outcome := Some(run)));
      MultisetCancel(AllCalls(WithOutcome(scripts, run)), AllCalls(scripts), multiset(scripts[f].calls));
    } else {
      AllCallsSnoc(scripts, ScriptNode(run.sequence, run.script, [], Some(run)));
    }
  }

  lemma StepConserves(scripts: seq<ScriptNode>, e: SessionEvent)
    ensures AllCalls(Absorbed(scripts, e))
      == AllCalls(scripts) + if e.Capability? then multiset{e.call} else multiset{}
  {
    match e
    case ScriptStarted(sequence, script) => AllCallsSnoc(scripts, ScriptNode(sequence, script, [], None));
    case Capability(call) => CallConserves(scripts, call);
    case ScriptFinished(run) => OutcomeConserves(scripts, run);
    case _ =>
  }

  /** No call is lost and none invented, whatever events arrive in whatever order. */
  lemma {:induction false} CallsAreConserved(scripts: seq<ScriptNode>, events: seq<SessionEvent>)
    ensures AllCalls(Folded(scripts, events)) == AllCalls(scripts) + Emitted(events)
    decreases events
  {
    if events != [] {
      StepConserves(scripts, events[0]);
      CallsAreConserved(Absorbed(scripts, events[0]), events[1..]);
    }
  }

  /** A report stands under its ordinal. */
  predicate Stands(scripts: seq<ScriptNode>, run: ScriptRun) {
    exists k :: 0 <= k < |scripts| && scripts[k].sequence == run.sequence && scripts[k].outcome == Some(run)
  }

  lemma ReportStands(scripts: seq<ScriptNode>, run: ScriptRun)
    ensures Stands(WithOutcome(scripts, run), run)
  {
    var f, after := FirstWith(scripts, run.sequence), WithOutcome(scripts, run);
    assert after[f].sequence == run.sequence && after[f].outcome == Some(run);
  }

  lemma StandsOn(scripts: seq<ScriptNode>, e: SessionEvent, run: ScriptRun)
    requires Stands(scripts, run) && !(e.ScriptFinished? && e.run.sequence == run.sequence)
    ensures Stands(Absorbed(scripts, e), run)
  {
    var k :| 0 <= k < |scripts| && scripts[k].sequence == run.sequence && scripts[k].outcome == Some(run);
    assert Absorbed(scripts, e)[k] == scripts[k];
  }

  /** No report is lost: whatever else arrives, started before or not, it stands under its ordinal until another
      one under the same ordinal. */
  lemma {:induction false} ReportsAreKept(scripts: seq<ScriptNode>, events: seq<SessionEvent>, i: nat)
    requires i < |events| && events[i].ScriptFinished?
    requires forall k :: i < k < |events| && events[k].ScriptFinished? ==>
      events[k].run.sequence != events[i].run.sequence
    ensures Stands(Folded(scripts, events), events[i].run)
    decreases events
  {
    hide Absorbed, Stands;
    if i == 0 {
      ReportIsAbsorbed(scripts, events[0]);
      KeepsStanding(Absorbed(scripts, events[0]), events[1..], events[0].run);
    } else {
      ReportsAreKept(Absorbed(scripts, events[0]), events[1..], i - 1);
    }
  }

  lemma ReportIsAbsorbed(scripts: seq<ScriptNode>, e: SessionEvent)
    requires e.ScriptFinished?
    ensures Stands(Absorbed(scripts, e), e.run)
  {
    hide Stands;
    ReportStands(scripts, e.run);
  }

  lemma {:induction false} KeepsStanding(scripts: seq<ScriptNode>, events: seq<SessionEvent>, run: ScriptRun)
    requires Stands(scripts, run)
    requires forall k :: 0 <= k < |events| && events[k].ScriptFinished? ==> events[k].run.sequence != run.sequence
    ensures Stands(Folded(scripts, events), run)
    decreases events
  {
    hide Absorbed, Stands;
    if events != [] {
      StandsOn(scripts, events[0], run);
      KeepsStanding(Absorbed(scripts, events[0]), events[1..], run);
    }
  }
}
