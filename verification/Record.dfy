/** What a session reports while it runs: scripts and the capability calls inside them, numbered by
    one shared counter and sent down one ordered channel. */
module Record {
  import opened Limits
  import opened Text
  import opened JsonWalk

  const U64_RANGE: nat := U64_MAX + 1

  datatype CallOutcome =
    | Succeeded
    | SucceededWithStderr(stderr: string)
    | Exited(status: nat, stderr: string)
    | Denied(reason: string)
    | Failed(error: string)
    | NotFound

  datatype CapabilityCall = CapabilityCall(sequence: nat, capability: string, input: Json, outcome: CallOutcome)

  /** The interpreter's report on one script. */
  datatype Outcome = Outcome(output: string, exitCode: nat, truncated: bool, capabilityCalls: nat, steps: nat)

  datatype ScriptRun = ScriptRun(sequence: nat, script: string, outcome: Outcome)

  datatype Usage = Usage(input: Option<nat>, output: Option<nat>)

  /** How a whole session ended. */
  datatype Ending = Answer(text: string) | Silence | Failure(error: string)

  datatype ShellEntry = ShellEntry(input: string, output: string, exitCode: Option<nat>, truncated: bool)

  datatype SessionEvent =
    | ScriptStarted(sequence: nat, script: string)
    | Capability(call: CapabilityCall)
    | ScriptFinished(run: ScriptRun)
    | ModelUsage(usage: Option<Usage>)
    | Progress(message: string)
    | ShellFinished(entry: ShellEntry)
    | Finished(ending: Ending)

  predicate IsScriptEvent(e: SessionEvent) {
    e.ScriptStarted? || e.Capability? || e.ScriptFinished?
  }

  /** What an observed script will do: the calls it makes and how the interpreter reports it. */
  datatype PlannedCall = PlannedCall(capability: string, input: Json, outcome: CallOutcome)
  datatype Script = Script(text: string, calls: seq<PlannedCall>, outcome: Outcome)

  // ---------------------------------------------------------------------------------------------
  // The emitted stream

  /** Ordinals come from a 64-bit counter and wrap. */
  function Wrap(n: nat): nat { n % U64_RANGE }

  function CallOf(call: PlannedCall, sequence: nat): CapabilityCall {
    CapabilityCall(sequence, call.capability, call.input, call.outcome)
  }

  /** The calls of one script, numbered from `start`. */
  function CallsOf(calls: seq<PlannedCall>, start: nat): (r: seq<CapabilityCall>)
    ensures |r| == |calls|
  {
    seq(|calls|, i requires 0 <= i < |calls| => CallOf(calls[i], Wrap(start + i)))
  }

  function CallEvents(calls: seq<CapabilityCall>): (r: seq<SessionEvent>)
    ensures |r| == |calls|
  {
    seq(|calls|, i requires 0 <= i < |calls| => Capability(calls[i]))
  }

  function ScriptEvents(script: Script, start: nat): seq<SessionEvent> {
    [ScriptStarted(Wrap(start), script.text)]
    + CallEvents(CallsOf(script.calls, start + 1))
    + [ScriptFinished(ScriptRun(Wrap(start), script.text, script.outcome))]
  }

  /** Ordinals one script takes: its own and one for each call. */
  function Width(script: Script): nat { 1 + |script.calls| }

  function TotalWidth(scripts: seq<Script>): nat {
    if scripts == [] then 0 else TotalWidth(scripts[..|scripts| - 1]) + Width(scripts[|scripts| - 1])
  }

  function RecordedEvents(scripts: seq<Script>): seq<SessionEvent> {
    if scripts == [] then []
    else
      var before := scripts[..|scripts| - 1];
      RecordedEvents(before) + ScriptEvents(scripts[|scripts| - 1], TotalWidth(before))
  }

  // ---------------------------------------------------------------------------------------------
  // The recorder

  /** Both decorators of one session: they share the counter and the channel. */
  class Recorder {
    var next: nat
    var events: seq<SessionEvent>

    constructor ()
      ensures next == 0 && events == []
    {
      next := 0;
      events := [];
    }

    method NextSequence() returns (sequence: nat)
      requires next < U64_RANGE
      modifies this`next
      ensures sequence == old(next) && next == Wrap(old(next) + 1)
    {
      sequence := next;
      next := if next == U64_RANGE - 1 then 0 else next + 1;
    }

    /** Observes one invocation: numbered before it runs, reported after. */
    method Invoke(call: PlannedCall)
      requires next < U64_RANGE
      modifies this
      ensures next == Wrap(old(next) + 1)
      ensures events == old(events) + [Capability(CallOf(call, old(next)))]
    {
      var sequence := NextSequence();
      events := events + [Capability(CallOf(call, sequence))];
    }

    /** Observes one script and everything it calls. */
    method RunScript(script: Script, ghost start: nat)
      requires next == Wrap(start)
      modifies this
      ensures next == Wrap(start + Width(script))
      ensures events == old(events) + ScriptEvents(script, start)
    {
      var sequence := NextSequence();
      events := events + [ScriptStarted(sequence, script.text)];
      WrapStep(start);
      ghost var before := events;
      var i := 0;
      assert CallEvents(CallsOf(script.calls, start + 1))[..0] == [];
      while i < |script.calls|
        invariant 0 <= i <= |script.calls| && next == Wrap(start + 1 + i)
        invariant events == before + CallEvents(CallsOf(script.calls, start + 1))[..i]
      {
        Invoke(script.calls[i]);
        WrapStep(start + 1 + i);
        i := i + 1;
      }
      events := events + [ScriptFinished(ScriptRun(sequence, script.text, script.outcome))];
    }

    /** A whole session of scripts, from a fresh counter. */
    method RunSession(scripts: seq<Script>)
      requires next == 0 && events == []
      modifies this
      ensures events == RecordedEvents(scripts)
    {
      var i := 0;
      while i < |scripts|
        invariant 0 <= i <= |scripts|
        invariant next == Wrap(TotalWidth(scripts[..i])) && events == RecordedEvents(scripts[..i])
      {
        RunScript(scripts[i], TotalWidth(scripts[..i]));
        assert scripts[..i + 1][..i] == scripts[..i];
        i := i + 1;
      }
      assert scripts[..i] == scripts;
    }
  }

  lemma WrapStep(n: nat)
    ensures Wrap(Wrap(n) + 1) == Wrap(n + 1) && Wrap(n) < U64_RANGE
  {
  }
}
