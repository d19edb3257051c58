/** The console's state, and the changes the event loop and the key handler make to it. */
module AppState {
  import opened Text
  import opened Record
  import opened Transcript
  import opened CallList
  import Assets
  import JsonWalk
  import Profiles
  import Reveal

  datatype Pane = Agents | Detail | Shell {
    function Next(): Pane { match this case Agents => Shell case Shell => Detail case Detail => Agents }

    /** The cycle runs both ways. */
    function Previous(): (p: Pane)
      ensures p.Next() == this
    {
      match this case Agents => Detail case Shell => Agents case Detail => Shell
    }
  }

  const STOPPING := "stopping at the next boundary; calls already sent to the broker still complete"

  datatype Mode = Browsing | Composing | Help | Error

  datatype Notice = Notice(text: string, isRefusal: bool)

  /** The hopped-into agent and how many capabilities policy granted it. */
  datatype Session = Session(agent: string, capabilities: nat)

  /** One failure. The broker's own refusal code and the pointer to its log are not modelled. */
  datatype ErrorReport = ErrorReport(operation: string, context: seq<(string, string)>, error: string)

  /** Who attempts something and through what, as a report shows it. */
  function FactsOf(
      subject: string, agent: string, profile: Option<string>, scope: string, socket: string): seq<(string, string)>
  {
    [("subject", subject), ("agent", agent), ("profile", if profile.Some? then profile.value else "subject-only"),
     ("scope", scope), ("broker socket", socket)]
  }

  function WithFacts(report: ErrorReport, facts: seq<(string, string)>): ErrorReport {
    report.(context := report.context + facts)
  }

  function Summary(report: ErrorReport): string {
    "[e: full error] " + report.operation + " failed: " + report.error
  }

  function ContextLines(context: seq<(string, string)>): string {
    if context == [] then "" else context[0].0 + ": " + context[0].1 + [NEWLINE] + ContextLines(context[1..])
  }

  function Display(report: ErrorReport): string {
    "dekopon-console: " + report.operation + " failed" + [NEWLINE]
    + ContextLines(report.context) + "error: " + report.error
  }

  lemma {:induction false} ContextConcat(a: seq<(string, string)>, b: seq<(string, string)>)
    ensures ContextLines(a + b) == ContextLines(a) + ContextLines(b)
  {
    if a == [] {
      assert a + b == b;
    } else {
      assert (a + b)[1..] == a[1..] + b;
      ContextConcat(a[1..], b);
    }
  }

  /** A report as it is read: what failed, the facts, and why. */
  lemma ReportReads(operation: string, facts: seq<(string, string)>, error: string)
    ensures Display(WithFacts(ErrorReport(operation, [], error), facts))
         == "dekopon-console: " + operation + " failed\n" + ContextLines(facts) + "error: " + error
  {
    assert [] + facts == facts;
    assert " failed" + [NEWLINE] == " failed\n";
  }

  /** What a hop says when the broker answered it. */
  function EntryNotice(subject: string, session: Session): Notice {
    if session.capabilities == 0 then
      Notice("policy grants " + subject + " nothing through " + session.agent
             + "; the broker answered, it just said no", true)
    else Notice(session.agent + ": " + JsonWalk.Itoa(session.capabilities) + " capabilities granted", false)
  }

  // ---------------------------------------------------------------------------------------------
  // The shell history

  /** The last command has been echoed and has no outcome yet. */
  predicate Pending(history: seq<ShellEntry>) {
    history != [] && history[|history| - 1].exitCode.None?
  }

  /** Only the last command may be without an outcome. */
  predicate OnlyLastPending(history: seq<ShellEntry>) {
    forall i :: 0 <= i < |history| - 1 ==> history[i].exitCode.Some?
  }

  function Echo(input: string): ShellEntry {
    ShellEntry(input, "", None, false)
  }

  /** The pending entry completed; nothing when there is none. */
  function Completed(history: seq<ShellEntry>, entry: ShellEntry): seq<ShellEntry> {
    if Pending(history) then history[..|history| - 1] + [entry] else history
  }

  /** A failed command keeps its input and shows the report. */
  function FailedEntry(history: seq<ShellEntry>, report: ErrorReport): ShellEntry
    requires Pending(history)
  {
    history[|history| - 1].(output := Display(report), exitCode := Some(1))
  }

  function FailedHistory(history: seq<ShellEntry>, report: ErrorReport): seq<ShellEntry> {
    if Pending(history) then Completed(history, FailedEntry(history, report)) else history
  }

  /** The row reached from `row`, stopping at the ends of `rows` instead of going round. */
  function Moved(row: nat, delta: int, rows: nat): (r: nat)
    requires rows > 0
    ensures r < rows
    ensures 0 <= row + delta < rows ==> r == row + delta
    ensures row + delta < 0 ==> r == 0
    ensures row + delta >= rows ==> r == rows - 1
  {
    var next := row + delta;
    if next < 0 then 0 else if next > rows - 1 then rows - 1 else next
  }

  // ---------------------------------------------------------------------------------------------
  // The state

  class App {
    const agents: seq<string>
    const socketPath: string
    var selectedAgent: nat
    var session: Option<Session>
    var conversation: Conversation
    var shellHistory: seq<ShellEntry>
    var composer: string
    var pane: Pane
    var mode: Mode
    var notice: Option<Notice>
    var busy: bool
    var shouldQuit: bool
    var selectedCall: nat
    var revealed: seq<Reveal.RevealedField>
    var subject: string
    var profile: Option<string>
    var scopeLabel: string
    var model: string
    var modelSource: Profiles.ModelSource
    var assets: Assets.ConsoleAssets?
    var lastError: Option<ErrorReport>

    constructor (agents: seq<string>, socketPath: string, subject: string)
      ensures this.agents == agents && this.socketPath == socketPath && this.subject == subject
      ensures fresh(conversation) && conversation.Valid() && conversation.turns == []
      ensures session.None? && assets == null && shellHistory == [] && composer == ""
      ensures pane == Agents && mode == Browsing && notice.None? && !busy && !shouldQuit
      ensures selectedAgent == 0 && selectedCall == 0 && revealed == [] && profile.None? && lastError.None?
    {
      this.agents, this.socketPath, this.subject := agents, socketPath, subject;
      selectedAgent, selectedCall := 0, 0;
      session, assets, profile, notice, lastError := None, null, None, None, None;
      conversation := new Conversation();
      shellHistory, composer, revealed := [], "", [];
      pane, mode := Agents, Browsing;
      busy, shouldQuit := false, false;
      scopeLabel, model, modelSource := "subject-only", "", Profiles.Default;
    }

    function HighlightedId(): Option<string>
      reads this`selectedAgent
    {
      if selectedAgent < |agents| then Some(agents[selectedAgent]) else None
    }

    function Facts(): seq<(string, string)>
      reads this`session, this`selectedAgent, this`subject, this`profile, this`scopeLabel
    {
      var agent :=
        if session.Some? then session.value.agent
        else if HighlightedId().Some? then HighlightedId().value else "";
      FactsOf(subject, agent, profile, scopeLabel, socketPath)
    }

    /** A report with who attempted it and through what. */
    function Described(report: ErrorReport): ErrorReport
      reads this`session, this`selectedAgent, this`subject, this`profile, this`scopeLabel
    {
      WithFacts(report, Facts())
    }

    method Say(text: string, isRefusal: bool)
      modifies this`notice
      ensures notice == Some(Notice(text, isRefusal))
    {
      notice := Some(Notice(text, isRefusal));
    }

    method RecordError(report: ErrorReport)
      modifies this`notice, this`lastError
      ensures notice == Some(Notice(Summary(report), true)) && lastError == Some(report)
    {
      Say(Summary(report), true);
      lastError := Some(report);
    }

    /** Opens the last error's report, if there is one. */
    method ShowError()
      modifies this`mode, this`notice
      ensures mode == if lastError.Some? then Error else old(mode)
      ensures lastError.Some? ==> notice == old(notice)
      ensures lastError.None? ==> notice == Some(Notice("no error to show", false))
    {
      if lastError.Some? {
        mode := Error;
      } else {
        Say("no error to show", false);
      }
    }

    method Raise(report: ErrorReport)
      modifies this`notice, this`lastError, this`mode
      ensures lastError == Some(report) && mode == Error && notice == Some(Notice(Summary(report), true))
    {
      RecordError(report);
      ShowError();
    }

    /** Moves the highlighted agent, stopping at the ends. */
    method MoveSelection(delta: int)
      modifies this`selectedAgent
      ensures agents == [] ==> selectedAgent == old(selectedAgent)
      ensures agents != [] ==> selectedAgent == Moved(old(selectedAgent), delta, |agents|)
    {
      if agents == [] {
        return;
      }
      selectedAgent := Moved(selectedAgent, delta, |agents|);
    }

    /** Every capability call of the transcript, in document order. */
    method ListCalls() returns (targets: seq<Target>)
      ensures targets == Calls(ViewsOf(conversation.turns))
    {
      var turns := conversation.turns;
      ghost var all := ViewsOf(turns);
      targets := [];
      var t := 0;
      while t < |turns|
        invariant 0 <= t <= |turns| && targets == AllTargets(all, t)
      {
        var row := CallsOfTurn(t, turns[t].scripts);
        targets := targets + row;
        t := t + 1;
      }
    }

    method CallsOfTurn(turn: nat, scripts: seq<ScriptNode>) returns (targets: seq<Target>)
      ensures targets == TurnTargets(turn, scripts, |scripts|)
    {
      targets := [];
      var s := 0;
      while s < |scripts|
        invariant 0 <= s <= |scripts| && targets == TurnTargets(turn, scripts, s)
      {
        targets := targets + Row(turn, s, |scripts[s].calls|);
        s := s + 1;
      }
    }

    function CursorCall(): (target: Option<Target>)
      reads this, conversation, conversation.turns
    {
      var targets := Calls(ViewsOf(conversation.turns));
      if selectedCall < |targets| then Some(targets[selectedCall]) else None
    }

    /** The call under the cursor really is a call of the transcript. */
    lemma CursorCallExists()
      ensures CursorCall().Some? ==> Exists(ViewsOf(conversation.turns), CursorCall().value)
    {
      if CursorCall().Some? {
        TargetsExist(ViewsOf(conversation.turns), |conversation.turns|, CursorCall().value);
      }
    }

    ghost function CursorCandidates(lib: JsonWalk.Library): seq<Reveal.RevealedField>
      reads this, conversation, conversation.turns
    {
      CursorCallExists();
      match CursorCall()
      case None => []
      case Some(target) =>
        Reveal.Candidates(target, ViewsOf(conversation.turns)[target.0].scripts[target.1].calls[target.2].input, lib)
    }

    /** Reveals the next hidden field of the call under the cursor. */
    method RevealNext(lib: JsonWalk.Library)
      modifies this`revealed, this`notice
      ensures revealed == Reveal.Press(old(revealed), old(CursorCandidates(lib)))
    {
      var targets := ListCalls();
      if selectedCall >= |targets| {
        Say("no capability call is selected", true);
        return;
      }
      var target := targets[selectedCall];
      CursorCallExists();
      var call := conversation.turns[target.0].scripts[target.1].calls[target.2];
      var shown, redactions := JsonWalk.Redact(call.input, lib);
      var candidates := Reveal.FieldsOf(target, redactions);
      var next := Reveal.FirstHidden(candidates, revealed);
      if next.None? {
        Say("nothing left to reveal in this call", false);
        return;
      }
      var field := next.value;
      var path := if field.path == "" then "input" else "input." + field.path;
      Say("revealed " + path + "; it is in your scrollback now", false);
      revealed := revealed + [field];
    }

    /** A hop replaces whatever was open, conversation and revealed fields included. */
    method Enter(session: Session)
      modifies this`session, this`notice, this`conversation, this`shellHistory, this`composer, this`mode,
               this`selectedCall, this`revealed, this`pane
      ensures this.session == Some(session) && notice == Some(EntryNotice(subject, session))
      ensures fresh(conversation) && conversation.Valid() && conversation.turns == []
      ensures shellHistory == [] && composer == "" && mode == Composing && pane == Shell
      ensures selectedCall == 0 && revealed == []
    {
      var answer := EntryNotice(subject, session);
      Say(answer.text, answer.isRefusal);
      this.session := Some(session);
      conversation := new Conversation();
      shellHistory, composer, mode := [], "", Composing;
      selectedCall, revealed := 0, [];
      pane := Shell;
    }

    /** Folds one session event into the open turn. */
    method OnSessionEvent(e: SessionEvent)
      requires conversation.Valid()
      modifies this`busy, conversation.turns
      ensures conversation.Valid()
      ensures busy == (old(busy) && !e.Finished?)
      ensures ViewsOf(conversation.turns) == AbsorbedIn(old(ViewsOf(conversation.turns)), e)
      ensures old(Calls(ViewsOf(conversation.turns))) <= Calls(ViewsOf(conversation.turns))
         <==> !MovesCalls(old(ViewsOf(conversation.turns)), e)
    {
      hide ViewsOf, AbsorbedIn, Calls, MovesCalls;
      CursorStableIff(ViewsOf(conversation.turns), e);
      conversation.Absorb(e);
      if e.Finished? {
        busy := false;
      }
    }

    /** Asks for a stop when something runs. */
    method RequestStop() returns (asked: bool)
      requires conversation.Valid()
      modifies this`notice, conversation.turns
      ensures asked == busy && conversation.Valid()
      ensures notice == if asked then Some(Notice(STOPPING, false)) else old(notice)
      ensures forall i :: 0 <= i < |conversation.turns| ==>
        conversation.turns[i].stopRequested
        == (old(conversation.turns[i].stopRequested) || (asked && i == OpenIn(old(ViewsOf(conversation.turns)))))
    {
      hide ViewsOf, OpenIn;
      if !busy {
        return false;
      }
      var i := conversation.RunningMut();
      if i >= 0 {
        conversation.turns[i].stopRequested := true;
      }
      Say(STOPPING, false);
      asked := true;
    }

    /** Echoes an accepted command. */
    method StartShell(input: string)
      modifies this`busy, this`notice, this`shellHistory
      ensures busy && notice.None? && shellHistory == old(shellHistory) + [Echo(input)]
    {
      busy := true;
      notice := None;
      shellHistory := shellHistory + [ShellEntry(input, "", None, false)];
    }

    method FinishShell(entry: ShellEntry)
      modifies this`shellHistory
      ensures shellHistory == Completed(old(shellHistory), entry)
    {
      if shellHistory != [] && shellHistory[|shellHistory| - 1].exitCode.None? {
        shellHistory := shellHistory[|shellHistory| - 1 := entry];
      }
    }

    method FailShell(report: ErrorReport)
      modifies this`shellHistory, this`notice, this`lastError
      ensures shellHistory == FailedHistory(old(shellHistory), old(Described(report)))
      ensures lastError == Some(old(Described(report))) && notice == Some(Notice(Summary(lastError.value), true))
    {
      var described := Described(report);
      if shellHistory != [] && shellHistory[|shellHistory| - 1].exitCode.None? {
        var last := |shellHistory| - 1;
        shellHistory := shellHistory[last := shellHistory[last].(output := Display(described), exitCode := Some(1))];
      }
      RecordError(described);
    }
  }
}
