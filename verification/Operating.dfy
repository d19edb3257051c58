/** What an operator gets for the keys pressed and the events that arrive, said of what is on the screen. */
module Operating {
  import opened Text
  import opened Record
  import opened AppState
  import opened Profiles
  import opened Scenes
  import Assets
  import JsonWalk

  function Press(code: KeyCode, modifiers: set<Modifier>, answers: Answers): Input {
    Pressed(KeyEvent(code, modifiers), answers)
  }

  // ---------------------------------------------------------------------------------------------
  // Typing

  /** A key press of a character, shifted or not. */
  predicate Spells(input: Input, c: char) {
    input.Pressed? && input.key.code == Char(c) && (input.key.modifiers == {} || input.key.modifiers == {Shift})
  }

  /** The next keys spell a text. */
  predicate Types(inputs: seq<Input>, i: nat, text: string) {
    i + |text| <= |inputs| && forall k :: 0 <= k < |text| ==> Spells(inputs[i + k], text[k])
  }

  lemma TypesLess(inputs: seq<Input>, i: nat, text: string)
    requires Types(inputs, i, text) && text != ""
    ensures Types(inputs, i, text[..|text| - 1]) && Spells(inputs[i + |text| - 1], text[|text| - 1])
  {
    hide Spells;
    var start := text[..|text| - 1];
    forall k | 0 <= k < |start| ensures Spells(inputs[i + k], start[k]) {
      assert start[k] == text[k];
    }
    assert inputs[i + (|text| - 1)] == inputs[i + |text| - 1];
  }

  lemma CharacterIsAppended(site: Site, s: Scene, c: char, modifiers: set<Modifier>, answers: Answers)
    requires s.view.mode == Composing && (modifiers == {} || modifiers == {Shift})
    ensures After(site, s, Press(Char(c), modifiers, answers))
         == s.(view := s.view.(composer := s.view.composer + [c]))
  {
    hide Trim, HopLeaves, Sent;
    var key, busy, hopped := KeyEvent(Char(c), modifiers), s.desk.running.Some?, s.session.Some?;
    assert Control !in modifiers;
    assert Emitted(s.view, key, busy, hopped) == None;
    assert Typed(s.view.composer, key) == s.view.composer + [c];
    assert Keyed(s.view, key, busy, hopped, s.error.Some?, |site.agents|)
        == s.view.(composer := s.view.composer + [c]);
  }

  /** Over any run: composing, a text typed is the text appended, and nothing else of the screen changes. */
  lemma {:induction false} TypedTextIsAppended(
      site: Site, scenes: seq<Scene>, inputs: seq<Input>, i: nat, text: string)
    requires Played(site, scenes, inputs) && i + |text| < |scenes|
    requires scenes[i].view.mode == Composing && Types(inputs, i, text)
    ensures scenes[i + |text|] == scenes[i].(view := scenes[i].view.(composer := scenes[i].view.composer + text))
  {
    hide After;
    var before := scenes[i].view.composer;
    if text == "" {
      assert before + "" == before;
    } else {
      var last, start := |text| - 1, text[..|text| - 1];
      TypesLess(inputs, i, text);
      TypedTextIsAppended(site, scenes, inputs, i, start);
      assert text[last] == text[|start|] && inputs[i + last].key.code == Char(text[last]);
      var s := scenes[i + last];
      assert scenes[i + last + 1] == After(site, s, inputs[i + last]);
      CharacterIsAppended(site, s, text[last], inputs[i + last].key.modifiers, inputs[i + last].answers);
      assert before + start + [text[last]] == before + text;
    }
  }

  /** A backspace takes the last character, if there is one. */
  lemma BackspaceTakesTheLast(site: Site, s: Scene, modifiers: set<Modifier>, answers: Answers)
    requires s.view.mode == Composing
    ensures var composer := s.view.composer;
      After(site, s, Press(Backspace, modifiers, answers))
      == s.(view := s.view.(composer := if composer == "" then "" else composer[..|composer| - 1]))
  {
    hide Trim, HopLeaves, Sent;
  }

  /** Esc stops what runs, or gives the text up; Tab and BackTab leave for the panes on either side. */
  lemma LeavingComposing(site: Site, s: Scene, modifiers: set<Modifier>, answers: Answers)
    requires s.view.mode == Composing && s.view.pane == Shell
    ensures After(site, s, Press(Esc, modifiers, answers))
         == if s.desk.running.Some? then
              s.(notice := Some(Notice(
                   "stopping at the next boundary; calls already sent to the broker still complete", false)))
            else s.(view := s.view.(mode := Browsing, composer := ""))
    ensures After(site, s, Press(Tab, modifiers, answers)) == s.(view := s.view.(mode := Browsing, pane := Detail))
    ensures After(site, s, Press(BackTab, modifiers, answers)) == s.(view := s.view.(mode := Browsing, pane := Agents))
  {
    hide Trim, HopLeaves, Sent;
  }

  // ---------------------------------------------------------------------------------------------
  // Sending

  /** Enter is refused while something runs or nobody is entered, and a blank line is not sent. */
  lemma NothingIsSent(site: Site, s: Scene, modifiers: set<Modifier>, answers: Answers)
    requires s.view.mode == Composing
    ensures var t := After(site, s, Press(Enter, modifiers, answers));
      && (s.desk.running.Some? ==>
            t == s.(notice := Some(Notice("another command is running; press Esc to stop it", true))))
      && (s.desk.running.None? && s.session.None? ==> t == s.(notice := Some(Notice("hop into an agent first", true))))
      && (s.desk.running.None? && s.session.Some? && Trim(s.view.composer) == "" ==> t == s)
  {
    hide Trim, HopLeaves, Sent;
  }

  /** Enter may send. */
  predicate Ready(s: Scene) {
    && s.view.mode == Composing && s.desk.running.None? && s.session.Some? && Trim(s.view.composer) != ""
  }

  lemma EnterSends(site: Site, s: Scene, modifiers: set<Modifier>, answers: Answers)
    requires Ready(s)
    ensures After(site, s, Press(Enter, modifiers, answers))
         == Ran(site, s.(view := s.view.(composer := "")), Trim(s.view.composer), answers)
  {
    hide Trim, HopLeaves, Ran;
  }

  /** A script the broker grants a leg is echoed trimmed and runs; its composer is empty again. */
  lemma SentScriptRuns(site: Site, s: Scene, modifiers: set<Modifier>, answers: Answers)
    requires Ready(s) && answers.leg.Granted? && answers.leg.capabilities > 0
    requires var line := Trim(s.view.composer); !StartsWith(line, ":smoke") && !StartsWith(line, ":asset")
    ensures var line, t := Trim(s.view.composer), After(site, s, Press(Enter, modifiers, answers));
      && t.view == s.view.(composer := "") && t.session == s.session && t.labels == s.labels
      && t.error == s.error && t.notice == None && t.desk.memory == []
      && t.desk.shell == s.desk.shell + [ShellEntry(line, "", None, false)]
      && t.desk.log == Assets.Worked(s.desk.log, answers.task.provided)
      && t.desk.running.Some?
      && t.desk.running.value.events
         == (match answers.task.report
             case None => []
             case Some(r) => [ShellFinished(ShellEntry(line, r.output, Some(r.exitCode), r.truncated))])
      && t.desk.running.value.joined
         == (match answers.task.end
             case Clean => Returned(s.desk.memory)
             case Fails(error) => SessionFailed(error)
             case Dies(error) => TaskDied(error))
  {
    hide Trim, After, Facts, ReplyTo, EchoOf, StartsWith, LegReport, Summary, Assets.Worked;
    EnterSends(site, s, modifiers, answers);
  }

  function FactLine(fact: string, value: string): string {
    fact + ": " + value + "\n"
  }

  /** The facts of a report, one on each line. */
  function FactLines(s: Scene, agent: string, socket: string): string {
    FactLine("subject", s.labels.subject) + FactLine("agent", agent)
    + FactLine("profile", if s.labels.profile.Some? then s.labels.profile.value else "subject-only")
    + FactLine("scope", s.labels.scope) + FactLine("broker socket", socket)
  }

  lemma FactsAreLines(subject: string, agent: string, profile: Option<string>, scope: string, socket: string)
    ensures ContextLines(FactsOf(subject, agent, profile, scope, socket))
         == FactLine("subject", subject) + FactLine("agent", agent)
            + FactLine("profile", if profile.Some? then profile.value else "subject-only")
            + FactLine("scope", scope) + FactLine("broker socket", socket)
  {
    hide ContextLines, FactLine;
    var facts := FactsOf(subject, agent, profile, scope, socket);
    assert facts == [facts[0]] + [facts[1]] + [facts[2]] + [facts[3]] + [facts[4]];
    ContextConcat([facts[0]], [facts[1]]);
    ContextConcat([facts[0]] + [facts[1]], [facts[2]]);
    ContextConcat([facts[0]] + [facts[1]] + [facts[2]], [facts[3]]);
    ContextConcat([facts[0]] + [facts[1]] + [facts[2]] + [facts[3]], [facts[4]]);
    forall i | 0 <= i < 5 ensures ContextLines([facts[i]]) == FactLine(facts[i].0, facts[i].1) {
      OneFact(facts[i]);
    }
  }

  lemma OneFact(fact: (string, string))
    ensures ContextLines([fact]) == FactLine(fact.0, fact.1)
  {
    assert ContextLines([fact]) == fact.0 + ": " + fact.1 + [NEWLINE] + ContextLines([]);
  }

  /** Why a leg is refused. */
  function Why(leg: LegAnswer): string {
    match leg
    case Granted(_) =>
      "broker grants no capabilities for this context; no model call or command will be sent"
    case Refused(error) => error
  }

  /** A script the broker refuses a leg has its outcome at once: exit code 1, and a report that says who attempted
      it, through what, and why it was refused. */
  lemma RefusedScriptReports(site: Site, s: Scene, modifiers: set<Modifier>, answers: Answers)
    requires Ready(s) && !Opens(answers.leg)
    requires var line := Trim(s.view.composer); !StartsWith(line, ":smoke") && !StartsWith(line, ":asset")
    ensures var line, t := Trim(s.view.composer), After(site, s, Press(Enter, modifiers, answers));
      var facts := FactLines(s, s.session.value.agent, site.socket);
      var text := "dekopon-console: " + "open broker session for a shell command" + " failed\n" + (facts + facts)
                  + "error: " + Why(answers.leg);
      && t.view == s.view.(composer := "") && t.session == s.session && t.labels == s.labels
      && t.desk == s.desk.(shell := s.desk.shell + [ShellEntry(line, text, Some(1), false)])
      && t.error.Some? && Display(t.error.value) == text
      && t.notice == Some(Notice(
           "[e: full error] " + "open broker session for a shell command" + " failed: " + Why(answers.leg), true))
  {
    hide Trim, After, Facts, Display, StartsWith, AssetReply, SmokeReply, FactLines, EchoOf, AssetLog;
    EnterSends(site, s, modifiers, answers);
    var cleared, line := s.(view := s.view.(composer := "")), Trim(s.view.composer);
    ScriptsAreEchoed(line, site.rules.config.smokeConversation);
    RefusedReads(site, cleared, answers.leg);
    SameLabels(s, cleared, s.session.value.agent, site.socket);
  }

  lemma RefusedReads(site: Site, s: Scene, leg: LegAnswer)
    requires s.session.Some? && !Opens(leg)
    ensures var facts := FactLines(s, s.session.value.agent, site.socket);
      Display(WithFacts(LegReport(leg, Facts(site, s)), Facts(site, s)))
      == "dekopon-console: " + "open broker session for a shell command" + " failed\n" + (facts + facts)
         + "error: " + Why(leg)
  {
    hide FactsOf, Display, ContextLines, Opens;
    var facts := Facts(site, s);
    FactsAreLines(s.labels.subject, s.session.value.agent, s.labels.profile, s.labels.scope, site.socket);
    ContextConcat(facts, facts);
    ReportReads("open broker session for a shell command", facts + facts, Why(leg));
    assert WithFacts(WithFacts(ErrorReport("open broker session for a shell command", [], Why(leg)), facts), facts)
        == WithFacts(ErrorReport("open broker session for a shell command", [], Why(leg)), facts + facts) by {
      assert [] + facts + facts == [] + (facts + facts);
    }
  }

  /** An `:asset` line is echoed by its label alone, with the exit code of its reply; one that is not spelled so far
      is refused on the status line. The literal is nowhere on the screen. */
  lemma SentAssetIsLabelled(site: Site, s: Scene, modifiers: set<Modifier>, answers: Answers)
    requires Ready(s) && StartsWith(Trim(s.view.composer), ":asset")
    ensures var line, t := Trim(s.view.composer), After(site, s, Press(Enter, modifiers, answers));
      var reply := AssetReply(line, answers.host, s.desk.log);
      var cleared := s.(view := s.view.(composer := ""));
      && t.desk.log == AssetLog(line, answers.host, s.desk.log)
      && t.(desk := s.desk, notice := s.notice) == cleared
      && if StartsWith(line, ":asset ") then
           && t.notice == None
           && t.desk.shell
              == s.desk.shell + [ShellEntry(":asset attach-base64 [input redacted]", reply.text,
                                            Some(if reply.ok then 0 else 1), false)]
         else
           && t.desk.shell == s.desk.shell
           && t.notice == Some(Notice(
                "unknown local asset command; use :asset attach-base64 --type <mime> <BASE64>", true))
  {
    hide Trim, After, Facts, AssetLog, AssetReply, StartsWith, SmokeReply, ScriptReply;
    var line := Trim(s.view.composer);
    EnterSends(site, s, modifiers, answers);
    SmokeIsNotAsset(line);
    if !StartsWith(line, ":asset ") {
      UnspelledIsUnknown(line, answers.host, s.desk.log);
    }
  }

  lemma UnspelledIsUnknown(line: string, host: Assets.Host, log: seq<Assets.Change>)
    requires !StartsWith(line, ":asset ")
    ensures AssetReply(line, host, log)
         == Reply(false, "unknown local asset command; use :asset attach-base64 --type <mime> <BASE64>")
  {
  }

  /** A `:smoke` line that quotes a text is echoed as it is, where recording is enabled, with what the broker
      answers; any other is refused on the status line. */
  lemma SentSmokeIsAnswered(site: Site, s: Scene, modifiers: set<Modifier>, answers: Answers, text: string)
    requires Ready(s) && Trim(s.view.composer) == ":smoke record '" + text + "'" && Utf8Length(text) <= 65536
    ensures var line, t := Trim(s.view.composer), After(site, s, Press(Enter, modifiers, answers));
      t == s.(
        view := s.view.(composer := ""),
        notice := if site.rules.config.smokeConversation then None
                  else Some(Notice("restart with --smoke-conversation to record a synthetic turn", true)),
        desk := if site.rules.config.smokeConversation then
                  var (shown, code) := (match answers.smoke
                    case Recorded(message, succeeded) => (message, if succeeded then 0 else 1)
                    case Unrecorded(error) => ("refused: " + error, 1));
                  s.desk.(shell := s.desk.shell + [ShellEntry(line, shown, Some(code), false)])
                else s.desk)
  {
    hide Trim, After, Facts, StartsWith, StripPrefix, Unquoted, Utf8Length, AssetReply, ScriptReply;
    EnterSends(site, s, modifiers, answers);
    QuotedIs(Trim(s.view.composer), text);
  }

  lemma QuotedIs(line: string, text: string)
    requires line == ":smoke record '" + text + "'"
    ensures StripPrefix(line, ":smoke record ") == Some("'" + text + "'") && Unquoted("'" + text + "'") == Some(text)
    ensures StartsWith(line, ":smoke")
  {
    assert line == ":smoke record " + ("'" + text + "'");
    assert line[..6] == ":smoke";
    assert ("'" + text + "'")[1..|text| + 1] == text;
  }

  // ---------------------------------------------------------------------------------------------
  // Arrivals

  /** A report completes the pending command in place. */
  lemma ReportArrives(site: Site, s: Scene, before: seq<ShellEntry>, echo: ShellEntry, entry: ShellEntry,
                      rest: seq<SessionEvent>, joined: JoinResult)
    requires s.desk.shell == before + [echo] && echo.exitCode.None?
    requires s.desk.running == Some(RunningTurn([ShellFinished(entry)] + rest, joined))
    ensures After(site, s, Arrived)
         == s.(desk := s.desk.(shell := before + [entry], running := Some(RunningTurn(rest, joined))))
  {
    assert ([ShellFinished(entry)] + rest)[1..] == rest;
    assert s.desk.shell[..|before|] == before;
  }

  /** Progress is said on the status line, and nothing else of the screen changes. */
  lemma ProgressArrives(site: Site, s: Scene, message: string, rest: seq<SessionEvent>, joined: JoinResult)
    requires s.desk.running == Some(RunningTurn([Progress(message)] + rest, joined))
    ensures After(site, s, Arrived)
         == s.(notice := Some(Notice(message, false)), desk := s.desk.(running := Some(RunningTurn(rest, joined))))
  {
    assert ([Progress(message)] + rest)[1..] == rest;
  }

  /** A task that returns after its report gives its history back, and that is all. */
  lemma TaskReturns(site: Site, s: Scene, returned: seq<string>)
    requires s.desk.running == Some(RunningTurn([], Returned(returned)))
    requires s.desk.shell != [] && s.desk.shell[|s.desk.shell| - 1].exitCode.Some?
    ensures After(site, s, Arrived) == s.(desk := s.desk.(running := None, memory := returned))
  {
  }

  /** A task that fails or dies after its report leaves the command as reported; the history lent to it is lost, and
      the report of the failure is the last error. */
  lemma FailedJoinIsRecorded(site: Site, s: Scene, joined: JoinResult)
    requires s.desk.running == Some(RunningTurn([], joined)) && !joined.Returned? && s.session.Some?
    requires s.desk.shell != [] && s.desk.shell[|s.desk.shell| - 1].exitCode.Some?
    ensures var t := After(site, s, Arrived);
      var what := if joined.TaskDied? then "run shell command (the shell task died)" else "run shell command";
      && t.view == s.view && t.session == s.session && t.labels == s.labels
      && t.desk == s.desk.(running := None) && t.error.Some?
      && Display(t.error.value)
         == "dekopon-console: " + what + " failed\n" + FactLines(s, s.session.value.agent, site.socket)
            + "error: " + joined.error
      && t.notice == Some(Notice("[e: full error] " + what + " failed: " + joined.error, true))
  {
    hide FactsOf, Display, ContextLines;
    var report := EndReport(joined);
    FactsAreLines(s.labels.subject, s.session.value.agent, s.labels.profile, s.labels.scope, site.socket);
    ReportReads(report.operation, Facts(site, s), report.error);
  }

  /** A command whose task ends without a report has exit code 1 and says how its task ended. */
  lemma SilentTaskReports(site: Site, s: Scene, before: seq<ShellEntry>, echo: ShellEntry, joined: JoinResult)
    requires s.desk.running == Some(RunningTurn([], joined)) && s.session.Some?
    requires s.desk.shell == before + [echo] && echo.exitCode.None?
    ensures var t := After(site, s, Arrived);
      var why := (match joined
                  case Returned(_) => "shell ended without reporting an outcome"
                  case SessionFailed(error) => error
                  case TaskDied(error) => error);
      var what := if joined.TaskDied? then "run shell command (the shell task died)" else "run shell command";
      var text := "dekopon-console: " + what + " failed\n" + FactLines(s, s.session.value.agent, site.socket)
                  + "error: " + why;
      && t.view == s.view && t.session == s.session && t.labels == s.labels
      && t.desk.shell == before + [echo.(output := text, exitCode := Some(1))]
      && t.desk.running == None
      && t.desk.memory == (if joined.Returned? then joined.history else s.desk.memory)
      && t.error.Some? && Display(t.error.value) == text
      && t.notice == Some(Notice("[e: full error] " + what + " failed: " + why, true))
  {
    hide FactsOf, Display, ContextLines;
    var report := EndReport(joined);
    FactsAreLines(s.labels.subject, s.session.value.agent, s.labels.profile, s.labels.scope, site.socket);
    ReportReads(report.operation, Facts(site, s), report.error);
    assert s.desk.shell[..|before|] == before;
  }

  /** Over any run: a line typed and entered, reported and joined, stands in the history with its own output and
      exit code, and the console is idle again as it was. */
  lemma TypedCommandRuns(
      site: Site, scenes: seq<Scene>, inputs: seq<Input>, i: nat, text: string, modifiers: set<Modifier>,
      answers: Answers, report: Report)
    requires Played(site, scenes, inputs) && i + |text| + 3 < |scenes|
    requires var n := i + |text|;
      && Types(inputs, i, text) && inputs[n] == Press(Enter, modifiers, answers)
      && inputs[n + 1] == Arrived && inputs[n + 2] == Arrived
    requires var s := scenes[i];
      && s.view.mode == Composing && s.desk.running.None? && s.session.Some?
      && var line := Trim(s.view.composer + text);
         line != "" && !StartsWith(line, ":smoke") && !StartsWith(line, ":asset")
    requires answers.leg.Granted? && answers.leg.capabilities > 0
    requires answers.task.report == Some(report) && answers.task.end == Clean
    ensures var s, t := scenes[i], scenes[i + |text| + 3];
      var entry := ShellEntry(Trim(s.view.composer + text), report.output, Some(report.exitCode), report.truncated);
      && t.view == s.view.(composer := "") && t.session == s.session && t.labels == s.labels && t.error == s.error
      && t.desk == Desk(s.desk.shell + [entry], None, s.desk.memory, Assets.Worked(s.desk.log, answers.task.provided))
  {
    hide After, Trim, StartsWith, Assets.Worked, Types;
    var s, n := scenes[i], i + |text|;
    TypedTextIsAppended(site, scenes, inputs, i, text);
    var line := Trim(s.view.composer + text);
    SentScriptRuns(site, scenes[n], modifiers, answers);
    assert scenes[n + 1] == After(site, scenes[n], inputs[n]);
    var entry := ShellEntry(line, report.output, Some(report.exitCode), report.truncated);
    assert [ShellFinished(entry)] + [] == [ShellFinished(entry)];
    var echo, joined := ShellEntry(line, "", None, false), Returned(s.desk.memory);
    ReportArrives(site, scenes[n + 1], s.desk.shell, echo, entry, [], joined);
    assert scenes[n + 2] == After(site, scenes[n + 1], inputs[n + 1]);
    TaskReturns(site, scenes[n + 2], s.desk.memory);
    assert scenes[n + 3] == After(site, scenes[n + 2], inputs[n + 2]);
  }

  // ---------------------------------------------------------------------------------------------
  // Browsing

  lemma BrowsingKeys(site: Site, s: Scene, modifiers: set<Modifier>, answers: Answers)
    requires s.view.mode == Browsing
    ensures After(site, s, Press(Char('q'), modifiers, answers)) == s.(view := s.view.(quit := true))
    ensures After(site, s, Press(Char('?'), modifiers, answers)) == s.(view := s.view.(mode := Help))
    ensures After(site, s, Press(Char('e'), modifiers, answers))
         == if s.error.Some? then s.(view := s.view.(mode := Error))
            else s.(notice := Some(Notice("no error to show", false)))
    ensures After(site, s, Press(Char('i'), modifiers, answers))
         == if s.view.pane == Shell then s.(view := s.view.(mode := Composing)) else s
    ensures After(site, s, Press(Esc, modifiers, answers))
         == if s.desk.running.Some? then
              s.(notice := Some(Notice(
                   "stopping at the next boundary; calls already sent to the broker still complete", false)))
            else s
  {
    hide Trim, HopLeaves, Sent;
  }

  /** Tab goes from the agents to the shell to the detail and round again; BackTab the other way. */
  lemma PanesGoRound(site: Site, s: Scene, modifiers: set<Modifier>, answers: Answers)
    requires s.view.mode == Browsing
    ensures After(site, s, Press(Tab, modifiers, answers))
         == s.(view := s.view.(pane := if s.view.pane == Agents then Shell
                                       else if s.view.pane == Shell then Detail else Agents))
    ensures After(site, s, Press(BackTab, modifiers, answers))
         == s.(view := s.view.(pane := if s.view.pane == Agents then Detail
                                       else if s.view.pane == Shell then Agents else Shell))
  {
    hide Trim, HopLeaves, Sent;
  }

  /** The arrows and their letters move the highlighted agent by one and stop at the ends. */
  lemma RowsMove(site: Site, s: Scene, modifiers: set<Modifier>, answers: Answers)
    requires s.view.mode == Browsing && s.view.row < |site.agents|
    requires Control !in modifiers
    ensures var next := if s.view.row + 1 < |site.agents| then s.view.row + 1 else s.view.row;
      var down := s.(view := s.view.(row := next));
      && After(site, s, Press(Down, modifiers, answers)) == down
      && After(site, s, Press(Char('j'), modifiers, answers)) == down
    ensures var up := s.(view := s.view.(row := if s.view.row > 0 then s.view.row - 1 else 0));
      && After(site, s, Press(Up, modifiers, answers)) == up
      && After(site, s, Press(Char('k'), modifiers, answers)) == up
  {
    hide Trim, HopLeaves, Sent;
  }

  /** Ctrl-C quits whatever is open; help closes on any other key, the error view on four of them alone. */
  lemma ClosingKeys(site: Site, s: Scene, key: KeyEvent, answers: Answers)
    ensures Control in key.modifiers && key.code == Char('c') ==>
      After(site, s, Pressed(key, answers)) == s.(view := s.view.(quit := true))
    ensures !(Control in key.modifiers && key.code == Char('c')) && s.view.mode == Help ==>
      After(site, s, Pressed(key, answers)) == s.(view := s.view.(mode := Browsing))
    ensures !(Control in key.modifiers && key.code == Char('c')) && s.view.mode == Error ==>
      After(site, s, Pressed(key, answers))
      == if key.code == Esc || key.code == Enter || key.code == Char('q') || key.code == Char('e') then
           s.(view := s.view.(mode := Browsing))
         else s
  {
    hide Trim, HopLeaves, Sent;
  }

  /** Keys that page change nothing here, and neither does any other key that means nothing. */
  lemma OtherKeysDoNothing(site: Site, s: Scene, key: KeyEvent, answers: Answers)
    requires !(Control in key.modifiers && key.code == Char('c'))
    ensures (s.view.mode == Composing || s.view.mode == Browsing) && s.view.pane == Shell
            && key.code in {PageUp, PageDown, Home, End} ==>
      After(site, s, Pressed(key, answers)) == s
    ensures s.view.mode == Composing && key.code.Char? && (Control in key.modifiers || Alt in key.modifiers) ==>
      After(site, s, Pressed(key, answers)) == s
    ensures s.view.mode == Composing && key.code in {Up, Down, Other} ==> After(site, s, Pressed(key, answers)) == s
    ensures s.view.mode == Browsing
            && (key.code in {Backspace, Other}
                || (key.code.Char? && key.code.c !in {'q', '?', 'e', 'i', 'j', 'k'})
                || (key.code == Enter && s.view.pane != Agents)) ==>
      After(site, s, Pressed(key, answers)) == s
  {
    hide Trim, HopLeaves, Sent;
  }

  /** The end of the keys quits; an event without a task, and anything else the terminal says, changes nothing. */
  lemma OtherInputs(site: Site, s: Scene)
    ensures After(site, s, KeysEnded) == s.(view := s.view.(quit := true))
    ensures After(site, s, Ignored) == s
    ensures s.desk.running.None? ==> After(site, s, Arrived) == s
  {
  }

  // ---------------------------------------------------------------------------------------------
  // Hops

  /** Enter over the agents is refused, with nothing else changed, while something runs, without agents, or where
      no identity resolves. */
  lemma HopIsRefused(site: Site, s: Scene, modifiers: set<Modifier>, answers: Answers)
    requires s.view.mode == Browsing && s.view.pane == Agents
    ensures var t := After(site, s, Press(Enter, modifiers, answers));
      && (s.desk.running.Some? ==>
            t == s.(notice := Some(Notice("stop the current turn before switching agents", true))))
      && (s.desk.running.None? && s.view.row >= |site.agents| ==>
            t == s.(notice := Some(Notice("the catalog contains no agents", true))))
      && (s.desk.running.None? && s.view.row < |site.agents| ==>
            var hop := Resolve(site.rules.config, site.rules.unbound, site.agents[s.view.row]);
            hop.Refused? ==> t == s.(notice := Some(Notice(hop.notice, true))))
  {
    hide Trim, Sent, Resolve, Entered;
  }

  /** Otherwise nothing of the old entry is left. Granted, the agent is entered as the resolved identity, with an
      empty history, desk and inventory; refused, the report says as whom and why. */
  lemma HopEnters(site: Site, s: Scene, modifiers: set<Modifier>, answers: Answers, identity: Identity)
    requires s.view.mode == Browsing && s.view.pane == Agents && s.desk.running.None? && s.view.row < |site.agents|
    requires Resolve(site.rules.config, site.rules.unbound, site.agents[s.view.row]) == As(identity)
    ensures var t, agent := After(site, s, Press(Enter, modifiers, answers)), site.agents[s.view.row];
      && t.desk == Desk([], None, [], [])
      && t.labels == Labels(identity.subject, identity.profile,
                            if site.rules.config.smokeConversation then "console-smoke" else "subject-only")
      && if answers.leg.Granted? && answers.leg.capabilities > 0 then
           && t.view == View(Composing, Shell, "", s.view.row, s.view.quit) && t.error == s.error
           && t.session == Some(Session(agent, answers.leg.capabilities))
           && t.notice == Some(Notice(
                agent + ": " + JsonWalk.Itoa(answers.leg.capabilities) + " capabilities granted", false))
         else
           && t.view == View(Error, Agents, "", s.view.row, s.view.quit) && t.session.None? && t.error.Some?
           && Display(t.error.value)
              == "dekopon-console: " + "open broker session" + " failed\n" + FactLines(t, agent, site.socket)
                 + "error: " + Why(answers.leg)
           && t.notice == Some(Notice(
                "[e: full error] " + "open broker session" + " failed: " + Why(answers.leg), true))
  {
    hide Trim, After, Resolve, Facts, Display, FactLines, EntryNotice, JsonWalk.Itoa;
    HopIsAsked(site, s, modifiers, answers);
    var agent, left := site.agents[s.view.row], Left(site, s, identity);
    if !Opens(answers.leg) {
      HopReads(site, left, agent, answers.leg);
    }
    assert FactLines(left, agent, site.socket) == FactLines(Entered(site, left, agent, answers.leg), agent, site.socket)
      by { SameLabels(left, Entered(site, left, agent, answers.leg), agent, site.socket); }
    GrantReads(left.labels.subject, agent, answers.leg);
  }

  lemma SameLabels(s: Scene, t: Scene, agent: string, socket: string)
    requires s.labels == t.labels
    ensures FactLines(s, agent, socket) == FactLines(t, agent, socket)
  {
  }

  lemma GrantReads(subject: string, agent: string, leg: LegAnswer)
    ensures Opens(leg) ==>
      EntryNotice(subject, Session(agent, leg.capabilities))
      == Notice(agent + ": " + JsonWalk.Itoa(leg.capabilities) + " capabilities granted", false)
  {
    hide JsonWalk.Itoa;
  }

  lemma HopIsAsked(site: Site, s: Scene, modifiers: set<Modifier>, answers: Answers)
    requires s.view.mode == Browsing && s.view.pane == Agents && s.desk.running.None?
    ensures After(site, s, Press(Enter, modifiers, answers)) == HopLeaves(site, s, answers.leg)
  {
    hide Trim, HopLeaves, Sent;
  }

  lemma HopReads(site: Site, s: Scene, agent: string, leg: LegAnswer)
    requires s.session.None? && s.view.row < |site.agents| && site.agents[s.view.row] == agent && !Opens(leg)
    ensures Display(WithFacts(ErrorReport("open broker session", [], LegError(leg)), Facts(site, s)))
         == "dekopon-console: " + "open broker session" + " failed\n" + FactLines(s, agent, site.socket)
            + "error: " + Why(leg)
  {
    hide FactsOf, Display, ContextLines;
    FactsAreLines(s.labels.subject, agent, s.labels.profile, s.labels.scope, site.socket);
    ReportReads("open broker session", Facts(site, s), Why(leg));
  }
}
