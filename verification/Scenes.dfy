/** The console as values: what a key, an event or a command makes of what is shown and of what lies on
    the desk. */
module Scenes {
  import opened Text
  import opened Record
  import opened AppState
  import opened Profiles
  import opened LegTrace
  import Assets
  import JsonWalk

  // ---------------------------------------------------------------------------------------------
  // What the world answers

  /** The broker on a leg: how many capabilities it grants, or its refusal. */
  datatype LegAnswer = Granted(capabilities: nat) | Refused(error: string)

  datatype JoinResult = Returned(history: seq<string>) | SessionFailed(error: string) | TaskDied(error: string)

  /** A shell task: what it reports before its channel closes, if anything, how it is joined, and what its
      providers did to the inventory meanwhile. */
  datatype Report = Report(output: string, exitCode: nat, truncated: bool)
  datatype TaskEnd = Clean | Fails(error: string) | Dies(error: string)
  datatype TaskAnswer = TaskAnswer(report: Option<Report>, end: TaskEnd, provided: seq<Assets.Provided>)

  datatype SmokeAnswer = Recorded(message: string, succeeded: bool) | Unrecorded(error: string)

  datatype Answers = Answers(
    leg: LegAnswer, task: TaskAnswer, smoke: SmokeAnswer, host: Assets.Host)

  // ---------------------------------------------------------------------------------------------
  // Keys

  datatype KeyCode =
    | Char(c: char) | Enter | Esc | Tab | BackTab | Backspace | Up | Down | PageUp | PageDown | Home | End | Other

  datatype Modifier = Control | Shift | Alt

  datatype KeyEvent = KeyEvent(code: KeyCode, modifiers: set<Modifier>)

  datatype Action = Hop | Run(line: string)

  // ---------------------------------------------------------------------------------------------
  // Refusals said on the status line

  const HOP_FIRST := "hop into an agent first"
  const BUSY_DISPATCH := "another command or turn is running; press Esc to stop it"
  const BUSY_KEY := "another command is running; press Esc to stop it"
  const BUSY_HOP := "stop the current turn before switching agents"
  const NO_AGENTS := "the catalog contains no agents"
  const SMOKE_OFF := "restart with --smoke-conversation to record a synthetic turn"
  const SMOKE_USAGE := "use :smoke record '<text>'"
  const SMOKE_UNKNOWN := "unknown local smoke command; use :smoke record '<text>'"
  const ASSET_UNKNOWN := "unknown local asset command; use :asset attach-base64 --type <mime> <BASE64>"
  const ASSET_USAGE := "use :asset attach-base64 --type <mime> <BASE64>"
  const ASSET_LABEL := ":asset attach-base64 [input redacted]"
  const NO_CAPABILITIES := "broker grants no capabilities for this context; no model call or command will be sent"

  /** Events of a shell task in flight: no ending of a model turn among them, and a report only for the
      command that is running. */
  predicate EventsFor(events: seq<SessionEvent>, history: seq<ShellEntry>) {
    && history != []
    && forall e :: e in events ==>
         && !e.Finished?
         && (e.ShellFinished? ==> e.entry.exitCode.Some? && e.entry.input == history[|history| - 1].input)
  }

  function StripPrefix(s: string, prefix: string): Option<string> {
    if StartsWith(s, prefix) then Some(s[|prefix|..]) else None
  }

  /** What stands between single quotes. */
  function Unquoted(s: string): Option<string> {
    if |s| >= 2 && s[0] == '\'' && s[|s| - 1] == '\'' then Some(s[1..|s| - 1]) else None
  }

  function SplitOnce(s: string, c: char): Option<(string, string)> {
    if s == "" then None
    else if s[0] == c then Some(("", s[1..]))
    else match SplitOnce(s[1..], c)
      case None => None
      case Some((before, after)) => Some(([s[0]] + before, after))
  }

  const MAX_SMOKE: nat := 65536

  function AttachedText(attached: Assets.Attached): string {
    match attached
    case Attached(id) => "chat-asset:" + JsonWalk.Itoa(id)
    case BadMime => "refused: invalid MIME type"
    case EncodedTooLong => "refused: encoded asset exceeds 1 MiB"
    case BadBase64 => "refused: invalid standard base64"
    case DecodedTooLong => "refused: decoded asset exceeds 512 KiB"
    case Unstored(message) => "refused: " + message
    case NoRoom => "refused: asset capacity exceeded"
  }

  function JoinOf(end: TaskEnd, previous: seq<string>): JoinResult {
    match end
    case Clean => Returned(previous)
    case Fails(error) => SessionFailed(error)
    case Dies(error) => TaskDied(error)
  }

  /** The channel and the join handle a spawned shell task leaves behind. */
  function TaskOf(line: string, answer: TaskAnswer, previous: seq<string>): RunningTurn {
    RunningTurn(
      match answer.report
        case None => []
        case Some(r) => [ShellFinished(ShellEntry(line, r.output, Some(r.exitCode), r.truncated))],
      JoinOf(answer.end, previous))
  }

  lemma TaskEventsFit(line: string, answer: TaskAnswer, previous: seq<string>, history: seq<ShellEntry>)
    requires history != [] && history[|history| - 1].input == line
    ensures EventsFor(TaskOf(line, answer, previous).events, history)
  {
  }

  /** What a shell task that reported nothing is reported as. */
  function EndReport(joined: JoinResult): ErrorReport {
    match joined
    case Returned(_) => ErrorReport("run shell command", [], "shell ended without reporting an outcome")
    case SessionFailed(error) => ErrorReport("run shell command", [], error)
    case TaskDied(error) => ErrorReport("run shell command (the shell task died)", [], error)
  }

  /** Ordinary editing of the composer. */
  function Typed(composer: string, key: KeyEvent): string {
    match key.code
    case Backspace => if composer == "" then "" else composer[..|composer| - 1]
    case Char(c) => if key.modifiers == {} || key.modifiers == {Shift} then composer + [c] else composer
    case _ => composer
  }

  /** What the loop waits for: a key with whatever the world answers to it, a session event, anything
      else the terminal says, or the end of either. */
  datatype Input = Pressed(key: KeyEvent, answers: Answers) | Arrived | Ignored | KeysEnded | TerminalLost

  /** What a caller sees of one command. */
  datatype Reply = Reply(ok: bool, text: string)

  /** The entry the command added, or the notice that refused it. */
  function ReplyOf(history: seq<ShellEntry>, before: nat, notice: Option<Notice>): Reply {
    if before < |history| then Reply(history[before].exitCode == Some(0), history[before].output)
    else Reply(false, match notice case None => "command refused" case Some(n) => n.text)
  }

  /** A `:smoke` line for which the broker is asked. */
  predicate SmokeAsks(line: string, enabled: bool) {
    var argument := StripPrefix(line, ":smoke record ");
    && argument.Some? && enabled
    && Unquoted(argument.value).Some? && Utf8Length(Unquoted(argument.value).value) <= MAX_SMOKE
  }

  /** A line whose dispatch awaits an answer of the broker. */
  predicate Asks(line: string, enabled: bool) {
    if StartsWith(line, ":smoke") then SmokeAsks(line, enabled) else !StartsWith(line, ":asset")
  }

  /** What a `:smoke` line is worth, by its text and the broker's answer alone. */
  function SmokeReply(line: string, enabled: bool, answer: SmokeAnswer): Reply {
    var argument := StripPrefix(line, ":smoke record ");
    if argument.None? then Reply(false, SMOKE_UNKNOWN)
    else if !enabled then Reply(false, SMOKE_OFF)
    else match Unquoted(argument.value)
      case None => Reply(false, SMOKE_USAGE)
      case Some(text) =>
        if Utf8Length(text) > MAX_SMOKE then Reply(false, "refused: smoke text exceeds 64 KiB")
        else match answer
          case Recorded(message, succeeded) => Reply(succeeded, message)
          case Unrecorded(error) => Reply(false, "refused: " + error)
  }

  /** The media type and the literal of a well-formed `:asset` line. */
  function AssetArguments(line: string): Option<(string, string)> {
    var command := StripPrefix(line, ":asset ");
    var arguments := if command.Some? then StripPrefix(command.value, "attach-base64 --type ") else None;
    if arguments.Some? then SplitOnce(arguments.value, ' ') else None
  }

  /** What an `:asset` line is worth, by its text, the decoder and the inventory's log alone. */
  function AssetReply(line: string, host: Assets.Host, log: seq<Assets.Change>): Reply {
    match AssetArguments(line)
    case None => Reply(false, if StartsWith(line, ":asset ") then "refused: " + ASSET_USAGE else ASSET_UNKNOWN)
    case Some((mime, encoded)) =>
      var attached := Assets.Outcome(log, mime, encoded, host);
      Reply(attached.Attached?, AttachedText(attached))
  }

  function AssetLog(line: string, host: Assets.Host, log: seq<Assets.Change>): seq<Assets.Change> {
    match AssetArguments(line)
    case None => log
    case Some((mime, encoded)) => Assets.AttachedLog(log, mime, encoded, host)
  }

  predicate Opens(leg: LegAnswer) {
    leg.Granted? && leg.capabilities > 0
  }

  /** Answered without a leg. */
  predicate IsLocal(line: string) {
    StartsWith(line, ":smoke") || StartsWith(line, ":asset")
  }

  /** The line gets a leg and a task of its own. */
  predicate Launches(line: string, answers: Answers) {
    !IsLocal(line) && Opens(answers.leg)
  }

  lemma SmokeIsNotAsset(line: string)
    requires StartsWith(line, ":asset")
    ensures !StartsWith(line, ":smoke")
  {
    assert line[..6][1] == 'a';
  }

  lemma LaunchesAsk(line: string, enabled: bool, answers: Answers)
    ensures Launches(line, answers) ==> Asks(line, enabled)
  {
    hide StartsWith;
  }

  /** What the history shows as the input of a line; nothing of a line refused on the status line. */
  function EchoOf(line: string, enabled: bool): seq<string> {
    if StartsWith(line, ":smoke") then
      var argument := StripPrefix(line, ":smoke record ");
      if argument.Some? && enabled && Unquoted(argument.value).Some? then [line] else []
    else if StartsWith(line, ":asset") then if StartsWith(line, ":asset ") then [ASSET_LABEL] else []
    else [line]
  }

  function LegError(leg: LegAnswer): string {
    if leg.Granted? then NO_CAPABILITIES else leg.error
  }

  /** What a script is reported as whose leg was refused: with the facts already, which are given once more
      where the report is recorded. */
  function LegReport(leg: LegAnswer, facts: seq<(string, string)>): ErrorReport {
    WithFacts(ErrorReport("open broker session for a shell command", [], LegError(leg)), facts)
  }

  /** What a script is worth: its own report, or the report of what kept it from having one. */
  function ScriptReply(answers: Answers, facts: seq<(string, string)>): Reply {
    if !Opens(answers.leg) then Reply(false, Display(WithFacts(LegReport(answers.leg, facts), facts)))
    else match answers.task.report
      case Some(r) => Reply(r.exitCode == 0, r.output)
      case None => Reply(false, Display(WithFacts(EndReport(JoinOf(answers.task.end, [])), facts)))
  }

  /** What a command is worth, by its line, the world's answers, who runs it and what the inventory holds. */
  function ReplyTo(
      line: string, enabled: bool, facts: seq<(string, string)>, answers: Answers, log: seq<Assets.Change>): Reply
  {
    if StartsWith(line, ":smoke") then SmokeReply(line, enabled, answers.smoke)
    else if StartsWith(line, ":asset") then AssetReply(line, answers.host, log)
    else ScriptReply(answers, facts)
  }

  /** What a command leaves in the inventory: an attachment of its own, or what its providers did. */
  function LogAfter(log: seq<Assets.Change>, line: string, answers: Answers): seq<Assets.Change> {
    if StartsWith(line, ":smoke") then log
    else if StartsWith(line, ":asset") then AssetLog(line, answers.host, log)
    else if Opens(answers.leg) then Assets.Worked(log, answers.task.provided)
    else log
  }

  datatype RunningTurn = RunningTurn(events: seq<SessionEvent>, joined: JoinResult)

  // ---------------------------------------------------------------------------------------------
  // What keys change

  /** What the operator edits. */
  datatype View = View(mode: Mode, pane: Pane, composer: string, row: nat, quit: bool)

  predicate IsCtrlC(key: KeyEvent) {
    Control in key.modifiers && key.code == Char('c')
  }

  /** Enter sends the composed line. */
  predicate Sends(v: View, busy: bool, hopped: bool) {
    v.mode == Composing && !busy && hopped && Trim(v.composer) != ""
  }

  function Composed(v: View, key: KeyEvent, busy: bool, hopped: bool): View {
    match key.code
    case Esc => if busy then v else v.(mode := Browsing, composer := "")
    case Tab => v.(mode := Browsing, pane := v.pane.Next())
    case BackTab => v.(mode := Browsing, pane := v.pane.Previous())
    case Enter => if Sends(v, busy, hopped) then v.(composer := "") else v
    case _ => v.(composer := Typed(v.composer, key))
  }

  function Browsed(v: View, key: KeyEvent, failed: bool, rows: nat): View {
    match key.code
    case Char('q') => v.(quit := true)
    case Char('?') => v.(mode := Help)
    case Char('e') => if failed then v.(mode := Error) else v
    case Char('i') => if v.pane == Shell then v.(mode := Composing) else v
    case Char('j') => if rows == 0 then v else v.(row := Moved(v.row, 1, rows))
    case Char('k') => if rows == 0 then v else v.(row := Moved(v.row, -1, rows))
    case Down => if rows == 0 then v else v.(row := Moved(v.row, 1, rows))
    case Up => if rows == 0 then v else v.(row := Moved(v.row, -1, rows))
    case Tab => v.(pane := v.pane.Next())
    case BackTab => v.(pane := v.pane.Previous())
    case _ => v
  }

  /** The view after a key; keys that only page change nothing of it. */
  function Keyed(v: View, key: KeyEvent, busy: bool, hopped: bool, failed: bool, rows: nat): View {
    if IsCtrlC(key) then v.(quit := true)
    else match v.mode
      case Help => v.(mode := Browsing)
      case Error => if key.code in {Esc, Enter, Char('q'), Char('e')} then v.(mode := Browsing) else v
      case Composing =>
        if v.pane == Shell && key.code in {PageUp, PageDown, Home, End} then v else Composed(v, key, busy, hopped)
      case Browsing =>
        if v.pane == Shell && key.code in {PageUp, PageDown, Home, End} then v else Browsed(v, key, failed, rows)
  }

  /** What a key asks the loop for. */
  function Emitted(v: View, key: KeyEvent, busy: bool, hopped: bool): Option<Action> {
    if key.code != Enter then None
    else if v.mode == Browsing && v.pane == Agents then Some(Hop)
    else if Sends(v, busy, hopped) then Some(Run(Trim(v.composer)))
    else None
  }

  lemma OnlyEnterActs(v: View, key: KeyEvent, busy: bool, hopped: bool)
    ensures var action := Emitted(v, key, busy, hopped);
      action.Some? ==> key.code == Enter && (action.value.Run? ==> hopped && !busy)
  {
    hide Trim;
  }

  /** Composing only ever happens in the shell pane, and an error is shown only when there is one. */
  predicate ModesFit(v: View, failed: bool) {
    (v.mode == Composing ==> v.pane == Shell) && (v.mode == Error ==> failed)
  }

  /** No key breaks the modes, and none loses composed text but a send, an idle Esc and editing. */
  lemma KeysKeepModes(v: View, key: KeyEvent, busy: bool, hopped: bool, failed: bool, rows: nat)
    requires ModesFit(v, failed)
    ensures var w := Keyed(v, key, busy, hopped, failed, rows);
      && ModesFit(w, failed) && (v.quit ==> w.quit)
      && (w.composer == v.composer
          || (v.mode == Composing && w.composer == Typed(v.composer, key))
          || (v.mode == Composing && w.composer == ""
              && (Emitted(v, key, busy, hopped).Some? || (key.code == Esc && !busy))))
      && (v.row < rows ==> w.row < rows)
  {
    hide Trim, Typed;
  }

  /** The status line after a key, before anything the key asks for is done. */
  function Said(
      v: View, key: KeyEvent, busy: bool, hopped: bool, failed: bool, notice: Option<Notice>): Option<Notice>
  {
    if IsCtrlC(key) || v.mode == Help || v.mode == Error then notice
    else if key.code == Esc && busy then Some(Notice(STOPPING, false))
    else if v.mode == Composing && key.code == Enter && busy then Some(Notice(BUSY_KEY, true))
    else if v.mode == Composing && key.code == Enter && !hopped then Some(Notice(HOP_FIRST, true))
    else if v.mode == Browsing && key.code == Char('e') && !failed then Some(Notice("no error to show", false))
    else notice
  }

  // ---------------------------------------------------------------------------------------------
  // What one step of the loop leaves

  /** What never changes: the configuration, the catalog and the broker's socket. */
  datatype Site = Site(rules: Rules, agents: seq<string>, socket: string)

  /** Whom the screen names as the one commands run as. */
  datatype Labels = Labels(subject: string, profile: Option<string>, scope: string)

  /** The shell's history, the task in flight, the history it will give back and the inventory's log. */
  datatype Desk = Desk(
    shell: seq<ShellEntry>, running: Option<RunningTurn>, memory: seq<string>, log: seq<Assets.Change>)

  datatype Scene = Scene(
    view: View, session: Option<Session>, labels: Labels, error: Option<ErrorReport>, notice: Option<Notice>,
    desk: Desk)

  function Facts(site: Site, s: Scene): seq<(string, string)> {
    var agent :=
      if s.session.Some? then s.session.value.agent
      else if s.view.row < |site.agents| then site.agents[s.view.row] else "";
    FactsOf(s.labels.subject, agent, s.labels.profile, s.labels.scope, site.socket)
  }

  lemma FactsIgnoreTheDesk(site: Site, s: Scene, desk: Desk)
    ensures Facts(site, s.(desk := desk)) == Facts(site, s)
  {
  }

  function Refuses(s: Scene, text: string): Scene {
    s.(notice := Some(Notice(text, true)))
  }

  /** A report is kept, and summed up on the status line. */
  function Records(s: Scene, report: ErrorReport): Scene {
    s.(error := Some(report), notice := Some(Notice(Summary(report), true)))
  }

  /** A line answered on the spot: with an entry of its own if it is echoed, else on the status line. */
  function AnsweredAs(s: Scene, echo: seq<string>, reply: Reply): Scene {
    if echo == [] then Refuses(s, reply.text)
    else
      var entry := ShellEntry(echo[0], reply.text, Some(if reply.ok then 0 else 1), false);
      s.(notice := None, desk := s.desk.(shell := s.desk.shell + [entry]))
  }

  lemma CompletedEcho(history: seq<ShellEntry>, line: string, entry: ShellEntry)
    ensures Completed(history + [Echo(line)], entry) == history + [entry]
  {
    assert (history + [Echo(line)])[..|history|] == history;
  }

  lemma FailedEcho(history: seq<ShellEntry>, line: string, report: ErrorReport)
    ensures FailedHistory(history + [Echo(line)], report)
         == history + [ShellEntry(line, Display(report), Some(1), false)]
  {
    hide Display, Completed;
    CompletedEcho(history, line, ShellEntry(line, Display(report), Some(1), false));
  }

  lemma ScriptsAreEchoed(line: string, enabled: bool)
    requires !IsLocal(line)
    ensures EchoOf(line, enabled) == [line]
  {
  }

  /** What the dispatch of a line to an idle session leaves: its own task in flight, or an answer. */
  function Ran(site: Site, s: Scene, line: string, answers: Answers): Scene {
    var facts, enabled, log := Facts(site, s), site.rules.config.smokeConversation, LogAfter(s.desk.log, line, answers);
    if Launches(line, answers) then
      var task := TaskOf(line, answers.task, s.desk.memory);
      s.(notice := None, desk := Desk(s.desk.shell + [Echo(line)], Some(task), [], log))
    else
      var answered := AnsweredAs(
        s.(desk := s.desk.(log := log)), EchoOf(line, enabled), ReplyTo(line, enabled, facts, answers, s.desk.log));
      if IsLocal(line) then answered else Records(answered, WithFacts(LegReport(answers.leg, facts), facts))
  }

  /** A line without an echo is refused. */
  lemma SilentMeansRefused(
      line: string, enabled: bool, facts: seq<(string, string)>, answers: Answers, log: seq<Assets.Change>)
    ensures EchoOf(line, enabled) == [] ==> IsLocal(line) && !ReplyTo(line, enabled, facts, answers, log).ok
  {
    hide ScriptReply, StartsWith, AssetReply;
    if EchoOf(line, enabled) == [] && !StartsWith(line, ":smoke") {
      NoArguments(line, answers.host, log);
    }
  }

  lemma NoArguments(line: string, host: Assets.Host, log: seq<Assets.Change>)
    requires !StartsWith(line, ":asset ")
    ensures !AssetReply(line, host, log).ok
  {
  }

  /** A dispatched line has its task in flight, or its reply already. */
  lemma RanReplies(site: Site, s: Scene, line: string, answers: Answers)
    ensures var t, facts := Ran(site, s, line, answers), Facts(site, s);
      var reply := ReplyTo(line, site.rules.config.smokeConversation, facts, answers, s.desk.log);
      if Launches(line, answers) then
        && t.desk.shell == s.desk.shell + [Echo(line)]
        && t.desk.running == Some(TaskOf(line, answers.task, s.desk.memory)) && reply == ScriptReply(answers, facts)
      else t.desk.running == s.desk.running && ReplyOf(t.desk.shell, |s.desk.shell|, t.notice) == reply
  {
    hide Facts, ReplyTo, TaskOf, EchoOf, Summary, LogAfter, LegReport;
    var facts, enabled := Facts(site, s), site.rules.config.smokeConversation;
    SilentMeansRefused(line, enabled, facts, answers, s.desk.log);
    if !IsLocal(line) {
      ScriptsReply(line, enabled, facts, answers, s.desk.log);
    }
  }

  lemma RanKeepsFacts(site: Site, s: Scene, line: string, answers: Answers)
    ensures Facts(site, Ran(site, s, line, answers)) == Facts(site, s)
  {
    hide FactsOf, ReplyTo, EchoOf, TaskOf, LegReport, Summary, LogAfter, Launches, IsLocal;
  }

  lemma ScriptsReply(
      line: string, enabled: bool, facts: seq<(string, string)>, answers: Answers, log: seq<Assets.Change>)
    requires !IsLocal(line)
    ensures ReplyTo(line, enabled, facts, answers, log) == ScriptReply(answers, facts)
  {
    hide ScriptReply;
  }

  /** The echo of an accepted line. */
  function Accepts(s: Scene, line: string): Scene {
    s.(notice := None, desk := s.desk.(shell := s.desk.shell + [Echo(line)]))
  }

  /** What dispatching a line leaves: dispatch has guards of its own. */
  function Sent(site: Site, s: Scene, line: string, answers: Answers): Scene {
    if s.session.None? then Refuses(s, HOP_FIRST)
    else if s.desk.running.Some? then Refuses(s, BUSY_DISPATCH)
    else Ran(site, s, line, answers)
  }

  lemma FactsOfAccepted(site: Site, s: Scene, line: string)
    ensures Facts(site, Accepts(s, line)) == Facts(site, s)
  {
  }

  /** A report becomes the outcome of the pending command, if there is one. */
  function FailsWith(site: Site, s: Scene, report: ErrorReport): Scene {
    var described := WithFacts(report, Facts(site, s));
    Records(s.(desk := s.desk.(shell := FailedHistory(s.desk.shell, described))), described)
  }

  /** A script is accepted first; then its task starts, or its refused leg becomes its outcome. */
  lemma RanInSteps(site: Site, s: Scene, line: string, answers: Answers)
    requires !IsLocal(line)
    ensures var accepted := Accepts(s, line);
      Ran(site, s, line, answers)
      == if Opens(answers.leg) then
           accepted.(desk := Desk(accepted.desk.shell, Some(TaskOf(line, answers.task, s.desk.memory)), [],
                                  Assets.Worked(s.desk.log, answers.task.provided)))
         else FailsWith(site, accepted, LegReport(answers.leg, Facts(site, accepted)))
  {
    hide TaskOf, FailedHistory, Facts, LegReport, EchoOf, Display, Summary, Assets.Worked, StartsWith;
    var facts := Facts(site, s);
    FactsOfAccepted(site, s, line);
    ScriptsAreEchoed(line, site.rules.config.smokeConversation);
    FailedEcho(s.desk.shell, line, WithFacts(LegReport(answers.leg, facts), facts));
  }

  /** What one event of a task leaves. */
  function Took(s: Scene, turn: RunningTurn): Scene
    requires turn.events != []
  {
    var rest := s.(desk := s.desk.(running := Some(RunningTurn(turn.events[1..], turn.joined))));
    match turn.events[0]
    case ShellFinished(entry) => rest.(desk := rest.desk.(shell := Completed(s.desk.shell, entry)))
    case Progress(message) => rest.(notice := Some(Notice(message, false)))
    case _ => rest
  }

  /** What joining a task leaves: a history given back, or a report; and no command without an outcome. */
  function Settled(site: Site, s: Scene, joined: JoinResult): Scene {
    var memory := if joined.Returned? then joined.history else s.desk.memory;
    var done := s.(desk := s.desk.(running := None, memory := memory));
    if joined.Returned? && !Pending(s.desk.shell) then done else FailsWith(site, done, EndReport(joined))
  }

  lemma SettledShell(site: Site, s: Scene, joined: JoinResult)
    ensures Settled(site, s, joined).desk.shell
         == FailedHistory(s.desk.shell, WithFacts(EndReport(joined), Facts(site, s)))
  {
    hide EndReport, Facts, Display, Summary;
    FactsIgnoreTheDesk(
      site, s, s.desk.(running := None, memory := if joined.Returned? then joined.history else s.desk.memory));
  }

  /** A failed command has its outcome. */
  lemma NothingPendsFailed(history: seq<ShellEntry>, report: ErrorReport)
    ensures !Pending(FailedHistory(history, report))
    ensures !Pending(history) ==> FailedHistory(history, report) == history
  {
    hide Display;
  }

  /** What the next event of a task leaves, or the end of its channel. */
  function Received(site: Site, s: Scene, turn: RunningTurn): Scene {
    if turn.events == [] then Settled(site, s, turn.joined) else Took(s, turn)
  }

  function LabelsOf(site: Site, identity: Identity): Labels {
    Labels(identity.subject, identity.profile,
           if site.rules.config.smokeConversation then "console-smoke" else "subject-only")
  }

  /** The old agent is gone, and the labels are those of the next identity. */
  function Left(site: Site, s: Scene, identity: Identity): Scene {
    s.(view := s.view.(mode := Browsing, composer := ""), session := None,
       labels := LabelsOf(site, identity), desk := Desk([], None, [], []))
  }

  /** What the broker's answer makes of that. */
  function Entered(site: Site, s: Scene, agent: string, leg: LegAnswer): Scene {
    if Opens(leg) then
      var session := Session(agent, leg.capabilities);
      s.(view := s.view.(mode := Composing, pane := Shell), session := Some(session),
         notice := Some(EntryNotice(s.labels.subject, session)))
    else
      Records(s.(view := s.view.(mode := Error)),
              WithFacts(ErrorReport("open broker session", [], LegError(leg)), Facts(site, s)))
  }

  /** As whom a hop goes on, or why it is refused before anyone is asked. */
  function Choice(site: Site, s: Scene): Hop {
    if s.desk.running.Some? then Hop.Refused(BUSY_HOP)
    else if s.view.row >= |site.agents| then Hop.Refused(NO_AGENTS)
    else Resolve(site.rules.config, site.rules.unbound, site.agents[s.view.row])
  }

  /** What a hop leaves: a refusal and nothing else changed, or nothing of the old entry. */
  function HopLeaves(site: Site, s: Scene, leg: LegAnswer): Scene {
    match Choice(site, s)
    case Refused(text) => Refuses(s, text)
    case As(identity) => Entered(site, Left(site, s, identity), site.agents[s.view.row], leg)
  }

  /** What a key leaves before anything it asks for is done. */
  function Touched(site: Site, s: Scene, key: KeyEvent): Scene {
    var busy, hopped, failed := s.desk.running.Some?, s.session.Some?, s.error.Some?;
    s.(view := Keyed(s.view, key, busy, hopped, failed, |site.agents|),
       notice := Said(s.view, key, busy, hopped, failed, s.notice))
  }

  /** One step of the loop. */
  function After(site: Site, s: Scene, input: Input): Scene {
    match input
    case Ignored => s
    case KeysEnded => s.(view := s.view.(quit := true))
    case TerminalLost => s
    case Arrived => if s.desk.running.None? then s else Received(site, s, s.desk.running.value)
    case Pressed(key, answers) =>
      match Emitted(s.view, key, s.desk.running.Some?, s.session.Some?)
      case None => Touched(site, s, key)
      case Some(Hop) => HopLeaves(site, Touched(site, s, key), answers.leg)
      case Some(Run(line)) => Sent(site, Touched(site, s, key), line, answers)
  }

  /** Scenes in a row, each what the next input makes of the one before; the last alone may have quit. */
  predicate Played(site: Site, scenes: seq<Scene>, inputs: seq<Input>) {
    && 0 < |scenes| <= |inputs| + 1
    && forall i :: 0 <= i < |scenes| - 1 ==>
         !scenes[i].view.quit && inputs[i] != TerminalLost && scenes[i + 1] == After(site, scenes[i], inputs[i])
  }

  // ---------------------------------------------------------------------------------------------
  // What runs of scenes keep

  /** The modes fit, a task in flight reports for the last command alone, and whoever is named on the screen is
      the identity its agent resolves to. */
  predicate Fits(site: Site, s: Scene) {
    && ModesFit(s.view, s.error.Some?)
    && (s.desk.running.Some? ==> s.session.Some? && EventsFor(s.desk.running.value.events, s.desk.shell))
    && (s.session.Some? ==>
          var hop := Resolve(site.rules.config, site.rules.unbound, s.session.value.agent);
          hop.As? && s.labels == LabelsOf(site, hop.identity))
  }

  /** The input is a hop that is not refused at once. */
  predicate Reenters(site: Site, s: Scene, input: Input) {
    && input.Pressed? && Emitted(s.view, input.key, s.desk.running.Some?, s.session.Some?) == Some(Hop)
    && Choice(site, Touched(site, s, input.key)).As?
  }

  /** Every entry is still there under its input, and an outcome stays as it was. */
  predicate Extends(before: seq<ShellEntry>, after: seq<ShellEntry>) {
    && |before| <= |after|
    && forall i :: 0 <= i < |before| ==>
         before[i].input == after[i].input && (before[i].exitCode.Some? ==> before[i] == after[i])
  }

  lemma TouchedFits(site: Site, s: Scene, key: KeyEvent)
    requires Fits(site, s)
    ensures Fits(site, Touched(site, s, key)) && Touched(site, s, key).desk == s.desk
  {
    hide Resolve, Keyed, Said, EventsFor, ModesFit;
    KeysKeepModes(s.view, key, s.desk.running.Some?, s.session.Some?, s.error.Some?, |site.agents|);
  }

  lemma CompletedExtends(history: seq<ShellEntry>, entry: ShellEntry)
    requires history != [] ==> entry.input == history[|history| - 1].input
    ensures Extends(history, Completed(history, entry))
  {
  }

  lemma TookFits(site: Site, s: Scene, turn: RunningTurn)
    requires Fits(site, s) && s.desk.running == Some(turn) && turn.events != []
    ensures Fits(site, Took(s, turn)) && Extends(s.desk.shell, Took(s, turn).desk.shell)
  {
    hide Resolve;
    var e := turn.events[0];
    assert e in turn.events;
    if e.ShellFinished? {
      CompletedExtends(s.desk.shell, e.entry);
    }
  }

  lemma SettledFits(site: Site, s: Scene, joined: JoinResult)
    requires Fits(site, s)
    ensures Fits(site, Settled(site, s, joined)) && Extends(s.desk.shell, Settled(site, s, joined).desk.shell)
  {
    hide Resolve, EndReport, Facts, Display, Summary, Completed, WithFacts, EventsFor;
    SettledShell(site, s, joined);
    var report := WithFacts(EndReport(joined), Facts(site, s));
    if Pending(s.desk.shell) {
      CompletedExtends(s.desk.shell, FailedEntry(s.desk.shell, report));
    }
  }

  lemma RanFits(site: Site, s: Scene, line: string, answers: Answers)
    requires Fits(site, s) && s.session.Some? && s.desk.running.None?
    ensures Fits(site, Ran(site, s, line, answers)) && Extends(s.desk.shell, Ran(site, s, line, answers).desk.shell)
  {
    hide Resolve, Facts, ReplyTo, EchoOf, TaskOf, LegReport, Summary, LogAfter, Launches, IsLocal, EventsFor;
    TaskEventsFit(line, answers.task, s.desk.memory, s.desk.shell + [Echo(line)]);
  }

  lemma SentFits(site: Site, s: Scene, line: string, answers: Answers)
    requires Fits(site, s)
    ensures Fits(site, Sent(site, s, line, answers)) && Extends(s.desk.shell, Sent(site, s, line, answers).desk.shell)
  {
    hide Ran, Resolve, EventsFor;
    if s.session.Some? && s.desk.running.None? {
      RanFits(site, s, line, answers);
    }
  }

  lemma HopFits(site: Site, s: Scene, leg: LegAnswer)
    requires Fits(site, s)
    ensures Fits(site, HopLeaves(site, s, leg))
    ensures Choice(site, s).Refused? ==> HopLeaves(site, s, leg).desk == s.desk
  {
    hide Resolve, Facts, EventsFor, Summary, EntryNotice;
  }

  /** Whatever the input, what is shown still fits; and unless it is a hop, no entry is lost and no outcome
      changes. */
  lemma {:induction false} StepFits(site: Site, s: Scene, input: Input)
    requires Fits(site, s)
    ensures var t := After(site, s, input);
      Fits(site, t) && (!Reenters(site, s, input) ==> Extends(s.desk.shell, t.desk.shell))
  {
    hide Fits, Touched, Emitted, Sent, HopLeaves, Choice, Took, Settled;
    match input {
      case Pressed(key, answers) =>
        TouchedFits(site, s, key);
        match Emitted(s.view, key, s.desk.running.Some?, s.session.Some?) {
          case None =>
          case Some(Hop) => HopFits(site, Touched(site, s, key), answers.leg);
          case Some(Run(line)) => SentFits(site, Touched(site, s, key), line, answers);
        }
      case Arrived =>
        if s.desk.running.Some? {
          var turn := s.desk.running.value;
          if turn.events == [] {
            SettledFits(site, s, turn.joined);
          } else {
            TookFits(site, s, turn);
          }
        }
      case KeysEnded => QuitFits(site, s);
      case Ignored =>
      case TerminalLost =>
    }
  }

  lemma QuitFits(site: Site, s: Scene)
    requires Fits(site, s)
    ensures Fits(site, s.(view := s.view.(quit := true)))
  {
    hide Resolve, EventsFor;
  }

  /** Over any run: what is shown fits at every moment, and from one hop to the next no entry of the history is
      lost and no outcome changes. */
  lemma {:induction false} RunsFit(site: Site, scenes: seq<Scene>, inputs: seq<Input>, i: nat, j: nat)
    requires Played(site, scenes, inputs) && Fits(site, scenes[0]) && i <= j < |scenes|
    ensures Fits(site, scenes[j])
    ensures (forall k :: i <= k < j ==> !Reenters(site, scenes[k], inputs[k])) ==>
      Extends(scenes[i].desk.shell, scenes[j].desk.shell)
    decreases j
  {
    hide Fits, After, Reenters;
    if i < j {
      RunsFit(site, scenes, inputs, i, j - 1);
      StepFits(site, scenes[j - 1], inputs[j - 1]);
    } else if 0 < j {
      RunsFit(site, scenes, inputs, j - 1, j - 1);
      StepFits(site, scenes[j - 1], inputs[j - 1]);
    }
  }
}
