/** One structured session: bounded lines in, dispatched one at a time, framed results out. */
module Structured {
  import opened Text
  import opened Record
  import opened AppState
  import opened LegTrace
  import opened Profiles
  import opened Scenes
  import opened EventLoop
  import Assets
  import JsonWalk
  import opened Frames
  import opened LineReader
  import Peer

  const MAX_COMMANDS: nat := 64
  const TIMED_OUT := "outcome unknown: the command timed out and may have run"
  const OVER_LIMIT := "command limit exceeded; command not run"

  /** Where the clock interrupts a command, if it does: while an answer of the broker is awaited, or
      after some events of its task, the last of these being its join. */
  datatype Timing = InTime | DuringDispatch | DuringTask(seen: nat)

  /** Everything a session does not decide itself. */
  datatype World = World(
    entry: LegAnswer, entryExpires: bool,
    answers: nat -> Answers, timing: nat -> Timing, readExpires: nat -> bool)

  datatype Exit =
    | Done
    | EntryDeadline
    | EntryRefused
    | SessionDeadline
    | InputFailed(error: LineResult)
    | CommandDeadline
    | CommandLimit

  // ---------------------------------------------------------------------------------------------
  // One command

  /** The history once some events are drained. */
  function Drained(history: seq<ShellEntry>, events: seq<SessionEvent>): seq<ShellEntry> {
    if events == [] then history
    else
      var before, e := Drained(history, events[..|events| - 1]), events[|events| - 1];
      if e.ShellFinished? then Completed(before, e.entry) else before
  }

  /** Drains a task's channel to its close, or until the clock interrupts. */
  method Drain(c: Console, limit: nat)
    requires c.Inv() && c.running.Some?
    modifies c`running, c`trace, c.app`shellHistory
    ensures c.Inv() && c.running.Some? && c.running.value.joined == old(c.running.value.joined)
    ensures limit >= |old(c.running.value.events)| ==>
      c.app.shellHistory == Drained(old(c.app.shellHistory), old(c.running.value.events))
    ensures old(c.trace) <= c.trace
  {
    hide Console.Inv, Completed, EventsFor;
    ghost var history, events := c.app.shellHistory, c.running.value.events;
    var seen := 0;
    assert events[..0] == [] && events[0..] == events;
    while c.running.value.events != [] && seen < limit
      invariant c.Inv() && c.running.Some? && c.running.value.joined == old(c.running.value.joined)
      invariant 0 <= seen <= |events| && c.running.value.events == events[seen..]
      invariant c.app.shellHistory == Drained(history, events[..seen])
      invariant old(c.trace) <= c.trace
      decreases |c.running.value.events|
    {
      var e := c.Pop();
      assert e == events[seen] && events[..seen + 1][..seen] == events[..seen];
      if e.ShellFinished? {
        c.Complete(e.entry);
      }
      seen := seen + 1;
    }
    assert seen == |events| ==> events[..seen] == events;
  }

  /** Awaits the running task to its join, unless the clock interrupts. */
  method Await(c: Console, timing: Timing) returns (timedOut: bool)
    requires c.Inv() && c.running.Some?
    modifies c`running, c`trace, c`history, c`open, c.stop`requested, c.stop`broker
    modifies c.app`shellHistory, c.app`notice, c.app`lastError, c.app`busy
    ensures timedOut == timing.DuringTask? && c.Inv() && (timedOut <==> c.running.Some?)
    ensures old(c.trace) <= c.trace
    ensures !timedOut ==>
      var turn := old(c.running).value;
      c.app.shellHistory
      == FailedHistory(Drained(old(c.app.shellHistory), turn.events), WithFacts(EndReport(turn.joined), c.app.Facts()))
  {
    hide Console.Inv, FailedHistory, Drained, App.Facts, Facts, EndReport, Settled;
    timedOut := timing.DuringTask?;
    Drain(c, if timedOut then timing.seen else |c.running.value.events|);
    if !timedOut {
      c.FactsShown();
      SettledShell(c.Place(), c.Shown(), c.running.value.joined);
      c.FinishTurn();
    }
  }

  /** Stops a timed-out task through its broker handle and joins it, by force past the grace. Only
      then is the binding released. */
  method CancelTurn(c: Console)
    requires if c.running.Some? then c.Inv() else Reaches(c.Given(), c.trace, c.Now())
    modifies c`running, c`trace, c.stop
    ensures c.running.None? && Reaches(c.Given(), c.trace, c.Now()) && old(c.trace) <= c.trace
    ensures c.stop.cancelled ==
      old(c.stop.cancelled) + if old(c.running).Some? then {|c.legs| - 1} else {}
    ensures old(c.running).Some? ==> !c.stop.requested && c.stop.broker.None?
  {
    hide Console.Inv, Reaches;
    if c.running.None? {
      return;
    }
    c.StopRunning();
    c.stop.Reset();
  }

  /** The clock really interrupts: only where the command awaits something. */
  predicate Expires(line: string, enabled: bool, answers: Answers, timing: Timing) {
    || (timing.DuringDispatch? && Asks(line, enabled))
    || (timing.DuringTask? && Launches(line, answers))
  }

  /** An `:asset` line is answered `ok` exactly when it is well formed, its type is valid, its literal stands
      for a blob and there is room; and then the inventory holds that very blob under the number answered.
      It is answered with the refusal of its type exactly when the type is invalid, or the host refuses the
      blob in just these words. */
  lemma AssetAnsweredIff(
      line: string, enabled: bool, facts: seq<(string, string)>, answers: Answers, log: seq<Assets.Change>)
    requires StartsWith(line, ":asset")
    ensures var r, arguments := ReplyTo(line, enabled, facts, answers, log), AssetArguments(line);
      && (r.ok <==>
            && arguments.Some? && Assets.ValidMime(arguments.value.0)
            && Assets.Literal(arguments.value.1, answers.host).Some?
            && Assets.Room(log, |Assets.Literal(arguments.value.1, answers.host).value|))
      && (!r.ok ==> LogAfter(log, line, answers) == log)
      && (r.ok ==>
            var after, id := LogAfter(log, line, answers), Assets.InsertCount(log) + 1;
            && r.text == AttachedText(Assets.Attached(id))
            && id in Assets.Contents(after)
            && Some(Assets.Contents(after)[id].blob) == Assets.Literal(arguments.value.1, answers.host))
      && (arguments.Some? ==>
            (r.text == AttachedText(Assets.BadMime) <==>
               || !Assets.ValidMime(arguments.value.0)
               || Assets.Outcome(log, arguments.value.0, arguments.value.1, answers.host)
                  == Assets.Unstored("invalid MIME type")))
  {
    hide Assets.Room, Assets.ValidMime, Assets.Contents, Assets.InsertCount, Assets.Literal, AssetArguments;
    hide Utf8Length, StripPrefix;
    SmokeIsNotAsset(line);
    if AssetArguments(line).Some? {
      var (mime, encoded) := AssetArguments(line).value;
      Assets.AttachedIff(log, mime, encoded, answers.host);
      TextsTellApart(Assets.Outcome(log, mime, encoded, answers.host));
    }
  }

  lemma TextsTellApart(a: Assets.Attached)
    ensures AttachedText(a) == AttachedText(Assets.BadMime) <==>
      a == Assets.BadMime || a == Assets.Unstored("invalid MIME type")
  {
    hide JsonWalk.Itoa;
    var text := AttachedText(a);
    if a.Attached? {
      assert text[0] == 'c';
    } else if a.Unstored? {
      UnstoredReads(a.message);
    } else if a != Assets.BadMime {
      assert AttachedText(Assets.BadMime)[9] == 'i';
      assert a == Assets.BadBase64 ==> text[17] == 's';
      assert AttachedText(Assets.BadMime)[17] == 'M';
    }
  }

  lemma UnstoredReads(message: string)
    ensures "refused: " + message == "refused: invalid MIME type" <==> message == "invalid MIME type"
  {
    assert ("refused: " + message)[9..] == message;
    assert "refused: invalid MIME type" == "refused: " + "invalid MIME type";
  }

  /** The reply of a script that got its leg is its own report however its task is joined, and without a
      report it says how it was joined. */
  lemma {:induction false} TaskReplies(line: string, answers: Answers, previous: seq<string>, history: seq<ShellEntry>,
                    facts: seq<(string, string)>, notice: Option<Notice>)
    requires Opens(answers.leg)
    ensures var task := TaskOf(line, answers.task, previous);
      var drained := Drained(history + [Echo(line)], task.events);
      ReplyOf(FailedHistory(drained, WithFacts(EndReport(task.joined), facts)), |history|, notice)
      == ScriptReply(answers, facts)
  {
    hide Display, FailedHistory, WithFacts, Drained, Completed, Pending, Opens;
    var task := TaskOf(line, answers.task, previous);
    var events, report := task.events, WithFacts(EndReport(task.joined), facts);
    DrainedFew(history + [Echo(line)], events);
    if answers.task.report.Some? {
      CompletedEcho(history, line, events[0].entry);
      LastHasOutcome(history, events[0].entry);
      NothingPendsFailed(history + [events[0].entry], report);
    } else {
      FailedEcho(history, line, report);
    }
  }

  lemma DrainedFew(history: seq<ShellEntry>, events: seq<SessionEvent>)
    requires |events| <= 1
    ensures Drained(history, events)
         == if events != [] && events[0].ShellFinished? then Completed(history, events[0].entry) else history
  {
    hide Completed;
    if events != [] {
      assert events[..|events| - 1] == [];
    }
  }

  lemma LastHasOutcome(history: seq<ShellEntry>, entry: ShellEntry)
    requires entry.exitCode.Some?
    ensures !Pending(history + [entry])
  {
  }

  /** What a session has done so far: the inputs its history shows, the legs it opened, those it cancelled,
      and its inventory. */
  datatype Deeds = Deeds(inputs: seq<string>, legs: nat, cancelled: set<nat>, log: seq<Assets.Change>)

  ghost function DeedsOf(c: Console): Deeds
    reads c, c.stop, c.app, c.app.assets
  {
    Deeds(c.inputs, |c.legs|, c.stop.cancelled, c.OnDesk().log)
  }

  /** What one command adds: its echo, its leg unless the caller gives up before, that leg's cancelling when
      the task is interrupted, and what it leaves in the inventory. */
  function Did(d: Deeds, line: string, enabled: bool, answers: Answers, timing: Timing): Deeds {
    var dropped := timing.DuringDispatch? && Asks(line, enabled);
    Deeds(
      d.inputs + (if dropped && StartsWith(line, ":smoke") then [] else EchoOf(line, enabled)),
      d.legs + (if Launches(line, answers) && !dropped then 1 else 0),
      d.cancelled + (if Launches(line, answers) && timing.DuringTask? then {d.legs} else {}),
      if dropped then d.log else LogAfter(d.log, line, answers))
  }

  /** A command is dispatched first; an interrupted task then costs the leg it had just opened. */
  lemma DidInSteps(d: Deeds, line: string, enabled: bool, answers: Answers, timing: Timing)
    ensures var begun := Did(d, line, enabled, answers, if timing.DuringDispatch? then DuringDispatch else InTime);
      Did(d, line, enabled, answers, timing)
      == if timing.DuringTask? && Launches(line, answers) && begun.legs > 0 then
           begun.(cancelled := begun.cancelled + {begun.legs - 1})
         else begun
  {
    hide StartsWith, EchoOf, SmokeAsks, LogAfter, Launches;
  }

  /** Whatever was opened was opened as the identity, agent and inventory that is here. */
  ghost predicate AllHere(c: Console)
    reads c, c.options, c.app
  {
    forall leg :: leg in c.legs ==> c.Here() == Some(leg)
  }

  /** Dispatches one command: answered at once, its task in flight, or given up while the broker is asked. */
  method Begin(c: Console, line: string, answers: Answers, cut: bool) returns (dropped: bool)
    requires c.Inv() && c.running.None? && c.app.session.Some? && AllHere(c)
    modifies c`running, c`history, c`handles, c`trace, c`inputs, c`legs, c`open, c.stop
    modifies c.app`busy, c.app`shellHistory, c.app`notice, c.app`lastError, c.app.assets
    ensures dropped <==> cut && Asks(line, c.options.config.smokeConversation)
    ensures if dropped then c.running.None? && Reaches(c.Given(), c.trace, c.Now()) else c.Inv()
    ensures c.running.Some? <==> Launches(line, answers) && !dropped
    ensures old(c.trace) <= c.trace && AllHere(c)
    ensures DeedsOf(c) == Did(old(DeedsOf(c)), line, c.options.config.smokeConversation, answers,
                              if cut then DuringDispatch else InTime)
    ensures !dropped ==> c.Shown() == Ran(c.Place(), old(c.Shown()).(notice := None), line, answers)
  {
    hide Console.Inv, Console.Here, Console.Now, Console.Shown, Console.OnDesk, Console.Seen;
    hide Reaches, Ran, Asks, EchoOf, LogAfter, StartsWith, IsLocal, Launches;
    c.IdleMeansComplete();
    c.SessionHere();
    LaunchesAsk(line, c.options.config.smokeConversation, answers);
    c.ClearNotice();
    dropped := c.Shell(line, answers, cut);
  }

  /** Awaits what was begun, if it is not answered already: the entry at the old length of the history is then
      this command's own. */
  method Finish(c: Console, line: string, answers: Answers, timing: Timing, ghost before: Scene)
    returns (timedOut: bool)
    requires c.Inv() && c.Shown() == Ran(c.Place(), before, line, answers) && before.desk.running.None?
    modifies c`running, c`trace, c`history, c`open, c.stop`requested, c.stop`broker
    modifies c.app`shellHistory, c.app`notice, c.app`lastError, c.app`busy
    ensures c.Inv() && old(c.trace) <= c.trace && (timedOut <==> c.running.Some?)
    ensures timedOut <==> timing.DuringTask? && Launches(line, answers)
    ensures !timedOut ==>
      ReplyOf(c.app.shellHistory, |before.desk.shell|, c.app.notice)
      == ReplyTo(line, c.options.config.smokeConversation, c.app.Facts(), answers, before.desk.log)
  {
    hide Console.Inv, Drained, TaskOf, FailedHistory, App.Facts, Facts, EndReport, ReplyTo, ScriptReply, ReplyOf, Ran;
    hide Launches;
    RanReplies(c.Place(), before, line, answers);
    RanKeepsFacts(c.Place(), before, line, answers);
    c.FactsShown();
    timedOut := false;
    if c.running.Some? {
      LaunchesOpen(line, answers);
      timedOut := Await(c, timing);
      TaskReplies(line, answers, before.desk.memory, before.desk.shell, c.app.Facts(), c.app.notice);
    }
  }

  lemma LaunchesOpen(line: string, answers: Answers)
    ensures Launches(line, answers) ==> Opens(answers.leg)
  {
  }

  /** Dispatches one command and awaits it. */
  method Command(c: Console, line: string, answers: Answers, timing: Timing) returns (timedOut: bool)
    requires c.Inv() && c.running.None? && c.app.session.Some? && AllHere(c)
    modifies c`running, c`history, c`handles, c`trace, c`inputs, c`legs, c`open, c.stop
    modifies c.app`busy, c.app`shellHistory, c.app`notice, c.app`lastError, c.app.assets
    ensures c.running.None? && Reaches(c.Given(), c.trace, c.Now()) && old(c.trace) <= c.trace
    ensures timedOut <==> Expires(line, c.options.config.smokeConversation, answers, timing)
    ensures !timedOut ==>
      && c.Inv()
      && ReplyOf(c.app.shellHistory, |old(c.app.shellHistory)|, c.app.notice)
         == ReplyTo(line, c.options.config.smokeConversation, c.app.Facts(), answers, old(c.OnDesk()).log)
    ensures DeedsOf(c) == Did(old(DeedsOf(c)), line, c.options.config.smokeConversation, answers, timing)
    ensures AllHere(c)
  {
    hide Console.Inv, Console.Here, Console.Now, App.Facts, Reaches, ReplyTo, ReplyOf, Did, Ran, Asks, Launches;
    LaunchesAsk(line, c.options.config.smokeConversation, answers);
    DidInSteps(DeedsOf(c), line, c.options.config.smokeConversation, answers, timing);
    ghost var before := c.Shown().(notice := None);
    timedOut := Begin(c, line, answers, timing.DuringDispatch?);
    if !timedOut {
      timedOut := Finish(c, line, answers, timing, before);
    }
    if timedOut {
      CancelTurn(c);
    } else {
      c.InvReaches();
    }
  }

  // ---------------------------------------------------------------------------------------------
  // The session

  /** What a session is about: who it names in its reports, its whole input, and everything it does not
      decide itself. */
  datatype Setting = Setting(
    nonce: string, enabled: bool, facts: seq<(string, string)>, lines: seq<string>, end: LineResult, world: World)

  function ReplyFrame(nonce: string, r: Reply): Frame {
    Frame(if r.ok then "ok" else "error", Body(nonce, r.text))
  }

  /** What the first `n` commands did; the inventory starts empty with the hop. */
  function DeedsBefore(s: Setting, n: nat): Deeds
    requires n <= |s.lines|
  {
    if n == 0 then Deeds([], 0, {}, [])
    else Did(DeedsBefore(s, n - 1), s.lines[n - 1], s.enabled, s.world.answers(n - 1), s.world.timing(n - 1))
  }

  /** The clock interrupts command `i`. */
  predicate Interrupts(s: Setting, i: nat)
    requires i < |s.lines|
  {
    Expires(s.lines[i], s.enabled, s.world.answers(i), s.world.timing(i))
  }

  /** The frame of command `i` awaited to its end: `ok` exactly when that command's own entry exited 0. */
  function FrameOf(s: Setting, i: nat): Frame
    requires i < |s.lines|
  {
    ReplyFrame(s.nonce, ReplyTo(s.lines[i], s.enabled, s.facts, s.world.answers(i), DeedsBefore(s, i).log))
  }

  /** The first `n` commands were read and answered in time. */
  predicate ServedInOrder(s: Setting, frames: seq<Frame>, n: nat) {
    && n <= |s.lines| && n <= |frames|
    && forall i :: 0 <= i < n ==> !s.world.readExpires(i) && !Interrupts(s, i) && frames[i] == FrameOf(s, i)
  }

  /** Why a session stops once `n` commands are answered in time. */
  predicate StopsAt(s: Setting, n: nat, exit: Exit) {
    match exit
    case Done => n == |s.lines| && n <= MAX_COMMANDS && !s.world.readExpires(n) && s.end == EndOfInput
    case InputFailed(error) =>
      n == |s.lines| && n <= MAX_COMMANDS && !s.world.readExpires(n) && s.end == error && error != EndOfInput
    case SessionDeadline => n <= |s.lines| && n <= MAX_COMMANDS && s.world.readExpires(n)
    case CommandDeadline => n < |s.lines| && n < MAX_COMMANDS && !s.world.readExpires(n) && Interrupts(s, n)
    case CommandLimit => n < |s.lines| && n == MAX_COMMANDS && !s.world.readExpires(n)
    case EntryDeadline => false
    case EntryRefused => false
  }

  /** The frame that is no command's own reply: nothing comes after it. */
  function LastFrame(nonce: string, exit: Exit): seq<Frame> {
    match exit
    case CommandDeadline => [Frame("timeout", Body(nonce, TIMED_OUT))]
    case CommandLimit => [Frame("error", Body(nonce, OVER_LIMIT))]
    case _ => []
  }

  /** What a peer may rely on, of the frames it decoded. */
  predicate Session(s: Setting, exit: Exit, frames: seq<Frame>) {
    var n := |frames| - |LastFrame(s.nonce, exit)|;
    && n >= 0 && frames[n..] == LastFrame(s.nonce, exit)
    && StopsAt(s, n, exit) && ServedInOrder(s, frames, n)
  }

  /** How many commands were dispatched: one for each frame, except that the line over the limit is refused
      unrun. */
  function Dispatched(exit: Exit, frames: seq<Frame>): int {
    |frames| - if exit == CommandLimit then 1 else 0
  }

  ghost predicate Written(out: Sink, nonce: string, frames: seq<Frame>)
    reads out
  {
    && out.lines == [ReadyMark(nonce)] + FramesLines(nonce, frames)
    && forall i :: 0 <= i < |frames| ==> Sound(nonce, frames[i])
  }

  method WriteFrame(out: Sink, nonce: string, status: string, text: string, ghost frames: seq<Frame>)
    requires Written(out, nonce, frames) && OneLine(status)
    modifies out
    ensures Written(out, nonce, frames + [Frame(status, Body(nonce, text))])
  {
    hide Body, Sound, FrameLines, FramesLines, OneLine;
    ghost var frame := Frame(status, Body(nonce, text));
    WriteResult(out, nonce, status, text);
    FramesLinesSnoc(nonce, frames, frame);
    WrittenFrameIsSound(nonce, status, text);
  }

  /** Reading one line takes exactly the next command off the input. */
  lemma NextCommand(input: seq<bv8>, decode: Decoder)
    ensures var (lines, end) := LineReader.Commands(input, decode);
      match NextLine(input, decode)
      case Line(text) =>
        lines != [] && lines[0] == text && LineReader.Commands(AfterLine(input), decode) == (lines[1..], end)
      case other => lines == [] && end == other
  {
  }

  /** The lines still to be read, and what ends them. */
  ghost predicate Ahead(input: BufReader, decode: Decoder, lines: seq<string>, end: LineResult)
    reads input
  {
    LineReader.Commands(input.Remaining(), decode) == (lines, end)
  }

  /** Reads the next command. */
  method NextInput(input: BufReader, decode: Decoder, ghost lines: seq<string>, ghost end: LineResult)
    returns (result: LineResult)
    requires Ahead(input, decode, lines, end)
    modifies input
    ensures if result.Line? then lines != [] && result.text == lines[0] && Ahead(input, decode, lines[1..], end)
            else lines == [] && end == result
  {
    hide LineReader.Commands, NextLine, AfterLine;
    NextCommand(input.Remaining(), decode);
    result := ReadLine(input, decode);
  }

  /** Dispatches one command and frames its reply. */
  method Answer(c: Console, out: Sink, nonce: string, line: string, answers: Answers, timing: Timing,
                ghost frames: seq<Frame>)
    returns (timedOut: bool, ghost frame: Frame)
    requires c.Inv() && c.running.None? && c.app.session.Some? && AllHere(c) && Written(out, nonce, frames)
    modifies c`running, c`history, c`handles, c`trace, c`inputs, c`legs, c`open, c.stop, out
    modifies c.app`busy, c.app`shellHistory, c.app`notice, c.app`lastError, c.app.assets
    ensures c.running.None? && Reaches(c.Given(), c.trace, c.Now()) && old(c.trace) <= c.trace
    ensures Written(out, nonce, frames + [frame])
    ensures timedOut <==> Expires(line, c.options.config.smokeConversation, answers, timing)
    ensures if timedOut then frame == Frame("timeout", Body(nonce, TIMED_OUT))
            else
              && c.Inv()
              && frame == ReplyFrame(nonce, ReplyTo(line, c.options.config.smokeConversation, c.app.Facts(), answers,
                                                    old(c.OnDesk()).log))
    ensures DeedsOf(c) == Did(old(DeedsOf(c)), line, c.options.config.smokeConversation, answers, timing)
    ensures AllHere(c)
  {
    hide Console.Inv, Reaches, Written, Body, ReplyTo, Expires, Did, ReplyOf, App.Facts, AllHere, DeedsOf;
    var before := |c.app.shellHistory|;
    timedOut := Command(c, line, answers, timing);
    if timedOut {
      WriteFrame(out, nonce, "timeout", TIMED_OUT, frames);
      frame := Frame("timeout", Body(nonce, TIMED_OUT));
    } else {
      var r := ReplyOf(c.app.shellHistory, before, c.app.notice);
      WriteFrame(out, nonce, if r.ok then "ok" else "error", r.text, frames);
      frame := ReplyFrame(nonce, r);
    }
  }

  lemma OneMore(s: Setting, frames: seq<Frame>, frame: Frame)
    requires ServedInOrder(s, frames, |frames|) && |frames| < |s.lines|
    ensures ServedInOrder(s, frames + [frame], |frames|)
    ensures !s.world.readExpires(|frames|) && !Interrupts(s, |frames|) && frame == FrameOf(s, |frames|) ==>
      ServedInOrder(s, frames + [frame], |frames| + 1)
  {
    hide Interrupts, FrameOf;
  }

  /** The console is the one the session was opened with, and has done what `n` commands do. */
  ghost predicate Matches(c: Console, s: Setting, here: Option<Leg>, n: int)
    reads c, c.stop, c.options, c.app, c.app.assets
  {
    && 0 <= n <= |s.lines| && DeedsOf(c) == DeedsBefore(s, n)
    && c.Here() == here && AllHere(c) && c.app.Facts() == s.facts && c.options.config.smokeConversation == s.enabled
  }

  /** Between two commands: `frames` are written and served, the rest of the input is ahead, and nothing
      runs. */
  ghost predicate Serving(c: Console, input: BufReader, out: Sink, decode: Decoder, s: Setting, frames: seq<Frame>,
                          here: Option<Leg>)
    reads c, c.stop, c.options, c.app, c.app.assets, c.app.conversation, input, out
  {
    var n := |frames|;
    && n <= |s.lines| && Written(out, s.nonce, frames) && Ahead(input, decode, s.lines[n..], s.end)
    && ServedInOrder(s, frames, n) && c.Inv() && c.running.None? && c.app.session.Some? && Matches(c, s, here, n)
  }

  /** The session is over, and no more was dispatched than its frames say. */
  ghost predicate Over(c: Console, out: Sink, s: Setting, exit: Exit, frames: seq<Frame>, here: Option<Leg>)
    reads c, c.stop, c.options, c.app, c.app.assets, out
  {
    && Written(out, s.nonce, frames) && Session(s, exit, frames)
    && c.running.None? && Reaches(c.Given(), c.trace, c.Now())
    && Matches(c, s, here, Dispatched(exit, frames))
  }

  /** Nothing more is read or run. */
  lemma OverNow(c: Console, out: Sink, s: Setting, exit: Exit, frames: seq<Frame>, here: Option<Leg>)
    requires Written(out, s.nonce, frames) && ServedInOrder(s, frames, |frames|) && StopsAt(s, |frames|, exit)
    requires exit != CommandDeadline && exit != CommandLimit
    requires c.Inv() && c.running.None? && Matches(c, s, here, |frames|)
    ensures Over(c, out, s, exit, frames, here)
  {
    hide Console.Inv, Console.Now, Reaches, Written, Matches, StopsAt, ServedInOrder;
    c.InvReaches();
    assert frames[|frames|..] == [];
  }

  /** One turn of the loop: reads a command, answers it, and either goes on or is over. */
  method ServeOne(c: Console, input: BufReader, out: Sink, decode: Decoder, ghost s: Setting, nonce: string,
                  world: World, i: nat, ghost frames: seq<Frame>, ghost here: Option<Leg>)
    returns (exit: Option<Exit>, ghost more: seq<Frame>)
    requires nonce == s.nonce && world == s.world
    requires Serving(c, input, out, decode, s, frames, here) && |frames| == i < MAX_COMMANDS
    modifies c`running, c`history, c`handles, c`trace, c`inputs, c`legs, c`open, c.stop, out, input
    modifies c.app`busy, c.app`shellHistory, c.app`notice, c.app`lastError, c.app.assets
    ensures exit.Some? ==> Over(c, out, s, exit.value, more, here)
    ensures exit.None? ==> |more| == i + 1 && Serving(c, input, out, decode, s, more, here)
  {
    hide Console.Inv, Console.Here, Console.Now, Console.OnDesk, App.Facts, AllHere, Reaches, Written, Ahead, Body;
    hide Did, ServedInOrder, Expires, ReplyTo;
    more := frames;
    if world.readExpires(i) {
      OverNow(c, out, s, SessionDeadline, frames, here);
      return Some(SessionDeadline), more;
    }
    var result := NextInput(input, decode, s.lines[i..], s.end);
    if !result.Line? {
      exit := Some(if result.EndOfInput? then Done else InputFailed(result));
      OverNow(c, out, s, exit.value, frames, here);
      return;
    }
    var timedOut, frame := Answer(c, out, nonce, result.text, world.answers(i), world.timing(i), frames);
    OneMore(s, frames, frame);
    more := frames + [frame];
    if timedOut {
      exit := Some(CommandDeadline);
      assert more[i..] == [frame];
    } else {
      assert s.lines[i..][1..] == s.lines[i + 1..];
      exit := None;
    }
  }

  /** Up to 64 commands, one after the other; None when all 64 were served. */
  method Serve(c: Console, input: BufReader, out: Sink, decode: Decoder, ghost s: Setting, nonce: string, world: World)
    returns (exit: Option<Exit>, ghost frames: seq<Frame>)
    requires nonce == s.nonce && world == s.world
    requires Serving(c, input, out, decode, s, [], c.Here())
    modifies c`running, c`history, c`handles, c`trace, c`inputs, c`legs, c`open, c.stop, out, input
    modifies c.app`busy, c.app`shellHistory, c.app`notice, c.app`lastError, c.app.assets
    ensures exit.Some? ==> Over(c, out, s, exit.value, frames, old(c.Here()))
    ensures exit.None? ==>
      |frames| == MAX_COMMANDS && Serving(c, input, out, decode, s, frames, old(c.Here()))
  {
    hide Over, Serving;
    frames, exit := [], None;
    ghost var here := c.Here();
    var i := 0;
    while i < MAX_COMMANDS
      invariant 0 <= i <= MAX_COMMANDS && |frames| == i
      invariant Serving(c, input, out, decode, s, frames, here)
    {
      exit, frames := ServeOne(c, input, out, decode, s, nonce, world, i, frames, here);
      if exit.Some? {
        return;
      }
      i := i + 1;
    }
    exit := None;
  }

  /** Past the last command: the input may end, but a further command is refused, not dropped, and not run. */
  method Close(input: BufReader, out: Sink, decode: Decoder, ghost s: Setting, nonce: string, world: World,
               ghost served: seq<Frame>)
    returns (exit: Exit, ghost frames: seq<Frame>)
    requires nonce == s.nonce && world == s.world
    requires |served| == MAX_COMMANDS && ServedInOrder(s, served, MAX_COMMANDS) && Written(out, nonce, served)
    requires |s.lines| >= MAX_COMMANDS && Ahead(input, decode, s.lines[MAX_COMMANDS..], s.end)
    modifies out, input
    ensures Written(out, nonce, frames) && Session(s, exit, frames)
    ensures served <= frames && Dispatched(exit, frames) == MAX_COMMANDS
  {
    hide Written, Ahead, FrameOf, Interrupts, ServedInOrder, Body;
    frames := served;
    if world.readExpires(MAX_COMMANDS) {
      return SessionDeadline, frames;
    }
    var result := NextInput(input, decode, s.lines[MAX_COMMANDS..], s.end);
    if result.EndOfInput? {
      return Done, frames;
    }
    if !result.Line? {
      return InputFailed(result), frames;
    }
    OneMore(s, frames, Frame("error", Body(nonce, OVER_LIMIT)));
    WriteFrame(out, nonce, "error", OVER_LIMIT, frames);
    frames := frames + [Frame("error", Body(nonce, OVER_LIMIT))];
    exit := CommandLimit;
  }

  /** The hop awaits the broker: an agent is highlighted and its identity resolves. */
  predicate HopAsks(rules: Rules, highlighted: Option<string>) {
    highlighted.Some? && !Resolve(rules.config, rules.unbound, highlighted.value).Refused?
  }

  /** The hop opens a session: it asks, and the broker grants something. */
  predicate Enters(rules: Rules, highlighted: Option<string>, entry: LegAnswer) {
    HopAsks(rules, highlighted) && Opens(entry)
  }

  /** Hops onto the highlighted agent, unless the clock interrupts. */
  method EnterAgent(c: Console, entry: LegAnswer, expires: bool) returns (timedOut: bool, entered: bool)
    requires c.Inv() && c.trace == []
    modifies c`history, c`trace, c`inventories, c.app, c.options
    ensures c.Inv() && c.running.None? && c.legs == [] && c.inputs == [] && c.stop.cancelled == {}
    ensures c.app.assets == null || fresh(c.app.assets)
    ensures timedOut <==> expires && HopAsks(c.Given(), old(c.app.HighlightedId()))
    ensures entered == c.app.session.Some? == c.Here().Some?
    ensures entered <==> !timedOut && Enters(c.Given(), old(c.app.HighlightedId()), entry)
    ensures entered ==>
      && c.OnDesk().log == [] && old(c.app.HighlightedId()) == Some(c.Here().value.agent)
      && Resolve(c.options.config, c.unbound, c.Here().value.agent) == As(c.Here().value.identity)
      && c.app.Facts() == Facts(c.Place(), HopLeaves(c.Place(), old(c.Shown()), entry))
  {
    hide Console.Inv, Reaches, Resolve, Facts, App.Facts;
    c.NothingYet();
    c.IdleMeansComplete();
    timedOut := c.HopIn(entry, expires);
    entered := c.app.session.Some?;
    c.SessionHere();
    c.FactsShown();
  }

  /** The peer's whole view, and the console's: what was written is READY and a stream that decodes to frames;
      they are a session over the whole input, and exactly its commands were dispatched. */
  ghost predicate Holds(c: Console, s: Setting, exit: Exit, data: string)
    reads c, c.stop, c.options, c.app, c.app.assets
  {
    var frames := Decode(s.nonce, data);
    && frames.Some? && Session(s, exit, frames.value)
    && data == "READY " + s.nonce + "\n" + Peer.OnTheWire(s.nonce, frames.value)
    && Matches(c, s, c.Here(), Dispatched(exit, frames.value))
  }

  lemma OverHolds(c: Console, out: Sink, s: Setting, exit: Exit, frames: seq<Frame>)
    requires Over(c, out, s, exit, frames, c.Here()) && OneLine(s.nonce)
    ensures c.running.None? && Reaches(c.Given(), c.trace, c.Now())
    ensures Holds(c, s, exit, out.Data()) && !exit.EntryDeadline? && !exit.EntryRefused?
  {
    hide Matches, ServedInOrder, Reaches, Sound, Decode, OneLine, FrameLines;
    FrameRoundTrip(s.nonce, frames);
    Peer.SessionOnTheWire(s.nonce, frames);
  }

  /** The whole structured session, for every input, every chunking of it and every world. */
  method Run(c: Console, input: BufReader, out: Sink, random: seq<bv8>, decode: Decoder, world: World)
    returns (exit: Exit)
    requires c.Inv() && c.trace == [] && out.lines == []
    modifies c, c.app, c.options, c.stop, c.app.assets, input, out
    ensures c.running.None? && Reaches(c.Given(), c.trace, c.Now())
    ensures |c.inputs| == LegTrace.Commands(c.trace, |c.trace|)
    ensures exit.EntryDeadline? <==> world.entryExpires && HopAsks(c.Given(), old(c.app.HighlightedId()))
    ensures exit.EntryRefused? <==>
      !exit.EntryDeadline? && !Enters(c.Given(), old(c.app.HighlightedId()), world.entry)
    ensures exit.EntryDeadline? || exit.EntryRefused? ==>
      && out.lines == [] && input.Remaining() == old(input.Remaining())
      && c.inputs == [] && c.legs == [] && c.stop.cancelled == {}
    ensures !exit.EntryDeadline? && !exit.EntryRefused? ==>
      && c.Here().Some? && old(c.app.HighlightedId()) == Some(c.Here().value.agent)
      && Resolve(c.options.config, c.unbound, c.Here().value.agent) == As(c.Here().value.identity)
      && var facts := Facts(c.Place(), HopLeaves(c.Place(), old(c.Shown()), world.entry));
         var (lines, end) := LineReader.Commands(old(input.Remaining()), decode);
         var s := Setting(Nonce(random), c.options.config.smokeConversation, facts, lines, end, world);
         Holds(c, s, exit, out.Data())
  {
    hide Console.Inv, Console.Here, Console.Now, Reaches, Resolve, Over, Serving, Holds;
    hide OneLine, Enters, HopAsks, Console.OnDesk, HopLeaves, Facts, App.Facts;
    var nonce := Nonce(random);
    var timedOut, entered := EnterAgent(c, world.entry, world.entryExpires);
    c.InvReaches();
    if !entered {
      InputsOfTrace(c);
      return if timedOut then EntryDeadline else EntryRefused;
    }
    ghost var (lines, end) := LineReader.Commands(input.Remaining(), decode);
    ghost var s := Setting(nonce, c.options.config.smokeConversation, c.app.Facts(), lines, end, world);
    out.WriteLine(ReadyMark(nonce));
    NotYet(c, input, out, decode, s);
    var ended, frames := Serve(c, input, out, decode, s, nonce, world);
    if ended.Some? {
      exit := ended.value;
    } else {
      exit, frames := CloseServed(c, input, out, decode, s, nonce, world, frames);
    }
    OverHolds(c, out, s, exit, frames);
    InputsOfTrace(c);
  }

  lemma InputsOfTrace(c: Console)
    requires Reaches(c.Given(), c.trace, c.Now())
    ensures |c.inputs| == LegTrace.Commands(c.trace, |c.trace|)
  {
    hide Legal, Next;
    InputsAreCommands(c.trace, |c.trace|);
  }

  lemma NotYet(c: Console, input: BufReader, out: Sink, decode: Decoder, s: Setting)
    requires c.Inv() && c.running.None? && c.app.session.Some? && c.OnDesk().log == []
    requires c.legs == [] && c.inputs == [] && c.stop.cancelled == {}
    requires out.lines == [ReadyMark(s.nonce)] && LineReader.Commands(input.Remaining(), decode) == (s.lines, s.end)
    requires s.facts == c.app.Facts() && s.enabled == c.options.config.smokeConversation
    ensures Serving(c, input, out, decode, s, [], c.Here())
  {
    hide Console.Inv, Console.Here, LineReader.Commands, Console.OnDesk, App.Facts;
    assert s.lines[0..] == s.lines;
  }

  /** The end of a session whose 64 commands were all served: the console is not touched any more. */
  method CloseServed(c: Console, input: BufReader, out: Sink, decode: Decoder, ghost s: Setting, nonce: string,
                     world: World, ghost served: seq<Frame>)
    returns (exit: Exit, ghost frames: seq<Frame>)
    requires nonce == s.nonce && world == s.world
    requires |served| == MAX_COMMANDS && Serving(c, input, out, decode, s, served, c.Here())
    modifies out, input
    ensures Over(c, out, s, exit, frames, c.Here())
  {
    hide Console.Inv, Console.Now, Reaches, Written, Ahead, Matches, Session, ServedInOrder;
    c.InvReaches();
    exit, frames := Close(input, out, decode, s, nonce, world, served);
  }

  // ---------------------------------------------------------------------------------------------
  // What a session amounts to

  /** Where no deadline passes, the input alone decides how a session ends and how many frames it has. */
  lemma {:induction false} CalmSession(s: Setting, exit: Exit, frames: seq<Frame>)
    requires Session(s, exit, frames)
    requires forall i :: s.world.timing(i) == InTime && !s.world.readExpires(i)
    ensures |frames| == if |s.lines| > MAX_COMMANDS then MAX_COMMANDS + 1 else |s.lines|
    ensures exit == if |s.lines| > MAX_COMMANDS then CommandLimit
                    else if s.end.EndOfInput? then Done else InputFailed(s.end)
  {
    hide FrameOf;
  }

  /** A session is decided by its input, the world and the nonce: how it ends, and every frame. */
  lemma {:induction false} SessionIsDecided(s: Setting, e: Exit, f: seq<Frame>, d: Exit, g: seq<Frame>)
    requires Session(s, e, f) && Session(s, d, g)
    ensures e == d && f == g
  {
    hide FrameOf, Interrupts, Body;
    var n, m := |f| - |LastFrame(s.nonce, e)|, |g| - |LastFrame(s.nonce, d)|;
    assert n == m && e == d;
    assert f == f[..n] + f[n..] && g == g[..n] + g[n..];
    assert f[..n] == g[..n];
  }

  function LaunchedBefore(s: Setting, n: nat): nat
    requires n <= |s.lines|
  {
    if n == 0 then 0
    else LaunchedBefore(s, n - 1) + if Launches(s.lines[n - 1], s.world.answers(n - 1)) then 1 else 0
  }

  function EchoedBefore(s: Setting, n: nat): seq<string>
    requires n <= |s.lines|
  {
    if n == 0 then [] else EchoedBefore(s, n - 1) + EchoOf(s.lines[n - 1], s.enabled)
  }

  /** Commands answered in time leave exactly their echoes, opened exactly the legs of those that launch, and
      cancelled nothing. */
  lemma {:induction false} InTimeDeeds(s: Setting, frames: seq<Frame>, n: nat)
    requires ServedInOrder(s, frames, n)
    ensures DeedsBefore(s, n) == Deeds(EchoedBefore(s, n), LaunchedBefore(s, n), {}, DeedsBefore(s, n).log)
    ensures LaunchedBefore(s, n) <= n && |EchoedBefore(s, n)| <= n
  {
    hide FrameOf, EchoOf, IsLocal, Opens, LogAfter;
    if n > 0 {
      InTimeDeeds(s, frames, n - 1);
      assert !Interrupts(s, n - 1);
      InTimeDid(DeedsBefore(s, n - 1), s.lines[n - 1], s.enabled, s.world.answers(n - 1), s.world.timing(n - 1));
    }
  }

  lemma InTimeDid(d: Deeds, line: string, enabled: bool, answers: Answers, timing: Timing)
    requires !Expires(line, enabled, answers, timing)
    ensures Did(d, line, enabled, answers, timing)
         == Deeds(d.inputs + EchoOf(line, enabled), d.legs + if Launches(line, answers) then 1 else 0, d.cancelled,
                  LogAfter(d.log, line, answers))
    ensures |EchoOf(line, enabled)| <= 1
  {
    hide StartsWith, StripPrefix, Unquoted, SmokeAsks, LogAfter;
  }

  /** An interrupted command has left its echo, if it is a script, and its cancelled leg, if its task ran. */
  lemma InterruptedDid(d: Deeds, line: string, enabled: bool, answers: Answers, timing: Timing)
    requires Expires(line, enabled, answers, timing)
    ensures var after, running := Did(d, line, enabled, answers, timing), timing.DuringTask?;
      && after.inputs == d.inputs + (if StartsWith(line, ":smoke") then [] else [line])
      && after.legs == d.legs + (if running then 1 else 0)
      && after.cancelled == d.cancelled + (if running then {d.legs} else {})
  {
    hide StartsWith, EchoOf, SmokeAsks, LogAfter;
    if !IsLocal(line) {
      ScriptsAreEchoed(line, enabled);
    }
  }

  /** A session dispatched exactly the commands answered in time, and the interrupted one: over all of it at
      most 64 legs are opened, one for each of its commands that launches and was not given up before, and
      nothing is cancelled but the leg of a task that is interrupted. */
  lemma {:induction false} SessionDeeds(s: Setting, exit: Exit, frames: seq<Frame>)
    requires Session(s, exit, frames)
    ensures var n := |frames| - |LastFrame(s.nonce, exit)|;
      var m := Dispatched(exit, frames);
      && n <= |s.lines| && 0 <= m <= |s.lines|
      && var deeds, running := DeedsBefore(s, m), exit == CommandDeadline && s.world.timing(n).DuringTask?;
         && deeds.legs == LaunchedBefore(s, n) + (if running then 1 else 0) <= MAX_COMMANDS
         && deeds.cancelled == (if running then {deeds.legs - 1} else {})
         && (exit != CommandDeadline ==> deeds.inputs == EchoedBefore(s, n))
         && (exit == CommandDeadline ==>
               deeds.inputs
               == EchoedBefore(s, n) + if StartsWith(s.lines[n], ":smoke") then [] else [s.lines[n]])
  {
    hide FrameOf, StartsWith, Body, LaunchedBefore, EchoedBefore, ServedInOrder, Did, Expires;
    var n := |frames| - |LastFrame(s.nonce, exit)|;
    InTimeDeeds(s, frames, n);
    if exit == CommandDeadline {
      InterruptedDid(DeedsBefore(s, n), s.lines[n], s.enabled, s.world.answers(n), s.world.timing(n));
    }
  }
}
