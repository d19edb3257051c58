/** What the frames of a session say of its commands: which are ok, which are errors, and with what text. */
module Replies {
  import opened Text
  import AppState
  import opened Scenes
  import opened Structured
  import opened Frames
  import Operating
  import Assets
  import JsonWalk

  /** Command `i` was answered in time: its frame is a reply of its own. */
  predicate Served(s: Setting, exit: Exit, frames: seq<Frame>, i: nat) {
    i < |s.lines| && i + (if exit == CommandDeadline || exit == CommandLimit then 1 else 0) < |frames|
  }

  lemma ServedFrame(s: Setting, exit: Exit, frames: seq<Frame>, i: nat)
    requires Session(s, exit, frames) && Served(s, exit, frames, i)
    ensures frames[i] == FrameOf(s, i) && !Interrupts(s, i)
  {
    hide FrameOf, Interrupts, Body;
  }

  // ---------------------------------------------------------------------------------------------
  // Scripts

  /** A script that reports is framed with its own output, `ok` exactly when its exit code is 0. */
  lemma ReportedScriptIsFramed(s: Setting, exit: Exit, frames: seq<Frame>, i: nat, report: Report)
    requires Session(s, exit, frames) && Served(s, exit, frames, i)
    requires !StartsWith(s.lines[i], ":smoke") && !StartsWith(s.lines[i], ":asset")
    requires var answers := s.world.answers(i);
      answers.leg.Granted? && answers.leg.capabilities > 0 && answers.task.report == Some(report)
    ensures frames[i] == Frame(if report.exitCode == 0 then "ok" else "error", Body(s.nonce, report.output))
  {
    hide Session, Body, DeedsBefore, StartsWith, Interrupts;
    ServedFrame(s, exit, frames, i);
  }

  /** A script without a leg or without a report is an error, and its text says what failed, by whom and why. */
  lemma FailedScriptIsFramed(s: Setting, exit: Exit, frames: seq<Frame>, i: nat)
    requires Session(s, exit, frames) && Served(s, exit, frames, i)
    requires !StartsWith(s.lines[i], ":smoke") && !StartsWith(s.lines[i], ":asset")
    requires var answers := s.world.answers(i);
      !(answers.leg.Granted? && answers.leg.capabilities > 0) || answers.task.report.None?
    ensures var answers, facts := s.world.answers(i), AppState.ContextLines(s.facts);
      frames[i] == Frame("error", Body(s.nonce, match answers.leg
        case Refused(error) =>
          "dekopon-console: " + "open broker session for a shell command" + " failed\n" + (facts + facts)
          + "error: " + error
        case Granted(0) =>
          "dekopon-console: " + "open broker session for a shell command" + " failed\n" + (facts + facts)
          + "error: " + "broker grants no capabilities for this context; no model call or command will be sent"
        case Granted(_) =>
          match answers.task.end
          case Clean =>
            "dekopon-console: " + "run shell command" + " failed\n" + facts
            + "error: " + "shell ended without reporting an outcome"
          case Fails(error) => "dekopon-console: " + "run shell command" + " failed\n" + facts + "error: " + error
          case Dies(error) =>
            "dekopon-console: " + "run shell command (the shell task died)" + " failed\n" + facts + "error: " + error))
  {
    hide Session, Body, DeedsBefore, StartsWith, Interrupts, AppState.Display, AppState.ContextLines;
    ServedFrame(s, exit, frames, i);
    var answers := s.world.answers(i);
    if Opens(answers.leg) {
      var report := EndReport(JoinOf(answers.task.end, []));
      AppState.ReportReads(report.operation, s.facts, report.error);
    } else {
      var operation := "open broker session for a shell command";
      AppState.ReportReads(operation, s.facts + s.facts, LegError(answers.leg));
      AppState.ContextConcat(s.facts, s.facts);
      assert [] + s.facts + s.facts == [] + (s.facts + s.facts);
    }
  }

  // ---------------------------------------------------------------------------------------------
  // `:smoke`

  lemma QuotedWas(line: string)
    requires StripPrefix(line, ":smoke record ").Some?
    requires Unquoted(StripPrefix(line, ":smoke record ").value).Some?
    ensures line == ":smoke record '" + Unquoted(StripPrefix(line, ":smoke record ").value).value + "'"
  {
    var argument := StripPrefix(line, ":smoke record ").value;
    var text := Unquoted(argument).value;
    assert line == ":smoke record " + argument;
    assert argument == "'" + text + "'";
    assert ":smoke record " + "'" == ":smoke record '";
  }

  /** A `:smoke` line is `ok` exactly when it quotes a text of at most 64 KiB, recording is enabled, and the broker
      recorded it with success; and then, or where the broker answered otherwise, its frame shows that answer. */
  lemma SmokeIsFramed(s: Setting, exit: Exit, frames: seq<Frame>, i: nat)
    requires Session(s, exit, frames) && Served(s, exit, frames, i) && StartsWith(s.lines[i], ":smoke")
    ensures frames[i].status == "ok" || frames[i].status == "error"
    ensures frames[i].status == "ok" <==>
      && s.enabled && s.world.answers(i).smoke.Recorded? && s.world.answers(i).smoke.succeeded
      && exists text :: s.lines[i] == ":smoke record '" + text + "'" && Utf8Length(text) <= 65536
    ensures forall text :: s.lines[i] == ":smoke record '" + text + "'" && Utf8Length(text) <= 65536 && s.enabled ==>
      frames[i].body == Body(s.nonce, match s.world.answers(i).smoke
        case Recorded(message, _) => message
        case Unrecorded(error) => "refused: " + error)
  {
    hide Session, Body, DeedsBefore, StartsWith, Interrupts, StripPrefix, Unquoted, Utf8Length;
    ServedFrame(s, exit, frames, i);
    var line, argument := s.lines[i], StripPrefix(s.lines[i], ":smoke record ");
    if argument.Some? && Unquoted(argument.value).Some? {
      QuotedWas(line);
    }
    forall text | line == ":smoke record '" + text + "'"
      ensures argument == Some("'" + text + "'") && Unquoted("'" + text + "'") == Some(text)
    {
      Operating.QuotedIs(line, text);
    }
  }

  // ---------------------------------------------------------------------------------------------
  // `:asset`

  lemma {:induction false} SplitOnceIs(a: string, c: char, b: string)
    requires c !in a
    ensures SplitOnce(a + [c] + b, c) == Some((a, b))
  {
    var s := a + [c] + b;
    if a == "" {
      assert s[1..] == b;
    } else {
      assert s[1..] == a[1..] + [c] + b;
      SplitOnceIs(a[1..], c, b);
      assert [s[0]] + a[1..] == a;
    }
  }

  lemma {:induction false} SplitOnceWas(s: string, c: char)
    ensures match SplitOnce(s, c)
      case None => c !in s
      case Some((a, b)) => c !in a && s == a + [c] + b
  {
    if s != "" && s[0] != c {
      SplitOnceWas(s[1..], c);
      assert s == [s[0]] + s[1..];
    }
  }

  /** The line asks for a literal of a type. */
  predicate Attaches(line: string, mime: string, encoded: string) {
    ' ' !in mime && line == ":asset " + "attach-base64 --type " + mime + " " + encoded
  }

  lemma StripIs(prefix: string, rest: string)
    ensures StripPrefix(prefix + rest, prefix) == Some(rest)
  {
  }

  lemma StripWas(s: string, prefix: string)
    ensures match StripPrefix(s, prefix)
      case None => true
      case Some(rest) => s == prefix + rest
  {
  }

  lemma AttachesIff(line: string, mime: string, encoded: string)
    ensures AssetArguments(line) == Some((mime, encoded)) <==> Attaches(line, mime, encoded)
  {
    hide StripPrefix, SplitOnce, Attaches;
    if AssetArguments(line) == Some((mime, encoded)) {
      AttachesWas(line, mime, encoded);
    }
    if Attaches(line, mime, encoded) {
      AttachesIs(line, mime, encoded);
    }
  }

  lemma AttachesWas(line: string, mime: string, encoded: string)
    requires AssetArguments(line) == Some((mime, encoded))
    ensures Attaches(line, mime, encoded)
  {
    hide StripPrefix, SplitOnce;
    var command := StripPrefix(line, ":asset ").value;
    var arguments := StripPrefix(command, "attach-base64 --type ").value;
    StripWas(line, ":asset ");
    StripWas(command, "attach-base64 --type ");
    SplitOnceWas(arguments, ' ');
    assert line == ":asset " + ("attach-base64 --type " + (mime + " " + encoded));
  }

  lemma AttachesIs(line: string, mime: string, encoded: string)
    requires Attaches(line, mime, encoded)
    ensures AssetArguments(line) == Some((mime, encoded))
  {
    hide StripPrefix, SplitOnce;
    var arguments := mime + " " + encoded;
    assert line == ":asset " + ("attach-base64 --type " + arguments);
    StripIs(":asset ", "attach-base64 --type " + arguments);
    StripIs("attach-base64 --type ", arguments);
    SplitOnceIs(mime, ' ', encoded);
  }

  /** An `:asset` line is `ok` exactly when it attaches a literal of a valid type that stands for a blob there is room
      for. Then the inventory holds that blob, of that type and from the console, under the number its frame
      shows; else it is an error and the inventory is as it was. */
  lemma AssetIsFramed(s: Setting, exit: Exit, frames: seq<Frame>, i: nat)
    requires Session(s, exit, frames) && Served(s, exit, frames, i) && StartsWith(s.lines[i], ":asset")
    ensures var host, log, after := s.world.answers(i).host, DeedsBefore(s, i).log, DeedsBefore(s, i + 1).log;
      && (frames[i].status == "ok" || frames[i].status == "error")
      && (frames[i].status == "ok" <==>
            exists mime, encoded ::
              && Attaches(s.lines[i], mime, encoded) && Assets.ValidMime(mime)
              && Assets.Literal(encoded, host).Some? && Assets.Room(log, |Assets.Literal(encoded, host).value|))
      && (frames[i].status == "error" ==> after == log)
      && (frames[i].status == "ok" ==>
            forall mime, encoded :: Attaches(s.lines[i], mime, encoded) && Assets.Literal(encoded, host).Some? ==>
              var id, blob := Assets.InsertCount(log) + 1, Assets.Literal(encoded, host).value;
              && id in Assets.Contents(after)
              && Assets.Contents(after)[id]
                 == Assets.Item(Assets.Row(id, mime, Assets.Identity, |blob|, "console"), blob)
              && frames[i].body == Body(s.nonce, "chat-asset:" + JsonWalk.Itoa(id)))
  {
    hide Session, Body, DeedsBefore, Interrupts, StartsWith, AssetArguments, SmokeReply, ScriptReply, Attaches;
    hide Assets.ValidMime, Assets.Literal, Assets.Room, Assets.Outcome, Assets.AttachedLog, Assets.Contents;
    ServedFrame(s, exit, frames, i);
    SmokeIsNotAsset(s.lines[i]);
    DidAsset(s, i);
    var host, log := s.world.answers(i).host, DeedsBefore(s, i).log;
    forall mime, encoded
      ensures AssetArguments(s.lines[i]) == Some((mime, encoded)) <==> Attaches(s.lines[i], mime, encoded)
    {
      AttachesIff(s.lines[i], mime, encoded);
    }
    if AssetArguments(s.lines[i]).Some? {
      var (mime, encoded) := AssetArguments(s.lines[i]).value;
      AttachIs(log, mime, encoded, host);
    }
  }

  lemma DidAsset(s: Setting, i: nat)
    requires i < |s.lines| && StartsWith(s.lines[i], ":asset")
    ensures DeedsBefore(s, i + 1).log == AssetLog(s.lines[i], s.world.answers(i).host, DeedsBefore(s, i).log)
  {
    hide StartsWith, AssetLog, EchoOf;
    SmokeIsNotAsset(s.lines[i]);
  }

  lemma AttachIs(log: seq<Assets.Change>, mime: string, encoded: string, host: Assets.Host)
    ensures var a, after := Assets.Outcome(log, mime, encoded, host), Assets.AttachedLog(log, mime, encoded, host);
      && (a.Attached? <==> && Assets.ValidMime(mime) && Assets.Literal(encoded, host).Some?
                           && Assets.Room(log, |Assets.Literal(encoded, host).value|))
      && (!a.Attached? ==> after == log)
      && (a.Attached? ==>
            var id, blob := Assets.InsertCount(log) + 1, Assets.Literal(encoded, host).value;
            && a.id == id && id in Assets.Contents(after)
            && Assets.Contents(after)[id]
               == Assets.Item(Assets.Row(id, mime, Assets.Identity, |blob|, "console"), blob))
  {
    hide Assets.Outcome, Assets.AttachedLog, Assets.Contents, Assets.Room, Assets.ValidMime, Assets.InsertCount;
    Assets.AttachedIff(log, mime, encoded, host);
    if Assets.Outcome(log, mime, encoded, host).Attached? {
      Assets.AttachedIsFetched(log, mime, encoded, host);
    }
  }

  // ---------------------------------------------------------------------------------------------
  // The last frame

  /** The clock hits command `i`: while the broker is asked for a leg or to record a text, or while the task of a
      leg runs. */
  ghost predicate ClockHits(s: Setting, i: nat)
    requires i < |s.lines|
  {
    var line, answers := s.lines[i], s.world.answers(i);
    var script := !StartsWith(line, ":smoke") && !StartsWith(line, ":asset");
    if s.world.timing(i) == DuringDispatch then
      || script
      || (s.enabled && exists text :: line == ":smoke record '" + text + "'" && Utf8Length(text) <= 65536)
    else s.world.timing(i).DuringTask? && script && answers.leg.Granted? && answers.leg.capabilities > 0
  }

  lemma InterruptsIff(s: Setting, i: nat)
    requires i < |s.lines|
    ensures Interrupts(s, i) <==> ClockHits(s, i)
  {
    hide StartsWith, StripPrefix, Unquoted, Utf8Length;
    var line, argument := s.lines[i], StripPrefix(s.lines[i], ":smoke record ");
    if argument.Some? && Unquoted(argument.value).Some? {
      QuotedWas(line);
    }
    forall text | line == ":smoke record '" + text + "'"
      ensures argument == Some("'" + text + "'") && Unquoted("'" + text + "'") == Some(text)
              && StartsWith(line, ":smoke")
    {
      Operating.QuotedIs(line, text);
    }
    SmokePrefix(line);
  }

  lemma SmokePrefix(line: string)
    ensures StripPrefix(line, ":smoke record ").Some? ==> StartsWith(line, ":smoke")
  {
    if StripPrefix(line, ":smoke record ").Some? {
      assert line[..14][..6] == line[..6] && (":smoke record ")[..6] == ":smoke";
    }
  }

  /** A frame says timeout exactly when the clock hits its command, and then it is the last one. */
  lemma TimeoutIsFramedIff(s: Setting, exit: Exit, frames: seq<Frame>, i: nat)
    requires Session(s, exit, frames) && i < |s.lines| && i < |frames| && i < 64
    ensures frames[i].status == "timeout" <==> ClockHits(s, i)
    ensures ClockHits(s, i) ==>
      && exit == CommandDeadline && |frames| == i + 1
      && frames[i] == Frame("timeout", Body(s.nonce, "outcome unknown: the command timed out and may have run"))
  {
    hide Body, Interrupts, ClockHits, ReplyTo;
    InterruptsIff(s, i);
    var n := |frames| - |LastFrame(s.nonce, exit)|;
    if i >= n {
      assert frames[i] == frames[n..][i - n];
    }
  }

  /** Where the clock passes before a line is read, no frame more is written. */
  lemma LateReadEndsTheSession(s: Setting, exit: Exit, frames: seq<Frame>, i: nat)
    requires Session(s, exit, frames) && i <= 64 && s.world.readExpires(i) && |frames| >= i
    ensures |frames| == i && (exit == SessionDeadline || exit == CommandDeadline)
  {
    hide FrameOf, Body, Interrupts;
  }

  /** A session with more than 64 commands, none of them interrupted, ends by refusing the 65th. */
  lemma OverLimitIsFramed(s: Setting, exit: Exit, frames: seq<Frame>)
    requires Session(s, exit, frames) && |frames| > 64
    ensures exit == CommandLimit && |frames| == 65
    ensures frames[64] == Frame("error", Body(s.nonce, "command limit exceeded; command not run"))
  {
    hide FrameOf, Body, Interrupts;
    var n := |frames| - |LastFrame(s.nonce, exit)|;
    assert frames[64] == frames[n..][64 - n];
  }

  /** The text of a refused literal. */
  lemma RefusalsRead(message: string)
    ensures AttachedText(Assets.BadMime) == "refused: invalid MIME type"
    ensures AttachedText(Assets.EncodedTooLong) == "refused: encoded asset exceeds 1 MiB"
    ensures AttachedText(Assets.BadBase64) == "refused: invalid standard base64"
    ensures AttachedText(Assets.DecodedTooLong) == "refused: decoded asset exceeds 512 KiB"
    ensures AttachedText(Assets.Unstored(message)) == "refused: " + message
    ensures AttachedText(Assets.NoRoom) == "refused: asset capacity exceeded"
  {
  }
}
