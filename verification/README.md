# A verified model of dekopon-console

`dekopon-console` is a terminal client of a broker: an operator hops into an agent, types shell
commands, and each command runs under an attested identity on a broker leg of its own. This project
models the parts of it that decide things, and proves what they promise over every input and every run.

| module | what it models |
|---|---|
| `Text`, `Limits` | characters, lines, splitting and trimming; the widths of the source's integers |
| `Frames`, `Peer` | the nonce-framed replies of a structured session, a peer's reader for them, and what a peer reads, said in characters |
| `LineReader` | bounded lines out of a byte stream that arrives in chunks of any size |
| `Structured`, `Replies` | a whole structured session: hop, READY, up to 64 commands, deadlines, the refused 65th; and which replies are `ok`, with what text |
| `Profiles` | authored profiles, startup, and the identity a hop resolves to |
| `AppState` | the console's state and the changes made to it |
| `LegTrace` | the order of events a run may go through, and what every such run guarantees |
| `Scenes`, `Operating` | the console as values: one function from what is shown and one input to what is shown next; and what an operator gets for keys and events, over runs |
| `EventLoop` | keys, hops, shell commands, their outcomes, Stop, and the loop over all of them |
| `Record`, `Transcript`, `Replay` | the recorder of scripts and calls, the fold that rebuilds them, and their inverse laws |
| `CallList` | every call of a conversation in document order, and when an index keeps its meaning |
| `Redactor`, `Credentials`, `JsonWalk`, `Hiding`, `Positions`, `Paths`, `Reveal` | finding credentials in text and what is found, walking a JSON value and what it draws over, the report of what was hidden, when its paths are unambiguous, and revealing it again |
| `Assets` | the bounded inventory of one agent entry |

What the source updates in place is a class with the source's fields: `App`, `Console` (the loop's
locals), `ConsoleOptions`, `StopFlag`, `Recorder`, `Turn`, `Conversation`, `ConsoleAssets`, `BufReader`,
`Sink`, the path buffer and the redaction list. Their methods are proved against functions of the old
state, and the laws are lemmas about those functions. Scanning and walking keep the source's loops,
each proved equal to a declarative rule.

## The main results

**A structured session, end to end** (`Structured.Run`). The session is refused exactly when no agent
is highlighted, its identity does not resolve, or the broker grants nothing. Otherwise, for every input
byte stream, every chunking, every answer of the broker and every choice of deadlines, the bytes
written are READY and a stream that a peer decodes to exactly one frame per accepted command, in input
order. The frame of a script is `ok` exactly when its own report exited 0, and shows that report's
output, or the report of what kept it from having one; the frame of an `:asset` line is decided by its
text, the host and what the inventory holds by then. A timeout frame is last, and appears exactly when
the clock interrupts something awaited. A well-formed 65th line gets an error frame and is not
dispatched: the inputs accepted, the legs opened, the legs cancelled and the inventory are exactly what
the commands of the session's own frames do (`DeedsBefore`), and all legs are opened as the identity,
agent and inventory of the one hop. `SessionDeeds` counts them: one leg for each command that launches,
at most 64, and nothing cancelled but the leg of a task that the clock interrupts. `SessionIsDecided`
closes it: one input, one world and one nonce leave no choice of exit or frames. What the frames say is
stated apart from the functions that make them (`Replies`): status and text of scripts that report, fail
or get no leg, exactly when a `:smoke` or an `:asset` line is `ok`, the timeout and the refused 65th; and
text without control characters and markers comes through unchanged (`Peer.CleanTextComesThrough`).

**Identity, outcomes and Stop over whole runs** (`LegTrace`, `EventLoop`). The console keeps a ghost
trace of its marks (hop, command, leg, stop, outcome, release). Every method proves that the trace
stays a run of a small machine whose phase is the real state: session, history, cancel handles. So the
lemmas about such runs hold of every console run: each leg is opened as what the last hop resolved to,
which is one function of configuration and agent; each command has exactly one outcome; a stop reaches
the leg that is open at that moment and no other.

**What is shown** (`Scenes`, `EventLoop`). `After` is one function from a scene (mode, pane, composer,
row, session, labels, last error, status line, history, task, inventory) and one input to the next
scene. `Drive` and `Operate` return the scenes of their run: each is exactly what its input makes of the
one before, and the real state at the end is that of the last. `RunsFit` says what follows for all runs:
the labels always name the identity the open agent resolves to, the modes fit, and between two hops no
entry of the history is lost and no outcome changes. `Operating` says what it means to an operator: a
text typed is the text appended, and `TypedCommandRuns` follows one from its first key through Enter,
the leg, the report and the join to its entry in the history.

**Inverses.** Written frames decode to themselves. Folding what the recorder emitted rebuilds the
scripts, calls and outcomes exactly when no ordinal repeats. Lines sent are the lines read.

**Redaction.** The scanner equals a rule about maximal runs, and finds nothing in its own output. A run
is hidden exactly when it begins as an issuer's token does before a long body, is three long bodies
between dots, or has 20 characters after a scheme word in any case and nothing but whitespace
(`Credentials.RunIsHiddenIff`). A key is secret exactly when it reads as one of eleven words. The
walk's report is exactly the hidden positions in document order. Key presses reveal them one by one
exactly when their paths are distinct.

## Where the documentation and the code differ

- The repository's README says output is bounded to 64 KiB per result. The code charges characters,
  not bytes, and charges no line terminators. `SentBodyFitsIff` gives the exact condition, in bytes of
  UTF-8; `BlankLinesAreFree` and `WideLinesAreUnderpaid` are two families of inputs that fail it.
- The comment on `App::calls` says a new call is always appended at the end, so that an index keeps
  naming the same call. `CallList.CursorStableIff` gives the exact condition for one event over all
  turns. `StrayCallsMoveTheCursor` and `UnendedTurnMovesTheCursor` break it, inside a turn and across
  turns; a recorded session streaming into the last turn never does (`CursorIsStable`).
- Redaction paths are said to name a field. Keys with dots and empty keys blur them:
  `DottedKeysCollide` and `EmptyKeysCollide` are two families of values where two redactions share one
  path. `PathsAgreeIff` says exactly when two positions of any value do: when their keys, empty ones at
  the front dropped and the rest cut at their dots, are the same pieces. `PathsAreDistinctIff` says so of
  a whole report, and `PlainPathsAreDistinct` follows for keys without dots and empty ones.

A default profile chooses only the subject startup shows, as documented, and does not bind the first
hop. `HopKeepsStartupIff` says exactly when a hop takes the identity startup computed.

## Assumptions

The redaction marker, the printed length of a JSON value, the UTF-8 decoder (section 4 of RFC 3629),
the base64 decoder (section 4 of RFC 4648), the host's refusal to store a blob and the random bytes of
the nonce are parameters, and the
theorems hold for all of them. `RedactionIsFinal` alone asks something of its marker: that it ends in a
character that is neither token nor whitespace and holds no token run of 20. `BracketedWordIsInert`
shows that such markers exist. The broker, the shell interpreter and the clock are answers that may be
anything: a leg or a refusal, a report or none, a task that ends, fails or dies, a deadline at any
point where something is awaited.

## Model

| member | source | states |
|---|---|---|
| `Structured.Run` | crates/dekopon-tui/src/structured.rs:150-278 | the whole session for every input, chunking and world: which of the entry deadline, the refusal and a session it is; nothing written, read or run unless the hop opens a session; otherwise READY and a stream decoding to one frame per accepted command in order, each answering its own command; timeout last; 65th refused; accepted inputs, legs, cancelled legs and inventory exactly those of the commands dispatched, so neither a refused 65th line nor anything after the last frame is run; all legs as the hop's identity |
| `Structured.SessionIsDecided` | crates/dekopon-tui/src/structured.rs:181-278 | input, world and nonce decide the exit and every frame |
| `Structured.SessionDeeds` | crates/dekopon-tui/src/structured.rs:181-278 | over a whole session: the inputs in the history are the echoes of the commands answered in time and of an interrupted script; one leg for each of them that launches and got as far, at most 64; nothing cancelled but the leg of an interrupted task |
| `Replies.ReportedScriptIsFramed` | crates/dekopon-tui/src/structured.rs:241-251 | a script that gets its leg and reports has a frame with its own output, `ok` exactly when its exit code is 0, else `error` |
| `Replies.FailedScriptIsFramed` | crates/dekopon-tui/src/structured.rs:241-251 | a script without a leg or a report has an `error` frame whose text names the operation, the facts and the reason |
| `Replies.SmokeIsFramed` | crates/dekopon-tui/src/run.rs:661-706 | a `:smoke` line is `ok` exactly when it quotes at most 64 KiB, recording is enabled and the broker recorded it with success; its frame shows the broker's answer |
| `Replies.AssetIsFramed` | crates/dekopon-tui/src/run.rs:707-738 | an `:asset` line is `ok` exactly when it attaches a literal of a valid type that stands for a blob there is room for; then the inventory holds that blob, of that type, from the console, under the number shown; else it is an `error` and the inventory is as it was |
| `Replies.RefusalsRead` | crates/dekopon-tui/src/session/assets.rs:82-101 | the text of each refused attachment |
| `Replies.TimeoutIsFramedIff` | crates/dekopon-tui/src/structured.rs:222-240 | a frame says timeout exactly when the clock hits its command, while the broker is asked or its task runs; it is then the last |
| `Replies.LateReadEndsTheSession` | crates/dekopon-tui/src/structured.rs:181-193 | where the clock passes before a line is read, no further frame is written |
| `Replies.OverLimitIsFramed` | crates/dekopon-tui/src/structured.rs:255-277 | a 65th frame is always the refusal of the line over the limit |
| `Structured.InTimeDeeds` | crates/dekopon-tui/src/structured.rs:198-251 | commands answered in time leave exactly their echoes and one leg for each that launches, and cancel nothing |
| `Structured.Serve` | crates/dekopon-tui/src/structured.rs:181-253 | at most 64 commands are read, dispatched and framed in input order, the inventory carried from one to the next; it stops early exactly for the end of input, a read error, a session deadline or a command deadline |
| `Structured.ServeOne` | crates/dekopon-tui/src/structured.rs:181-253 | one turn of that loop |
| `Structured.Close` | crates/dekopon-tui/src/structured.rs:255-277 | after 64 commands: end of input is success, a further line is framed as refused with no console in reach, a read error or deadline adds no frame |
| `Structured.Answer` | crates/dekopon-tui/src/structured.rs:195-253 | exactly one frame is written: the timeout frame exactly when the clock interrupts something awaited, else the command's own reply |
| `Structured.Command` | crates/dekopon-tui/src/structured.rs:198-240 | the reply is one function of the line, the world's answers, the facts of reports and the inventory; it times out exactly when the clock interrupts something awaited; afterwards the console owns no task, and accepted inputs, legs, cancelled legs and inventory changed exactly as this command changes them |
| `Structured.Finish` | crates/dekopon-tui/src/structured.rs:207-251 | the entry at the old length of the history, or the notice without one, is this command's own reply once its task is awaited |
| `Structured.AssetAnsweredIff` | crates/dekopon-tui/src/session/assets.rs:66-101 | an `:asset` line is `ok` exactly when type, sizes, decoder, host and inventory allow it, and then the inventory holds that blob under the number answered; the type's refusal appears exactly for an invalid type, or where the host refuses in the same words |
| `Structured.Drain` | crates/dekopon-tui/src/structured.rs:105-109 | draining applies every report of the channel to the pending entry, and nothing else |
| `Structured.Await` | crates/dekopon-tui/src/structured.rs:101-111 | drained, joined and settled, or interrupted with the task still owned |
| `Structured.CancelTurn` | crates/dekopon-tui/src/structured.rs:114-127 | a timed-out task is cancelled through its own handle only, given up, and the binding released |
| `Structured.TaskReplies` | crates/dekopon-tui/src/structured.rs:241-251 | a reported script is answered by its own report even when its task then fails; an unreported one by how its task was joined |
| `Structured.CalmSession` | crates/dekopon-tui/src/structured.rs:181-278 | without deadlines the input alone decides the exit and the number of frames |
| `Structured.EnterAgent` | crates/dekopon-tui/src/structured.rs:164-180 | the deadline ends it exactly when the hop awaits the broker and the clock expires; a session opens exactly when not so, an agent is highlighted, its identity resolves and the broker grants capabilities; then onto that agent, as that identity, with an empty inventory |
| `Frames.FrameRoundTrip` | crates/dekopon-tui/src/structured.rs:34-61 | any number of sound frames, written one after another, decode to exactly those frames |
| `Frames.WriteResult` | crates/dekopon-tui/src/structured.rs:34-61 | appends exactly one frame: RESULT with the status, the clipped escaped body, END |
| `Frames.WriteBody` | crates/dekopon-tui/src/structured.rs:41-58 | the decrementing loop writes the longest affordable prefix, and the truncation line exactly when the characters reach the budget |
| `Peer.CleanTextComesThrough` | crates/dekopon-tui/src/structured.rs:41-58 | text without control or bidirectional characters and without markers, below the budget, is shown as its own lines, and joining them gives it back |
| `Peer.BodyIsDrawn` | crates/dekopon-tui/src/structured.rs:41-58 | every shown line but the last is the sanitized piece, after `> ` exactly when that begins with READY, RESULT or END and the nonce; the truncation line appears exactly at 65536 characters; without it nothing is missing |
| `Peer.SessionOnTheWire` | crates/dekopon-tui/src/structured.rs:34-61 | the bytes of a session: READY and the nonce, then each frame between its RESULT and its END |
| `Frames.WrittenFrameIsSound` | crates/dekopon-tui/src/structured.rs:34-61 | a frame around arbitrary text can always be taken apart again |
| `Frames.BodyHoldsNoMarker` | crates/dekopon-tui/src/structured.rs:36-55 | no body line, even clipped, begins with READY, RESULT or END and the nonce, whatever text was printed |
| `Frames.ClippedIsLongestPrefix` | crates/dekopon-tui/src/structured.rs:41-55 | the shown lines are the longest prefix the budget pays for, whole but for the last, and a line is dropped only once the budget is spent |
| `Frames.BodyBudget` | crates/dekopon-tui/src/structured.rs:41-58 | shown characters never exceed 65536, and the truncation line appears exactly when the escaped lines total at least 65536 |
| `Frames.SentBodyFitsIff` | crates/dekopon-tui/src/structured.rs:41-58 | the documented bound holds of the bytes sent exactly when the escaped text in UTF-8, a byte for each terminator included, fits |
| `Frames.BlankLinesAreFree` | crates/dekopon-tui/src/structured.rs:41-55 | n newlines come back untruncated, so the sent text has no bound |
| `Frames.WideLinesAreUnderpaid` | crates/dekopon-tui/src/structured.rs:54-55 | a line of n wide characters is charged n and sent whole at its full width |
| `Text.WidthIsLeast` | crates/dekopon-tui/src/structured.rs:54-55 | the UTF-8 width is the least number of bytes a character fits into |
| `Frames.SanitizeLine` | crates/dekopon-tui/src/redact.rs:281-298 | one character out for one in: tabs and newlines as spaces, other control and bidirectional characters as the replacement character, all others kept |
| `Text.BidiCharactersAre` | crates/dekopon-tui/src/redact.rs:285-287 | the eleven bidirectional characters |
| `Frames.Nonce` | crates/dekopon-tui/src/structured.rs:28-32 | two digits a byte, on one line |
| `Frames.NonceDigits` | crates/dekopon-tui/src/structured.rs:28-32 | digits 2i and 2i + 1 are the high and the low half of byte i |
| `Peer.NonceIsHexadecimal` | crates/dekopon-tui/src/structured.rs:28-32 | read as hexadecimal, digits 2i and 2i + 1 are byte i |
| `Frames.NoncesTellBytes` | crates/dekopon-tui/src/structured.rs:28-32 | different random bytes never share a nonce |
| `LineReader.ReadLine` | crates/dekopon-tui/src/structured.rs:63-98 | whatever the chunks: the result is that of the remaining bytes alone, and a line consumes exactly itself and its newline |
| `LineReader.AcceptedIff` | crates/dekopon-tui/src/structured.rs:79-96 | a line is accepted exactly when, newline included, it is at most 16 KiB and valid text; longer it is too long, and otherwise invalid |
| `LineReader.LineIs` | crates/dekopon-tui/src/structured.rs:79-96 | a terminated line is too long past 16 KiB, its decoded text, or invalid text; the terminator's carriage return is not part of it, and what follows is left |
| `LineReader.UnendedIs` | crates/dekopon-tui/src/structured.rs:63-96 | without a newline the input is at its end, too long, or unterminated |
| `LineReader.SentLinesAreRead` | crates/dekopon-tui/src/structured.rs:63-98 | lines sent with either terminator are the lines read, then a clean end |
| `LegTrace.LegsFollowTheLastHop` | crates/dekopon-tui/src/run.rs:730-755 | every leg is opened with the identity, agent and inventory of the last hop, and that identity is the one its agent resolves to whatever came before |
| `LegTrace.InventoriesAreApart` | crates/dekopon-tui/src/run.rs:555-573 | no two hops share an inventory |
| `LegTrace.OneOutcomeEach` | crates/dekopon-tui/src/run.rs:254-300 | between a command and the next command or hop there is exactly one outcome, and it is that command's |
| `LegTrace.PendingUntilReported` | crates/dekopon-tui/src/app.rs:565-601 | a command pends until its outcome and has at most one |
| `LegTrace.OutcomesBalance` | crates/dekopon-tui/src/app.rs:565-601 | at every moment commands equal outcomes but for the one pending, and only the last entry may be pending |
| `LegTrace.InputsAreCommands` | crates/dekopon-tui/src/app.rs:565-575 | what was ever accepted is one input for each command, in their order |
| `LegTrace.StopReachesTheOpenLeg` | crates/dekopon-tui/src/session.rs:488-493 | a leg is cancelled exactly when a stop was asked for while it was the open one |
| `LegTrace.StopHitsOnlyTheCurrentLeg` | crates/dekopon-tui/src/session.rs:486-519 | a cancelled leg was stopped after its own opening with no release in between |
| `LegTrace.LegsStartUncancelled` | crates/dekopon-tui/src/run.rs:769-771 | no earlier stop reaches a new leg |
| `LegTrace.ReleasedLegsStayAsTheyWere` | crates/dekopon-tui/src/run.rs:284 | no later stop reaches a released leg |
| `LegTrace.MarkSettled` | crates/dekopon-tui/src/run.rs:261-300 | joining a task always leaves its command with an outcome and its leg released |
| `EventLoop.StopFlag.Request` | crates/dekopon-tui/src/session.rs:488-493 | fires the bound handle and no other |
| `EventLoop.StopFlag.Reset` | crates/dekopon-tui/src/session.rs:502-505 | clears the flag and drops the handle, cancelling nothing |
| `EventLoop.Console.constructor` | crates/dekopon-tui/src/run.rs:125-128 | a fresh console starts with the invariants, an empty trace and nothing running |
| `EventLoop.Console.Operate` | crates/dekopon-tui/src/run.rs:118-160 | from the first screen on, any keys, answers and events make a legal trace that ends in the real state, and a row of scenes starting with the one the startup hop leaves, each exactly what its input makes of the one before; the real state is that of the last scene, all inputs are used unless it quits or the terminal is lost, and then no task is owned |
| `EventLoop.Console.Drive` | crates/dekopon-tui/src/run.rs:166-216 | every input makes exactly the next scene, all are used unless the console quits or loses its terminal, and the running task is joined before it returns |
| `EventLoop.Console.Step` | crates/dekopon-tui/src/run.rs:190-214 | the scene that follows is one function of the scene and the input: view, session, labels, last error, status line, history, task and inventory |
| `Scenes.KeysKeepModes` | crates/dekopon-tui/src/run.rs:316-436 | no key breaks the modes, and none loses composed text but a send, an idle Esc and editing |
| `Operating.TypedTextIsAppended` | crates/dekopon-tui/src/run.rs:387-408 | over any run: while composing, keys that spell a text append exactly that text and change nothing else |
| `Text.TrimIs` | crates/dekopon-tui/src/run.rs:424-427 | trimming takes all whitespace off both ends and nothing else |
| `Text.WhitespaceCharactersAre` | crates/dekopon-tui/src/redact.rs:121-125 | the 25 characters that are white space |
| `Operating.BackspaceTakesTheLast` | crates/dekopon-tui/src/run.rs:402-404 | a backspace takes exactly the last character |
| `Operating.LeavingComposing` | crates/dekopon-tui/src/run.rs:387-401 | Esc stops what runs or gives the text up; Tab and BackTab leave for the detail and the agents |
| `Operating.NothingIsSent` | crates/dekopon-tui/src/run.rs:410-432 | Enter while busy, without an agent or on a blank line sends nothing, and says why in the first two cases |
| `Operating.SentScriptRuns` | crates/dekopon-tui/src/run.rs:723-806 | Enter sends the trimmed line: echoed without an outcome, its task in flight with its own report, end and the history lent to it |
| `Operating.RefusedScriptReports` | crates/dekopon-tui/src/run.rs:741-755 | a refused leg completes the entry with exit code 1 and a report of operation, facts and reason, kept as the last error |
| `Operating.SentAssetIsLabelled` | crates/dekopon-tui/src/run.rs:707-738 | an `:asset` line is echoed by its label alone |
| `Operating.SentSmokeIsAnswered` | crates/dekopon-tui/src/run.rs:661-706 | a quoted `:smoke` line is echoed with the broker's answer and its exit code, where recording is enabled |
| `Operating.TypedCommandRuns` | crates/dekopon-tui/src/run.rs:166-216 | over any run: a line typed, entered, reported and joined stands in the history with its own output and exit code, and the console is idle again as it was |
| `Operating.ReportArrives` | crates/dekopon-tui/src/run.rs:205-213 | a report completes the pending command in place |
| `Operating.ProgressArrives` | crates/dekopon-tui/src/run.rs:205-213 | progress is said on the status line alone |
| `Operating.TaskReturns` | crates/dekopon-tui/src/run.rs:254-266 | a task that returns after its report gives its history back |
| `Operating.SilentTaskReports` | crates/dekopon-tui/src/run.rs:254-300 | a task without a report leaves exit code 1 and a report of how it ended |
| `Operating.FailedJoinIsRecorded` | crates/dekopon-tui/src/run.rs:261-283 | a task that fails or dies after its report leaves the entry as reported and its failure as the last error |
| `Operating.BrowsingKeys` | crates/dekopon-tui/src/run.rs:361-384 | what q, ?, e, i and Esc do while browsing |
| `Operating.PanesGoRound` | crates/dekopon-tui/src/app.rs:46-63 | Tab goes from the agents to the shell to the detail and round again, BackTab the other way |
| `Operating.RowsMove` | crates/dekopon-tui/src/app.rs:337-344 | arrows and their letters move the highlighted agent by one and stop at the ends |
| `Operating.ClosingKeys` | crates/dekopon-tui/src/run.rs:316-345 | Ctrl-C quits from everywhere; help closes on any key, the error view on four |
| `Operating.OtherKeysDoNothing` | crates/dekopon-tui/src/run.rs:346-436 | paging keys and keys without a meaning change nothing |
| `Operating.OtherInputs` | crates/dekopon-tui/src/run.rs:190-214 | the end of the keys quits; anything else changes nothing |
| `Operating.HopIsRefused` | crates/dekopon-tui/src/run.rs:488-544 | Enter over the agents is refused with its reason and nothing else changed |
| `Operating.HopEnters` | crates/dekopon-tui/src/run.rs:545-580 | otherwise nothing of the old entry is left: the agent is entered as the resolved identity, or the report says as whom and why not |
| `Scenes.StepFits` | crates/dekopon-tui/src/run.rs:190-214 | whatever the input, modes, labels and the running task keep fitting; unless it is a hop, no entry is lost and no outcome changes |
| `Scenes.RunsFit` | crates/dekopon-tui/src/run.rs:166-216 | the same over any run: at every moment the labels name the identity the open agent resolves to, and from one hop to the next the history only grows |
| `Scenes.RanReplies` | crates/dekopon-tui/src/structured.rs:241-251 | after dispatch a line has its own task in flight, or what a caller sees of it is its reply already |
| `EventLoop.Console.IdleMeansComplete` | crates/dekopon-tui/src/run.rs:254-300 | busy exactly while a task is in flight; when idle every command has its outcome |
| `EventLoop.Console.OnKey` | crates/dekopon-tui/src/run.rs:316-385 | mode, pane, composer, row, quitting and the status line after a key, what it emits, and a stop asked for exactly by Esc over a running command; an emitted command passes dispatch's own guards; a refused submission keeps the composer |
| `EventLoop.Console.OnBrowsingKey` | crates/dekopon-tui/src/run.rs:361-384 | panes cycle, rows move, errors open and hops are asked for by their keys |
| `EventLoop.Console.OnComposingKey` | crates/dekopon-tui/src/run.rs:387-436 | editing, leaving to the next or previous pane, and submitting |
| `EventLoop.Console.Submit` | crates/dekopon-tui/src/run.rs:410-432 | a line is sent exactly when idle, hopped in and not blank, trimmed; otherwise the text stays |
| `EventLoop.Console.AskStop` | crates/dekopon-tui/src/app.rs:517-530 | asked exactly when busy, and cancels the open leg only |
| `EventLoop.Console.StopRunning` | crates/dekopon-tui/src/run.rs:219-226 | the running task is cancelled through its own handle and joined |
| `EventLoop.Console.Dispatch` | crates/dekopon-tui/src/run.rs:454-488 | a hop or a line leaves exactly the scene the functions for hops and lines say, dispatch's own refusals included |
| `EventLoop.Console.HopIn` | crates/dekopon-tui/src/run.rs:488-581 | refused early it changes nothing but the notice; otherwise the old agent is gone and the identity is the resolved one, whether the broker grants, refuses or is not waited for |
| `EventLoop.Console.ChooseIdentity` | crates/dekopon-tui/src/run.rs:499-544 | the settled identity equals one function of configuration and agent, or the refusal's own text |
| `EventLoop.Console.Reenter` | crates/dekopon-tui/src/run.rs:545-580 | the prior agent never stays usable under the new identity, even if the caller gives up while the broker is asked |
| `EventLoop.Console.OpenEntry` | crates/dekopon-tui/src/run.rs:555-573 | a fresh inventory, an empty history and a notice of what was granted for each entry |
| `EventLoop.Console.Shell` | crates/dekopon-tui/src/run.rs:649-807 | refused lines change nothing but the notice; otherwise the scene, the accepted input and the leg are exactly those of line and answers, and a caller that gives up leaves at most the echo |
| `EventLoop.Console.RunScript` | crates/dekopon-tui/src/run.rs:723-806 | one entry with the line as input; this line's task in flight and one leg exactly when the leg opens; otherwise the entry is completed as failed with the described report |
| `EventLoop.Console.Launch` | crates/dekopon-tui/src/run.rs:756-806 | Stop is bound to this command's own fresh leg before its task starts, and the flag is clear |
| `EventLoop.Console.RefuseLeg` | crates/dekopon-tui/src/run.rs:741-755 | a refused leg completes its own entry with the described report and exit code 1, keeps the report as the last error and sums it up |
| `EventLoop.Console.SmokeCommand` | crates/dekopon-tui/src/run.rs:661-706 | entry or notice, and the accepted input, are decided by the line, the option and the broker's answer |
| `EventLoop.Console.AssetCommand` | crates/dekopon-tui/src/run.rs:707-738 | entry or notice and the inventory's log are decided by the line, the host and the log before; only the label, never the literal, is accepted as input |
| `EventLoop.Console.Attach` | crates/dekopon-tui/src/run.rs:707-722 | only this entry's inventory changes, by exactly the blob it takes |
| `EventLoop.Console.SettleTurn` | crates/dekopon-tui/src/run.rs:254-300 | a command whose task returned silently, failed or died is completed once; a reported one is left as reported; the report is kept and summed up; the binding is released |
| `EventLoop.Console.FinishTurn` | crates/dekopon-tui/src/run.rs:240-251 | channel close joins and settles the task |
| `EventLoop.Console.Receive` | crates/dekopon-tui/src/run.rs:205-213 | one event, or the end of the channel, leaves exactly the scene it makes: progress on the status line, a report in the pending entry, the end settled |
| `AppState.App.StartShell` | crates/dekopon-tui/src/app.rs:565-575 | appends one pending echo |
| `AppState.App.FinishShell` | crates/dekopon-tui/src/app.rs:578-586 | completes the pending echo in place, or does nothing |
| `AppState.App.FailShell` | crates/dekopon-tui/src/app.rs:589-601 | completes the pending echo with the report and keeps its input |
| `AppState.App.Enter` | crates/dekopon-tui/src/app.rs:428-453 | replaces everything of the previous entry |
| `AppState.App.RequestStop` | crates/dekopon-tui/src/app.rs:517-530 | says whether there was anything to stop, says so on the status line, and marks the open turn alone |
| `AppState.App.OnSessionEvent` | crates/dekopon-tui/src/app.rs:491-497 | the event goes to the open turn, and the call list is only extended at its end exactly when the event brings no call before its end |
| `AppState.App.ListCalls` | crates/dekopon-tui/src/app.rs:352-362 | the nested loops list every call in document order |
| `CallList.TargetsExist` | crates/dekopon-tui/src/app.rs:352-381 | the list holds exactly the calls there are |
| `CallList.TargetsInOrder` | crates/dekopon-tui/src/app.rs:352-362 | in document order, each once |
| `AppState.App.RevealNext` | crates/dekopon-tui/src/app.rs:396-422 | reveals the first still-hidden field of the call under the cursor, or nothing |
| `AppState.App.MoveSelection` | crates/dekopon-tui/src/app.rs:337-344 | moves by the step asked for and stops at the nearer end |
| `AppState.Pane.Previous` | crates/dekopon-tui/src/app.rs:46-63 | undoes the forward cycle |
| `Profiles.ReadProfiles` | crates/dekopon-console/src/main.rs:454-496 | accepts exactly the documents with valid, uniquely named profiles and a default among them |
| `Profiles.ProfileIsValidIff` | crates/dekopon-console/src/main.rs:454-496 | valid names, a model not blank, 1 to 64 steps, 1 to 256 calls |
| `Profiles.StartupAgreesWithFirstHop` | crates/dekopon-console/src/main.rs:193-371 | whenever startup is accepted and names an agent, the first hop resolves to exactly the identity startup computed |
| `Profiles.StartupIsAcceptedIff` | crates/dekopon-console/src/main.rs:193-371 | startup is accepted exactly when profile, agent, subject, catalog and terminal fit together |
| `Profiles.RefusalsAreTrue` | crates/dekopon-console/src/main.rs:205-330 | every refusal of startup is for the reason it names |
| `Profiles.StartupChooses` | crates/dekopon-console/src/main.rs:198-245 | the profile named, else the only one bound to the named agent, else the default one |
| `Profiles.StartupCarries` | crates/dekopon-console/src/main.rs:230-371 | startup's identity carries its profile, command line first; without one it is the command line's with the defaults |
| `Profiles.HopKeepsStartupIff` | crates/dekopon-tui/src/run.rs:499-544 | for any agent the hop takes startup's identity exactly when no profiles are authored, or startup's own is bound to that agent and fixed or alone |
| `Profiles.HopTakesIff` | crates/dekopon-tui/src/run.rs:499-544 | with unique names a hop carries a profile exactly when that is bound to the agent and is the fixed or the only one |
| `Profiles.HopCarriesItsProfile` | crates/dekopon-tui/src/run.rs:525-537 | a hop not refused runs as an authored profile of its agent, with that profile's subject and name; model, steps and calls of the command line, else the profile's, else the defaults; or as startup's identity where no profile is authored |
| `Profiles.HopRefusedIff` | crates/dekopon-tui/src/run.rs:499-544 | refused exactly when the fixed profile is bound elsewhere, several are bound and none fixed, or none is bound; with that reason |
| `Profiles.AuthoredBoundsHold` | crates/dekopon-console/src/main.rs:454-496 | without overrides every identity is within its bounds and names a model |
| `Profiles.OneMatchIsAll` | crates/dekopon-tui/src/run.rs:514-524 | ambiguity is a property of the set of profiles, not of their order |
| `Profiles.DefaultProfileDoesNotBindTheHop` | crates/dekopon-console/src/main.rs:198-204 | a startup whose default profile the first hop refuses to choose |
| `Record.Recorder.NextSequence` | crates/dekopon-tui/src/record.rs:192-194 | each ordinal once, wrapping at 64 bits |
| `Record.Recorder.Invoke` | crates/dekopon-tui/src/record.rs:268-296 | one call event, numbered before the call runs |
| `Record.Recorder.RunScript` | crates/dekopon-tui/src/record.rs:317-341 | a start, the calls in order, and a finish under the start's ordinal |
| `Record.Recorder.RunSession` | crates/dekopon-tui/src/record.rs:317-341 | the whole stream of a list of scripts under one shared counter |
| `Transcript.Turn.Absorb` | crates/dekopon-tui/src/transcript.rs:156-209 | one event folded in place equals the fold's step, and tokens and status follow the event |
| `Transcript.Turn.CapabilityCalls` | crates/dekopon-tui/src/transcript.rs:134-136 | counts every recorded call |
| `Transcript.Conversation.Open` | crates/dekopon-tui/src/transcript.rs:232-235 | appends one running turn with the next ordinal |
| `Transcript.Conversation.RunningMut` | crates/dekopon-tui/src/transcript.rs:238-243 | the last running turn |
| `Transcript.Conversation.Absorb` | crates/dekopon-tui/src/transcript.rs:249-253 | scripts, status and tokens of the open turn change as the event says, and nothing else, stop marks and replay flags included; without one the event is dropped |
| `Transcript.Conversation.MarkReplayWindow` | crates/dekopon-tui/src/transcript.rs:259-264 | exactly the last remembered turns are inside |
| `Transcript.CallsAreConserved` | crates/dekopon-tui/src/transcript.rs:156-194 | for any events in any order the recorded calls grow by exactly the call events, as multisets |
| `Transcript.ReportsAreKept` | crates/dekopon-tui/src/transcript.rs:180-194 | no report is lost: it stands under its ordinal, started or not, until another under the same one |
| `Transcript.TokensAreSums` | crates/dekopon-tui/src/transcript.rs:74-98 | input and output tokens are the sums of what was reported, each held at 64 bits, and silent reports are counted up to 32 |
| `Replay.RecordedSessionRebuildsIff` | crates/dekopon-tui/src/transcript.rs:156-194 | folding the recorder's stream rebuilds every script exactly when no two scripts share an ordinal |
| `Replay.ShortSessionsAreDistinct` | crates/dekopon-tui/src/record.rs:185-195 | ordinals repeat only after 2^64 |
| `Replay.NodesAre` | crates/dekopon-tui/src/record.rs:317-341 | the rebuilt node of a script says everything about it |
| `Replay.OnlyScriptEventsMatter` | crates/dekopon-tui/src/transcript.rs:195-207 | usage, progress and endings never disturb the tree |
| `CallList.CursorStableIff` | crates/dekopon-tui/src/app.rs:346-368 | over all turns, one event only extends the call list exactly when the call it brings is listed last: nothing after it in its own turn, no calls in later turns |
| `CallList.TurnStableIff` | crates/dekopon-tui/src/transcript.rs:166-179 | inside one turn, exactly when no later script already has calls |
| `Replay.CursorIsStable` | crates/dekopon-tui/src/app.rs:346-368 | while a recorded session streams into the last turn of any conversation, other events mixed in, the call list only grows at its end |
| `Replay.UnendedTurnMovesTheCursor` | crates/dekopon-tui/src/app.rs:500-513 | two turns are opened, the second calls and ends: a further call then lands in the first, listed before everything of the second |
| `Replay.StrayCallsMoveTheCursor` | crates/dekopon-tui/src/transcript.rs:173-178 | a call with no open script, then a script: a further call is listed before the script's own |
| `Redactor.RedactText` | crates/dekopon-tui/src/redact.rs:110-149 | the scanner with one remembered run equals the rule: separators and kept runs verbatim, qualifying runs as markers, None exactly when none qualifies |
| `Credentials.RunIsHiddenIff` | crates/dekopon-tui/src/redact.rs:61-146 | wherever a whole run stands, it is hidden exactly when it looks issued, or has 20 characters and is announced; shorter runs are kept |
| `Credentials.AnnouncedRunIsFound` | crates/dekopon-tui/src/redact.rs:95-146 | bearer, basic or token in any case, any whitespace and a run of 20: the run alone becomes its marker |
| `Credentials.LoneRunIsHiddenIff` | crates/dekopon-tui/src/redact.rs:74-93 | a run on its own is hidden exactly when it looks issued |
| `Credentials.IssuedTokensAreFound` | crates/dekopon-tui/src/redact.rs:74-81 | each of the seven prefixes before any body of 20 is found |
| `Credentials.DottedTokensAreFound` | crates/dekopon-tui/src/redact.rs:83-92 | three bodies of 20 between dots are found |
| `Redactor.ScanStep` | crates/dekopon-tui/src/redact.rs:116-146 | one turn of the scanner: the next segment, whether it is a credential, what is shown and what is remembered |
| `Redactor.RememberedMeansIntroduced` | crates/dekopon-tui/src/redact.rs:121-131 | one remembered run decides whether only whitespace separates a run from a scheme word |
| `Redactor.SegmentsAreMaximal` | crates/dekopon-tui/src/redact.rs:116-146 | cutting loses nothing and yields maximal runs |
| `Redactor.SegmentsAreUnique` | crates/dekopon-tui/src/redact.rs:116-146 | there is no other way to cut a text so |
| `Redactor.RedactionIsFinal` | crates/dekopon-tui/src/redact.rs:110-149 | a redacted text, cut again from scratch, holds nothing to redact |
| `Redactor.BracketedWordIsInert` | crates/dekopon-tui/src/redact.rs:134-137 | markers as asked for exist |
| `JsonWalk.Walk` | crates/dekopon-tui/src/redact.rs:197-265 | the walk equals the recursive rule, appends exactly its report, and gives the path buffer back unchanged |
| `JsonWalk.WalkChild` | crates/dekopon-tui/src/redact.rs:233-260 | push, walk and truncate restore the path on every child |
| `JsonWalk.Redact` | crates/dekopon-tui/src/redact.rs:191-195 | value and report from an empty path |
| `Hiding.KeyIsSecretIff` | crates/dekopon-tui/src/redact.rs:27-59 | a key is secret exactly when it reads as one of eleven words, in any case, dashes and underscores anywhere |
| `Hiding.FieldIsDrawn` | crates/dekopon-tui/src/redact.rs:203-265 | at any position reached, the value of a secret key is one marker as long as it prints, and any other string shows its text but for the credentials in it |
| `Hiding.UnderSecretKeyIsMarked` | crates/dekopon-tui/src/redact.rs:203-231 | under a secret key a value is hidden whole and reported by its key; null is kept |
| `Hiding.StringKeepsItsText` | crates/dekopon-tui/src/redact.rs:214-223 | elsewhere a string keeps everything around the credentials in it and is reported by its shape |
| `Hiding.HeaderKeepsItsScheme` | crates/dekopon-tui/src/redact.rs:214-223 | an authorization header keeps its scheme word |
| `Positions.HitsAreHidden` | crates/dekopon-tui/src/redact.rs:203-265 | the reported positions are exactly the hidden ones |
| `Positions.HitsInOrder` | crates/dekopon-tui/src/redact.rs:203-265 | in document order, each once |
| `Positions.FoundAreHits` | crates/dekopon-tui/src/redact.rs:151-165 | entry k of the report names the k-th hidden position and the rule that hid it |
| `Positions.WalkedAt` | crates/dekopon-tui/src/redact.rs:203-265 | a hidden position shows the replacement of the rule that hid it; everywhere else kinds, lengths and keys are kept and leaves are equal |
| `Positions.SecretKeyHides` | crates/dekopon-tui/src/redact.rs:224-231 | no value but null survives under a secret key |
| `Positions.NothingFoundNothingChanged` | crates/dekopon-tui/src/redact.rs:176-183 | an empty report means an unchanged value |
| `Paths.PathsAgreeIff` | crates/dekopon-tui/src/redact.rs:234-261 | two positions of any value share a path exactly when their names, leading empty ones dropped and the rest cut at their dots, are the same pieces |
| `Paths.RedactionsAgreeIff` | crates/dekopon-tui/src/redact.rs:234-261 | two redactions of a report share a path exactly when their hidden positions are spelled alike |
| `Paths.PathsAreDistinctIff` | crates/dekopon-tui/src/redact.rs:234-261 | no two redactions share a path exactly when all hidden positions are spelled apart |
| `Paths.PlainPathsAreDistinct` | crates/dekopon-tui/src/redact.rs:234-261 | with non-empty, dot-free, distinct keys no two redactions share a path |
| `Paths.DottedKeysCollide` | crates/dekopon-tui/src/redact.rs:253-257 | whatever the names, a dotted key and two nested ones report under one path |
| `Paths.EmptyKeysCollide` | crates/dekopon-tui/src/redact.rs:252-257 | so do a key under an empty one and the key beside it |
| `Reveal.PressShrinks` | crates/dekopon-tui/src/app.rs:396-422 | each press takes exactly one field out of hiding until none is left |
| `Reveal.PressesEnumerateIff` | crates/dekopon-tui/src/app.rs:545-560 | press k reveals redaction k, for every k, exactly when the fields are distinct and none was revealed before |
| `Reveal.PressesRevealAll` | crates/dekopon-tui/src/app.rs:396-422 | as many presses as redactions always leave nothing hidden |
| `Reveal.PlainCallsEnumerate` | crates/dekopon-tui/src/app.rs:396-422 | with plain keys the presses enumerate the call's redactions one by one |
| `Assets.ConsoleAssets.Insert` | crates/dekopon-tui/src/session/assets.rs:27-63 | accepted exactly within 16 items, 64 MiB and the counter; logged under the next number; a refusal changes nothing |
| `Assets.ConsoleAssets.Remove` | crates/dekopon-tui/src/session/assets.rs:144-153 | unknown, pinned or logged as removed |
| `Assets.ConsoleAssets.FetchForCapability` | crates/dekopon-tui/src/session/assets.rs:105-112 | resolves exactly what the log left |
| `Assets.ConsoleAssets.Rows` | crates/dekopon-tui/src/session/assets.rs:114-121 | lists the log's contents in order |
| `Assets.ConsoleAssets.Register` | crates/dekopon-tui/src/session/assets.rs:125-142 | accepted exactly when declared small enough, readable and with room; each refusal by its reason |
| `Assets.ConsoleAssets.Work` | crates/dekopon-tui/src/session/assets.rs:124-153 | what the providers of a command return and drop is applied in order |
| `Assets.AttachedIff` | crates/dekopon-tui/src/session/assets.rs:66-101 | an attachment is taken exactly when the type, both sizes, the decoder, the host and the inventory allow it, and the log then ends with that blob under the number answered; the type's and the host's refusals appear exactly for their reasons |
| `Assets.ConsoleAssets.AttachBase64` | crates/dekopon-tui/src/session/assets.rs:66-101 | attached exactly when the type, both size limits, the decoder, the host and the inventory allow it; every refusal by its reason |
| `Assets.AttachedIsFetched` | crates/dekopon-tui/src/session/assets.rs:66-101 | an attachment is fetched under its number with its type and bytes, and its row says console |
| `Assets.MimeIsValidIff` | crates/dekopon-tui/src/session/assets.rs:67-81 | two words of media-type characters with a slash between, 127 characters at most |
| `Assets.StoredIsFetched` | crates/dekopon-tui/src/session/assets.rs:125-142 | a stored blob is there under the next number, listed as the provider's; a refusal changes nothing |
| `Assets.DroppedIsGone` | crates/dekopon-tui/src/session/assets.rs:144-153 | a dropped one is gone unless pinned |
| `Assets.WorkedInOrder` | crates/dekopon-tui/src/session/assets.rs:124-153 | what providers do takes effect one by one, in order |
| `Assets.IdsIncrease` | crates/dekopon-tui/src/session/assets.rs:41-45 | identifiers strictly increase, so none is reused |
| `Assets.RemovedNeverResolves` | crates/dekopon-tui/src/session/assets.rs:144-153 | a removed identifier never resolves again |
| `Assets.ResolvesToInserted` | crates/dekopon-tui/src/session/assets.rs:105-112 | what resolves is exactly what was inserted under that identifier |
| `Assets.StoredRemove` | crates/dekopon-tui/src/session/assets.rs:149-151 | removing gives back exactly the blob's bytes, so the counter never wraps |
| `Assets.ListingIsComplete` | crates/dekopon-tui/src/session/assets.rs:114-121 | a row is listed exactly when its item is there |
| `Assets.ListingIsOrdered` | crates/dekopon-tui/src/session/assets.rs:114-121 | in identifier order, each once |

## Left out

- Model turns: `Action::Turn`, `submit_turn`, `on_session_complete`, the prompt loop and model clients. `on_key` never emits a turn, so the console's invariants speak of runs driven by keys; `Transcript` still models turns and their events.
- Broker sockets, attestations, the shell interpreter and its components: answers of the world. What a command's providers do to the inventory is applied when the command starts; nobody else may use the inventory until it ends.
- What a blocking script still does after its timeout or a shutdown: the source aborts the task that owns it, and the console no longer owns any; the thread below may run on.
- Real time: every timeout is a choice of the world; an expired entry deadline interrupts the hop while the broker is asked, when the old agent is already gone. Elapsed times, spans and telemetry are not kept.
- Drawing, paging, scrolling, the expanded call and raw-mode handling: keys that only page change nothing here.
- Failures of the output stream and of the random source; the input stream fails only through its contents.
- A broker refusal's code, its note, the trace line and the scope claim's text in an error report, in replies and on the error view: reports are exact but for these. The scope is whether there is one.
- YAML, command-line parsing, environment and socket discovery, the credential guard, labels and notices' wording outside the modelled refusals.
- `Turn::denied_calls` and `CallOutcome::from`: one filter and one match.
- EventLoop.Console.AskStop: does not speak of the stop mark on a turn, because a shell session opens none; AppState.App.RequestStop does.
- Assets.ConsoleAssets.Remove: whether an invocation still pins the blob is a parameter; blobs are values, not files.
