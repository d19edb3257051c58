/** The console as a loop over key presses and session events: hops, shell commands, their outcomes and
    the stop request. */
module EventLoop {
  import opened Text
  import opened Record
  import opened AppState
  import opened Profiles
  import opened LegTrace
  import opened Scenes
  import Assets
  import Transcript

  // ---------------------------------------------------------------------------------------------
  // Stop

  /** Cooperative stop. A leg's cancel handle is its number; firing it puts the number in `cancelled`. */
  class StopFlag {
    var requested: bool
    var broker: Option<nat>
    var cancelled: set<nat>

    constructor ()
      ensures !requested && broker.None? && cancelled == {}
    {
      requested, broker, cancelled := false, None, {};
    }

    method Request()
      modifies this`requested, this`cancelled
      ensures requested
      ensures cancelled == old(cancelled) + if broker.Some? then {broker.value} else {}
    {
      requested := true;
      if broker.Some? {
        cancelled := cancelled + {broker.value};
      }
    }

    method Reset()
      modifies this`requested, this`broker
      ensures !requested && broker.None?
    {
      requested, broker := false, None;
    }

    method BindBroker(handle: nat)
      modifies this`broker
      ensures broker == Some(handle)
    {
      broker := Some(handle);
    }
  }

  class ConsoleOptions {
    const config: Config
    var subject: string
    var model: string
    var modelSource: ModelSource
    var maxSteps: nat
    var maxCalls: nat
    var scope: bool

    constructor (config: Config, identity: Identity)
      ensures this.config == config && Current(identity.profile) == identity && scope == config.smokeConversation
    {
      this.config := config;
      subject, model, modelSource := identity.subject, identity.model, identity.source;
      maxSteps, maxCalls := identity.maxSteps, identity.maxCalls;
      scope := config.smokeConversation;
    }

    function Current(profile: Option<string>): Identity
      reads this`subject, this`model, this`modelSource, this`maxSteps, this`maxCalls
    {
      Identity(subject, model, modelSource, maxSteps, maxCalls, profile)
    }
  }

  class Console {
    const app: App
    const options: ConsoleOptions
    const stop: StopFlag
    /** The identity startup computed, kept by a console without authored profiles. */
    ghost const unbound: Identity
    var running: Option<RunningTurn>
    var history: seq<string>
    /** Cancel handles handed out so far: each leg gets the next. */
    var handles: nat
    ghost var trace: seq<Mark>
    ghost var legs: seq<Leg>
    /** Inputs of the commands accepted so far, over all hops. */
    ghost var inputs: seq<string>
    /** Inventories of the hops so far. */
    ghost var inventories: set<Assets.ConsoleAssets>
    /** A leg is open until its task is joined and the stop binding dropped. */
    ghost var open: bool

    // -------------------------------------------------------------------------------------------
    // Invariants

    ghost predicate InventoryOk()
      reads app`assets, app.assets
    {
      app.assets != null ==> app.assets.Valid()
    }

    /** A session comes with its own inventory, and neither without the other. */
    ghost predicate SessionOk()
      reads app`session, app`assets, app`conversation, app.conversation
    {
      && (app.session.Some? <==> app.assets != null)
      && app.conversation.Valid() && app.conversation.turns == []
    }

    /** Whatever hops came before, an open session runs as the identity its agent resolves to. */
    ghost predicate IdentityOk()
      reads app`session, app`profile, app`subject, app`model, app`modelSource, options
    {
      && (options.config.profiles == [] ==> options.Current(app.profile) == unbound)
      && (app.session.Some? ==>
            && Resolve(options.config, unbound, app.session.value.agent) == As(options.Current(app.profile))
            && options.scope == options.config.smokeConversation
            && app.subject == options.subject && app.model == options.model && app.modelSource == options.modelSource)
    }

    ghost predicate ModesOk()
      reads app`mode, app`pane, app`lastError
    {
      && (app.mode == Composing ==> app.pane == AppState.Shell)
      && (app.mode == Error ==> app.lastError.Some?)
    }

    /** Nothing running: the flag is clear and no handle bound. Running: the bound handle is its own. */
    ghost predicate StopOk()
      reads this`open, this`legs, this`handles, stop
    {
      && handles == |legs|
      && if open then legs != [] && stop.broker == Some(|legs| - 1) else stop.broker.None? && !stop.requested
    }

    ghost function Given(): Rules {
      Rules(options.config, unbound)
    }

    ghost function Here(): Option<Leg>
      reads app`session, app`assets, app`profile, options
    {
      if app.session.Some? && app.assets != null then
        Some(Leg(options.Current(app.profile), app.session.value.agent, options.scope, app.assets))
      else None
    }

    /** What the operator edits. */
    function Seen(): View
      reads app`mode, app`pane, app`composer, app`selectedAgent, app`shouldQuit
    {
      View(app.mode, app.pane, app.composer, app.selectedAgent, app.shouldQuit)
    }

    ghost function OnDesk(): Desk
      reads app`shellHistory, this`running, this`history, app`assets, app.assets
    {
      Desk(app.shellHistory, running, history, if app.assets != null then app.assets.log else [])
    }

    function Labelled(): Labels
      reads app`subject, app`profile, app`scopeLabel
    {
      Labels(app.subject, app.profile, app.scopeLabel)
    }

    ghost function Shown(): Scene
      reads app`mode, app`pane, app`composer, app`selectedAgent, app`shouldQuit, app`session, app`lastError, app`notice
      reads app`subject, app`profile, app`scopeLabel
      reads app`shellHistory, this`running, this`history, app`assets, app.assets
    {
      Scene(Seen(), app.session, Labelled(), app.lastError, app.notice, OnDesk())
    }

    ghost function Place(): Site {
      Site(Given(), app.agents, app.socketPath)
    }

    /** The mark of a hop just done. */
    ghost function Arrival(): Mark
      reads app`session, app`assets, app`profile, options
    {
      if Here().Some? then Hopped(Here().value) else Cleared
    }

    lemma FactsShown()
      ensures app.Facts() == Facts(Place(), Shown())
    {
    }

    ghost function Now(): Phase
      reads app`session, app`assets, app`profile, options, app`shellHistory
      reads this`inputs, this`legs, this`open, this`inventories, stop
    {
      Phase(Here(), app.shellHistory, inputs, legs, open, stop.cancelled, inventories)
    }

    /** What holds between any two statements that matter. */
    ghost predicate Common()
      reads this`trace, this`inputs, this`open, this`legs, this`inventories, this`handles, stop, options
      reads app.assets, app.conversation
      reads app`session, app`assets, app`conversation, app`profile, app`subject, app`model, app`modelSource
      reads app`mode, app`pane, app`lastError, app`shellHistory
    {
      SessionOk() && InventoryOk() && IdentityOk() && ModesOk() && StopOk() && Reaches(Given(), trace, Now())
    }

    /** A command is echoed and not yet launched: also what is left when a caller drops the dispatch. */
    ghost predicate Accepting()
      reads this`trace, this`inputs, this`open, this`legs, this`inventories, this`handles, stop, options
      reads app.assets, app.conversation
      reads this`running
      reads app`session, app`assets, app`conversation, app`profile, app`subject, app`model, app`modelSource
      reads app`mode, app`pane, app`lastError, app`shellHistory, app`busy
    {
      Common() && app.session.Some? && app.busy && running.None? && !open && Pending(app.shellHistory)
    }

    /** Between two steps of the loop: busy means a task is in flight, and when idle every command has
        its outcome. */
    ghost predicate Inv()
      reads this`trace, this`inputs, this`open, this`legs, this`inventories, this`handles, stop, options
      reads app.assets, app.conversation
      reads this`running
      reads app`session, app`assets, app`conversation, app`profile, app`subject, app`model, app`modelSource
      reads app`mode, app`pane, app`lastError, app`shellHistory, app`busy
    {
      && Common()
      && (app.busy <==> running.Some?) && (open <==> running.Some?)
      && (running.None? ==> !Pending(app.shellHistory))
      && (running.Some? ==> app.session.Some? && EventsFor(running.value.events, app.shellHistory))
    }

    constructor (app: App, options: ConsoleOptions, stop: StopFlag, identity: Identity)
      requires app.session.None? && app.assets == null && app.shellHistory == [] && !app.busy
      requires app.conversation.Valid() && app.conversation.turns == [] && app.mode == Browsing
      requires !stop.requested && stop.broker.None? && stop.cancelled == {}
      requires options.Current(app.profile) == identity
      ensures Inv() && this.app == app && this.options == options && this.stop == stop && unbound == identity
      ensures trace == [] && running.None?
    {
      this.app, this.options, this.stop, unbound := app, options, stop, identity;
      running, history, handles := None, [], 0;
      trace, inputs, legs, inventories, open := [], [], [], {}, false;
    }

    // -------------------------------------------------------------------------------------------
    // Hops

    /** Takes over an authored profile, command-line overrides first. */
    method Adopt(p: OperatorProfile)
      modifies app`profile, options`subject, options`model, options`modelSource, options`maxSteps, options`maxCalls
      ensures options.Current(app.profile) == IdentityOf(options.config, p)
    {
      var (model, source) := SelectedModel(options.config.modelOverride, p.model);
      options.subject, options.model, options.modelSource := p.subject, model, source;
      options.maxSteps := OrDefault(OrElse(options.config.stepsOverride, p.maxSteps), DEFAULT_STEPS);
      options.maxCalls := OrDefault(OrElse(options.config.callsOverride, p.maxCapabilityCalls), DEFAULT_CALLS);
      app.profile := Some(p.name);
    }

    /** Settles the identity of a hop, or says why there is none; nothing changes on a refusal. */
    method ChooseIdentity(agent: string) returns (accepted: bool)
      requires options.config.profiles == [] ==> options.Current(app.profile) == unbound
      modifies app`profile, app`notice
      modifies options`subject, options`model, options`modelSource, options`maxSteps, options`maxCalls
      ensures var hop := Resolve(options.config, unbound, agent);
        if accepted then hop == As(options.Current(app.profile))
        else hop.Refused? && app.notice == Some(Notice(hop.notice, true))
      ensures !accepted ==> options.Current(app.profile) == old(options.Current(app.profile))
      ensures accepted ==> app.notice == old(app.notice)
      ensures options.config.profiles == [] ==> options.Current(app.profile) == unbound
    {
      hide IdentityOf, UnprofiledNotice, AmbiguousNotice;
      var config := options.config;
      if config.fixedProfile.Some?
         && exists p :: p in config.profiles && p.name == config.fixedProfile.value && p.agent != agent {
        app.Say(NOT_THIS_AGENT, true);
        return false;
      }
      var matches := BoundTo(config.profiles, agent);
      if |matches| > 1 && config.fixedProfile.None? {
        app.Say(AmbiguousNotice(agent), true);
        return false;
      }
      var found := if config.fixedProfile.Some? then FindNamed(matches, config.fixedProfile.value) else None;
      if found.None? && matches != [] {
        found := Some(matches[0]);
      }
      if found.Some? {
        Adopt(found.value);
      } else if config.profiles != [] {
        app.Say(UnprofiledNotice(agent), true);
        return false;
      }
      accepted := true;
    }

    method ClearAgentContext()
      modifies app`session, app`assets, app`conversation, app`shellHistory, app`composer, app`mode, this`history
      ensures app.session.None? && app.assets == null && app.shellHistory == [] && app.composer == ""
      ensures app.mode == Browsing && history == []
      ensures app.conversation.Valid() && app.conversation.turns == [] && fresh(app.conversation)
    {
      app.session, app.assets := None, null;
      app.conversation := new Transcript.Conversation();
      app.shellHistory, app.composer, app.mode := [], "", Browsing;
      history := [];
    }

    /** Drops the previous agent and shows whom the next commands run as. */
    method LeaveAgent()
      modifies options`scope, this`history
      modifies app`session, app`assets, app`conversation, app`shellHistory, app`composer, app`mode
      modifies app`subject, app`scopeLabel, app`model, app`modelSource
      ensures app.session.None? && app.assets == null && app.shellHistory == [] && app.mode == Browsing
      ensures app.composer == "" && history == []
      ensures app.conversation.Valid() && app.conversation.turns == [] && fresh(app.conversation)
      ensures options.scope == options.config.smokeConversation
      ensures app.subject == options.subject && app.model == options.model && app.modelSource == options.modelSource
      ensures app.scopeLabel == if options.config.smokeConversation then "console-smoke" else "subject-only"
    {
      options.scope := options.config.smokeConversation;
      ClearAgentContext();
      app.subject := options.subject;
      app.scopeLabel := if options.scope then "console-smoke" else "subject-only";
      app.model, app.modelSource := options.model, options.modelSource;
    }

    /** An identity is chosen for the next agent, and nothing runs under the old one. */
    ghost predicate Chosen(agent: string, p: Phase)
      reads this`trace, this`inputs, this`legs, this`inventories, this`running, this`open, this`handles, stop
      reads options`subject, options`model, options`modelSource, options`maxSteps, options`maxCalls
      reads app`busy, app`profile
    {
      && Reaches(Given(), trace, p) && AtRest(p)
      && p.inputs == inputs && p.legs == legs && p.cancelled == stop.cancelled && p.inventories == inventories
      && !app.busy && running.None? && !open && StopOk()
      && (options.config.profiles == [] ==> options.Current(app.profile) == unbound)
      && Resolve(options.config, unbound, agent) == As(options.Current(app.profile))
    }

    /** Between agents: nobody is left, and the labels already show the next identity. */
    ghost predicate Between(agent: string, p: Phase)
      reads this, app, app.conversation, options, stop
    {
      && Chosen(agent, p)
      && app.session.None? && app.assets == null && app.shellHistory == []
      && app.conversation.Valid() && app.conversation.turns == [] && app.mode == Browsing
      && options.scope == options.config.smokeConversation
      && app.subject == options.subject && app.model == options.model && app.modelSource == options.modelSource
    }

    method OpenEntry(agent: string, answer: LegAnswer, ghost p: Phase)
      requires Between(agent, p) && Opens(answer) && app.composer == "" && history == []
      modifies app`session, app`assets, app`conversation, app`shellHistory, app`composer, app`mode, app`notice
      modifies app`selectedCall, app`revealed, app`pane, this`trace, this`inventories
      ensures Inv() && fresh(app.assets) && trace == old(trace) + [Arrival()]
      ensures Shown() == Entered(Place(), old(Shown()), agent, answer)
    {
      hide Reaches, Resolve, Assets.ConsoleAssets.Valid, StopOk, Entered, Shown;
      TakeSeat(agent, answer);
      MarkHopped(Given(), trace, p, Here().value);
      trace, inventories := trace + [Hopped(Here().value)], inventories + {app.assets};
    }

    /** The new session with an inventory of its own. */
    method TakeSeat(agent: string, answer: LegAnswer)
      requires Opens(answer) && app.assets == null && app.shellHistory == [] && app.composer == ""
      modifies app`session, app`assets, app`conversation, app`shellHistory, app`composer, app`mode, app`notice
      modifies app`selectedCall, app`revealed, app`pane
      ensures app.session == Some(Session(agent, answer.capabilities)) && app.shellHistory == []
      ensures app.mode == Composing && app.pane == AppState.Shell
      ensures app.assets != null && fresh(app.assets) && app.assets.Valid()
      ensures fresh(app.conversation) && app.conversation.Valid() && app.conversation.turns == []
      ensures Shown() == Entered(Place(), old(Shown()), agent, answer)
    {
      hide EntryNotice, Summary, FactsOf, Records;
      var assets := new Assets.ConsoleAssets();
      app.Enter(Session(agent, answer.capabilities));
      app.assets := assets;
    }

    method RefuseEntry(agent: string, answer: LegAnswer, ghost p: Phase)
      requires Between(agent, p) && !Opens(answer)
      modifies app`mode, app`notice, app`lastError, this`trace
      ensures Inv() && trace == old(trace) + [Arrival()]
      ensures Shown() == Entered(Place(), old(Shown()), agent, answer)
    {
      hide Reaches, Resolve, Assets.ConsoleAssets.Valid, Summary, FactsOf;
      FactsShown();
      app.Raise(app.Described(ErrorReport("open broker session", [], LegError(answer))));
      MarkCleared(Given(), trace, p);
      trace := trace + [Cleared];
    }

    /** The caller gave up while the broker was being asked: nobody is entered. */
    ghost method LeaveUnentered(agent: string, p: Phase)
      requires Between(agent, p)
      modifies this`trace
      ensures Inv() && trace == old(trace) + [Arrival()] && Shown() == old(Shown())
    {
      hide Reaches, Resolve, Assets.ConsoleAssets.Valid;
      MarkCleared(Given(), trace, p);
      trace := trace + [Cleared];
    }

    /** Asks the broker for the new agent, unless the caller gives up meanwhile. */
    method AskBroker(agent: string, answer: LegAnswer, cut: bool, ghost p: Phase)
      requires Between(agent, p) && app.composer == "" && history == []
      modifies app`session, app`assets, app`conversation, app`shellHistory, app`composer, app`mode, app`notice
      modifies app`selectedCall, app`revealed, app`pane, app`lastError, this`trace, this`inventories
      ensures Inv() && (app.assets == null || fresh(app.assets))
      ensures trace == old(trace) + [Arrival()]
      ensures Shown() == if cut then old(Shown()) else Entered(Place(), old(Shown()), agent, answer)
    {
      hide Inv, Between, Arrival, Entered;
      BetweenFacts(agent, p);
      if cut {
        LeaveUnentered(agent, p);
      } else if Opens(answer) {
        OpenEntry(agent, answer, p);
      } else {
        RefuseEntry(agent, answer, p);
      }
    }

    lemma BetweenFacts(agent: string, p: Phase)
      requires Between(agent, p)
      ensures app.session.None? && app.assets == null && app.shellHistory == [] && !app.busy && running.None?
    {
    }

    method Depart(agent: string, ghost p: Phase)
      requires Chosen(agent, p) && running.None?
      modifies options`scope, this`history
      modifies app`session, app`assets, app`conversation, app`shellHistory, app`composer, app`mode
      modifies app`subject, app`scopeLabel, app`model, app`modelSource
      ensures Between(agent, p) && app.composer == "" && history == []
      ensures Shown() == Left(Place(), old(Shown()), options.Current(app.profile))
    {
      hide Chosen;
      LeaveAgent();
    }

    lemma NothingRuns(agent: string, p: Phase)
      requires Chosen(agent, p)
      ensures running.None?
    {
    }

    /** Leaves the old agent for good, then asks the broker for the new one. */
    method Reenter(agent: string, answer: LegAnswer, cut: bool, ghost p: Phase)
      requires Chosen(agent, p)
      modifies app, options`scope, this`history, this`trace, this`inventories
      ensures Inv() && (app.assets == null || fresh(app.assets))
      ensures options.Current(app.profile) == old(options.Current(app.profile))
      ensures trace == old(trace) + [Arrival()]
      ensures var left := Left(Place(), old(Shown()), options.Current(app.profile));
        Shown() == if cut then left else Entered(Place(), left, agent, answer)
    {
      hide Inv, Between, Chosen, Arrival, Entered, Left;
      NothingRuns(agent, p);
      Depart(agent, p);
      AskBroker(agent, answer, cut, p);
    }

    /** Settles as whom the hop goes on. */
    method Choose(agent: string) returns (accepted: bool, ghost p: Phase)
      requires Inv() && running.None?
      modifies app`profile, app`notice
      modifies options`subject, options`model, options`modelSource, options`maxSteps, options`maxCalls
      ensures var hop := Resolve(options.config, unbound, agent);
        && (accepted <==> hop.As?)
        && (if accepted then
              && Chosen(agent, p) && hop == As(options.Current(app.profile)) && app.notice == old(app.notice)
            else
              && Inv() && app.notice == Some(Notice(hop.notice, true))
              && options.Current(app.profile) == old(options.Current(app.profile)))
    {
      hide Reaches, Resolve, Assets.ConsoleAssets.Valid;
      p := Now();
      accepted := ChooseIdentity(agent);
    }

    /** Action::Enter. Refused early it changes nothing but the notice. `cut` is a caller that gives up while
        the broker is being asked: the old agent is gone by then. */
    method HopIn(answer: LegAnswer, cut: bool) returns (dropped: bool)
      requires Inv()
      modifies app, options, this`history, this`trace, this`inventories
      ensures Inv() && (app.assets == old(app.assets) || app.assets == null || fresh(app.assets))
      ensures var choice := Choice(Place(), old(Shown()));
        && (dropped <==> cut && choice.As?)
        && (if choice.As? then
              && As(options.Current(app.profile)) == choice
              && trace == old(trace) + [Arrival()]
            else options.Current(app.profile) == old(options.Current(app.profile)) && trace == old(trace))
        && Shown() == if dropped then Left(Place(), old(Shown()), choice.identity)
                      else HopLeaves(Place(), old(Shown()), answer)
    {
      hide Inv, Chosen, Resolve, Arrival, Entered, Left;
      dropped := false;
      IdleMeansComplete();
      if app.busy {
        Refuse(BUSY_HOP);
        return;
      }
      var agent := app.HighlightedId();
      if agent.None? {
        Refuse(NO_AGENTS);
        return;
      }
      ghost var before := Shown();
      var accepted, p := Choose(agent.value);
      if accepted {
        LeftForgets(Place(), before, Shown(), options.Current(app.profile));
        Reenter(agent.value, answer, cut, p);
        dropped := cut;
      }
    }

    /** Leaving does not look at what is left. */
    lemma LeftForgets(site: Site, s: Scene, t: Scene, identity: Identity)
      requires s.view == t.view && s.error == t.error && s.notice == t.notice
      ensures Left(site, s, identity) == Left(site, t, identity)
    {
    }

    // -------------------------------------------------------------------------------------------
    // Shell commands

    method Refuse(text: string)
      requires Inv()
      modifies app`notice
      ensures Inv() && app.notice == Some(Notice(text, true))
    {
      hide Reaches, Resolve, Assets.ConsoleAssets.Valid, SessionOk, IdentityOk, ModesOk, StopOk, Now;
      app.Say(text, true);
    }

    method ClearNotice()
      requires Inv()
      modifies app`notice
      ensures Inv() && Shown() == old(Shown()).(notice := None)
    {
      hide Reaches, Resolve, Assets.ConsoleAssets.Valid, SessionOk, IdentityOk, ModesOk, StopOk, Now;
      app.notice := None;
    }

    /** Accepts a command: its echo is pending until an outcome replaces it. */
    method Accept(line: string)
      requires Inv() && app.session.Some? && !app.busy
      modifies app`busy, app`notice, app`shellHistory, this`trace, this`inputs
      ensures Accepting() && trace == old(trace) + [Accepted(line)] && inputs == old(inputs) + [line]
      ensures Shown() == Accepts(old(Shown()), line) && app.shellHistory == old(app.shellHistory) + [Echo(line)]
    {
      hide Reaches, Resolve, Assets.ConsoleAssets.Valid;
      ghost var p := Now();
      app.StartShell(line);
      MarkAccepted(Given(), trace, p, line);
      trace, inputs := trace + [Accepted(line)], inputs + [line];
    }

    /** Gives the accepted command its outcome without any task. */
    method Close(entry: ShellEntry)
      requires Accepting() && entry.exitCode.Some?
      requires entry.input == app.shellHistory[|app.shellHistory| - 1].input
      modifies app`busy, app`shellHistory, this`trace
      ensures Inv() && trace == old(trace) + [Reported(entry)]
      ensures OnDesk() == old(OnDesk()).(shell := Completed(old(app.shellHistory), entry))
    {
      hide Reaches, Resolve, Assets.ConsoleAssets.Valid, IdentityOk;
      ghost var p := Now();
      app.FinishShell(entry);
      app.busy := false;
      MarkReported(Given(), trace, p, entry);
      trace := trace + [Reported(entry)];
    }

    /** Records a report, with who attempted it, as the outcome of the pending command. */
    method Fail(report: ErrorReport)
      modifies app`shellHistory, app`notice, app`lastError
      ensures Shown() == FailsWith(Place(), old(Shown()), report) && app.lastError.Some?
      ensures app.shellHistory == FailedHistory(old(app.shellHistory), WithFacts(report, Facts(Place(), old(Shown()))))
    {
      hide App.Facts, Facts, Summary, FailedHistory;
      FactsShown();
      app.FailShell(report);
    }

    /** The broker refused the command's leg: the report becomes its outcome. */
    method RefuseLeg(leg: LegAnswer)
      requires Accepting()
      modifies app`busy, app`shellHistory, app`notice, app`lastError, this`trace
      ensures var facts := Facts(Place(), old(Shown()));
        && Inv() && Shown() == FailsWith(Place(), old(Shown()), LegReport(leg, facts))
        && trace == old(trace)
                    + [Reported(FailedEntry(old(app.shellHistory), WithFacts(LegReport(leg, facts), facts)))]
    {
      hide Reaches, Resolve, SessionOk, IdentityOk, StopOk, Here, Shown, Facts, FailsWith, WithFacts, Display;
      var report := LegReport(leg, app.Facts());
      FactsShown();
      ghost var p, entry := Now(), FailedEntry(app.shellHistory, WithFacts(report, app.Facts()));
      Fail(report);
      app.busy := false;
      MarkReported(Given(), trace, p, entry);
      trace := trace + [Reported(entry)];
    }

    method BindStop()
      modifies stop`requested, stop`broker, this`handles
      ensures stop.broker == Some(old(handles)) && handles == old(handles) + 1 && !stop.requested
    {
      stop.Reset();
      stop.BindBroker(handles);
      handles := handles + 1;
    }

    /** Binds Stop to the command's own fresh leg and starts its task. */
    method Launch(line: string, leg: Leg, answer: TaskAnswer)
      requires Accepting() && Here() == Some(leg) && app.shellHistory[|app.shellHistory| - 1].input == line
      modifies stop, this`running, this`history, this`handles, this`trace, this`legs, this`open
      ensures Inv() && running == Some(TaskOf(line, answer, old(history))) && history == []
      ensures legs == old(legs) + [leg] && trace == old(trace) + [Opened(leg)]
      ensures stop.broker == Some(|old(legs)|) && !stop.requested && stop.cancelled == old(stop.cancelled)
    {
      hide Reaches, Here, SessionOk, IdentityOk, ModesOk, EventsFor, TaskOf;
      TaskEventsFit(line, answer, history, app.shellHistory);
      ghost var p := Now();
      BindStop();
      var previous := history;
      history := [];
      running := Some(TaskOf(line, answer, previous));
      MarkOpened(Given(), trace, p, leg);
      legs, open, trace := legs + [leg], true, trace + [Opened(leg)];
    }

    /** The task of an accepted script, and what its providers do to the inventory. */
    method Start(line: string, leg: Leg, answer: TaskAnswer)
      requires Accepting() && Here() == Some(leg) && app.shellHistory[|app.shellHistory| - 1].input == line
      modifies stop, this`running, this`history, this`handles, this`trace, this`legs, this`open, app.assets
      ensures Inv() && legs == old(legs) + [leg] && trace == old(trace) + [Opened(leg)]
      ensures stop.cancelled == old(stop.cancelled)
      ensures var desk := old(OnDesk());
        Shown() == old(Shown()).(desk := Desk(desk.shell, Some(TaskOf(line, answer, desk.memory)), [],
                                              Assets.Worked(desk.log, answer.provided)))
    {
      hide Inv, Accepting, TaskOf, Assets.Worked;
      Launch(line, leg, answer);
      Provide(answer.provided);
    }

    /** A script over a fresh leg. `cut` is a caller that gives up while the broker is being asked. What the
        script's providers store is in the inventory before anyone else may use it again. */
    method RunScript(line: string, answers: Answers, cut: bool) returns (dropped: bool)
      requires Inv() && app.session.Some? && !app.busy && running.None? && !IsLocal(line)
      modifies stop, this`running, this`history, this`handles, this`trace, this`inputs, this`legs, this`open
      modifies app`busy, app`shellHistory, app`notice, app`lastError, app.assets
      ensures dropped == cut && old(trace) <= trace && inputs == old(inputs) + [line]
      ensures if dropped then Reaches(Given(), trace, Now()) else Inv()
      ensures if cut then OnDesk() == old(OnDesk()).(shell := old(app.shellHistory) + [Echo(line)])
              else Shown() == Ran(Place(), old(Shown()), line, answers)
      ensures legs == old(legs) + if !cut && Launches(line, answers) then [old(Here()).value] else []
      ensures stop.cancelled == old(stop.cancelled) && (running.Some? <==> !cut && Launches(line, answers))
    {
      hide Inv, Accepting, Reaches, Now, Ran, TaskOf, FailsWith, LegReport, Facts, Assets.Worked;
      SessionHere();
      RanInSteps(Place(), Shown(), line, answers);
      Accept(line);
      var leg := Leg(options.Current(app.profile), app.session.value.agent, options.scope, app.assets);
      AcceptingReaches();
      if cut {
        return true;
      }
      if Opens(answers.leg) {
        Start(line, leg, answers.task);
      } else {
        RefuseLeg(answers.leg);
      }
      dropped := false;
    }

    lemma AcceptingReaches()
      requires Accepting()
      ensures Reaches(Given(), trace, Now())
    {
      hide Reaches;
    }

    method Provide(provided: seq<Assets.Provided>)
      requires Inv() && app.session.Some?
      modifies app.assets
      ensures Inv() && OnDesk() == old(OnDesk()).(log := Assets.Worked(old(OnDesk()).log, provided))
    {
      hide Reaches, Resolve, SessionOk, IdentityOk, ModesOk, StopOk, Now, Pending, EventsFor;
      hide Assets.ConsoleAssets.Valid, Assets.Worked;
      HasInventory();
      app.assets.Work(provided);
    }

    /** A command answered on the spot: echoed and completed in one step. */
    method AnswerLocally(echoed: string, reply: Reply)
      requires Inv() && app.session.Some? && !app.busy
      modifies app`busy, app`notice, app`shellHistory, this`trace, this`inputs
      ensures Inv() && old(trace) <= trace && inputs == old(inputs) + [echoed]
      ensures Shown() == AnsweredAs(old(Shown()), [echoed], reply)
    {
      hide Inv, Accepting, Completed;
      CompletedEcho(app.shellHistory, echoed, ShellEntry(echoed, reply.text, Some(if reply.ok then 0 else 1), false));
      Accept(echoed);
      Close(ShellEntry(echoed, reply.text, Some(if reply.ok then 0 else 1), false));
    }

    /** `:smoke record '<text>'` and its refusals. */
    method SmokeCommand(line: string, answers: Answers, cut: bool) returns (dropped: bool)
      requires Inv() && app.session.Some? && !app.busy && running.None? && StartsWith(line, ":smoke")
      modifies app`busy, app`notice, app`shellHistory, this`trace, this`inputs
      ensures Inv() && running.None? && old(trace) <= trace
      ensures dropped <==> cut && SmokeAsks(line, options.config.smokeConversation)
      ensures var enabled := options.config.smokeConversation;
        if dropped then Shown() == old(Shown()) && inputs == old(inputs)
        else
          && Shown() == AnsweredAs(old(Shown()), EchoOf(line, enabled), SmokeReply(line, enabled, answers.smoke))
          && inputs == old(inputs) + EchoOf(line, enabled)
    {
      hide Inv, AnsweredAs, StartsWith, Utf8Length;
      dropped := false;
      var argument := StripPrefix(line, ":smoke record ");
      if argument.None? {
        TurnAway(SMOKE_UNKNOWN);
        return;
      }
      if !options.config.smokeConversation {
        TurnAway(SMOKE_OFF);
        return;
      }
      var text := Unquoted(argument.value);
      if text.None? {
        TurnAway(SMOKE_USAGE);
        return;
      }
      if Utf8Length(text.value) > MAX_SMOKE {
        AnswerLocally(line, Reply(false, "refused: smoke text exceeds 64 KiB"));
        return;
      }
      if cut {
        return true;
      }
      match answers.smoke {
        case Recorded(message, succeeded) => AnswerLocally(line, Reply(succeeded, message));
        case Unrecorded(error) => AnswerLocally(line, Reply(false, "refused: " + error));
      }
    }

    /** A line refused on the status line alone. */
    method TurnAway(text: string)
      requires Inv()
      modifies app`notice
      ensures Inv() && Shown() == AnsweredAs(old(Shown()), [], Reply(false, text))
    {
      hide Inv;
      Refuse(text);
    }

    /** `:asset attach-base64`: the literal goes into this entry's inventory, never into the history. */
    method AssetCommand(line: string, answers: Answers)
      requires Inv() && app.session.Some? && !app.busy && running.None?
      requires StartsWith(line, ":asset") && !StartsWith(line, ":smoke")
      modifies app`busy, app`notice, app`shellHistory, this`trace, this`inputs, app.assets
      ensures Inv() && running.None? && old(trace) <= trace
      ensures var echo, desk := EchoOf(line, options.config.smokeConversation), old(OnDesk());
        && inputs == old(inputs) + echo && (forall input :: input in echo ==> input == ASSET_LABEL)
        && Shown() == AnsweredAs(old(Shown()).(desk := desk.(log := AssetLog(line, answers.host, desk.log))),
                                 echo, AssetReply(line, answers.host, desk.log))
    {
      hide StartsWith, StripPrefix, SplitOnce, AttachedText, Inv, Assets.Outcome, Assets.AttachedLog, AnsweredAs;
      AssetPrefix(line);
      if StripPrefix(line, ":asset ").None? {
        TurnAway(ASSET_UNKNOWN);
        return;
      }
      var pair := AssetArguments(line);
      if pair.None? {
        AnswerLocally(ASSET_LABEL, Reply(false, "refused: " + ASSET_USAGE));
        return;
      }
      var attached := Attach(pair.value.0, pair.value.1, answers.host);
      AnswerLocally(ASSET_LABEL, Reply(attached.Attached?, AttachedText(attached)));
    }

    lemma HasInventory()
      requires Inv()
      ensures app.session.Some? <==> app.assets != null
    {
      hide Reaches, Resolve, IdentityOk, ModesOk, StopOk, Now;
    }

    lemma AssetPrefix(line: string)
      ensures StripPrefix(line, ":asset ").Some? <==> StartsWith(line, ":asset ")
    {
    }

    /** Only the inventory of the current entry changes, by the blob it takes. */
    method Attach(mime: string, encoded: string, host: Assets.Host) returns (r: Assets.Attached)
      requires Inv() && app.session.Some?
      modifies app.assets
      ensures Inv() && r == Assets.Outcome(old(OnDesk()).log, mime, encoded, host)
      ensures OnDesk() == old(OnDesk()).(log := Assets.AttachedLog(old(OnDesk()).log, mime, encoded, host))
    {
      hide Reaches, Resolve, SessionOk, IdentityOk, ModesOk, StopOk, Now, Pending, EventsFor;
      hide Assets.ConsoleAssets.Valid, Assets.Outcome, Assets.AttachedLog, Assets.ValidMime, Assets.Literal;
      HasInventory();
      r := app.assets.AttachBase64(mime, encoded, host);
    }

    /** Action::Shell. A refused line leaves the history alone and says why. */
    method Shell(line: string, answers: Answers, cut: bool) returns (dropped: bool)
      requires Inv()
      modifies stop, this`running, this`history, this`handles, this`trace, this`inputs, this`legs, this`open
      modifies app`busy, app`shellHistory, app`notice, app`lastError, app.assets
      ensures if dropped then cut && running.None? && Reaches(Given(), trace, Now()) else Inv()
      ensures old(trace) <= trace && stop.cancelled == old(stop.cancelled)
      ensures old(app.session.None? || app.busy) ==>
        && !dropped && trace == old(trace) && inputs == old(inputs) && legs == old(legs)
        && Shown() == Refuses(old(Shown()), if old(app.session.None?) then HOP_FIRST else BUSY_DISPATCH)
      ensures old(app.session.Some? && !app.busy) ==>
        && (dropped <==> cut && Asks(line, options.config.smokeConversation))
        && legs == old(legs) + (if !cut && Launches(line, answers) then [old(Here()).value] else [])
        && inputs == old(inputs) + (if dropped && StartsWith(line, ":smoke") then []
                                    else EchoOf(line, options.config.smokeConversation))
        && (running.Some? <==> !cut && Launches(line, answers))
        && OnDesk().log == (if dropped then old(OnDesk()).log else LogAfter(old(OnDesk()).log, line, answers))
        && (if dropped then
              var echo := if StartsWith(line, ":smoke") then [] else [Echo(line)];
              OnDesk() == old(OnDesk()).(shell := old(app.shellHistory) + echo)
            else Shown() == Ran(Place(), old(Shown()), line, answers))
    {
      hide Inv, Accepting, Reaches, StartsWith, SmokeReply, SmokeAsks, AssetReply, AssetLog, TaskOf, Assets.Worked;
      hide EchoOf, Facts;
      HasInventory();
      dropped := false;
      var ready := CheckReady();
      if !ready {
        return;
      }
      if StartsWith(line, ":smoke") {
        dropped := SmokeCommand(line, answers, cut);
        InvReaches();
      } else if StartsWith(line, ":asset") {
        AssetCommand(line, answers);
      } else {
        ScriptsAreEchoed(line, options.config.smokeConversation);
        dropped := RunScript(line, answers, cut);
      }
    }

    /** Dispatch's own guards. */
    method CheckReady() returns (ready: bool)
      requires Inv()
      modifies app`notice
      ensures Inv() && ready == (app.session.Some? && !app.busy)
      ensures app.notice == if app.session.None? then Some(Notice(HOP_FIRST, true))
                            else if app.busy then Some(Notice(BUSY_DISPATCH, true)) else old(app.notice)
      ensures ready ==> running.None?
    {
      hide Reaches, Resolve, Assets.ConsoleAssets.Valid, IdentityOk, SessionOk, ModesOk, StopOk, Now;
      ready := true;
      if app.session.None? {
        Refuse(HOP_FIRST);
        ready := false;
      } else if app.busy {
        Refuse(BUSY_DISPATCH);
        ready := false;
      }
    }

    // -------------------------------------------------------------------------------------------
    // How a command ends

    /** The task is joined, its leg still bound. */
    ghost predicate Joining()
      reads this`trace, this`inputs, this`open, this`legs, this`inventories, this`handles, stop, options
      reads app.assets, app.conversation
      reads this`running
      reads app`session, app`assets, app`conversation, app`profile, app`subject, app`model, app`modelSource
      reads app`mode, app`pane, app`lastError, app`shellHistory, app`busy
    {
      Common() && app.session.Some? && app.busy && running.None? && open
    }

    /** A task that failed or died reports for its command; one that returned gives the history back. */
    method ReportJoin(joined: JoinResult)
      modifies app`shellHistory, app`notice, app`lastError, this`history
      ensures history == if joined.Returned? then joined.history else old(history)
      ensures var given := old(Shown()).(desk := old(OnDesk()).(memory := history));
        && Shown() == (if joined.Returned? then given else FailsWith(Place(), given, EndReport(joined)))
        && (joined.Returned? ==> app.shellHistory == old(app.shellHistory))
        && (!joined.Returned? ==>
              app.shellHistory
              == FailedHistory(old(app.shellHistory), WithFacts(EndReport(joined), Facts(Place(), given))))
      ensures app.lastError == old(app.lastError) || app.lastError.Some?
    {
      hide FailedHistory, EndReport, Facts, Summary;
      match joined {
        case Returned(returned) => history := returned;
        case SessionFailed(error) => Fail(EndReport(joined));
        case TaskDied(error) => Fail(EndReport(joined));
      }
    }

    /** What is reported, released and cleared when a task is joined. */
    method ReleaseLeg(joined: JoinResult)
      requires running.None?
      modifies stop`requested, stop`broker, this`history, app`shellHistory, app`notice, app`lastError, app`busy
      ensures Shown() == Settled(Place(), old(Shown()), joined)
      ensures app.shellHistory
           == FailedHistory(old(app.shellHistory), WithFacts(EndReport(joined), Facts(Place(), old(Shown()))))
      ensures app.lastError == old(app.lastError) || app.lastError.Some?
      ensures !stop.requested && stop.broker.None? && !app.busy
    {
      hide FailedHistory, EndReport, Facts, FailsWith;
      NothingPendsFailed(app.shellHistory, WithFacts(EndReport(joined), Facts(Place(), Shown())));
      FactsIgnoreTheDesk(
        Place(), Shown(), OnDesk().(memory := if joined.Returned? then joined.history else history));
      ReportJoin(joined);
      stop.Reset();
      if app.shellHistory != [] && app.shellHistory[|app.shellHistory| - 1].exitCode.None? {
        Fail(EndReport(joined));
      }
      app.busy := false;
    }

    /** Ends a command: joined, it has exactly one outcome and its leg is released. */
    method SettleTurn(joined: JoinResult)
      requires Joining()
      modifies stop`requested, stop`broker, this`history, this`trace, this`open
      modifies app`shellHistory, app`notice, app`lastError, app`busy
      ensures Inv() && running.None? && !app.busy
      ensures Shown() == Settled(Place(), old(Shown()), joined)
      ensures trace
           == old(trace) + Settling(old(app.shellHistory), WithFacts(EndReport(joined), Facts(Place(), old(Shown()))))
    {
      hide Reaches, Resolve, Assets.ConsoleAssets.Valid, IdentityOk, Shown, Facts, WithFacts;
      hide EndReport, FailedEntry, FailedHistory, Settling, Settled;
      ghost var p, report := Now(), WithFacts(EndReport(joined), Facts(Place(), Shown()));
      ReleaseLeg(joined);
      MarkSettled(Given(), trace, p, report);
      trace, open := trace + Settling(p.history, report), false;
    }

    /** Collects a finished task. */
    method FinishTurn()
      requires Inv()
      modifies stop`requested, stop`broker, this`running, this`history, this`trace, this`open
      modifies app`shellHistory, app`notice, app`lastError, app`busy
      ensures Inv() && running.None? && old(trace) <= trace
      ensures Shown() == if old(running).Some? then Settled(Place(), old(Shown()), old(running).value.joined)
                         else old(Shown())
    {
      hide Reaches, Resolve, Assets.ConsoleAssets.Valid, IdentityOk, SessionOk, ModesOk, StopOk, Now;
      hide Facts, EndReport, EventsFor, Settling, FailsWith;
      if running.None? {
        return;
      }
      var joined := running.value.joined;
      running := None;
      SettleTurn(joined);
    }

    /** A reported outcome replaces the pending echo; a second report finds none and changes nothing. */
    method Complete(entry: ShellEntry)
      requires Inv() && running.Some? && EventsFor([ShellFinished(entry)], app.shellHistory)
      modifies app`shellHistory, this`trace
      ensures Inv() && app.shellHistory == Completed(old(app.shellHistory), entry) && old(trace) <= trace
    {
      hide Reaches, Resolve, Assets.ConsoleAssets.Valid, IdentityOk, ModesOk;
      ghost var p := Now();
      assert ShellFinished(entry) in [ShellFinished(entry)];
      app.FinishShell(entry);
      if Pending(p.history) {
        MarkReported(Given(), trace, p, entry);
        trace := trace + [Reported(entry)];
      }
    }

    /** Takes the next event off the channel. */
    method Pop() returns (e: SessionEvent)
      requires Inv() && running.Some? && running.value.events != []
      modifies this`running
      ensures Inv() && running.Some? && [e] + running.value.events == old(running.value.events)
      ensures running.value.joined == old(running.value.joined)
      ensures EventsFor([e], app.shellHistory) && !e.Finished?
    {
      hide Reaches, Resolve, Assets.ConsoleAssets.Valid, IdentityOk, SessionOk, ModesOk, StopOk, Now;
      e := running.value.events[0];
      running := Some(RunningTurn(running.value.events[1..], running.value.joined));
    }

    /** Any other event goes to the transcript, which has no open turn to put it in. */
    method Observe(e: SessionEvent)
      requires Inv() && !e.Finished?
      modifies app`busy
      ensures Inv() && app.busy == old(app.busy)
    {
      hide Reaches, Resolve, Assets.ConsoleAssets.Valid, IdentityOk, ModesOk, StopOk, Now;
      app.OnSessionEvent(e);
    }

    /** One event of the running task, or the end of its channel. */
    method Receive()
      requires Inv() && running.Some?
      modifies stop`requested, stop`broker, this`running, this`history, this`trace, this`open
      modifies app`shellHistory, app`notice, app`lastError, app`busy
      ensures Inv() && old(trace) <= trace
      ensures Shown() == Received(Place(), old(Shown()), old(running).value)
    {
      hide Inv, EventsFor, Settled, Completed;
      if running.value.events == [] {
        FinishTurn();
        return;
      }
      var e := Pop();
      assert [e] + running.value.events == old(running.value.events);
      match e {
        case Progress(message) => Tell(message);
        case ShellFinished(entry) => Complete(entry);
        case _ => Observe(e);
      }
    }

    method Tell(text: string)
      requires Inv()
      modifies app`notice
      ensures Inv() && app.notice == Some(Notice(text, false))
    {
      hide Reaches, Resolve, Assets.ConsoleAssets.Valid, SessionOk, IdentityOk, ModesOk, StopOk, Now;
      app.Say(text, false);
    }

    // -------------------------------------------------------------------------------------------
    // Keys

    /** Asks the running command to stop: through the state first, then through its own handle. */
    method AskStop() returns (asked: bool)
      requires Inv()
      modifies app`notice, stop`requested, stop`cancelled, this`trace
      ensures Inv() && asked == app.busy
      ensures asked ==>
        legs != [] && trace == old(trace) + [StopAsked] && stop.cancelled == old(stop.cancelled) + {|legs| - 1}
      ensures !asked ==> trace == old(trace) && stop.cancelled == old(stop.cancelled)
      ensures app.notice == if asked then Some(Notice(STOPPING, false)) else old(app.notice)
    {
      hide Reaches, Resolve, Assets.ConsoleAssets.Valid, IdentityOk, ModesOk;
      ghost var p := Now();
      asked := app.RequestStop();
      if asked {
        stop.Request();
        MarkStopAsked(Given(), trace, p);
        trace := trace + [StopAsked];
      }
    }

    /** What every key keeps: the modes, and a stop asked for exactly when it should be. */
    ghost predicate StopsOnly(asked: bool, wasTrace: seq<Mark>, wasCancelled: set<nat>)
      reads this`trace, this`legs, stop`cancelled
    {
      if asked then legs != [] && trace == wasTrace + [StopAsked] && stop.cancelled == wasCancelled + {|legs| - 1}
      else trace == wasTrace && stop.cancelled == wasCancelled
    }

    /** Leaves or enters composing, or moves the pane. */
    method Switch(mode: Mode, pane: Pane)
      requires Inv() && (mode == Composing ==> pane == AppState.Shell) && mode != Error
      modifies app`mode, app`pane
      ensures Inv() && app.mode == mode && app.pane == pane
    {
      hide Reaches, Resolve, Assets.ConsoleAssets.Valid, SessionOk, IdentityOk, StopOk, Now;
      app.mode, app.pane := mode, pane;
    }

    /** Sends the composed line, or says why not; a refused line stays where it was. */
    method Submit() returns (action: Option<Action>)
      requires Inv() && app.mode == Composing
      modifies app`notice, app`composer
      ensures Inv()
      ensures action
           == if old(Sends(Seen(), app.busy, app.session.Some?)) then Some(Run(Trim(old(app.composer)))) else None
      ensures app.composer == if action.Some? then "" else old(app.composer)
      ensures app.notice == if app.busy then Some(Notice(BUSY_KEY, true))
                            else if app.session.None? then Some(Notice(HOP_FIRST, true)) else old(app.notice)
    {
      hide Reaches, Resolve, Assets.ConsoleAssets.Valid, SessionOk, IdentityOk, StopOk, Now, Trim;
      if app.busy {
        Refuse(BUSY_KEY);
        return None;
      }
      if app.session.None? {
        Refuse(HOP_FIRST);
        return None;
      }
      var line := Trim(app.composer);
      if line == "" {
        return None;
      }
      app.composer := "";
      action := Some(Run(line));
    }

    method OnComposingKey(key: KeyEvent) returns (action: Option<Action>)
      requires Inv() && app.mode == Composing
      modifies app`mode, app`pane, app`notice, app`composer, stop`requested, stop`cancelled, this`trace
      ensures Inv() && StopsOnly(key.code == Esc && app.busy, old(trace), old(stop.cancelled))
      ensures Seen() == Composed(old(Seen()), key, app.busy, app.session.Some?)
      ensures !IsCtrlC(key) ==>
        app.notice == Said(old(Seen()), key, app.busy, app.session.Some?, app.lastError.Some?, old(app.notice))
      ensures action == Emitted(old(Seen()), key, app.busy, app.session.Some?)
    {
      hide Inv, Trim;
      action := None;
      match key.code {
        case Esc =>
          var asked := AskStop();
          if !asked {
            Switch(Browsing, app.pane);
            app.composer := "";
          }
        case Tab => Switch(Browsing, app.pane.Next());
        case BackTab => Switch(Browsing, app.pane.Previous());
        case Enter => action := Submit();
        case _ => app.composer := Typed(app.composer, key);
      }
    }

    method OnBrowsingKey(key: KeyEvent) returns (action: Option<Action>)
      requires Inv() && app.mode == Browsing
      modifies app`shouldQuit, app`mode, app`pane, app`notice, app`selectedAgent
      modifies stop`requested, stop`cancelled, this`trace
      ensures Inv() && StopsOnly(key.code == Esc && app.busy, old(trace), old(stop.cancelled))
      ensures Seen() == Browsed(old(Seen()), key, app.lastError.Some?, |app.agents|)
      ensures !IsCtrlC(key) ==>
        app.notice == Said(old(Seen()), key, app.busy, app.session.Some?, app.lastError.Some?, old(app.notice))
      ensures action == Emitted(old(Seen()), key, app.busy, app.session.Some?)
    {
      hide Inv, Trim;
      action := None;
      match key.code {
        case Char('q') => app.shouldQuit := true;
        case Char('?') => Switch(Help, app.pane);
        case Char('e') => ShowError();
        case Tab => Switch(Browsing, app.pane.Next());
        case BackTab => Switch(Browsing, app.pane.Previous());
        case Down => app.MoveSelection(1);
        case Up => app.MoveSelection(-1);
        case Char('j') => app.MoveSelection(1);
        case Char('k') => app.MoveSelection(-1);
        case Char('i') =>
          if app.pane == AppState.Shell {
            Switch(Composing, app.pane);
          }
        case Enter =>
          if app.pane == Agents {
            action := Some(Hop);
          }
        case Esc => var _ := AskStop();
        case _ =>
      }
    }

    method ShowError()
      requires Inv()
      modifies app`mode, app`notice
      ensures Inv() && app.mode == if app.lastError.Some? then Error else old(app.mode)
      ensures app.notice == if app.lastError.Some? then old(app.notice) else Some(Notice("no error to show", false))
    {
      hide Reaches, Resolve, Assets.ConsoleAssets.Valid, SessionOk, IdentityOk, StopOk, Now;
      app.ShowError();
    }

    /** One key press: the view, the action and the stop are those of the key, and a command that is
        emitted passes dispatch's own guards. */
    method OnKey(key: KeyEvent) returns (action: Option<Action>)
      requires Inv()
      modifies app`shouldQuit, app`mode, app`pane, app`notice, app`composer, app`selectedAgent
      modifies stop`requested, stop`cancelled, this`trace
      ensures Inv()
      ensures StopsOnly(key.code == Esc && app.busy && old(app.mode == Composing || app.mode == Browsing),
                        old(trace), old(stop.cancelled))
      ensures Seen() == Keyed(old(Seen()), key, app.busy, app.session.Some?, app.lastError.Some?, |app.agents|)
      ensures app.notice == Said(old(Seen()), key, app.busy, app.session.Some?, app.lastError.Some?, old(app.notice))
      ensures action == Emitted(old(Seen()), key, app.busy, app.session.Some?)
      ensures action.Some? && action.value.Run? ==>
        && app.session.Some? && !app.busy
        && action.value.line == Trim(old(app.composer)) && action.value.line != "" && app.composer == ""
      ensures action.None? && key.code == Enter ==> app.composer == old(app.composer)
      ensures old(app.mode) != Composing ==> app.composer == old(app.composer)
    {
      hide Inv, Trim;
      action := None;
      if Control in key.modifiers && key.code == Char('c') {
        app.shouldQuit := true;
      } else if app.mode == Help {
        Switch(Browsing, app.pane);
      } else if app.mode == Error {
        if key.code in {Esc, Enter, Char('q'), Char('e')} {
          Switch(Browsing, app.pane);
        }
      } else if app.pane == AppState.Shell && key.code in {PageUp, PageDown, Home, End} {
      } else if app.mode == Composing {
        action := OnComposingKey(key);
      } else {
        action := OnBrowsingKey(key);
      }
    }

    // -------------------------------------------------------------------------------------------
    // The loop

    /** Joins the running task before the console goes away: the last thing any run does. */
    method StopRunning()
      requires Inv()
      modifies stop`requested, stop`cancelled, this`running, this`trace
      ensures running.None? && Reaches(Given(), trace, Now()) && old(trace) <= trace
      ensures old(running).Some? ==>
        legs != [] && trace == old(trace) + [StopAsked] && stop.cancelled == old(stop.cancelled) + {|legs| - 1}
      ensures old(running).None? ==> trace == old(trace) && stop.cancelled == old(stop.cancelled)
    {
      hide Reaches, Resolve, Assets.ConsoleAssets.Valid, SessionOk, IdentityOk, ModesOk;
      ghost var p := Now();
      if running.Some? {
        running := None;
        stop.Request();
        MarkStopAsked(Given(), trace, p);
        trace := trace + [StopAsked];
      }
    }

    /** What an action leaves: a hop, or a line sent to the session. */
    method Dispatch(action: Action, answers: Answers)
      requires Inv()
      modifies this, app, options, stop, app.assets
      ensures Inv() && old(trace) <= trace
      ensures app.assets == old(app.assets) || app.assets == null || fresh(app.assets)
      ensures Shown() == match action
        case Hop => HopLeaves(Place(), old(Shown()), answers.leg)
        case Run(line) => Sent(Place(), old(Shown()), line, answers)
    {
      hide Inv, Accepting, Resolve, HopLeaves, Ran, Left, Choice;
      IdleMeansComplete();
      match action {
        case Hop => var _ := HopIn(answers.leg, false);
        case Run(line) => var _ := Shell(line, answers, false);
      }
    }

    /** A key press, and what it asks for. */
    method Press(key: KeyEvent, answers: Answers)
      requires Inv()
      modifies this, app, options, stop, app.assets
      ensures Inv() && old(trace) <= trace
      ensures app.assets == old(app.assets) || app.assets == null || fresh(app.assets)
      ensures Shown() == After(Place(), old(Shown()), Pressed(key, answers))
      ensures key.code == Esc && old(app.busy && (app.mode == Browsing || app.mode == Composing)) ==>
        StopsOnly(true, old(trace), old(stop.cancelled))
    {
      hide Inv, HopLeaves, Sent, Keyed, Said, Emitted, Labelled, Given;
      IdleMeansComplete();
      OnlyEnterActs(Seen(), key, app.busy, app.session.Some?);
      var action := OnKey(key);
      if action.Some? {
        Dispatch(action.value, answers);
      }
    }

    /** One turn of the loop: the scene that follows is the one this input makes. */
    method Step(input: Input)
      requires Inv() && input != TerminalLost
      modifies this, app, options, stop, app.assets
      ensures Inv() && old(trace) <= trace
      ensures app.assets == old(app.assets) || app.assets == null || fresh(app.assets)
      ensures Shown() == After(Place(), old(Shown()), input)
      ensures input.Pressed? && input.key.code == Esc
              && old(app.busy && (app.mode == Browsing || app.mode == Composing)) ==>
        StopsOnly(true, old(trace), old(stop.cancelled))
    {
      hide Inv, Received, HopLeaves, Sent, Touched, Emitted;
      match input {
        case Pressed(key, answers) => Press(key, answers);
        case Arrived =>
          if running.Some? {
            Receive();
          }
        case KeysEnded => app.shouldQuit := true;
        case Ignored =>
      }
    }

    /** How a run ends: all inputs are used unless the console quits or its terminal is lost; then the running
        task is joined, and that is all. */
    ghost predicate Ends(scenes: seq<Scene>, inputs: seq<Input>, failed: bool)
      requires 0 < |scenes| <= |inputs| + 1
      reads this, app, app.assets
    {
      var last, used := scenes[|scenes| - 1], |scenes| - 1;
      && Shown() == (if failed || last.view.quit then last.(desk := last.desk.(running := None)) else last)
      && (failed ==> used < |inputs| && inputs[used] == TerminalLost && !last.view.quit)
      && (!failed && !last.view.quit ==> used == |inputs|)
    }

    /** Any run: each input makes the next scene, and the marks stay in order. */
    method Drive(inputs: seq<Input>) returns (failed: bool, ghost scenes: seq<Scene>)
      requires Inv()
      modifies this, app, options, stop, app.assets
      ensures old(trace) <= trace && Reaches(Given(), trace, Now())
      ensures failed || app.shouldQuit ==> running.None?
      ensures !failed && !app.shouldQuit ==> Inv()
      ensures Played(Place(), scenes, inputs) && scenes[0] == old(Shown()) && Ends(scenes, inputs, failed)
    {
      hide Inv, Reaches, After;
      var i := 0;
      failed, scenes := false, [Shown()];
      while i < |inputs| && !app.shouldQuit
        invariant 0 <= i <= |inputs| && |scenes| == i + 1
        invariant Played(Place(), scenes, inputs)
        invariant scenes[0] == old(Shown()) && scenes[i] == Shown()
        invariant Inv() && old(trace) <= trace
        invariant app.assets == old(app.assets) || app.assets == null || fresh(app.assets)
      {
        if inputs[i] == TerminalLost {
          StopRunning();
          failed := true;
          return;
        }
        Step(inputs[i]);
        scenes := scenes + [Shown()];
        i := i + 1;
      }
      if app.shouldQuit {
        StopRunning();
      } else {
        InvReaches();
      }
    }

    /** The console from its first screen: startup may name an agent to hop onto at once. */
    method Operate(first: Option<LegAnswer>, inputs: seq<Input>) returns (failed: bool, ghost scenes: seq<Scene>)
      requires Inv() && trace == []
      modifies this, app, options, stop
      ensures Legal(Given(), trace) && At(trace, |trace|) == Now()
      ensures failed || app.shouldQuit ==> running.None?
      ensures !failed && !app.shouldQuit ==> Inv()
      ensures Played(Place(), scenes, inputs) && Ends(scenes, inputs, failed)
      ensures Fits(Place(), scenes[0]) && scenes[0]
           == if first.Some? then HopLeaves(Place(), old(Shown()), first.value) else old(Shown())
    {
      hide Inv, Legal, Now, Played, HopLeaves, Left, Choice, Ends, Fits;
      NothingYet();
      FirstFits();
      if first.Some? {
        HopFits(Place(), Shown(), first.value);
        var _ := HopIn(first.value, false);
      }
      failed, scenes := Drive(inputs);
    }

    /** A console that has done nothing yet. */
    lemma NothingYet()
      requires Inv() && trace == []
      ensures inputs == [] && legs == [] && stop.cancelled == {} && running.None?
      ensures app.session.None? && app.assets == null
    {
      hide Resolve, IdentityOk, ModesOk, StopOk;
    }

    lemma FirstFits()
      requires Inv() && trace == []
      ensures Fits(Place(), Shown())
    {
      hide Reaches, Resolve, IdentityOk, SessionOk, StopOk;
      NothingYet();
    }

    lemma SessionHere()
      requires Inv()
      ensures app.session.Some? <==> Here().Some?
      ensures Here().Some? ==> Here().value.agent == app.session.value.agent
      ensures Here().Some? ==> Resolve(options.config, unbound, Here().value.agent) == As(Here().value.identity)
    {
      hide Reaches, Resolve, ModesOk, StopOk;
    }

    lemma InvReaches()
      requires Inv()
      ensures Reaches(Given(), trace, Now())
    {
      hide Reaches;
    }

    /** Between two steps only the last command may be without its outcome, and none is when nothing
        runs. */
    lemma IdleMeansComplete()
      requires Inv()
      ensures OnlyLastPending(app.shellHistory)
      ensures running.None? ==> forall i :: 0 <= i < |app.shellHistory| ==> app.shellHistory[i].exitCode.Some?
      ensures app.busy <==> running.Some?
    {
      hide SessionOk, IdentityOk, ModesOk, StopOk, Resolve, Allowed, Next, Commands, Outcomes;
      OutcomesBalance(Given(), trace, |trace|);
    }
  }
}
