/** Which identity a console runs under: resolved once at startup, and again at every hop. */
module Profiles {
  import opened Text

  const DEFAULT_MODEL := "gpt-5.6-luna"
  const DEFAULT_STEPS: nat := 8
  const DEFAULT_CALLS: nat := 16

  datatype OperatorProfile = OperatorProfile(
    name: string, agent: string, subject: string,
    model: Option<string>, maxSteps: Option<nat>, maxCapabilityCalls: Option<nat>)

  datatype Document = Document(defaultProfile: Option<string>, profiles: seq<OperatorProfile>)

  datatype ModelSource = CliOverride | Profile | Default

  /** Everything that decides as whom, and within which bounds, a command runs. */
  datatype Identity = Identity(
    subject: string, model: string, source: ModelSource, maxSteps: nat, maxCalls: nat, profile: Option<string>)

  /** What never changes after startup. */
  datatype Config = Config(
    profiles: seq<OperatorProfile>, fixedProfile: Option<string>,
    modelOverride: Option<string>, stepsOverride: Option<nat>, callsOverride: Option<nat>,
    smokeConversation: bool)

  function SelectedModel(cli: Option<string>, profile: Option<string>): (string, ModelSource) {
    match (cli, profile)
    case (Some(model), _) => (model, CliOverride)
    case (None, Some(model)) => (model, Profile)
    case (None, None) => (DEFAULT_MODEL, Default)
  }

  function OrElse<T>(first: Option<T>, second: Option<T>): Option<T> {
    if first.Some? then first else second
  }

  function OrDefault(value: Option<nat>, fallback: nat): nat {
    if value.Some? then value.value else fallback
  }

  function IdentityOf(config: Config, p: OperatorProfile): Identity {
    var (model, source) := SelectedModel(config.modelOverride, p.model);
    Identity(p.subject, model, source,
             OrDefault(OrElse(config.stepsOverride, p.maxSteps), DEFAULT_STEPS),
             OrDefault(OrElse(config.callsOverride, p.maxCapabilityCalls), DEFAULT_CALLS),
             Some(p.name))
  }

  function FindNamed(profiles: seq<OperatorProfile>, name: string): (p: Option<OperatorProfile>)
    ensures p.Some? ==> p.value in profiles && p.value.name == name
    ensures p.None? ==> forall q :: q in profiles ==> q.name != name
  {
    if profiles == [] then None
    else if profiles[0].name == name then Some(profiles[0])
    else FindNamed(profiles[1..], name)
  }

  /** The profiles bound to one agent, in authored order. */
  function BoundTo(profiles: seq<OperatorProfile>, agent: string): (matches: seq<OperatorProfile>)
    ensures forall p :: p in matches <==> p in profiles && p.agent == agent
  {
    if profiles == [] then []
    else (if profiles[0].agent == agent then [profiles[0]] else []) + BoundTo(profiles[1..], agent)
  }

  // ---------------------------------------------------------------------------------------------
  // Authored documents

  predicate IsNameChar(c: char) {
    IsAsciiAlphanumeric(c) || c == '-' || c == '_'
  }

  predicate ValidProfile(p: OperatorProfile) {
    && p.name != "" && (forall i :: 0 <= i < |p.name| ==> IsNameChar(p.name[i]))
    && (p.model.Some? ==> Trim(p.model.value) != "")
    && (p.maxSteps.Some? ==> 1 <= p.maxSteps.value <= 64)
    && (p.maxCapabilityCalls.Some? ==> 1 <= p.maxCapabilityCalls.value <= 256)
  }

  /** What a profile may be: named in letters, digits, dashes and underscores, a model not blank, 1 to 64 steps and
      1 to 256 calls. */
  lemma ProfileIsValidIff(p: OperatorProfile)
    ensures ValidProfile(p) <==>
      && p.name != ""
      && (forall i :: 0 <= i < |p.name| ==>
            var c := p.name[i];
            'a' <= c <= 'z' || 'A' <= c <= 'Z' || '0' <= c <= '9' || c == '-' || c == '_')
      && (p.model.Some? ==> exists k :: 0 <= k < |p.model.value| && !IsWhitespace(p.model.value[k]))
      && (p.maxSteps.Some? ==> 0 < p.maxSteps.value < 65)
      && (p.maxCapabilityCalls.Some? ==> 0 < p.maxCapabilityCalls.value < 257)
  {
    hide IsWhitespace, Trim;
    if p.model.Some? {
      BlankIff(p.model.value);
    }
  }

  predicate UniqueNames(profiles: seq<OperatorProfile>) {
    forall i, j :: 0 <= i < j < |profiles| ==> profiles[i].name != profiles[j].name
  }

  predicate ValidDocument(document: Document) {
    && UniqueNames(document.profiles)
    && (forall i :: 0 <= i < |document.profiles| ==> ValidProfile(document.profiles[i]))
    && (document.defaultProfile.Some? ==>
          exists i :: 0 <= i < |document.profiles| && document.profiles[i].name == document.defaultProfile.value)
  }

  /** Accepts a parsed document, collecting the names seen so far. */
  method ReadProfiles(document: Document) returns (accepted: bool)
    ensures accepted <==> ValidDocument(document)
  {
    var profiles := document.profiles;
    var names: set<string> := {};
    var i := 0;
    while i < |profiles|
      invariant 0 <= i <= |profiles|
      invariant forall k :: 0 <= k < i ==> ValidProfile(profiles[k])
      invariant forall k, l :: 0 <= k < l < i ==> profiles[k].name != profiles[l].name
      invariant forall name :: name in names <==> exists k :: 0 <= k < i && profiles[k].name == name
    {
      if profiles[i].name in names || !ValidProfile(profiles[i]) {
        return false;
      }
      names := names + {profiles[i].name};
      i := i + 1;
    }
    accepted := document.defaultProfile.None? || document.defaultProfile.value in names;
  }

  // ---------------------------------------------------------------------------------------------
  // A hop

  datatype Hop = Refused(notice: string) | As(identity: Identity)

  const NOT_THIS_AGENT := "--profile is bound to its agent; restart with a matching profile"

  function AmbiguousNotice(agent: string): string {
    "multiple profiles for " + agent + "; restart with --profile <NAME>"
  }

  function UnprofiledNotice(agent: string): string {
    "no authored profile for " + agent + "; restart without --profiles and with --subject for subject-only use"
  }

  /** The identity a hop onto an agent takes, as one function of what never changes. `unbound` is the
      startup identity, which only a console without authored profiles keeps. */
  function Resolve(config: Config, unbound: Identity, agent: string): Hop {
    var matches := BoundTo(config.profiles, agent);
    var fixed := if config.fixedProfile.Some? then FindNamed(matches, config.fixedProfile.value) else None;
    if config.fixedProfile.Some?
       && exists p :: p in config.profiles && p.name == config.fixedProfile.value && p.agent != agent then
      Refused(NOT_THIS_AGENT)
    else if |matches| > 1 && config.fixedProfile.None? then Refused(AmbiguousNotice(agent))
    else if fixed.Some? then As(IdentityOf(config, fixed.value))
    else if matches != [] then As(IdentityOf(config, matches[0]))
    else if config.profiles != [] then Refused(UnprofiledNotice(agent))
    else As(unbound)
  }

  /** The named profile, when it is authored under a unique name. */
  lemma {:induction false} NamedIsFound(profiles: seq<OperatorProfile>, p: OperatorProfile)
    requires UniqueNames(profiles) && p in profiles
    ensures FindNamed(profiles, p.name) == Some(p)
    ensures FindNamed(BoundTo(profiles, p.agent), p.name) == Some(p)
    ensures forall q :: q in profiles && q.name == p.name ==> q == p
  {
    if profiles[0] == p {
      forall q | q in profiles[1..] ensures q.name != p.name {
        var k :| 0 <= k < |profiles[1..]| && profiles[1..][k] == q;
        assert profiles[k + 1] == q;
      }
    } else {
      assert UniqueNames(profiles[1..]);
      NamedIsFound(profiles[1..], p);
      var k :| 0 <= k < |profiles| && profiles[k] == p;
      assert profiles[0].name != p.name;
    }
  }

  /** How many profiles are bound to an agent does not depend on how they are listed: at most one
      match means every bound profile is that one. */
  lemma {:induction false} OneMatchIsAll(profiles: seq<OperatorProfile>, agent: string)
    requires UniqueNames(profiles)
    ensures |BoundTo(profiles, agent)| <= 1 <==>
      forall p, q :: p in profiles && q in profiles && p.agent == agent && q.agent == agent ==> p == q
  {
    var matches := BoundTo(profiles, agent);
    if |matches| > 1 {
      BoundToKeepsNamesApart(profiles, agent);
      assert matches[0] in matches && matches[1] in matches && matches[0] != matches[1];
    } else {
      forall p, q | p in profiles && q in profiles && p.agent == agent && q.agent == agent ensures p == q {
        assert p in matches && q in matches;
      }
    }
  }

  lemma {:induction false} BoundToKeepsNamesApart(profiles: seq<OperatorProfile>, agent: string)
    requires UniqueNames(profiles)
    ensures UniqueNames(BoundTo(profiles, agent))
  {
    if profiles != [] {
      assert UniqueNames(profiles[1..]);
      BoundToKeepsNamesApart(profiles[1..], agent);
      var rest := BoundTo(profiles[1..], agent);
      forall k | 0 <= k < |rest| ensures rest[k].name != profiles[0].name {
        assert rest[k] in rest && rest[k] in profiles[1..];
        var l :| 0 <= l < |profiles[1..]| && profiles[1..][l] == rest[k];
        assert profiles[l + 1] == rest[k];
      }
    }
  }

  /** The identity is the profile's, command line first: its subject and name; the model of the command line,
      else of the profile, else the default one, with where it came from; and the bounds likewise. */
  predicate Carries(config: Config, p: OperatorProfile, id: Identity) {
    && id.subject == p.subject && id.profile == Some(p.name)
    && ModelIs(config.modelOverride, p.model, id.model, id.source)
    && BoundIs(config.stepsOverride, p.maxSteps, 8, id.maxSteps)
    && BoundIs(config.callsOverride, p.maxCapabilityCalls, 16, id.maxCalls)
  }

  predicate ModelIs(cli: Option<string>, profile: Option<string>, model: string, source: ModelSource) {
    && (cli.Some? ==> cli == Some(model) && source == CliOverride)
    && (cli.None? && profile.Some? ==> profile == Some(model) && source == Profile)
    && (cli.None? && profile.None? ==> model == "gpt-5.6-luna" && source == Default)
  }

  predicate BoundIs(cli: Option<nat>, profile: Option<nat>, fallback: nat, bound: nat) {
    && (cli.Some? ==> cli == Some(bound))
    && (cli.None? && profile.Some? ==> profile == Some(bound))
    && (cli.None? && profile.None? ==> bound == fallback)
  }

  lemma ModelIsSelected(cli: Option<string>, profile: Option<string>, model: string, source: ModelSource)
    ensures ModelIs(cli, profile, model, source) <==> (model, source) == SelectedModel(cli, profile)
  {
  }

  lemma BoundIsChosen(cli: Option<nat>, profile: Option<nat>, fallback: nat, bound: nat)
    ensures BoundIs(cli, profile, fallback, bound) <==> bound == OrDefault(OrElse(cli, profile), fallback)
  {
  }

  lemma CarriesIff(config: Config, p: OperatorProfile, id: Identity)
    ensures Carries(config, p, id) <==> id == IdentityOf(config, p)
  {
    hide ModelIs, BoundIs, SelectedModel, OrDefault, OrElse;
    ModelIsSelected(config.modelOverride, p.model, id.model, id.source);
    BoundIsChosen(config.stepsOverride, p.maxSteps, DEFAULT_STEPS, id.maxSteps);
    BoundIsChosen(config.callsOverride, p.maxCapabilityCalls, DEFAULT_CALLS, id.maxCalls);
  }

  /** A hop that is not refused runs as an authored profile of its agent, with everything that profile
      carries, or as the startup identity where none is authored. */
  lemma HopCarriesItsProfile(config: Config, unbound: Identity, agent: string)
    requires Resolve(config, unbound, agent).As?
    ensures var id := Resolve(config, unbound, agent).identity;
      if config.profiles == [] then id == unbound
      else exists p :: p in config.profiles && p.agent == agent && Carries(config, p, id)
  {
    hide Carries, IdentityOf, AmbiguousNotice, UnprofiledNotice;
    var id, matches := Resolve(config, unbound, agent).identity, BoundTo(config.profiles, agent);
    if matches != [] {
      assert matches[0] in matches;
      forall p | p in matches ensures id == IdentityOf(config, p) ==> Carries(config, p, id) {
        CarriesIff(config, p, id);
      }
    }
  }

  /** With uniquely named profiles and a fixed one among them, a hop takes a profile exactly when that
      profile is bound to the agent and is the fixed one, or the only one there is. */
  lemma HopTakesIff(config: Config, unbound: Identity, agent: string, p: OperatorProfile)
    requires UniqueNames(config.profiles) && p in config.profiles
    requires config.fixedProfile.Some? ==> FindNamed(config.profiles, config.fixedProfile.value).Some?
    ensures (var hop := Resolve(config, unbound, agent); hop.As? && Carries(config, p, hop.identity)) <==>
      && p.agent == agent
      && if config.fixedProfile.Some? then p.name == config.fixedProfile.value
         else forall q :: q in config.profiles && q.agent == agent ==> q == p
  {
    hide UniqueNames, IdentityOf, Carries, AmbiguousNotice, UnprofiledNotice;
    TakesIff(config, unbound, agent, p);
    if Resolve(config, unbound, agent).As? {
      CarriesIff(config, p, Resolve(config, unbound, agent).identity);
    }
  }

  lemma IdentitiesAreNamed(config: Config)
    ensures forall p :: IdentityOf(config, p).profile == Some(p.name)
  {
  }

  lemma TakesIff(config: Config, unbound: Identity, agent: string, p: OperatorProfile)
    requires UniqueNames(config.profiles) && p in config.profiles
    requires config.fixedProfile.Some? ==> FindNamed(config.profiles, config.fixedProfile.value).Some?
    ensures Resolve(config, unbound, agent) == As(IdentityOf(config, p)) <==>
      && p.agent == agent
      && if config.fixedProfile.Some? then p.name == config.fixedProfile.value
         else forall q :: q in config.profiles && q.agent == agent ==> q == p
  {
    hide UniqueNames, IdentityOf, AmbiguousNotice, UnprofiledNotice;
    var matches := BoundTo(config.profiles, agent);
    IdentitiesAreNamed(config);
    NamedIsFound(config.profiles, p);
    OneMatchIsAll(config.profiles, agent);
    if config.fixedProfile.Some? {
      var named := FindNamed(config.profiles, config.fixedProfile.value).value;
      NamedIsFound(config.profiles, named);
      assert named.agent == agent ==> Resolve(config, unbound, agent) == As(IdentityOf(config, named));
    } else if |matches| == 1 {
      assert matches[0] in matches;
      NamedIsFound(config.profiles, matches[0]);
    }
  }

  predicate BoundHere(config: Config, agent: string) {
    exists p :: p in config.profiles && p.agent == agent
  }

  predicate FixedElsewhere(config: Config, agent: string) {
    exists p :: p in config.profiles && config.fixedProfile == Some(p.name) && p.agent != agent
  }

  predicate Several(profiles: seq<OperatorProfile>, agent: string) {
    exists p, q :: p in profiles && q in profiles && p.agent == agent && q.agent == agent && p != q
  }

  lemma BoundIff(profiles: seq<OperatorProfile>, agent: string)
    requires UniqueNames(profiles)
    ensures Several(profiles, agent) <==> |BoundTo(profiles, agent)| > 1
    ensures BoundTo(profiles, agent) != [] <==> exists p :: p in profiles && p.agent == agent
    ensures BoundTo(profiles, agent) != [] ==> BoundTo(profiles, agent)[0].agent == agent
  {
    hide UniqueNames;
    OneMatchIsAll(profiles, agent);
    var matches := BoundTo(profiles, agent);
    if matches != [] {
      assert matches[0] in matches;
    }
  }

  /** A hop is refused exactly when profiles are authored and none of them can be taken: the fixed one is bound
      to another agent, several are bound to this one and none is fixed, or none is. */
  lemma HopRefusedIff(config: Config, unbound: Identity, agent: string)
    requires UniqueNames(config.profiles)
    ensures var hop, fixed := Resolve(config, unbound, agent), config.fixedProfile.Some?;
      && (hop.Refused? <==>
            || FixedElsewhere(config, agent)
            || (!fixed && Several(config.profiles, agent))
            || (config.profiles != [] && !BoundHere(config, agent)))
      && (FixedElsewhere(config, agent) ==>
            hop == Refused("--profile is bound to its agent; restart with a matching profile"))
      && (!fixed && Several(config.profiles, agent) ==>
            hop == Refused("multiple profiles for " + agent + "; restart with --profile <NAME>"))
      && (!FixedElsewhere(config, agent) && config.profiles != [] && !BoundHere(config, agent) ==>
            hop == Refused("no authored profile for " + agent
                           + "; restart without --profiles and with --subject for subject-only use"))
  {
    hide UniqueNames, IdentityOf, Several, FindNamed, BoundTo;
    BoundIff(config.profiles, agent);
    NoneAmongNone(config, agent);
  }

  lemma NoneAmongNone(config: Config, agent: string)
    ensures BoundTo([], agent) == []
    ensures config.fixedProfile.Some? ==>
      (FixedElsewhere(config, agent) <==>
         exists p :: p in config.profiles && p.name == config.fixedProfile.value && p.agent != agent)
    ensures config.fixedProfile.Some? ==> FindNamed([], config.fixedProfile.value).None?
  {
  }

  // ---------------------------------------------------------------------------------------------
  // Startup

  datatype Cli = Cli(
    profile: Option<string>, agent: Option<string>, subject: Option<string>, model: Option<string>,
    maxSteps: Option<nat>, maxCapabilityCalls: Option<nat>, smokeConversation: bool, structured: bool)

  datatype StartError =
    | UnknownProfile
    | ManyProfiles
    | SubjectWithProfiles
    | AgentConflict
    | NoSubject
    | UnknownAgent(agent: string)
    | BadTerminal
    | StructuredNeedsAgent

  /** A console ready to open: its first identity, its constants and the highlighted row. */
  datatype Started = Started(config: Config, identity: Identity, initialAgent: Option<string>, selectedAgent: nat)

  datatype Startup = Refusal(error: StartError) | Ready(started: Started)

  /** The profile startup runs under, if any. */
  function Initial(cli: Cli, document: Document): Option<OperatorProfile> {
    var chosen := if cli.profile.Some? then cli.profile else if cli.agent.None? then document.defaultProfile else None;
    var named := if chosen.Some? then FindNamed(document.profiles, chosen.value) else None;
    var matching := if cli.agent.Some? then BoundTo(document.profiles, cli.agent.value) else [];
    if named.Some? then named
    else if cli.profile.None? && matching != [] then Some(matching[0])
    else None
  }

  function FirstUnknown(profiles: seq<OperatorProfile>, catalog: seq<string>): Option<string> {
    if profiles == [] then None
    else if profiles[0].agent !in catalog then Some(profiles[0].agent)
    else FirstUnknown(profiles[1..], catalog)
  }

  function IndexOf(catalog: seq<string>, agent: string): (i: nat)
    requires agent in catalog
    ensures i < |catalog| && catalog[i] == agent
  {
    if catalog[0] == agent then 0 else 1 + IndexOf(catalog[1..], agent)
  }

  lemma {:induction false} KnownAgents(profiles: seq<OperatorProfile>, catalog: seq<string>)
    requires FirstUnknown(profiles, catalog).None?
    ensures forall p :: p in profiles ==> p.agent in catalog
  {
    if profiles != [] {
      KnownAgents(profiles[1..], catalog);
    }
  }

  /** Startup up to the first screen: every refusal in the order it is met. */
  function Execute(cli: Cli, document: Document, catalog: seq<string>, stdinTty: bool, stdoutTty: bool): Startup {
    var initial := Initial(cli, document);
    var matching := if cli.agent.Some? then BoundTo(document.profiles, cli.agent.value) else [];
    var unknown := FirstUnknown(document.profiles, catalog);
    if cli.profile.Some? && FindNamed(document.profiles, cli.profile.value).None? then Refusal(UnknownProfile)
    else if cli.agent.Some? && cli.profile.None? && |matching| > 1 then Refusal(ManyProfiles)
    else if cli.subject.Some? && document.profiles != [] then Refusal(SubjectWithProfiles)
    else if cli.agent.Some? && initial.Some? && cli.agent.value != initial.value.agent then Refusal(AgentConflict)
    else if cli.subject.None? && initial.None? && cli.agent.None? then Refusal(NoSubject)
    else if cli.agent.Some? && cli.agent.value !in catalog then Refusal(UnknownAgent(cli.agent.value))
    else if unknown.Some? then Refusal(UnknownAgent(unknown.value))
    else if initial.None? && cli.subject.None? then Refusal(NoSubject)
    else if if cli.structured then stdinTty || stdoutTty else !stdinTty || !stdoutTty then Refusal(BadTerminal)
    else if cli.structured && cli.agent.None? && cli.profile.None? then Refusal(StructuredNeedsAgent)
    else
      KnownAgents(document.profiles, catalog);
      var (model, source) := SelectedModel(cli.model, if initial.Some? then initial.value.model else None);
      var steps := OrElse(cli.maxSteps, if initial.Some? then initial.value.maxSteps else None);
      var calls := OrElse(cli.maxCapabilityCalls, if initial.Some? then initial.value.maxCapabilityCalls else None);
      var subject := if initial.Some? then initial.value.subject else cli.subject.value;
      var initialAgent :=
        if cli.agent.Some? then cli.agent
        else if cli.profile.Some? && initial.Some? then Some(initial.value.agent) else None;
      assert initial.Some? ==> initial.value in document.profiles;
      Ready(Started(
        Config(document.profiles, cli.profile, cli.model, cli.maxSteps, cli.maxCapabilityCalls, cli.smokeConversation),
        Identity(subject, model, source, OrDefault(steps, DEFAULT_STEPS), OrDefault(calls, DEFAULT_CALLS),
                 if initial.Some? then Some(initial.value.name) else None),
        initialAgent,
        if initialAgent.Some? then IndexOf(catalog, initialAgent.value) else 0))
  }

  /** Startup and the first hop agree: when startup is accepted and names an agent, hopping onto the
      highlighted agent resolves to exactly the identity startup computed. */
  lemma StartupAgreesWithFirstHop(
      cli: Cli, document: Document, catalog: seq<string>, stdinTty: bool, stdoutTty: bool, started: Started)
    requires ValidDocument(document)
    requires Execute(cli, document, catalog, stdinTty, stdoutTty) == Ready(started)
    requires started.initialAgent.Some?
    ensures started.selectedAgent < |catalog| && catalog[started.selectedAgent] == started.initialAgent.value
    ensures Resolve(started.config, started.identity, catalog[started.selectedAgent]) == As(started.identity)
  {
    var initial := Initial(cli, document);
    KnownAgents(document.profiles, catalog);
    if initial.Some? {
      var p := initial.value;
      NamedIsFound(document.profiles, p);
      assert started.identity == IdentityOf(started.config, p);
      if cli.profile.None? {
        OneMatchIsAll(document.profiles, cli.agent.value);
      }
      TakesIff(started.config, started.identity, started.initialAgent.value, p);
    }
  }

  /** For any agent hopped onto, startup's identity is the one the hop takes exactly when no profiles are
      authored, or startup's own profile is bound to that agent and is the fixed one or the only one
      bound to it. */
  lemma {:induction false} HopKeepsStartupIff(
      cli: Cli, document: Document, catalog: seq<string>, stdinTty: bool, stdoutTty: bool, started: Started,
      agent: string)
    requires ValidDocument(document)
    requires Execute(cli, document, catalog, stdinTty, stdoutTty) == Ready(started)
    ensures Resolve(started.config, started.identity, agent) == As(started.identity) <==>
      || document.profiles == []
      || (var initial := Initial(cli, document);
          && initial.Some? && initial.value.agent == agent
          && (cli.profile.Some? || forall q :: q in document.profiles && q.agent == agent ==> q == initial.value))
  {
    hide ValidProfile;
    var initial := Initial(cli, document);
    KnownAgents(document.profiles, catalog);
    if document.profiles == [] {
      assert BoundTo([], agent) == [];
    } else {
      NamedIsFound(document.profiles, initial.value);
      assert started.identity == IdentityOf(started.config, initial.value);
      TakesIff(started.config, started.identity, agent, initial.value);
    }
  }

  /** The profile startup runs under: the one named on the command line, else the only one bound to the agent
      named there, else the default one when no agent is named. */
  lemma StartupChooses(cli: Cli, document: Document, p: OperatorProfile)
    requires ValidDocument(document) && p in document.profiles
    ensures Initial(cli, document) == Some(p) ==>
      || cli.profile == Some(p.name)
      || (cli.profile.None? && cli.agent == Some(p.agent))
      || (cli.profile.None? && cli.agent.None? && document.defaultProfile == Some(p.name))
    ensures cli.profile == Some(p.name) ==> Initial(cli, document) == Some(p)
    ensures cli.profile.None? && cli.agent.None? && document.defaultProfile == Some(p.name) ==>
      Initial(cli, document) == Some(p)
    ensures cli.profile.None? && cli.agent == Some(p.agent)
            && (forall q :: q in document.profiles && q.agent == p.agent ==> q == p) ==>
      Initial(cli, document) == Some(p)
  {
    hide ValidProfile;
    NamedIsFound(document.profiles, p);
    var initial := Initial(cli, document);
    if cli.agent.Some? {
      var matching := BoundTo(document.profiles, cli.agent.value);
      if matching != [] {
        assert matching[0] in matching;
      }
      assert p.agent == cli.agent.value ==> p in matching;
    }
  }

  /** Startup's identity: what its profile carries, or the subject, model and bounds of the command line alone;
      and what it fixes for the hops is the command line's. */
  lemma StartupCarries(
      cli: Cli, document: Document, catalog: seq<string>, stdinTty: bool, stdoutTty: bool, started: Started)
    requires ValidDocument(document)
    requires Execute(cli, document, catalog, stdinTty, stdoutTty) == Ready(started)
    ensures started.config == Config(document.profiles, cli.profile, cli.model, cli.maxSteps, cli.maxCapabilityCalls,
                                     cli.smokeConversation)
    ensures started.initialAgent == (if cli.agent.Some? then cli.agent
                                     else if cli.profile.Some? && Initial(cli, document).Some? then
                                       Some(Initial(cli, document).value.agent)
                                     else None)
    ensures started.initialAgent.None? ==> started.selectedAgent == 0
    ensures match Initial(cli, document)
      case Some(p) => p in document.profiles && Carries(started.config, p, started.identity)
      case None =>
        var id := started.identity;
        && cli.subject == Some(id.subject) && id.profile.None?
        && ModelIs(cli.model, None, id.model, id.source)
        && BoundIs(cli.maxSteps, None, 8, id.maxSteps) && BoundIs(cli.maxCapabilityCalls, None, 16, id.maxCalls)
  {
    hide Carries, ValidProfile, UniqueNames, SelectedModel, OrElse, OrDefault, ModelIs, BoundIs, FirstUnknown;
    KnownAgents(document.profiles, catalog);
    var id := started.identity;
    match Initial(cli, document)
    case Some(p) =>
      InitialIsAuthored(cli, document);
      CarriesIff(started.config, p, id);
    case None =>
      ModelIsSelected(cli.model, None, id.model, id.source);
      BoundIsChosen(cli.maxSteps, None, DEFAULT_STEPS, id.maxSteps);
      BoundIsChosen(cli.maxCapabilityCalls, None, DEFAULT_CALLS, id.maxCalls);
  }

  /** Startup is accepted exactly when the profile named on the command line is authored and bound to the agent
      named there, at most one is bound to an agent named without one, a subject is given only without
      profiles, there is a subject after all, every agent is in the catalog, and the terminal fits. */
  lemma StartupIsAcceptedIff(cli: Cli, document: Document, catalog: seq<string>, stdinTty: bool, stdoutTty: bool)
    requires ValidDocument(document)
    ensures Execute(cli, document, catalog, stdinTty, stdoutTty).Ready? <==>
      && (cli.profile.Some? ==>
            exists p :: p in document.profiles && cli.profile == Some(p.name)
                        && (cli.agent.Some? ==> cli.agent == Some(p.agent)))
      && (cli.agent.Some? && cli.profile.None? ==> !Several(document.profiles, cli.agent.value))
      && (cli.subject.Some? ==> document.profiles == [])
      && (cli.subject.None? ==>
            || cli.profile.Some?
            || (cli.agent.Some? && exists p :: p in document.profiles && cli.agent == Some(p.agent))
            || (cli.agent.None? && document.defaultProfile.Some?))
      && (cli.agent.Some? ==> cli.agent.value in catalog)
      && (forall p :: p in document.profiles ==> p.agent in catalog)
      && (if cli.structured then !stdinTty && !stdoutTty && (cli.agent.Some? || cli.profile.Some?)
          else stdinTty && stdoutTty)
  {
    hide UniqueNames, ValidProfile, SelectedModel, OrElse, OrDefault, FindNamed, BoundTo, FirstUnknown;
    UnknownIff(document.profiles, catalog);
    if cli.agent.Some? {
      BoundIff(document.profiles, cli.agent.value);
    }
    if cli.profile.Some? {
      NamedIff(document.profiles, cli.profile.value);
    } else if cli.agent.None? && document.defaultProfile.Some? {
      NamedIff(document.profiles, document.defaultProfile.value);
    }
  }

  /** Every refusal of startup is for the reason it names. */
  lemma RefusalsAreTrue(cli: Cli, document: Document, catalog: seq<string>, stdinTty: bool, stdoutTty: bool)
    requires ValidDocument(document) && Execute(cli, document, catalog, stdinTty, stdoutTty).Refusal?
    ensures match Execute(cli, document, catalog, stdinTty, stdoutTty).error
      case UnknownProfile => cli.profile.Some? && forall p :: p in document.profiles ==> cli.profile != Some(p.name)
      case ManyProfiles => cli.profile.None? && cli.agent.Some? && Several(document.profiles, cli.agent.value)
      case SubjectWithProfiles => cli.subject.Some? && document.profiles != []
      case AgentConflict =>
        && cli.agent.Some?
        && exists p :: p in document.profiles && cli.profile == Some(p.name) && cli.agent != Some(p.agent)
      case NoSubject => cli.subject.None? && cli.profile.None?
      case UnknownAgent(agent) =>
        agent !in catalog && (cli.agent == Some(agent) || exists p :: p in document.profiles && p.agent == agent)
      case BadTerminal => if cli.structured then stdinTty || stdoutTty else !stdinTty || !stdoutTty
      case StructuredNeedsAgent => cli.structured && cli.agent.None? && cli.profile.None?
  {
    hide UniqueNames, ValidProfile, SelectedModel, OrElse, OrDefault, FindNamed, BoundTo, FirstUnknown;
    FirstUnknownIs(document.profiles, catalog);
    if cli.agent.Some? {
      BoundIff(document.profiles, cli.agent.value);
    }
    if cli.profile.Some? {
      NamedIff(document.profiles, cli.profile.value);
    } else if cli.agent.None? && document.defaultProfile.Some? {
      NamedIff(document.profiles, document.defaultProfile.value);
    }
  }

  lemma {:induction false} FirstUnknownIs(profiles: seq<OperatorProfile>, catalog: seq<string>)
    ensures match FirstUnknown(profiles, catalog)
      case None => true
      case Some(agent) => agent !in catalog && exists p :: p in profiles && p.agent == agent
  {
    if profiles != [] {
      FirstUnknownIs(profiles[1..], catalog);
      assert profiles[0] in profiles && forall p :: p in profiles[1..] ==> p in profiles;
    }
  }

  lemma {:induction false} UnknownIff(profiles: seq<OperatorProfile>, catalog: seq<string>)
    ensures FirstUnknown(profiles, catalog).None? <==> forall p :: p in profiles ==> p.agent in catalog
  {
    if profiles != [] {
      UnknownIff(profiles[1..], catalog);
      assert forall p :: p in profiles <==> p == profiles[0] || p in profiles[1..];
    }
  }

  lemma NamedIff(profiles: seq<OperatorProfile>, name: string)
    requires UniqueNames(profiles)
    ensures FindNamed(profiles, name).Some? <==> exists p :: p in profiles && p.name == name
    ensures forall p :: p in profiles && p.name == name ==> FindNamed(profiles, name) == Some(p)
  {
    forall p | p in profiles && p.name == name ensures FindNamed(profiles, name) == Some(p) {
      NamedIsFound(profiles, p);
    }
  }

  lemma InitialIsAuthored(cli: Cli, document: Document)
    ensures Initial(cli, document).Some? ==> Initial(cli, document).value in document.profiles
  {
    if cli.agent.Some? && BoundTo(document.profiles, cli.agent.value) != [] {
      assert BoundTo(document.profiles, cli.agent.value)[0] in BoundTo(document.profiles, cli.agent.value);
    }
  }

  /** Every bound of an authored profile is within its limits, so without an override every identity is. */
  lemma AuthoredBoundsHold(config: Config, unbound: Identity, document: Document, agent: string)
    requires ValidDocument(document) && config.profiles == document.profiles && document.profiles != []
    requires Resolve(config, unbound, agent).As?
    ensures var id := Resolve(config, unbound, agent).identity;
      && (config.stepsOverride.None? ==> 1 <= id.maxSteps <= 64)
      && (config.callsOverride.None? ==> 1 <= id.maxCalls <= 256)
      && (config.modelOverride.None? ==> Trim(id.model) != "")
      && id.profile.Some? && id.profile.value != ""
  {
    hide Resolve, UniqueNames, Trim;
    HopCarriesItsProfile(config, unbound, agent);
    var id := Resolve(config, unbound, agent).identity;
    var p :| p in config.profiles && p.agent == agent && Carries(config, p, id);
    var k :| 0 <= k < |document.profiles| && document.profiles[k] == p;
    assert ValidProfile(document.profiles[k]);
    DefaultIsNotBlank();
  }

  lemma DefaultIsNotBlank()
    ensures Trim("gpt-5.6-luna") != ""
  {
    TrimKeeps("gpt-5.6-luna", 0);
  }

  /** The selected agent's row is reset when startup names none; a default profile then sets only the
      first identity, and the first hop may still refuse. */
  lemma DefaultProfileDoesNotBindTheHop(p: OperatorProfile, q: OperatorProfile)
    requires p.agent == q.agent && p.name != q.name
    ensures var document := Document(Some(p.name), [p, q]);
      var cli := Cli(None, None, None, None, None, None, false, false);
      var startup := Execute(cli, document, [p.agent], true, true);
      && startup.Ready? && startup.started.initialAgent.None? && startup.started.identity.profile == Some(p.name)
      && Resolve(startup.started.config, startup.started.identity, p.agent) == Refused(AmbiguousNotice(p.agent))
  {
    var profiles := [p, q];
    assert profiles[1..] == [q];
    assert FirstUnknown([q], [p.agent]).None?;
    assert BoundTo([q], p.agent) == [q] && BoundTo(profiles, p.agent) == [p] + [q];
  }
}
