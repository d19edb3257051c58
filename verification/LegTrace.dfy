/** The order of events a console may go through, as a small machine over marks, and what every run of
    it guarantees: which identity a command runs under, one outcome for each, and whom a stop reaches. */
module LegTrace {
  import opened Text
  import opened Record
  import opened AppState
  import Assets
  import Profiles

  /** Everything a broker leg is opened with. */
  datatype Leg = Leg(identity: Profiles.Identity, agent: string, scoped: bool, inventory: Assets.ConsoleAssets)

  datatype Mark =
    | Hopped(context: Leg)      // a granted hop: every command until the next hop runs as this
    | Cleared                   // a hop the broker refused
    | Accepted(input: string)   // a command was echoed
    | Opened(leg: Leg)          // its broker leg is open and its task started
    | StopAsked                 // the operator asked for a stop
    | Reported(entry: ShellEntry) // the command's outcome
    | Released                  // the task is joined and the stop binding dropped

  datatype Phase = Phase(
    here: Option<Leg>, history: seq<ShellEntry>, inputs: seq<string>, legs: seq<Leg>, open: bool, cancelled: set<nat>,
    inventories: set<Assets.ConsoleAssets>)

  const START := Phase(None, [], [], [], false, {}, {})

  /** What decides every identity: the constants of the console and the identity it started with. */
  datatype Rules = Rules(config: Profiles.Config, unbound: Profiles.Identity)

  /** The context a hop may bring: the one its agent resolves to, and nothing of earlier hops. */
  predicate Authored(rules: Rules, context: Leg) {
    && Profiles.Resolve(rules.config, rules.unbound, context.agent) == Profiles.As(context.identity)
    && context.scoped == rules.config.smokeConversation
  }

  predicate AtRest(p: Phase) {
    !p.open && !Pending(p.history)
  }

  /** Where a mark may stand. */
  predicate Allowed(p: Phase, m: Mark) {
    match m
    case Hopped(context) => AtRest(p) && context.inventory !in p.inventories
    case Cleared => AtRest(p)
    case Accepted(_) => AtRest(p) && p.here.Some?
    case Opened(leg) => !p.open && Pending(p.history) && p.here == Some(leg)
    case StopAsked => p.open
    case Reported(entry) =>
      Pending(p.history) && entry.exitCode.Some? && entry.input == p.history[|p.history| - 1].input
    case Released => p.open && !Pending(p.history)
  }

  /** What it changes. */
  function Next(p: Phase, m: Mark): Phase {
    match m
    case Hopped(context) => p.(here := Some(context), history := [], inventories := p.inventories + {context.inventory})
    case Cleared => p.(here := None, history := [])
    case Accepted(input) => p.(history := p.history + [Echo(input)], inputs := p.inputs + [input])
    case Opened(leg) => p.(legs := p.legs + [leg], open := true)
    case StopAsked => if p.legs == [] then p else p.(cancelled := p.cancelled + {|p.legs| - 1})
    case Reported(entry) => p.(history := Completed(p.history, entry))
    case Released => p.(open := false)
  }

  /** The phase before mark `n`. */
  function At(trace: seq<Mark>, n: nat): Phase
    requires n <= |trace|
  {
    if n == 0 then START else Next(At(trace, n - 1), trace[n - 1])
  }

  /** Mark `i` stands where it may. */
  predicate Stands(rules: Rules, trace: seq<Mark>, i: nat)
    requires i < |trace|
  {
    Allowed(At(trace, i), trace[i]) && (trace[i].Hopped? ==> Authored(rules, trace[i].context))
  }

  predicate Legal(rules: Rules, trace: seq<Mark>) {
    forall i :: 0 <= i < |trace| ==> Stands(rules, trace, i)
  }

  /** A legal run that ends in a phase. */
  predicate Reaches(rules: Rules, trace: seq<Mark>, p: Phase) {
    Legal(rules, trace) && At(trace, |trace|) == p
  }

  lemma {:induction false} AtExtended(trace: seq<Mark>, m: Mark, n: nat)
    requires n <= |trace|
    ensures At(trace + [m], n) == At(trace, n)
  {
    if n > 0 {
      AtExtended(trace, m, n - 1);
    }
  }

  /** An allowed mark extends a run. */
  lemma Extend(rules: Rules, trace: seq<Mark>, p: Phase, m: Mark)
    requires Reaches(rules, trace, p) && Allowed(p, m) && (m.Hopped? ==> Authored(rules, m.context))
    ensures Reaches(rules, trace + [m], Next(p, m))
  {
    hide Allowed, Next, Authored;
    forall i | 0 <= i < |trace + [m]| ensures Stands(rules, trace + [m], i) {
      AtExtended(trace, m, i);
      assert i < |trace| ==> Stands(rules, trace, i);
    }
    AtExtended(trace, m, |trace|);
  }

  lemma MarkHopped(rules: Rules, trace: seq<Mark>, p: Phase, context: Leg)
    requires Reaches(rules, trace, p) && AtRest(p) && context.inventory !in p.inventories && Authored(rules, context)
    ensures Reaches(rules, trace + [Hopped(context)],
                    p.(here := Some(context), history := [], inventories := p.inventories + {context.inventory}))
  {
    Extend(rules, trace, p, Hopped(context));
  }

  lemma MarkCleared(rules: Rules, trace: seq<Mark>, p: Phase)
    requires Reaches(rules, trace, p) && AtRest(p)
    ensures Reaches(rules, trace + [Cleared], p.(here := None, history := []))
  {
    Extend(rules, trace, p, Cleared);
  }

  lemma MarkAccepted(rules: Rules, trace: seq<Mark>, p: Phase, input: string)
    requires Reaches(rules, trace, p) && AtRest(p) && p.here.Some?
    ensures Reaches(rules, trace + [Accepted(input)],
                    p.(history := p.history + [Echo(input)], inputs := p.inputs + [input]))
    ensures Pending(p.history + [Echo(input)])
  {
    Extend(rules, trace, p, Accepted(input));
  }

  lemma MarkOpened(rules: Rules, trace: seq<Mark>, p: Phase, leg: Leg)
    requires Reaches(rules, trace, p) && !p.open && Pending(p.history) && p.here == Some(leg)
    ensures Reaches(rules, trace + [Opened(leg)], p.(legs := p.legs + [leg], open := true))
  {
    Extend(rules, trace, p, Opened(leg));
  }

  lemma MarkStopAsked(rules: Rules, trace: seq<Mark>, p: Phase)
    requires Reaches(rules, trace, p) && p.open && p.legs != []
    ensures Reaches(rules, trace + [StopAsked], p.(cancelled := p.cancelled + {|p.legs| - 1}))
  {
    Extend(rules, trace, p, StopAsked);
  }

  lemma MarkReported(rules: Rules, trace: seq<Mark>, p: Phase, entry: ShellEntry)
    requires Reaches(rules, trace, p) && Pending(p.history)
    requires entry.exitCode.Some? && entry.input == p.history[|p.history| - 1].input
    ensures Reaches(rules, trace + [Reported(entry)], p.(history := Completed(p.history, entry)))
    ensures !Pending(Completed(p.history, entry))
  {
    Extend(rules, trace, p, Reported(entry));
  }

  lemma MarkReleased(rules: Rules, trace: seq<Mark>, p: Phase)
    requires Reaches(rules, trace, p) && p.open && !Pending(p.history)
    ensures Reaches(rules, trace + [Released], p.(open := false))
  {
    Extend(rules, trace, p, Released);
  }

  /** What joining a task adds: an outcome for a command still without one, then the release. */
  function Settling(history: seq<ShellEntry>, report: ErrorReport): seq<Mark> {
    (if Pending(history) then [Reported(FailedEntry(history, report))] else []) + [Released]
  }

  lemma MarkSettled(rules: Rules, trace: seq<Mark>, p: Phase, report: ErrorReport)
    requires Reaches(rules, trace, p) && p.open
    ensures Reaches(rules, trace + Settling(p.history, report),
                    p.(history := FailedHistory(p.history, report), open := false))
    ensures !Pending(FailedHistory(p.history, report))
  {
    hide Reaches;
    if Pending(p.history) {
      var entry := FailedEntry(p.history, report);
      MarkReported(rules, trace, p, entry);
      MarkReleased(rules, trace + [Reported(entry)], p.(history := Completed(p.history, entry)));
      assert trace + [Reported(entry)] + [Released] == trace + Settling(p.history, report);
    } else {
      MarkReleased(rules, trace, p);
      assert trace + [Released] == trace + Settling(p.history, report);
    }
  }

  // ---------------------------------------------------------------------------------------------
  // The identity of a command

  predicate IsHop(m: Mark) { m.Hopped? || m.Cleared? }

  /** The context since the last hop is the one that hop brought. */
  lemma {:induction false} HereIsLastHop(trace: seq<Mark>, n: nat) returns (h: nat)
    requires n <= |trace| && At(trace, n).here.Some?
    ensures h < n && trace[h] == Hopped(At(trace, n).here.value)
    ensures forall k :: h < k < n ==> !IsHop(trace[k])
  {
    if IsHop(trace[n - 1]) {
      h := n - 1;
    } else {
      h := HereIsLastHop(trace, n - 1);
    }
  }

  /** Every leg is opened with exactly the identity, agent and inventory of the last hop, and that
      identity is the one its agent resolves to, whatever hops came before. */
  lemma LegsFollowTheLastHop(rules: Rules, trace: seq<Mark>, i: nat)
    requires Legal(rules, trace) && i < |trace| && trace[i].Opened?
    ensures exists h :: 0 <= h < i && trace[h] == Hopped(trace[i].leg) && forall k :: h < k < i ==> !IsHop(trace[k])
    ensures Authored(rules, trace[i].leg)
  {
    assert Stands(rules, trace, i);
    var h := HereIsLastHop(trace, i);
    assert Stands(rules, trace, h);
  }

  lemma {:induction false} HopInventories(trace: seq<Mark>, h: nat, n: nat)
    requires h < n <= |trace| && trace[h].Hopped?
    ensures trace[h].context.inventory in At(trace, n).inventories
    decreases n
  {
    if h < n - 1 {
      HopInventories(trace, h, n - 1);
    }
  }

  /** No two hops share an inventory, so an attachment of one entry is never seen from another. */
  lemma InventoriesAreApart(rules: Rules, trace: seq<Mark>, h: nat, k: nat)
    requires Legal(rules, trace) && h < k < |trace| && trace[h].Hopped? && trace[k].Hopped?
    ensures trace[h].context.inventory != trace[k].context.inventory
  {
    assert Stands(rules, trace, k);
    HopInventories(trace, h, k);
  }

  // ---------------------------------------------------------------------------------------------
  // One outcome for each command

  predicate Quiet(trace: seq<Mark>, a: nat, n: nat)
    requires n <= |trace|
  {
    forall k :: a < k < n ==> !trace[k].Accepted? && !IsHop(trace[k])
  }

  lemma AcceptedPends(p: Phase, m: Mark)
    requires m.Accepted? && Allowed(p, m)
    ensures var history := Next(p, m).history; Pending(history) && history[|history| - 1].input == m.input
  {
  }

  /** Between commands the last entry keeps its input; only its own outcome ends its pending. */
  lemma LastEntryStays(p: Phase, m: Mark)
    requires Allowed(p, m) && !m.Accepted? && !IsHop(m) && p.history != []
    ensures var before, after := p.history, Next(p, m).history;
      && after != [] && after[|after| - 1].input == before[|before| - 1].input
      && (Pending(after) <==> Pending(before) && !m.Reported?)
      && (m.Reported? ==> Pending(before) && m.entry.input == before[|before| - 1].input)
  {
  }

  /** From a command on, until the next one or a hop: it pends until its outcome, and has one. */
  lemma {:induction false} PendingUntilReported(rules: Rules, trace: seq<Mark>, a: nat, n: nat) returns (r: nat)
    requires Legal(rules, trace) && a < n <= |trace| && trace[a].Accepted? && Quiet(trace, a, n)
    ensures var history := At(trace, n).history;
      && history != [] && history[|history| - 1].input == trace[a].input
      && (Pending(history) ==> forall k :: a < k < n ==> !trace[k].Reported?)
      && (!Pending(history) ==>
            && a < r < n && trace[r].Reported? && trace[r].entry.input == trace[a].input
            && forall k :: a < k < n && trace[k].Reported? ==> k == r)
    decreases n
  {
    hide Allowed, Next, Pending;
    if a < n - 1 {
      r := PendingUntilReported(rules, trace, a, n - 1);
      assert Stands(rules, trace, n - 1);
      LastEntryStays(At(trace, n - 1), trace[n - 1]);
      if trace[n - 1].Reported? {
        r := n - 1;
      }
    } else {
      r := 0;
      assert Stands(rules, trace, a);
      AcceptedPends(At(trace, a), trace[a]);
    }
  }

  /** Between a command and the next command or hop there is exactly one outcome, and it is that
      command's. */
  lemma OneOutcomeEach(rules: Rules, trace: seq<Mark>, a: nat, b: nat)
    requires Legal(rules, trace) && a < b < |trace| && trace[a].Accepted? && Quiet(trace, a, b)
    requires trace[b].Accepted? || IsHop(trace[b])
    ensures exists r :: a < r < b && trace[r].Reported? && trace[r].entry.input == trace[a].input
                        && forall k :: a < k < b && trace[k].Reported? ==> k == r
  {
    assert Stands(rules, trace, b);
    var r := PendingUntilReported(rules, trace, a, b);
  }

  function Commands(trace: seq<Mark>, n: nat): nat
    requires n <= |trace|
  {
    if n == 0 then 0 else Commands(trace, n - 1) + if trace[n - 1].Accepted? then 1 else 0
  }

  /** What was ever accepted is one input for each command, in their order. */
  lemma {:induction false} InputsAreCommands(trace: seq<Mark>, n: nat)
    requires n <= |trace|
    ensures |At(trace, n).inputs| == Commands(trace, n)
    ensures forall i :: 0 <= i < n && trace[i].Accepted? ==>
      Commands(trace, i) < Commands(trace, n) && At(trace, n).inputs[Commands(trace, i)] == trace[i].input
  {
    if n > 0 {
      InputsAreCommands(trace, n - 1);
    }
  }

  function Outcomes(trace: seq<Mark>, n: nat): nat
    requires n <= |trace|
  {
    if n == 0 then 0 else Outcomes(trace, n - 1) + if trace[n - 1].Reported? then 1 else 0
  }

  lemma StartIsIdle()
    ensures !Pending(START.history) && OnlyLastPending(START.history)
  {
  }

  lemma StepBalances(p: Phase, m: Mark)
    requires Allowed(p, m) && OnlyLastPending(p.history)
    ensures OnlyLastPending(Next(p, m).history)
    ensures Pending(Next(p, m).history) <==> m.Accepted? || (Pending(p.history) && !m.Reported?)
    ensures m.Accepted? ==> !Pending(p.history)
    ensures m.Reported? ==> Pending(p.history)
  {
  }

  /** At every moment of a run outcomes and commands balance, but for the one still pending, and only
      the last entry of the history may be without an outcome. */
  lemma {:induction false} OutcomesBalance(rules: Rules, trace: seq<Mark>, n: nat)
    requires Legal(rules, trace) && n <= |trace|
    ensures Commands(trace, n) == Outcomes(trace, n) + if Pending(At(trace, n).history) then 1 else 0
    ensures OnlyLastPending(At(trace, n).history)
  {
    hide Allowed, Next, Pending, OnlyLastPending;
    if n == 0 {
      StartIsIdle();
    } else {
      OutcomesBalance(rules, trace, n - 1);
      assert Stands(rules, trace, n - 1);
      StepBalances(At(trace, n - 1), trace[n - 1]);
    }
  }

  // ---------------------------------------------------------------------------------------------
  // Whom a stop reaches

  /** Leg `k` is the one whose task runs before mark `i`. */
  predicate OpenAt(trace: seq<Mark>, i: nat, k: nat)
    requires i <= |trace|
  {
    IsOpen(At(trace, i), k)
  }

  lemma {:induction false} CancelledAreOpened(trace: seq<Mark>, n: nat)
    requires n <= |trace|
    ensures forall c :: c in At(trace, n).cancelled ==> c < |At(trace, n).legs|
  {
    if n > 0 {
      CancelledAreOpened(trace, n - 1);
    }
  }

  predicate IsOpen(p: Phase, k: nat) {
    p.open && k + 1 == |p.legs|
  }

  lemma StepCancels(p: Phase, m: Mark, k: nat)
    requires Allowed(p, m) && (p.open ==> p.legs != [])
    ensures k in Next(p, m).cancelled <==> k in p.cancelled || (m.StopAsked? && IsOpen(p, k))
    ensures k < |p.legs| && !IsOpen(p, k) ==> k < |Next(p, m).legs| && !IsOpen(Next(p, m), k)
  {
  }

  /** Leg `k` is cancelled exactly when a stop was asked for while it was the open one. */
  lemma {:induction false} StopReachesTheOpenLeg(rules: Rules, trace: seq<Mark>, n: nat, k: nat)
    requires Legal(rules, trace) && n <= |trace|
    ensures k in At(trace, n).cancelled <==> exists i :: 0 <= i < n && trace[i].StopAsked? && OpenAt(trace, i, k)
  {
    hide Allowed, Next;
    if n > 0 {
      StopReachesTheOpenLeg(rules, trace, n - 1, k);
      OpenHasLegs(trace, n - 1);
      assert Stands(rules, trace, n - 1);
      StepCancels(At(trace, n - 1), trace[n - 1], k);
    }
  }

  lemma {:induction false} OpenHasLegs(trace: seq<Mark>, n: nat)
    requires n <= |trace|
    ensures At(trace, n).open ==> At(trace, n).legs != []
  {
    if n > 0 {
      OpenHasLegs(trace, n - 1);
    }
  }

  /** The open leg was opened as leg `k`, and neither released nor followed by another since. */
  lemma {:induction false} OpenSince(trace: seq<Mark>, i: nat, k: nat) returns (o: nat)
    requires i <= |trace| && OpenAt(trace, i, k)
    ensures o < i && trace[o].Opened? && |At(trace, o).legs| == k
    ensures forall j :: o < j < i ==> !trace[j].Opened? && !trace[j].Released?
  {
    if trace[i - 1].Opened? {
      o := i - 1;
    } else {
      o := OpenSince(trace, i - 1, k);
    }
  }

  /** Mark `o` opens leg `k`, mark `i` asks for a stop, and nothing is opened or released between. */
  predicate StopsLeg(trace: seq<Mark>, o: nat, i: nat, k: nat)
    requires o < i < |trace|
  {
    && trace[o].Opened? && |At(trace, o).legs| == k && trace[i].StopAsked?
    && forall j :: o < j < i ==> !trace[j].Opened? && !trace[j].Released?
  }

  /** A stop reaches the command running at that moment and no other: for a cancelled leg there is a
      stop after its opening with no release in between. */
  lemma {:induction false} StopHitsOnlyTheCurrentLeg(rules: Rules, trace: seq<Mark>, k: nat)
    requires Legal(rules, trace)
    ensures k in At(trace, |trace|).cancelled ==> exists o, i :: 0 <= o < i < |trace| && StopsLeg(trace, o, i, k)
  {
    StopReachesTheOpenLeg(rules, trace, |trace|, k);
    if k in At(trace, |trace|).cancelled {
      var i :| 0 <= i < |trace| && trace[i].StopAsked? && OpenAt(trace, i, k);
      var o := OpenSince(trace, i, k);
      assert StopsLeg(trace, o, i, k);
    }
  }

  /** A command starts uncancelled: no earlier stop reaches it. */
  lemma LegsStartUncancelled(rules: Rules, trace: seq<Mark>, i: nat)
    requires Legal(rules, trace) && i < |trace| && trace[i].Opened?
    ensures OpenAt(trace, i + 1, |At(trace, i).legs|)
    ensures |At(trace, i).legs| !in At(trace, i + 1).cancelled
  {
    CancelledAreOpened(trace, i);
  }

  /** Once released, a leg stays as it was: no later stop reaches it. */
  lemma {:induction false} ReleasedLegsStayAsTheyWere(rules: Rules, trace: seq<Mark>, i: nat, n: nat, k: nat)
    requires Legal(rules, trace) && i <= n <= |trace| && k < |At(trace, i).legs| && !OpenAt(trace, i, k)
    ensures k in At(trace, n).cancelled <==> k in At(trace, i).cancelled
    ensures k < |At(trace, n).legs| && !OpenAt(trace, n, k)
    decreases n
  {
    hide Allowed, Next;
    if i < n {
      ReleasedLegsStayAsTheyWere(rules, trace, i, n - 1, k);
      OpenHasLegs(trace, n - 1);
      assert Stands(rules, trace, n - 1);
      StepCancels(At(trace, n - 1), trace[n - 1], k);
    }
  }
}
