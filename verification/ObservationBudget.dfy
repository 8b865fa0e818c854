// The compile-time observation budget and its soundness over every run (validate_observation_budgets).
module ObservationBudget {
  import opened Basics
  import opened Model
  import opened Content
  import opened Effects
  import opened Kernel
  import opened Schedule
  import opened Ownership
  import opened Validation
  import opened Windows
  import opened Cohorts
  import opened Text
  import opened SupplyReadout
  import opened ResultBudget
  import opened Observation
  import CohortRuns
  import Lineage
  import LineageRuns
  import SupplyBudget
  import TimeCost
  import Timeline

  // ---- The validator ----

  function MaximumTicks(a: ActionDefinition): u64
    requires TimeCost.ActionCost(a.effects).Some?
  {
    TimeCost.ActionCost(a.effects).value.maximum
  }

  /** validate_action_time_costs: every action's duration fits in u64. */
  predicate TimesValid(d: Draft) {
    forall a <- d.actions :: TimeCost.ActionCost(a.effects).Some?
  }

  /** The event words allowed for in a transition of so many ticks. */
  ghost predicate EventBudget(d: Draft, ticks: nat, words: nat) {
    exists timed: nat, deferred: nat :: IsMaximumWindow(TimedDues(d.timedEvents), ticks, timed)
      && IsResultBound(d, ticks, deferred) && words == timed + deferred
  }

  ghost predicate ActionFits(d: Draft, a: ActionDefinition, supplyWords: nat)
    requires TimeCost.ActionCost(a.effects).Some?
  {
    exists eventWords :: EventBudget(d, MaximumTicks(a), eventWords)
      && MaximumText(ShownResult(a), a.variants) + LocationMaximum(d.locations) + eventWords + supplyWords
         < OBSERVATION_WORD_LIMIT
  }

  /** Every bound stays below the limit. */
  ghost predicate BudgetsHold(d: Draft)
    requires TimesValid(d)
  {
    && LocationMaximum(d.locations) + SummaryBound(d) < OBSERVATION_WORD_LIMIT
    && forall a <- d.actions :: ActionFits(d, a, SummaryBound(d))
  }

  lemma {:induction false} MaximaUnique(d: Draft, ticks: nat, a: seq<nat>, b: seq<nat>)
    requires |a| == |b| && CohortMaxima(d, ticks, a) && CohortMaxima(d, ticks, b)
    ensures a == b
  {
    forall i: nat | i < |a| ensures a[i] == b[i] {
      MaximumUnique(Cohort(d, d.deferredEvents, i), ticks, a[i], b[i]);
    }
  }

  lemma ResultBoundUnique(d: Draft, ticks: nat, m: nat, n: nat)
    requires IsResultBound(d, ticks, m) && IsResultBound(d, ticks, n)
    ensures m == n
  {
    if ticks > 0 && DistinctIds(d.deferredEvents, DeferredKey) {
      var a :| |a| == |d.actions| && CohortMaxima(d, ticks, a)
        && m == IndependentWords(d, d.deferredEvents) + SumSeq(a);
      var b :| |b| == |d.actions| && CohortMaxima(d, ticks, b)
        && n == IndependentWords(d, d.deferredEvents) + SumSeq(b);
      MaximaUnique(d, ticks, a, b);
    }
  }

  lemma EventBudgetUnique(d: Draft, ticks: nat, m: nat, n: nat)
    requires EventBudget(d, ticks, m) && EventBudget(d, ticks, n)
    ensures m == n
  {
    hide IsMaximumWindow, IsResultBound, TimedDues;
    var t: nat, x: nat :| IsMaximumWindow(TimedDues(d.timedEvents), ticks, t) && IsResultBound(d, ticks, x) && m == t + x;
    var u: nat, y: nat :| IsMaximumWindow(TimedDues(d.timedEvents), ticks, u) && IsResultBound(d, ticks, y) && n == u + y;
    MaximumUnique(TimedDues(d.timedEvents), ticks, t, u);
    ResultBoundUnique(d, ticks, x, y);
  }

  method EventWordsFor(d: Draft, timed: seq<Due>, ticks: nat) returns (words: nat)
    requires timed == SortDue(TimedDues(d.timedEvents))
    ensures EventBudget(d, ticks, words)
  {
    hide IsMaximumWindow, IsResultBound, TimedDues;
    SortDueSorted(TimedDues(d.timedEvents));
    var window := MaximumEventWords(timed, ticks);
    SortDueMaximum(TimedDues(d.timedEvents), ticks, window);
    var deferred := MaximumResultWords(d, ticks);
    words := window + deferred;
  }

  lemma FitsExactly(d: Draft, a: ActionDefinition, supplyWords: nat, eventWords: nat)
    requires TimeCost.ActionCost(a.effects).Some? && EventBudget(d, MaximumTicks(a), eventWords)
    ensures ActionFits(d, a, supplyWords) <==>
      MaximumText(ShownResult(a), a.variants) + LocationMaximum(d.locations) + eventWords + supplyWords
      < OBSERVATION_WORD_LIMIT
  {
    hide EventBudget, MaximumText, LocationMaximum;
    if ActionFits(d, a, supplyWords) {
      var other :| EventBudget(d, MaximumTicks(a), other)
        && MaximumText(ShownResult(a), a.variants) + LocationMaximum(d.locations) + other + supplyWords
           < OBSERVATION_WORD_LIMIT;
      EventBudgetUnique(d, MaximumTicks(a), eventWords, other);
    }
  }

  /** validate_observation_budgets; event budgets are computed once per duration. */
  method ValidateObservationBudgets(d: Draft) returns (ok: bool)
    requires TimesValid(d)
    ensures ok <==> BudgetsHold(d)
  {
    hide EventBudget, MaximumText, LocationMaximum, SummaryBound, ActionFits;
    hide PotentialItems, SortDue, TimedDues;
    var locationWords := LocationMaximum(d.locations);
    var timed := SortDue(TimedDues(d.timedEvents));
    var budgetByTicks: map<u64, nat> := map[];
    var supplyWords := PotentialSupplySummaryWords(d);
    ok := locationWords + supplyWords < OBSERVATION_WORD_LIMIT;
    for i := 0 to |d.actions|
      invariant forall ticks <- budgetByTicks :: EventBudget(d, ticks, budgetByTicks[ticks])
      invariant ok <==> locationWords + supplyWords < OBSERVATION_WORD_LIMIT
                        && forall j :: 0 <= j < i ==> ActionFits(d, d.actions[j], supplyWords)
    {
      var a := d.actions[i];
      var ticks := MaximumTicks(a);
      if ticks !in budgetByTicks {
        var words := EventWordsFor(d, timed, ticks);
        budgetByTicks := budgetByTicks[ticks := words];
      }
      var eventWords := budgetByTicks[ticks];
      FitsExactly(d, a, supplyWords, eventWords);
      if MaximumText(ShownResult(a), a.variants) + locationWords + eventWords + supplyWords >= OBSERVATION_WORD_LIMIT {
        ok := false;
      }
    }
    assert (forall a <- d.actions :: ActionFits(d, a, supplyWords)) <==>
           (forall j :: 0 <= j < |d.actions| ==> ActionFits(d, d.actions[j], supplyWords));
  }

  // ---- What every run keeps ----

  ghost predicate RunInvariant(d: Draft, s: GameState) {
    && Admitted(Compile(d), s)
    && CohortRuns.Aligned(d, s.world.queue)
    && s.world.location in Compile(d).locations
    && s.character.resources.Keys <= PotentialResources(d)
  }

  lemma PlainStaysOnMap(c: Compiled, parameters: Parameters, e: Effect, m: Machine)
    requires !e.RandomChance? && ApplyPlain(c, parameters, e, m).Ok? && m.state.world.location in c.locations
    ensures ApplyPlain(c, parameters, e, m).value.state.world.location in c.locations
  {
  }

  lemma {:induction false} EffectStaysOnMap(c: Compiled, stream: Stream, parameters: Parameters, e: Effect, m: Machine)
    requires ApplyEffect(c, stream, parameters, e, m).Ok? && m.state.world.location in c.locations
    ensures ApplyEffect(c, stream, parameters, e, m).value.state.world.location in c.locations
    decreases e
  {
    if e.RandomChance? {
      var drawn := Chance(stream, e.percent, m).value;
      EffectStaysOnMap(c, stream, parameters, if drawn.1 then e.onSuccess else e.onFailure, drawn.0);
    } else {
      PlainStaysOnMap(c, parameters, e, m);
    }
  }

  lemma {:induction false} EffectsStayOnMap(
    c: Compiled, stream: Stream, parameters: Parameters, effects: seq<Effect>, m: Machine)
    requires ApplyEffects(c, stream, parameters, effects, m).Ok? && m.state.world.location in c.locations
    ensures ApplyEffects(c, stream, parameters, effects, m).value.state.world.location in c.locations
    decreases |effects|
  {
    if effects != [] {
      EffectStaysOnMap(c, stream, parameters, effects[0], m);
      EffectsStayOnMap(c, stream, parameters, effects[1..], ApplyEffect(c, stream, parameters, effects[0], m).value);
    }
  }

  lemma {:induction false} ResolveStaysOnMap(c: Compiled, stream: Stream, due: seq<ScheduledEvent>, m: Machine)
    requires ResolveAll(c, stream, due, m).Ok? && m.state.world.location in c.locations
    ensures ResolveAll(c, stream, due, m).value.state.world.location in c.locations
    decreases |due|
  {
    if due != [] {
      var program := ProgramOf(c, due[0]).value;
      var applied := program.condition.Holds(m.state);
      if applied {
        EffectsStayOnMap(c, stream, map[], program.effects, Timeline.Noted(c, due[0], m));
      }
      ResolveStaysOnMap(c, stream, due[1..], ResolveOne(c, stream, due[0], m).value);
    }
  }

  lemma StepStaysOnMap(c: Compiled, stream: Stream, s: GameState, action: Id, parameters: Parameters)
    requires Step(c, stream, s, action, parameters).Ok? && s.world.location in c.locations
    ensures Step(c, stream, s, action, parameters).value.state.world.location in c.locations
  {
    EffectsStayOnMap(c, stream, parameters, c.actions[action].effects, Effects.Start(s));
    var acted := ApplyEffects(c, stream, parameters, c.actions[action].effects, Effects.Start(s)).value;
    ResolveStaysOnMap(c, stream, DueNow(acted), WithoutDue(acted));
  }

  lemma StepKeepsInvariant(d: Draft, stream: Stream, s: GameState, action: Id, parameters: Parameters)
    requires StructureValid(d) && RunInvariant(d, s) && Step(Compile(d), stream, s, action, parameters).Ok?
    ensures RunInvariant(d, Step(Compile(d), stream, s, action, parameters).value.state)
  {
    hide StructureValid, Step, Admitted, CohortRuns.Aligned, PotentialResources;
    Timeline.CompiledEvents(d);
    Timeline.StepAdmitted(Compile(d), stream, s, action, parameters);
    CohortRuns.StepAligned(d, stream, s, action, parameters);
    StepStaysOnMap(Compile(d), stream, s, action, parameters);
    StepKeepsResources(d, stream, s, action, parameters);
  }

  lemma StartOnMap(d: Draft, s: GameState)
    requires StructureValid(d) && AuthoredStart(Compile(d), s)
    ensures s.world.location in Compile(d).locations
  {
    TableEntries(d.locations, LocationKey);
    var place :| place in d.locations && place.id == d.startLocation;
  }

  lemma StartInvariant(d: Draft, s: GameState)
    requires StructureValid(d) && AuthoredStart(Compile(d), s)
    ensures RunInvariant(d, s)
  {
    hide StructureValid, AuthoredStart, Admitted, CohortRuns.Aligned, PotentialResources;
    Timeline.CompiledEvents(d);
    Timeline.StartAdmitted(Compile(d), s);
    CohortRuns.StartAligned(d, s);
    StartResources(d, s);
    StartOnMap(d, s);
  }

  lemma {:induction false} PlayKeepsInvariant(d: Draft, stream: Stream, s: GameState, commands: seq<Command>)
    requires StructureValid(d) && RunInvariant(d, s) && Play(Compile(d), stream, s, commands).Ok?
    ensures RunInvariant(d, Play(Compile(d), stream, s, commands).value)
    decreases |commands|
  {
    hide StructureValid, Step, RunInvariant;
    if commands != [] {
      var last := commands[|commands| - 1];
      PlayKeepsInvariant(d, stream, s, commands[..|commands| - 1]);
      StepKeepsInvariant(d, stream, Play(Compile(d), stream, s, commands[..|commands| - 1]).value,
                         last.action, last.parameters);
    }
  }

  lemma ReachableInvariant(d: Draft, stream: Stream, s: GameState)
    requires StructureValid(d) && Reachable(Compile(d), stream, s)
    ensures RunInvariant(d, s)
  {
    hide StructureValid, AuthoredStart, Play, RunInvariant;
    var start, commands :| AuthoredStart(Compile(d), start) && Play(Compile(d), stream, start, commands) == Ok(s);
    StartInvariant(d, start);
    PlayKeepsInvariant(d, stream, start, commands);
  }

  // ---- Soundness ----

  /** The validated content: structure, durations and budgets. */
  ghost predicate Budgeted(d: Draft) {
    StructureValid(d) && TimesValid(d) && BudgetsHold(d)
  }

  lemma ReachableReadout(d: Draft, stream: Stream, s: GameState)
    requires StructureValid(d) && Reachable(Compile(d), stream, s)
    ensures WordCount(Readout(Compile(d), s.character)) <= SummaryBound(d)
  {
    hide StructureValid, Reachable, PotentialItems, WordCount, SummaryBound, Readout;
    hide LineageRuns.AuthoredCarried;
    ReachableInvariant(d, stream, s);
    LineageRuns.ReachableLineage(d, stream, s);
    var carried :| LineageRuns.LedgerReaches(Compile(d), carried, s) && LineageRuns.AuthoredCarried(Compile(d), carried);
    SettledReaches(d, carried, s);
    ReadoutBound(d, carried, s);
  }

  lemma SettledReaches(d: Draft, carried: Inventory, s: GameState)
    requires LineageRuns.LedgerReaches(Compile(d), carried, s) && LineageRuns.AuthoredCarried(Compile(d), carried)
    ensures SupplyBudget.Reaches(d, carried, s.log, HoldingsOf(s))
  {
    hide LineageRuns.AuthoredCarried, Lineage.RunLedger, HoldingsOf, Lineage.Genesis;
    assert Timeline.Ledger(Effects.Start(s)) == s.log;
  }

  lemma PlaceBound(d: Draft, s: GameState)
    requires s.world.location in Compile(d).locations
    ensures WordCount(LocationText(Compile(d).locations[s.world.location], s)) <= LocationMaximum(d.locations)
  {
    TableEntries(d.locations, LocationKey);
    var place := Compile(d).locations[s.world.location];
    SelectedAtMost(place.description, place.variants, s);
    LocationAtMost(d.locations, place);
  }

  /** With the words of a result, the location and the readout below the limit, the observation is made. */
  lemma ObservesWithin(d: Draft, s: GameState, result: Option<string>, resultWords: nat, supplyWords: nat)
    requires s.world.location in Compile(d).locations
    requires (if result.Some? then WordCount(result.value) else 0) <= resultWords
    requires WordCount(Readout(Compile(d), s.character)) <= supplyWords
    requires resultWords + LocationMaximum(d.locations) + supplyWords < OBSERVATION_WORD_LIMIT
    ensures ObserveWith(Compile(d), s, result).Ok?
  {
    hide Readout, WordCount, LocationText, LocationMaximum, Compile;
    var c := Compile(d);
    PlaceBound(d, s);
    var place := LocationText(c.locations[s.world.location], s);
    if result.Some? {
      WordCountAfterSpace(result.value, ' ', place);
    }
  }

  /** Every state of every run can be observed: the runtime word check never fires. */
  lemma EveryStateObserved(d: Draft, stream: Stream, s: GameState)
    requires Budgeted(d) && Reachable(Compile(d), stream, s)
    ensures ObserveWith(Compile(d), s, None).Ok?
  {
    hide StructureValid, Reachable, ActionFits, PotentialItems, SummaryBound, LocationMaximum;
    hide WordCount, Readout, ObserveWith;
    ReachableInvariant(d, stream, s);
    ReachableReadout(d, stream, s);
    ObservesWithin(d, s, None, 0, SummaryBound(d));
  }

  /** The result of a transition: the action's text and the results of everything it resolves. */
  lemma TransitionResultWords(
    d: Draft, stream: Stream, s: GameState, action: Id, parameters: Parameters, eventWords: nat)
    requires StructureValid(d) && TimesValid(d) && RunInvariant(d, s)
    requires Step(Compile(d), stream, s, action, parameters).Ok?
    requires action in Compile(d).actions && Compile(d).actions[action] in d.actions
    requires EventBudget(d, MaximumTicks(Compile(d).actions[action]), eventWords)
    ensures var t := Step(Compile(d), stream, s, action, parameters).value;
            var a := Compile(d).actions[action];
            && t.action == action && EndsWith(t.state.log, t.events)
            && ResultsOf(Compile(d), t.events).Ok?
            && WordCount(Join([ActionText(a, t.state)] + ResultsOf(Compile(d), t.events).value, " "))
               <= MaximumText(ShownResult(a), a.variants) + eventWords
  {
    hide StructureValid, WordCount, IsMaximumWindow, IsResultBound, TimedDues, MaximumText, Join, SumWords, DueWords;
    hide Admitted, CohortRuns.Aligned, PotentialResources, ApplyEffects, ResolveDue, DueNow, CohortRuns.ResolvesTogether;
    var c := Compile(d);
    var a := c.actions[action];
    var t := Step(c, stream, s, action, parameters).value;
    StepShows(c, stream, s, action, parameters);
    CohortRuns.DueTogether(d, stream, s, action, parameters, MaximumTicks(a));
    var due := DueNow(CohortRuns.Acted(c, stream, s, action, parameters).value);
    var timed: nat, deferred: nat :| IsMaximumWindow(TimedDues(d.timedEvents), MaximumTicks(a), timed)
      && IsResultBound(d, MaximumTicks(a), deferred) && eventWords == timed + deferred;
    ResultsBound(d, s.world.time, MaximumTicks(a), due, timed, deferred);
    var results := ResultsOf(c, t.events).value;
    SelectedAtMost(ShownResult(a), a.variants, t.state);
    JoinSpaceWords([ActionText(a, t.state)] + results);
    SumWordsPrepend(ActionText(a, t.state), results);
  }

  lemma CompiledAction(d: Draft, action: Id)
    ensures action in Compile(d).actions ==> Compile(d).actions[action] in d.actions
  {
    TableEntries(d.actions, ActionKey);
  }

  lemma ReachableNext(c: Compiled, stream: Stream, s: GameState, action: Id, parameters: Parameters)
    requires Reachable(c, stream, s) && Step(c, stream, s, action, parameters).Ok?
    ensures Reachable(c, stream, Step(c, stream, s, action, parameters).value.state)
  {
    hide AuthoredStart, Step;
    var start, commands :| AuthoredStart(c, start) && Play(c, stream, start, commands) == Ok(s);
    var longer := commands + [Command(action, parameters)];
    assert longer[..|commands|] == commands;
    assert Play(c, stream, start, longer) == Ok(Step(c, stream, s, action, parameters).value.state);
  }

  /** Every transition of every run can be observed with its complete result: nothing is ever too long to show. */
  lemma EveryTransitionObserved(
    d: Draft, stream: Stream, s: GameState, action: Id, parameters: Parameters)
    requires Budgeted(d) && Reachable(Compile(d), stream, s)
    requires Step(Compile(d), stream, s, action, parameters).Ok?
    ensures var t := Step(Compile(d), stream, s, action, parameters).value;
            t.action in Compile(d).actions && ObservationAfter(Compile(d), t).Ok?
  {
    hide StructureValid, Reachable, PotentialItems, SummaryBound, LocationMaximum, EventBudget;
    hide WordCount, Readout, ObserveWith, MaximumText, Join, ApplyEffects, ResolveDue, RunInvariant;
    var c := Compile(d);
    var t := Step(c, stream, s, action, parameters).value;
    CompiledAction(d, action);
    var a := c.actions[action];
    assert ActionFits(d, a, SummaryBound(d));
    var eventWords :| EventBudget(d, MaximumTicks(a), eventWords)
      && MaximumText(ShownResult(a), a.variants) + LocationMaximum(d.locations) + eventWords + SummaryBound(d)
         < OBSERVATION_WORD_LIMIT;
    ReachableInvariant(d, stream, s);
    TransitionResultWords(d, stream, s, action, parameters, eventWords);
    ReachableNext(c, stream, s, action, parameters);
    ReachableReadout(d, stream, t.state);
    OnMap(d, stream, t.state);
    var result := Join([ActionText(a, t.state)] + ResultsOf(c, t.events).value, " ");
    ObservesWithin(d, t.state, Some(result), MaximumText(ShownResult(a), a.variants) + eventWords,
                   SummaryBound(d));
  }

  lemma OnMap(d: Draft, stream: Stream, s: GameState)
    requires StructureValid(d) && Reachable(Compile(d), stream, s)
    ensures s.world.location in Compile(d).locations
  {
    hide StructureValid, Reachable;
    ReachableInvariant(d, stream, s);
  }
}
