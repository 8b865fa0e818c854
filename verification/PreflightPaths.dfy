// The path preflight admits a program exactly when no random outcome can make it fail.
module PreflightPaths {
  import opened Basics
  import opened Model
  import opened Content
  import opened Effects
  import opened Availability
  import opened Validation

  // ---- Paths shadow machines ----

  /** The path a machine is on: its state, with the cursor the draws have reached. */
  function Shadow(m: Machine): GameState {
    m.state.(entropy := m.entropy)
  }

  lemma {:induction false} HoldsWithoutEntropy(condition: Condition, s: GameState, entropy: EntropyState)
    ensures condition.Holds(s.(entropy := entropy)) == condition.Holds(s)
  {
    match condition
    case All(conditions) =>
      forall x | x in conditions ensures x.Holds(s.(entropy := entropy)) == x.Holds(s) {
        HoldsWithoutEntropy(x, s, entropy);
      }
    case Any(conditions) =>
      forall x | x in conditions ensures x.Holds(s.(entropy := entropy)) == x.Holds(s) {
        HoldsWithoutEntropy(x, s, entropy);
      }
    case Not(x) => HoldsWithoutEntropy(x, s, entropy);
    case _ =>
  }

  /** Identities used during an action are still pending; afterwards nothing schedules. */
  ghost predicate UsedArePending(m: Machine) {
    forall id :: UsedIn(m.events, id) ==> Pending(m.state.world.queue, id)
  }

  lemma UsedAlike(m: Machine, event: Id)
    requires UsedArePending(m)
    ensures AlreadyUsed(m, event) <==> AlreadyUsed(Start(Shadow(m)), event)
  {
  }

  predicate Peopled(e: Effect) {
    e.MoveNpc? || e.AdjustNpcRelationship? || e.AddNpcMemory? || e.TeachNpc?
  }

  predicate Stocked(e: Effect) {
    e.TransferNpcItemToCharacter? || e.ApplyRecipe?
  }

  predicate Stores(e: Effect) {
    e.TransferStorageItemToCharacter? || e.TransferCharacterItemToStorage?
  }

  /** The same effect on the machine and on its path. */
  ghost predicate Alike(c: Compiled, parameters: Parameters, e: Effect, m: Machine)
    requires !e.RandomChance?
  {
    var ran := ApplyPlain(c, parameters, e, m);
    var path := ApplyPlain(c, parameters, e, Start(Shadow(m)));
    && (ran.Ok? <==> path.Ok?)
    && (ran.Ok? ==> ran.value.entropy == m.entropy && path.value.state == Shadow(ran.value))
  }

  lemma StockedShadow(c: Compiled, parameters: Parameters, e: Effect, m: Machine)
    requires Stocked(e)
    ensures Alike(c, parameters, e, m)
  {
    hide HasInputs, HasRoom, AfterRecipe, SetCount, Count;
  }

  lemma StoresShadow(c: Compiled, parameters: Parameters, e: Effect, m: Machine)
    requires Stores(e)
    ensures Alike(c, parameters, e, m)
  {
    hide SetCount, Count;
  }

  lemma PeopledShadow(c: Compiled, parameters: Parameters, e: Effect, m: Machine)
    requires Peopled(e)
    ensures Alike(c, parameters, e, m)
  {
  }

  lemma OtherShadow(c: Compiled, parameters: Parameters, e: Effect, m: Machine)
    requires !e.RandomChance? && !Stocked(e) && !Stores(e) && !Peopled(e) && !e.ScheduleEvent?
    ensures Alike(c, parameters, e, m)
  {
  }

  lemma ScheduleShadow(c: Compiled, parameters: Parameters, e: Effect, m: Machine)
    requires e.ScheduleEvent? && (AlreadyUsed(m, e.event) <==> AlreadyUsed(Start(Shadow(m)), e.event))
    ensures Alike(c, parameters, e, m)
  {
    hide AlreadyUsed, Enqueue;
  }

  lemma PlainShadow(c: Compiled, parameters: Parameters, e: Effect, m: Machine)
    requires !e.RandomChance?
    requires e.ScheduleEvent? ==> (AlreadyUsed(m, e.event) <==> AlreadyUsed(Start(Shadow(m)), e.event))
    ensures Alike(c, parameters, e, m)
  {
    hide AlreadyUsed, Alike;
    if Stocked(e) {
      StockedShadow(c, parameters, e, m);
    } else if Stores(e) {
      StoresShadow(c, parameters, e, m);
    } else if Peopled(e) {
      PeopledShadow(c, parameters, e, m);
    } else if e.ScheduleEvent? {
      ScheduleShadow(c, parameters, e, m);
    } else {
      OtherShadow(c, parameters, e, m);
    }
  }

  lemma EnqueueHas(queue: seq<ScheduledEvent>, e: ScheduledEvent, id: Id)
    ensures Pending(Enqueue(queue, e), id) <==> Pending(queue, id) || e.id == id
  {
    forall x ensures x in Enqueue(queue, e) <==> x in queue || x == e {
      EnqueueMembers(queue, e, x);
    }
  }

  lemma PlainUses(c: Compiled, parameters: Parameters, e: Effect, m: Machine, id: Id)
    requires !e.RandomChance? && ApplyPlain(c, parameters, e, m).Ok?
    ensures var after := ApplyPlain(c, parameters, e, m).value;
            && (Pending(m.state.world.queue, id) ==> Pending(after.state.world.queue, id))
            && (UsedIn(after.events, id) ==> UsedIn(m.events, id) || (Pending(after.state.world.queue, id) && e == ScheduleEvent(id)))
  {
    if e.ScheduleEvent? {
      var due := m.state.world.time + c.deferredEvents[e.event].delay;
      EnqueueHas(m.state.world.queue, ScheduledEvent(e.event, due, c.deferredEvents[e.event].kind), id);
    } else {
      PlainSchedulesNothing(c, parameters, e, m);
      var after := ApplyPlain(c, parameters, e, m).value;
      assert forall x <- after.events :: x in m.events || !(x.kind.Scheduled? || x.kind.Resolved?);
    }
  }

  lemma PlainSchedulesNothing(c: Compiled, parameters: Parameters, e: Effect, m: Machine)
    requires !e.RandomChance? && !e.ScheduleEvent? && ApplyPlain(c, parameters, e, m).Ok?
    ensures var after := ApplyPlain(c, parameters, e, m).value;
            && after.state.world.queue == m.state.world.queue
            && forall x <- after.events :: x in m.events || !(x.kind.Scheduled? || x.kind.Resolved?)
  {
  }

  /** No chance above a hundred percent, on any branch. */
  predicate FairChances(e: Effect) {
    e.RandomChance? ==> e.percent <= 100 && FairChances(e.onSuccess) && FairChances(e.onFailure)
  }

  /** What a machine needs for its path to foretell its effects. */
  ghost predicate Ready(e: Effect, m: Machine) {
    && FairChances(e) && m.entropy.algorithm == ENTROPY_ALGORITHM
    && (Quiet(e) || UsedArePending(m))
  }

  lemma PlainStep(c: Compiled, parameters: Parameters, e: Effect, m: Machine)
    requires !e.RandomChance? && Ready(e, m)
    ensures var ran := ApplyPlain(c, parameters, e, m);
            && (ran.Ok? <==> PathsAfter(c, parameters, e, Shadow(m)).Some?)
            && (ran.Ok? ==> PathsAfter(c, parameters, e, Shadow(m)).value == {Shadow(ran.value)}
                             && ran.value.entropy == m.entropy)
            && (ran.Ok? && UsedArePending(m) ==> UsedArePending(ran.value))
  {
    hide ApplyPlain, AlreadyUsed;
    if e.ScheduleEvent? {
      UsedAlike(m, e.event);
    }
    PlainShadow(c, parameters, e, m);
    var ran := ApplyPlain(c, parameters, e, m);
    if ran.Ok? && UsedArePending(m) {
      forall id | UsedIn(ran.value.events, id) ensures Pending(ran.value.state.world.queue, id) {
        PlainUses(c, parameters, e, m, id);
      }
    }
  }

  /** A draw moves machine and path alike. */
  function Spent(s: GameState): GameState
    requires s.entropy.cursor < MAX_ENTROPY_CURSOR
  {
    s.(entropy := s.entropy.(cursor := s.entropy.cursor + 1))
  }

  lemma ChanceStep(stream: Stream, e: Effect, m: Machine)
    requires e.RandomChance? && Ready(e, m)
    ensures Chance(stream, e.percent, m).Ok? <==> m.entropy.cursor < MAX_ENTROPY_CURSOR
    ensures Chance(stream, e.percent, m).Ok? ==>
      var (spent, success) := Chance(stream, e.percent, m).value;
      && Shadow(spent) == Spent(Shadow(m)) && spent.entropy == m.entropy.(cursor := m.entropy.cursor + 1)
      && (UsedArePending(m) ==> UsedArePending(spent))
      && success == (stream(m.entropy.seed, m.entropy.cursor) % 100 < e.percent)
  {
    if Chance(stream, e.percent, m).Ok? {
      var spent := Chance(stream, e.percent, m).value.0;
      assert forall x <- spent.events :: x in m.events || x.kind.RandomDraw?;
      assert forall id :: UsedIn(spent.events, id) ==> UsedIn(m.events, id);
    }
  }

  // ---- Soundness: a machine never leaves the explored paths ----

  lemma {:induction false} EffectOnPath(c: Compiled, stream: Stream, parameters: Parameters, e: Effect, m: Machine)
    requires Ready(e, m) && PathsAfter(c, parameters, e, Shadow(m)).Some?
    ensures var ran := ApplyEffect(c, stream, parameters, e, m);
            && ran.Ok? && Shadow(ran.value) in PathsAfter(c, parameters, e, Shadow(m)).value
            && ran.value.entropy.algorithm == ENTROPY_ALGORITHM
            && (UsedArePending(m) ==> UsedArePending(ran.value))
    decreases e
  {
    hide ApplyPlain, UsedArePending, Chance;
    if e.RandomChance? {
      ChanceStep(stream, e, m);
      var drawn := Chance(stream, e.percent, m).value;
      EffectOnPath(c, stream, parameters, if drawn.1 then e.onSuccess else e.onFailure, drawn.0);
    } else {
      PlainStep(c, parameters, e, m);
    }
  }

  ghost predicate ReadyAll(effects: seq<Effect>, m: Machine) {
    && (forall e <- effects :: FairChances(e)) && m.entropy.algorithm == ENTROPY_ALGORITHM
    && ((forall e <- effects :: Quiet(e)) || UsedArePending(m))
  }

  lemma {:induction false} EffectsOnPath(
    c: Compiled, stream: Stream, parameters: Parameters, effects: seq<Effect>, m: Machine, paths: set<GameState>)
    requires ReadyAll(effects, m) && Shadow(m) in paths && PathsAfterAll(c, parameters, effects, paths).Some?
    ensures var ran := ApplyEffects(c, stream, parameters, effects, m);
            && ran.Ok? && Shadow(ran.value) in PathsAfterAll(c, parameters, effects, paths).value
            && ran.value.entropy.algorithm == ENTROPY_ALGORITHM
    decreases |effects|
  {
    hide UsedArePending, PathsAfter, ApplyEffect;
    if effects != [] {
      assert Ready(effects[0], m);
      EffectOnPath(c, stream, parameters, effects[0], m);
      var next := ApplyEffect(c, stream, parameters, effects[0], m).value;
      EffectsOnPath(c, stream, parameters, effects[1..], next, AllPathsAfter(c, parameters, effects[0], paths).value);
    }
  }

  ghost predicate FairEvents(c: Compiled) {
    && (forall id <- c.timedEvents :: forall e <- c.timedEvents[id].effects :: FairChances(e) && Quiet(e))
    && (forall id <- c.deferredEvents :: forall e <- c.deferredEvents[id].effects :: FairChances(e) && Quiet(e))
  }

  function NotedState(c: Compiled, e: ScheduledEvent, m: Machine): Machine
    requires ProgramOf(c, e).Some?
  {
    EmitWorld(m, m.state.world, Resolved(e.id, e.kind, ProgramOf(c, e).value.condition.Holds(m.state)))
  }

  lemma EventOnPath(c: Compiled, stream: Stream, e: ScheduledEvent, m: Machine)
    requires FairEvents(c) && m.entropy.algorithm == ENTROPY_ALGORITHM && EventPaths(c, e, Shadow(m)).Some?
    ensures var ran := ResolveOne(c, stream, e, m);
            && ran.Ok? && Shadow(ran.value) in EventPaths(c, e, Shadow(m)).value
            && ran.value.entropy.algorithm == ENTROPY_ALGORITHM
  {
    hide UsedArePending, ApplyEffects, PathsAfterAll;
    var program := ProgramOf(c, e).value;
    HoldsWithoutEntropy(program.condition, m.state, m.entropy);
    var noted := NotedState(c, e, m);
    if program.condition.Holds(m.state) {
      EffectsOnPath(c, stream, map[], program.effects, noted, {Shadow(m)});
    }
  }

  lemma {:induction false} DueOnPath(
    c: Compiled, stream: Stream, due: seq<ScheduledEvent>, m: Machine, paths: set<GameState>)
    requires FairEvents(c) && m.entropy.algorithm == ENTROPY_ALGORITHM
    requires Shadow(m) in paths && DuePaths(c, due, paths).Some?
    ensures ResolveAll(c, stream, due, m).Ok?
    decreases |due|
  {
    hide EventPaths, ResolveOne, FairEvents;
    if due != [] {
      EventOnPath(c, stream, due[0], m);
      DueOnPath(c, stream, due[1..], ResolveOne(c, stream, due[0], m).value,
                AllEventPaths(c, due[0], paths).value);
    }
  }

  predicate Succeeds(c: Compiled, stream: Stream, parameters: Parameters, effects: seq<Effect>, s: GameState) {
    var acted := ApplyEffects(c, stream, parameters, effects, Start(s));
    acted.Ok? && ResolveDue(c, stream, acted.value).Ok?
  }

  /** What the exploration relies on: fair chances, quiet events, and the supported algorithm. */
  ghost predicate Explorable(c: Compiled, effects: seq<Effect>, s: GameState) {
    FairEvents(c) && (forall e <- effects :: FairChances(e)) && s.entropy.algorithm == ENTROPY_ALGORITHM
  }

  lemma ShadowDue(m: Machine)
    ensures DueNow(Start(Shadow(m))) == DueNow(m)
    ensures WithoutDue(Start(Shadow(m))).state == Shadow(WithoutDue(m))
  {
  }

  /** A program the preflight admits cannot fail, whatever is drawn. */
  lemma PreflightSound(c: Compiled, stream: Stream, parameters: Parameters, effects: seq<Effect>, s: GameState)
    requires Explorable(c, effects, s) && Preflight(c, parameters, effects, s)
    ensures Succeeds(c, stream, parameters, effects, s)
  {
    hide ApplyEffects, PathsAfterAll, DuePaths, ResolveAll, FairEvents, DueNow, WithoutDue;
    assert UsedArePending(Start(s));
    assert Shadow(Start(s)) == s;
    EffectsOnPath(c, stream, parameters, effects, Start(s), {s});
    var acted := ApplyEffects(c, stream, parameters, effects, Start(s)).value;
    ShadowDue(acted);
    WithoutDueEntropy(acted);
    DueOnPath(c, stream, DueNow(acted), WithoutDue(acted), {Shadow(WithoutDue(acted))});
  }

  lemma WithoutDueEntropy(m: Machine)
    ensures WithoutDue(m).entropy == m.entropy
  {
  }

  // ---- Exactness: every explored path is one some stream of draws takes ----

  /** The streams agree on every draw before the cursor. */
  ghost predicate Agree(a: Stream, b: Stream, cursor: nat) {
    forall seed: u64, k: u64 :: k < cursor ==> a(seed, k) == b(seed, k)
  }

  function With(stream: Stream, seed: u64, cursor: u64, value: u64): Stream {
    (x, k) => if x == seed && k == cursor then value else stream(x, k)
  }

  /** Draws only ever move the cursor up. */
  lemma {:induction false} CursorGrows(c: Compiled, stream: Stream, parameters: Parameters, e: Effect, m: Machine)
    requires ApplyEffect(c, stream, parameters, e, m).Ok?
    ensures m.entropy.cursor <= ApplyEffect(c, stream, parameters, e, m).value.entropy.cursor
    decreases e
  {
    if e.RandomChance? {
      var drawn := Chance(stream, e.percent, m).value;
      CursorGrows(c, stream, parameters, if drawn.1 then e.onSuccess else e.onFailure, drawn.0);
    } else {
      PlainEntropy(c, parameters, e, m);
    }
  }

  lemma PlainEntropy(c: Compiled, parameters: Parameters, e: Effect, m: Machine)
    requires !e.RandomChance? && ApplyPlain(c, parameters, e, m).Ok?
    ensures ApplyPlain(c, parameters, e, m).value.entropy == m.entropy
  {
  }

  /** What an effect does depends only on the draws before its final cursor. */
  lemma {:induction false} EffectIsLocal(
    c: Compiled, a: Stream, b: Stream, parameters: Parameters, e: Effect, m: Machine)
    requires ApplyEffect(c, a, parameters, e, m).Ok?
    requires Agree(a, b, ApplyEffect(c, a, parameters, e, m).value.entropy.cursor)
    ensures ApplyEffect(c, b, parameters, e, m) == ApplyEffect(c, a, parameters, e, m)
    decreases e
  {
    if e.RandomChance? {
      var drawn := Chance(a, e.percent, m).value;
      var branch := if drawn.1 then e.onSuccess else e.onFailure;
      CursorGrows(c, a, parameters, branch, drawn.0);
      assert a(m.entropy.seed, m.entropy.cursor) == b(m.entropy.seed, m.entropy.cursor);
      EffectIsLocal(c, a, b, parameters, branch, drawn.0);
    }
  }

  lemma {:induction false} EffectsCursorGrows(
    c: Compiled, stream: Stream, parameters: Parameters, effects: seq<Effect>, m: Machine)
    requires ApplyEffects(c, stream, parameters, effects, m).Ok?
    ensures m.entropy.cursor <= ApplyEffects(c, stream, parameters, effects, m).value.entropy.cursor
    decreases |effects|
  {
    if effects != [] {
      CursorGrows(c, stream, parameters, effects[0], m);
      EffectsCursorGrows(c, stream, parameters, effects[1..], ApplyEffect(c, stream, parameters, effects[0], m).value);
    }
  }

  lemma {:induction false} EffectsAreLocal(
    c: Compiled, a: Stream, b: Stream, parameters: Parameters, effects: seq<Effect>, m: Machine)
    requires ApplyEffects(c, a, parameters, effects, m).Ok?
    requires Agree(a, b, ApplyEffects(c, a, parameters, effects, m).value.entropy.cursor)
    ensures ApplyEffects(c, b, parameters, effects, m) == ApplyEffects(c, a, parameters, effects, m)
    decreases |effects|
  {
    if effects != [] {
      var next := ApplyEffect(c, a, parameters, effects[0], m).value;
      EffectsCursorGrows(c, a, parameters, effects[1..], next);
      EffectIsLocal(c, a, b, parameters, effects[0], m);
      EffectsAreLocal(c, a, b, parameters, effects[1..], next);
    }
  }

  /** A stream that takes the branch towards a given path, or towards a failure when no path is given. */
  lemma {:induction false} EffectStream(
    c: Compiled, stream: Stream, parameters: Parameters, e: Effect, m: Machine, goal: Option<GameState>)
    returns (chosen: Stream)
    requires Ready(e, m)
    requires goal.None? ==> PathsAfter(c, parameters, e, Shadow(m)).None?
    requires goal.Some? ==> PathsAfter(c, parameters, e, Shadow(m)).Some?
                            && goal.value in PathsAfter(c, parameters, e, Shadow(m)).value
    ensures Agree(stream, chosen, m.entropy.cursor)
    ensures var ran := ApplyEffect(c, chosen, parameters, e, m);
            if goal.None? then ran.Err?
            else ran.Ok? && Shadow(ran.value) == goal.value && ran.value.entropy.algorithm == ENTROPY_ALGORITHM
                 && (UsedArePending(m) ==> UsedArePending(ran.value))
    decreases e
  {
    hide ApplyPlain, UsedArePending;
    chosen := stream;
    if !e.RandomChance? {
      PlainStep(c, parameters, e, m);
    } else if m.entropy.cursor < MAX_ENTROPY_CURSOR {
      var spent := Spent(Shadow(m));
      var succeed := e.percent > 0 && (e.percent == 100 || Leads(c, parameters, e.onSuccess, spent, goal));
      var branch := if succeed then e.onSuccess else e.onFailure;
      assert Leads(c, parameters, branch, spent, goal);
      var forced := With(stream, m.entropy.seed, m.entropy.cursor, if succeed then 0 else 99);
      ChanceStep(forced, e, m);
      var drawn := Chance(forced, e.percent, m).value;
      chosen := EffectStream(c, forced, parameters, branch, drawn.0, goal);
      assert chosen(m.entropy.seed, m.entropy.cursor) == forced(m.entropy.seed, m.entropy.cursor);
      assert Chance(chosen, e.percent, m) == Chance(forced, e.percent, m);
      assert forall seed: u64, k: u64 :: k < m.entropy.cursor ==> stream(seed, k) == forced(seed, k);
    } else {
      ChanceStep(stream, e, m);
    }
  }

  /** The branch reaches the given path, or fails if none is given. */
  predicate Leads(c: Compiled, parameters: Parameters, e: Effect, s: GameState, goal: Option<GameState>) {
    var paths := PathsAfter(c, parameters, e, s);
    if goal.None? then paths.None? else paths.Some? && goal.value in paths.value
  }

  // ---- The same for whole programs and for the due events ----

  lemma {:induction false} PathsJoin(c: Compiled, parameters: Parameters, effects: seq<Effect>, paths: set<GameState>)
    ensures PathsAfterAll(c, parameters, effects, paths).None? <==>
      exists p <- paths :: PathsAfterAll(c, parameters, effects, {p}).None?
    ensures PathsAfterAll(c, parameters, effects, paths).Some? ==>
      forall q :: q in PathsAfterAll(c, parameters, effects, paths).value <==>
        exists p <- paths :: q in PathsAfterAll(c, parameters, effects, {p}).value
    decreases |effects|
  {
    hide PathsAfter;
    if effects != [] {
      forall p | p in paths
        ensures PathsAfter(c, parameters, effects[0], p).None? ==> PathsAfterAll(c, parameters, effects, {p}).None?
        ensures PathsAfter(c, parameters, effects[0], p).Some? ==>
          PathsAfterAll(c, parameters, effects, {p})
          == PathsAfterAll(c, parameters, effects[1..], PathsAfter(c, parameters, effects[0], p).value)
      {
        OneStep(c, parameters, effects, p);
      }
      if forall p <- paths :: PathsAfter(c, parameters, effects[0], p).Some? {
        var next := AllPathsAfter(c, parameters, effects[0], paths).value;
        PathsJoin(c, parameters, effects[1..], next);
        forall p | p in paths
          ensures PathsAfterAll(c, parameters, effects, {p}).None? <==>
            exists q <- PathsAfter(c, parameters, effects[0], p).value :: PathsAfterAll(c, parameters, effects[1..], {q}).None?
          ensures PathsAfterAll(c, parameters, effects, {p}).Some? ==>
            forall r :: r in PathsAfterAll(c, parameters, effects, {p}).value <==>
              exists q <- PathsAfter(c, parameters, effects[0], p).value ::
                r in PathsAfterAll(c, parameters, effects[1..], {q}).value
        {
          PathsJoin(c, parameters, effects[1..], PathsAfter(c, parameters, effects[0], p).value);
        }
      }
    }
  }

  lemma OneStep(c: Compiled, parameters: Parameters, effects: seq<Effect>, p: GameState)
    requires effects != []
    ensures PathsAfter(c, parameters, effects[0], p).None? ==> PathsAfterAll(c, parameters, effects, {p}).None?
    ensures PathsAfter(c, parameters, effects[0], p).Some? ==>
      PathsAfterAll(c, parameters, effects, {p})
      == PathsAfterAll(c, parameters, effects[1..], PathsAfter(c, parameters, effects[0], p).value)
  {
    hide PathsAfter;
    if PathsAfter(c, parameters, effects[0], p).Some? {
      var next := PathsAfter(c, parameters, effects[0], p).value;
      var joined := AllPathsAfter(c, parameters, effects[0], {p});
      assert joined.Some?;
      forall q ensures q in joined.value <==> q in next {
        assert q in next ==> p in {p} && q in PathsAfter(c, parameters, effects[0], p).value;
      }
      assert joined.value == next;
    } else {
      assert p in {p};
    }
  }

  predicate LeadsAll(c: Compiled, parameters: Parameters, effects: seq<Effect>, s: GameState, goal: Option<GameState>) {
    var paths := PathsAfterAll(c, parameters, effects, {s});
    if goal.None? then paths.None? else paths.Some? && goal.value in paths.value
  }

  /** Where the first effect leads on the way to the goal; None if it fails already. */
  lemma FirstLeg(c: Compiled, parameters: Parameters, effects: seq<Effect>, s: GameState, goal: Option<GameState>)
    returns (via: Option<GameState>)
    requires effects != [] && LeadsAll(c, parameters, effects, s, goal)
    ensures Leads(c, parameters, effects[0], s, via)
    ensures via.None? ==> goal.None?
    ensures via.Some? ==> LeadsAll(c, parameters, effects[1..], via.value, goal)
  {
    hide PathsAfter;
    OneStep(c, parameters, effects, s);
    var next := PathsAfter(c, parameters, effects[0], s);
    if next.None? {
      via := None;
    } else {
      PathsJoin(c, parameters, effects[1..], next.value);
      var q :| q in next.value && LeadsAll(c, parameters, effects[1..], q, goal);
      via := Some(q);
    }
  }

  /** Draws that take a program along a chosen path, or into a failure. */
  lemma {:induction false} ProgramStream(
    c: Compiled, stream: Stream, parameters: Parameters, effects: seq<Effect>, m: Machine, goal: Option<GameState>)
    returns (chosen: Stream)
    requires ReadyAll(effects, m) && LeadsAll(c, parameters, effects, Shadow(m), goal)
    ensures Agree(stream, chosen, m.entropy.cursor)
    ensures var ran := ApplyEffects(c, chosen, parameters, effects, m);
            if goal.None? then ran.Err?
            else ran.Ok? && Shadow(ran.value) == goal.value && ran.value.entropy.algorithm == ENTROPY_ALGORITHM
    decreases |effects|
  {
    hide UsedArePending, PathsAfter, ApplyEffect;
    chosen := stream;
    if effects == [] {
      assert PathsAfterAll(c, parameters, effects, {Shadow(m)}) == Some({Shadow(m)});
    } else {
      assert Ready(effects[0], m);
      var via := FirstLeg(c, parameters, effects, Shadow(m), goal);
      var first := EffectStream(c, stream, parameters, effects[0], m, via);
      chosen := first;
      if via.Some? {
        var next := ApplyEffect(c, first, parameters, effects[0], m).value;
        chosen := ProgramStream(c, first, parameters, effects[1..], next, goal);
        CursorGrows(c, first, parameters, effects[0], m);
        EffectIsLocal(c, first, chosen, parameters, effects[0], m);
      }
    }
  }

  predicate LeadsThrough(c: Compiled, e: ScheduledEvent, s: GameState, goal: Option<GameState>) {
    var paths := EventPaths(c, e, s);
    if goal.None? then paths.None? else paths.Some? && goal.value in paths.value
  }

  lemma EventStream(c: Compiled, stream: Stream, e: ScheduledEvent, m: Machine, goal: Option<GameState>)
    returns (chosen: Stream)
    requires FairEvents(c) && m.entropy.algorithm == ENTROPY_ALGORITHM && LeadsThrough(c, e, Shadow(m), goal)
    ensures Agree(stream, chosen, m.entropy.cursor)
    ensures var ran := ResolveOne(c, chosen, e, m);
            if goal.None? then ran.Err?
            else ran.Ok? && Shadow(ran.value) == goal.value && ran.value.entropy.algorithm == ENTROPY_ALGORITHM
  {
    hide UsedArePending, ApplyEffects, PathsAfterAll;
    chosen := stream;
    if ProgramOf(c, e).Some? {
      var program := ProgramOf(c, e).value;
      HoldsWithoutEntropy(program.condition, m.state, m.entropy);
      if program.condition.Holds(m.state) {
        chosen := ProgramStream(c, stream, map[], program.effects, NotedState(c, e, m), goal);
      }
    }
  }

  lemma EventIsLocal(c: Compiled, a: Stream, b: Stream, e: ScheduledEvent, m: Machine)
    requires ResolveOne(c, a, e, m).Ok? && Agree(a, b, ResolveOne(c, a, e, m).value.entropy.cursor)
    ensures ResolveOne(c, b, e, m) == ResolveOne(c, a, e, m)
    ensures m.entropy.cursor <= ResolveOne(c, a, e, m).value.entropy.cursor
  {
    hide ApplyEffects;
    var program := ProgramOf(c, e).value;
    if program.condition.Holds(m.state) {
      EffectsAreLocal(c, a, b, map[], program.effects, NotedState(c, e, m));
      EffectsCursorGrows(c, a, map[], program.effects, NotedState(c, e, m));
    }
  }

  lemma {:induction false} DueJoin(c: Compiled, due: seq<ScheduledEvent>, paths: set<GameState>)
    ensures DuePaths(c, due, paths).None? <==> exists p <- paths :: DuePaths(c, due, {p}).None?
    decreases |due|
  {
    hide EventPaths;
    if due != [] {
      forall p | p in paths
        ensures EventPaths(c, due[0], p).None? ==> DuePaths(c, due, {p}).None?
        ensures EventPaths(c, due[0], p).Some? ==>
          DuePaths(c, due, {p}) == DuePaths(c, due[1..], EventPaths(c, due[0], p).value)
      {
        OneEvent(c, due, p);
      }
      if forall p <- paths :: EventPaths(c, due[0], p).Some? {
        var next := AllEventPaths(c, due[0], paths).value;
        DueJoin(c, due[1..], next);
        forall p | p in paths
          ensures DuePaths(c, due, {p}).None? <==>
            exists q <- EventPaths(c, due[0], p).value :: DuePaths(c, due[1..], {q}).None?
        {
          DueJoin(c, due[1..], EventPaths(c, due[0], p).value);
        }
      }
    }
  }

  lemma OneEvent(c: Compiled, due: seq<ScheduledEvent>, p: GameState)
    requires due != []
    ensures EventPaths(c, due[0], p).None? ==> DuePaths(c, due, {p}).None?
    ensures EventPaths(c, due[0], p).Some? ==>
      DuePaths(c, due, {p}) == DuePaths(c, due[1..], EventPaths(c, due[0], p).value)
  {
    SingleEvent(c, due[0], p);
  }

  lemma SingleEvent(c: Compiled, e: ScheduledEvent, p: GameState)
    ensures AllEventPaths(c, e, {p}) == EventPaths(c, e, p)
  {
    hide EventPaths;
    assert p in {p};
    var joined := AllEventPaths(c, e, {p});
    if joined.Some? {
      var next := EventPaths(c, e, p).value;
      assert forall q :: q in joined.value <==> q in next;
      assert joined.value == next;
    }
  }

  /** Draws that make some due event fail, when some path to it does. */
  lemma {:induction false} DueStream(c: Compiled, stream: Stream, due: seq<ScheduledEvent>, m: Machine)
    returns (chosen: Stream)
    requires FairEvents(c) && m.entropy.algorithm == ENTROPY_ALGORITHM && DuePaths(c, due, {Shadow(m)}).None?
    ensures Agree(stream, chosen, m.entropy.cursor) && ResolveAll(c, chosen, due, m).Err?
    decreases |due|
  {
    hide EventPaths, ResolveOne, FairEvents;
    OneEvent(c, due, Shadow(m));
    var paths := EventPaths(c, due[0], Shadow(m));
    if paths.None? {
      chosen := EventStream(c, stream, due[0], m, None);
    } else {
      DueJoin(c, due[1..], paths.value);
      var q :| q in paths.value && DuePaths(c, due[1..], {q}).None?;
      var first := EventStream(c, stream, due[0], m, Some(q));
      var next := ResolveOne(c, first, due[0], m).value;
      chosen := DueStream(c, first, due[1..], next);
      EventIsLocal(c, first, chosen, due[0], m);
    }
  }

  /** A program the preflight refuses fails for some draws. */
  lemma PreflightComplete(c: Compiled, parameters: Parameters, effects: seq<Effect>, s: GameState)
    returns (chosen: Stream)
    requires Explorable(c, effects, s) && !Preflight(c, parameters, effects, s)
    ensures !Succeeds(c, chosen, parameters, effects, s)
  {
    hide ApplyEffects, PathsAfterAll, DuePaths, ResolveAll, FairEvents, DueNow, WithoutDue;
    var m := Start(s);
    assert UsedArePending(m) && Shadow(m) == s;
    var paths := PathsAfterAll(c, parameters, effects, {s});
    if paths.None? {
      chosen := ProgramStream(c, (seed, cursor) => 0, parameters, effects, m, None);
    } else {
      var p :| p in paths.value && DuePaths(c, DueNow(Start(p)), {WithoutDue(Start(p)).state}).None?;
      var first := ProgramStream(c, (seed, cursor) => 0, parameters, effects, m, Some(p));
      var acted := ApplyEffects(c, first, parameters, effects, m).value;
      ShadowDue(acted);
      WithoutDueEntropy(acted);
      chosen := DueStream(c, first, DueNow(acted), WithoutDue(acted));
      EffectsAreLocal(c, first, chosen, parameters, effects, m);
    }
  }

  /** The preflight is exact: it admits a program if and only if no draws can make it, or a due event, fail. */
  lemma PreflightIsExact(c: Compiled, parameters: Parameters, effects: seq<Effect>, s: GameState)
    requires Explorable(c, effects, s)
    ensures Preflight(c, parameters, effects, s) <==>
      forall stream: Stream :: Succeeds(c, stream, parameters, effects, s)
  {
    hide Explorable, Preflight, Succeeds;
    if Preflight(c, parameters, effects, s) {
      forall stream: Stream ensures Succeeds(c, stream, parameters, effects, s) {
        PreflightSound(c, stream, parameters, effects, s);
      }
    } else {
      var chosen := PreflightComplete(c, parameters, effects, s);
    }
  }
}
