// Recording, verifying and resuming sessions (crates/forge-replay/src/lib.rs), over any deterministic kernel.
module Replay {
  import opened Basics

  type State(==, !new)
  type Action(==, !new)
  type Selection(==, !new)
  type KernelEvents(==, !new)
  type Entropy(==, !new)
  type EntropyDraws(==, !new)
  type View(==, !new)
  type Error(==, !new)

  datatype Origin = Fixture | Preset(preset: Id) | Custom(selection: Selection)

  datatype TraceStart = CharacterPreset(preset: Id, seed: u64) | CharacterCreation(selection: Selection, seed: u64) | FixtureState

  datatype Transition = Transition(
    action: Action, preStateId: Id, events: KernelEvents, entropyBefore: Entropy, draws: EntropyDraws,
    entropyAfter: Entropy, postStateId: Id, state: State)

  datatype ReplayError = KernelError(error: Error) | InvalidTrace | ResourceExhausted | Mismatch

  /** A step without its receipt: everything the receipt is computed from. */
  datatype StepBody = StepBody(
    priorReceipt: Id, buildId: Id, index: nat, action: Action, legalDigest: Id, preStateId: Id,
    events: KernelEvents, eventsHash: Id, entropyBefore: Entropy, draws: EntropyDraws, entropyAfter: Entropy,
    postStateId: Id, view: View, viewHash: Id)

  datatype TraceStep = TraceStep(body: StepBody, receipt: Id)

  datatype Genesis = Genesis(buildId: Id, start: TraceStart, state: State, stateId: Id, view: View, viewHash: Id)

  datatype Trace = Trace(
    version: string, genesis: Genesis, receipt: Id, steps: seq<TraceStep>, finalStateId: Id, finalReceipt: Id)

  datatype PlayerTrace = PlayerTrace(
    version: string, buildId: Id, start: TraceStart, actionIds: seq<Id>, finalStateId: Id, finalReceipt: Id)

  const TRACE_VERSION := "forge-replay-v2"
  const PLAYER_VERSION := "forge-player-trace-v2"

  /** Compiled content with the kernel's functions over it, and the hash functions. */
  datatype Content = Content(
    production: bool,
    buildId: Id,
    buildIdValid: bool,
    newGame: (Id, u64) -> Result<State, Error>,
    newCustomGame: (Selection, u64) -> Result<State, Error>,
    canonical: Selection -> Result<Selection, Error>,
    validState: State -> bool,
    originOf: State -> Origin,
    seedOf: State -> u64,
    entropyOf: State -> Entropy,
    stateId: State -> Id,
    actionId: Action -> Id,
    enumerate: State -> Result<seq<Action>, Error>,
    digest: seq<Action> -> Result<Id, Error>,
    step: (State, Action) -> Result<Transition, Error>,
    observe: State -> Result<View, Error>,
    observeAfter: Transition -> Result<View, Error>,
    hashEvents: KernelEvents -> Result<Id, Error>,
    hashView: View -> Result<Id, Error>,
    genesisReceipt: Genesis -> Result<Id, Error>,
    stepReceipt: StepBody -> Result<Id, Error>)

  // ---- What a kernel promises ----

  /** A transition repeats the action it was given and the state it started from; only legal actions step. */
  ghost predicate FaithfulSteps(c: Content) {
    forall s, a :: c.step(s, a).Ok? ==>
      var t := c.step(s, a).value;
      && t.action == a && t.preStateId == c.stateId(s) && t.entropyBefore == c.entropyOf(s)
      && t.postStateId == c.stateId(t.state)
      && c.enumerate(s).Ok? && a in c.enumerate(s).value
  }

  /** A new game records where it came from; canonical selections are their own canonical form. */
  ghost predicate FaithfulStarts(c: Content) {
    && (forall p, seed :: c.newGame(p, seed).Ok? ==>
          c.originOf(c.newGame(p, seed).value) == Origin.Preset(p) && c.seedOf(c.newGame(p, seed).value) == seed)
    && (forall x, seed :: c.newCustomGame(x, seed).Ok? ==>
          && c.canonical(x).Ok?
          && c.originOf(c.newCustomGame(x, seed).value) == Origin.Custom(c.canonical(x).value)
          && c.seedOf(c.newCustomGame(x, seed).value) == seed
          && c.newCustomGame(c.canonical(x).value, seed) == c.newCustomGame(x, seed))
    && (forall x :: c.canonical(x).Ok? ==> c.canonical(c.canonical(x).value) == c.canonical(x))
  }

  // ---- Recording ----

  datatype Live = Live(state: State, trace: Trace)

  function ValidateInitialState(c: Content, s: State): bool {
    c.buildIdValid && c.validState(s)
  }

  function IdentifyStart(c: Content, s: State): Result<TraceStart, ReplayError> {
    match c.originOf(s)
    case Preset(p) =>
      var expected := c.newGame(p, c.seedOf(s));
      if expected.Err? then Err(InvalidTrace)
      else if expected.value != s then Err(Mismatch)
      else Ok(CharacterPreset(p, c.seedOf(s)))
    case Custom(selection) =>
      var expected := c.newCustomGame(selection, c.seedOf(s));
      if expected.Err? then Err(InvalidTrace)
      else if expected.value != s then Err(Mismatch)
      else Ok(CharacterCreation(selection, c.seedOf(s)))
    case Fixture => if c.production then Err(InvalidTrace) else Ok(FixtureState)
  }

  function NewTrace(c: Content, s: State, start: TraceStart): Result<Trace, ReplayError> {
    var view := c.observe(s);
    if view.Err? then Err(InvalidTrace)
    else
      var hash := c.hashView(view.value);
      if hash.Err? then Err(KernelError(hash.error))
      else
        var genesis := Genesis(c.buildId, start, s, c.stateId(s), view.value, hash.value);
        var receipt := c.genesisReceipt(genesis);
        if receipt.Err? then Err(KernelError(receipt.error))
        else Ok(Trace(TRACE_VERSION, genesis, receipt.value, [], c.stateId(s), receipt.value))
  }

  function NewSession(c: Content, s: State): Result<Live, ReplayError> {
    if !ValidateInitialState(c, s) then Err(InvalidTrace)
    else
      var start := IdentifyStart(c, s);
      if start.Err? then Err(start.error)
      else
        var trace := NewTrace(c, s, start.value);
        if trace.Err? then Err(trace.error) else Ok(Live(s, trace.value))
  }

  /** trace_step_from_transition. */
  function StepFrom(c: Content, index: nat, prior: Id, buildId: Id, digest: Id, t: Transition)
    : Result<TraceStep, ReplayError>
  {
    var eventsHash := c.hashEvents(t.events);
    if eventsHash.Err? then Err(KernelError(eventsHash.error))
    else
      var view := c.observeAfter(t);
      if view.Err? then Err(InvalidTrace)
      else
        var viewHash := c.hashView(view.value);
        if viewHash.Err? then Err(KernelError(viewHash.error))
        else
          var body := StepBody(
            prior, buildId, index, t.action, digest, t.preStateId, t.events, eventsHash.value, t.entropyBefore,
            t.draws, t.entropyAfter, t.postStateId, view.value, viewHash.value);
          var receipt := c.stepReceipt(body);
          if receipt.Err? then Err(KernelError(receipt.error)) else Ok(TraceStep(body, receipt.value))
  }

  function LastReceipt(trace: Trace): Id {
    if trace.steps == [] then trace.receipt else trace.steps[|trace.steps| - 1].receipt
  }

  /** The next state and step of a recording. */
  function NextStep(c: Content, live: Live, a: Action): Result<(State, TraceStep), ReplayError> {
    var legal := c.enumerate(live.state);
    if legal.Err? then Err(KernelError(legal.error))
    else
      var digest := c.digest(legal.value);
      if digest.Err? then Err(KernelError(digest.error))
      else if |live.trace.steps| > U64_MAX then Err(ResourceExhausted)
      else
        var t := c.step(live.state, a);
        if t.Err? then Err(KernelError(t.error))
        else
          var next := StepFrom(
            c, |live.trace.steps|, LastReceipt(live.trace), live.trace.genesis.buildId, digest.value, t.value);
          if next.Err? then Err(next.error) else Ok((t.value.state, next.value))
  }

  function Extended(c: Content, live: Live, state: State, step: TraceStep): Live {
    Live(state, live.trace.(
      steps := live.trace.steps + [step], finalStateId := c.stateId(state), finalReceipt := step.receipt))
  }

  function RecordOne(c: Content, live: Live, a: Action): Result<Live, ReplayError> {
    var next := NextStep(c, live, a);
    if next.Err? then Err(next.error) else Ok(Extended(c, live, next.value.0, next.value.1))
  }

  function RecordAll(c: Content, live: Live, actions: seq<Action>): Result<Live, ReplayError> {
    if actions == [] then Ok(live)
    else
      var earlier := RecordAll(c, live, actions[..|actions| - 1]);
      if earlier.Err? then earlier else RecordOne(c, earlier.value, actions[|actions| - 1])
  }

  /** A live session; a refused action changes nothing. */
  class Session {
    const content: Content
    var live: Live

    constructor (content: Content, live: Live)
      ensures this.content == content && this.live == live
    {
      this.content, this.live := content, live;
    }

    method Record(a: Action) returns (r: Result<TraceStep, ReplayError>)
      modifies this
      ensures var after := RecordOne(content, old(live), a);
              if after.Ok? then live == after.value && r == Ok(live.trace.steps[|old(live).trace.steps|])
              else live == old(live) && r == Err(after.error)
    {
      var next := NextStep(content, live, a);
      if next.Err? {
        return Err(next.error);
      }
      live := Extended(content, live, next.value.0, next.value.1);
      return Ok(next.value.1);
    }
  }

  // ---- Composition of recordings ----

  lemma {:induction false} RecordAllSplit(c: Content, live: Live, a: seq<Action>, b: seq<Action>)
    ensures RecordAll(c, live, a + b)
         == var front := RecordAll(c, live, a); if front.Err? then front else RecordAll(c, front.value, b)
    decreases |b|
  {
    if b == [] {
      assert a + b == a;
    } else {
      RecordAllSplit(c, live, a, b[..|b| - 1]);
      assert (a + b)[..|a + b| - 1] == a + b[..|b| - 1];
    }
  }

  /** What a recording keeps of the session it started from. */
  lemma {:induction false} RecordAllShape(c: Content, live: Live, actions: seq<Action>)
    requires RecordAll(c, live, actions).Ok?
    ensures var after := RecordAll(c, live, actions).value.trace;
            && after.version == live.trace.version && after.genesis == live.trace.genesis
            && after.receipt == live.trace.receipt
            && |after.steps| == |live.trace.steps| + |actions|
            && after.steps[..|live.trace.steps|] == live.trace.steps
    decreases |actions|
  {
    if actions != [] {
      RecordAllShape(c, live, actions[..|actions| - 1]);
    } else {
      assert live.trace.steps[..|live.trace.steps|] == live.trace.steps;
    }
  }

  lemma StepAction(c: Content, live: Live, a: Action)
    requires FaithfulSteps(c) && NextStep(c, live, a).Ok?
    ensures NextStep(c, live, a).value.1.body.action == a
  {
  }

  lemma RecordedAction(c: Content, live: Live, a: Action)
    requires FaithfulSteps(c) && RecordOne(c, live, a).Ok?
    ensures ActionsOf(RecordOne(c, live, a).value.trace.steps) == ActionsOf(live.trace.steps) + [a]
  {
    hide FaithfulSteps, NextStep, ActionsOf;
    StepAction(c, live, a);
    ActionsOfLonger(live.trace.steps, NextStep(c, live, a).value.1);
  }

  lemma {:induction false} RecordedActions(c: Content, live: Live, actions: seq<Action>)
    requires FaithfulSteps(c) && RecordAll(c, live, actions).Ok?
    ensures ActionsOf(RecordAll(c, live, actions).value.trace.steps) == ActionsOf(live.trace.steps) + actions
    decreases |actions|
  {
    hide FaithfulSteps, RecordOne, ActionsOf;
    if actions == [] {
      assert ActionsOf(live.trace.steps) + [] == ActionsOf(live.trace.steps);
    } else {
      var n := |actions| - 1;
      RecordedActions(c, live, actions[..n]);
      RecordedAction(c, RecordAll(c, live, actions[..n]).value, actions[n]);
      assert actions == actions[..n] + [actions[n]];
      assert ActionsOf(live.trace.steps) + actions == (ActionsOf(live.trace.steps) + actions[..n]) + [actions[n]];
    }
  }

  /** Every prefix of a recording was recorded on the way, with the same steps. */
  lemma RecordAllPrefix(c: Content, live: Live, actions: seq<Action>, n: nat)
    requires n <= |actions| && RecordAll(c, live, actions).Ok?
    ensures RecordAll(c, live, actions[..n]).Ok?
    ensures var front := RecordAll(c, live, actions[..n]).value.trace.steps;
            front <= RecordAll(c, live, actions).value.trace.steps
  {
    hide RecordAll;
    assert actions[..n] + actions[n..] == actions;
    RecordAllSplit(c, live, actions[..n], actions[n..]);
    RecordAllShape(c, RecordAll(c, live, actions[..n]).value, actions[n..]);
  }

  function ActionsOf(steps: seq<TraceStep>): seq<Action> {
    if steps == [] then [] else ActionsOf(steps[..|steps| - 1]) + [steps[|steps| - 1].body.action]
  }

  lemma ActionsOfLonger(steps: seq<TraceStep>, step: TraceStep)
    ensures ActionsOf(steps + [step]) == ActionsOf(steps) + [step.body.action]
  {
    assert (steps + [step])[..|steps|] == steps;
  }

  lemma {:induction false} ActionsOfPrefix(steps: seq<TraceStep>, n: nat)
    requires n <= |steps|
    ensures |ActionsOf(steps)| == |steps| && ActionsOf(steps[..n]) == ActionsOf(steps)[..n]
    decreases |steps|
  {
    if n == |steps| {
      assert steps[..n] == steps;
      if n > 0 {
        ActionsOfPrefix(steps[..n - 1], n - 1);
      }
    } else {
      ActionsOfPrefix(steps[..|steps| - 1], n);
      assert steps[..|steps| - 1][..n] == steps[..n];
    }
  }

  // ---- Verification ----

  predicate StartAccepted(c: Content, trace: Trace) {
    match trace.genesis.start
    case CharacterPreset(p, seed) => c.newGame(p, seed) == Ok(trace.genesis.state)
    case CharacterCreation(selection, seed) =>
      c.canonical(selection) == Ok(selection) && c.newCustomGame(selection, seed) == Ok(trace.genesis.state)
    case FixtureState => !c.production
  }

  /** Record the trace's own actions again from its own genesis. */
  function Rerun(c: Content, trace: Trace): Result<Live, ReplayError> {
    var begun := NewTrace(c, trace.genesis.state, trace.genesis.start);
    if begun.Err? then Err(begun.error)
    else RecordAll(c, Live(trace.genesis.state, begun.value), ActionsOf(trace.steps))
  }

  predicate Accepts(c: Content, trace: Trace) {
    && ValidateInitialState(c, trace.genesis.state)
    && StartAccepted(c, trace)
    && Rerun(c, trace).Ok? && Rerun(c, trace).value.trace == trace
  }

  method CheckGenesis(c: Content, trace: Trace) returns (ok: bool)
    ensures ok <==>
      && trace.version == TRACE_VERSION && ValidateInitialState(c, trace.genesis.state) && StartAccepted(c, trace)
      && var begun := NewTrace(c, trace.genesis.state, trace.genesis.start);
         begun.Ok? && begun.value.genesis == trace.genesis && begun.value.receipt == trace.receipt
  {
    var g := trace.genesis;
    if trace.version != TRACE_VERSION || !c.buildIdValid || g.buildId != c.buildId {
      return false;
    }
    if !ValidateInitialState(c, g.state) || !StartAccepted(c, trace) || c.stateId(g.state) != g.stateId {
      return false;
    }
    var view := c.observe(g.state);
    if view.Err? || view.value != g.view {
      return false;
    }
    var hash := c.hashView(view.value);
    if hash.Err? || hash.value != g.viewHash {
      return false;
    }
    var receipt := c.genesisReceipt(g);
    return receipt.Ok? && receipt.value == trace.receipt;
  }

  /** The checks of one claimed step against the reconstructed state and receipt. */
  method CheckStep(c: Content, live: Live, claimed: TraceStep) returns (next: Option<State>)
    requires live.trace.genesis.buildId == c.buildId
    ensures next.Some? ==> NextStep(c, live, claimed.body.action) == Ok((next.value, claimed))
    ensures FaithfulSteps(c) && next.None? ==>
      var r := NextStep(c, live, claimed.body.action); r.Err? || r.value.1 != claimed
  {
    var b := claimed.body;
    var s := live.state;
    if |live.trace.steps| > U64_MAX || b.index != |live.trace.steps| {
      return None;
    }
    if b.priorReceipt != LastReceipt(live.trace) || b.buildId != c.buildId {
      return None;
    }
    if b.preStateId != c.stateId(s) || b.entropyBefore != c.entropyOf(s) {
      return None;
    }
    var legal := c.enumerate(s);
    if legal.Err? {
      return None;
    }
    var digest := c.digest(legal.value);
    if digest.Err? || digest.value != b.legalDigest {
      return None;
    }
    var stepped := c.step(s, b.action);
    if stepped.Err? {
      return None;
    }
    var t := stepped.value;
    if t.action != b.action || t.preStateId != b.preStateId || t.events != b.events {
      return None;
    }
    var eventsHash := c.hashEvents(t.events);
    if eventsHash.Err? || eventsHash.value != b.eventsHash {
      return None;
    }
    if || t.entropyBefore != b.entropyBefore || t.draws != b.draws || t.entropyAfter != b.entropyAfter
       || t.postStateId != b.postStateId
    {
      return None;
    }
    var view := c.observeAfter(t);
    if view.Err? || view.value != b.view {
      return None;
    }
    var viewHash := c.hashView(view.value);
    if viewHash.Err? || viewHash.value != b.viewHash {
      return None;
    }
    var receipt := c.stepReceipt(b);
    if receipt.Err? || receipt.value != claimed.receipt {
      return None;
    }
    return Some(t.state);
  }

  /** The session reconstructed from the first n steps. */
  ghost predicate Reconstructed(c: Content, trace: Trace, n: nat, live: Live)
    requires n <= |trace.steps|
  {
    var begun := NewTrace(c, trace.genesis.state, trace.genesis.start);
    && begun.Ok?
    && RecordAll(c, Live(trace.genesis.state, begun.value), ActionsOf(trace.steps[..n])) == Ok(live)
    && live.trace.steps == trace.steps[..n]
    && live.trace.genesis == trace.genesis && live.trace.receipt == trace.receipt && live.trace.version == trace.version
    && live.trace.finalReceipt == LastReceipt(live.trace) && live.trace.finalStateId == c.stateId(live.state)
  }

  lemma ReconstructedNext(c: Content, trace: Trace, n: nat, live: Live, next: State)
    requires n < |trace.steps| && Reconstructed(c, trace, n, live)
    requires NextStep(c, live, trace.steps[n].body.action) == Ok((next, trace.steps[n]))
    ensures Reconstructed(c, trace, n + 1, Extended(c, live, next, trace.steps[n]))
  {
    hide NewTrace, NextStep;
    assert trace.steps[..n + 1] == trace.steps[..n] + [trace.steps[n]];
    ActionsOfLonger(trace.steps[..n], trace.steps[n]);
    var actions := ActionsOf(trace.steps[..n + 1]);
    assert actions[..|actions| - 1] == ActionsOf(trace.steps[..n]);
  }

  lemma RecordAllLast(c: Content, live: Live, actions: seq<Action>, n: nat)
    requires n < |actions| && RecordAll(c, live, actions[..n]).Ok?
    ensures RecordAll(c, live, actions[..n + 1]) == RecordOne(c, RecordAll(c, live, actions[..n]).value, actions[n])
  {
    hide RecordOne;
    assert actions[..n + 1][..n] == actions[..n];
  }

  /** A step that differs from its reconstruction keeps the whole trace from being its own recording. */
  lemma WrongStep(c: Content, trace: Trace, n: nat, live: Live)
    requires n < |trace.steps| && Reconstructed(c, trace, n, live)
    requires var r := NextStep(c, live, trace.steps[n].body.action); r.Err? || r.value.1 != trace.steps[n]
    ensures Rerun(c, trace).Err? || Rerun(c, trace).value.trace != trace
  {
    hide NewTrace, NextStep, RecordAll, ActionsOf;
    var begun := Live(trace.genesis.state, NewTrace(c, trace.genesis.state, trace.genesis.start).value);
    var actions := ActionsOf(trace.steps);
    ActionsOfPrefix(trace.steps, n);
    ActionAt(trace.steps, n);
    RecordAllLast(c, begun, actions, n);
    if RecordAll(c, begun, actions).Ok? {
      RecordAllPrefix(c, begun, actions, n + 1);
    }
  }

  lemma ActionAt(steps: seq<TraceStep>, n: nat)
    requires n < |steps|
    ensures |ActionsOf(steps)| == |steps| && ActionsOf(steps)[n] == steps[n].body.action
  {
    ActionsOfPrefix(steps, n + 1);
    assert steps[..n + 1] == steps[..n] + [steps[n]];
    ActionsOfLonger(steps[..n], steps[n]);
    ActionsOfPrefix(steps, n);
    assert ActionsOf(steps)[..n + 1][n] == ActionsOf(steps)[n];
  }

  /** verify: accepts exactly the traces that are their own recording. */
  method Verify(c: Content, trace: Trace) returns (r: Option<State>)
    ensures r.Some? ==> Accepts(c, trace) && r.value == Rerun(c, trace).value.state
    ensures FaithfulSteps(c) && r.None? ==> !Accepts(c, trace)
  {
    hide NewTrace, NextStep, FaithfulSteps;
    var genesisOk := CheckGenesis(c, trace);
    if !genesisOk {
      NotGenesis(c, trace);
      return None;
    }
    var live := Live(trace.genesis.state, NewTrace(c, trace.genesis.state, trace.genesis.start).value);
    BegunReconstructed(c, trace);
    for i := 0 to |trace.steps|
      invariant Reconstructed(c, trace, i, live)
    {
      SameBuild(c, trace, live);
      var next := CheckStep(c, live, trace.steps[i]);
      if next.None? {
        if FaithfulSteps(c) {
          WrongStep(c, trace, i, live);
        }
        return None;
      }
      ReconstructedNext(c, trace, i, live, next.value);
      live := Extended(c, live, next.value, trace.steps[i]);
    }
    assert trace.steps[..|trace.steps|] == trace.steps;
    if c.stateId(live.state) != trace.finalStateId || LastReceipt(live.trace) != trace.finalReceipt {
      return None;
    }
    return Some(live.state);
  }

  lemma SameBuild(c: Content, trace: Trace, live: Live)
    requires NewTrace(c, trace.genesis.state, trace.genesis.start).Ok?
    requires NewTrace(c, trace.genesis.state, trace.genesis.start).value.genesis == trace.genesis
    requires live.trace.genesis == trace.genesis
    ensures live.trace.genesis.buildId == c.buildId
  {
  }

  lemma BegunReconstructed(c: Content, trace: Trace)
    requires trace.version == TRACE_VERSION && NewTrace(c, trace.genesis.state, trace.genesis.start).Ok?
    requires var begun := NewTrace(c, trace.genesis.state, trace.genesis.start).value;
             begun.genesis == trace.genesis && begun.receipt == trace.receipt
    ensures Reconstructed(
      c, trace, 0, Live(trace.genesis.state, NewTrace(c, trace.genesis.state, trace.genesis.start).value))
  {
    assert trace.steps[..0] == [];
  }

  /** A recording always has a genesis that passes the checks. */
  lemma NotGenesis(c: Content, trace: Trace)
    ensures Accepts(c, trace) ==>
      && trace.version == TRACE_VERSION
      && var begun := NewTrace(c, trace.genesis.state, trace.genesis.start);
         begun.Ok? && begun.value.genesis == trace.genesis && begun.value.receipt == trace.receipt
  {
    var begun := NewTrace(c, trace.genesis.state, trace.genesis.start);
    if Accepts(c, trace) {
      RecordAllShape(c, Live(trace.genesis.state, begun.value), ActionsOf(trace.steps));
    }
  }

  // ---- Exactness for production content ----

  /** The trace some session recorded: started by NewSession, extended by recording actions. */
  ghost predicate Recorded(c: Content, trace: Trace) {
    exists s, actions :: NewSession(c, s).Ok?
      && RecordAll(c, NewSession(c, s).value, actions).Ok?
      && RecordAll(c, NewSession(c, s).value, actions).value.trace == trace
  }

  lemma StartsAgree(c: Content, trace: Trace)
    requires FaithfulStarts(c)
    ensures IdentifyStart(c, trace.genesis.state) == Ok(trace.genesis.start) ==> StartAccepted(c, trace)
    ensures StartAccepted(c, trace) && !trace.genesis.start.FixtureState? ==>
              IdentifyStart(c, trace.genesis.state) == Ok(trace.genesis.start)
    ensures StartAccepted(c, trace) && trace.genesis.start.FixtureState? ==>
              (IdentifyStart(c, trace.genesis.state) == Ok(trace.genesis.start) <==> c.originOf(trace.genesis.state).Fixture?)
  {
  }

  /** Whatever a session records is accepted. */
  lemma RecordedAccepted(c: Content, trace: Trace)
    requires FaithfulSteps(c) && FaithfulStarts(c) && Recorded(c, trace)
    ensures Accepts(c, trace) && IdentifyStart(c, trace.genesis.state) == Ok(trace.genesis.start)
  {
    hide FaithfulSteps, FaithfulStarts, NextStep;
    var s, actions :| NewSession(c, s).Ok?
      && RecordAll(c, NewSession(c, s).value, actions).Ok?
      && RecordAll(c, NewSession(c, s).value, actions).value.trace == trace;
    var begun := NewSession(c, s).value;
    RecordAllShape(c, begun, actions);
    RecordedActions(c, begun, actions);
    assert ActionsOf(trace.steps) == [] + actions == actions;
    assert NewTrace(c, s, trace.genesis.start) == Ok(begun.trace);
    StartsAgree(c, trace);
  }

  lemma AcceptedRecorded(c: Content, trace: Trace)
    requires Accepts(c, trace) && IdentifyStart(c, trace.genesis.state) == Ok(trace.genesis.start)
    ensures Recorded(c, trace)
  {
    hide NextStep, NewTrace;
    assert NewSession(c, trace.genesis.state)
        == Ok(Live(trace.genesis.state, NewTrace(c, trace.genesis.state, trace.genesis.start).value));
  }

  /** For production content, verification accepts exactly what a session records, field for field. */
  lemma VerifyIsExact(c: Content, trace: Trace)
    requires FaithfulSteps(c) && FaithfulStarts(c) && c.production
    ensures Accepts(c, trace) <==> Recorded(c, trace)
  {
    hide FaithfulSteps, FaithfulStarts, NewTrace, NextStep, IdentifyStart;
    StartsAgree(c, trace);
    if Recorded(c, trace) {
      RecordedAccepted(c, trace);
    }
    if Accepts(c, trace) {
      AcceptedRecorded(c, trace);
    }
  }

  /** For any content it accepts one thing more: a fixture label on a state that has an authored origin. */
  lemma AcceptedUnrecorded(c: Content, trace: Trace)
    requires FaithfulSteps(c) && FaithfulStarts(c) && Accepts(c, trace)
    ensures Recorded(c, trace) <==> !(trace.genesis.start.FixtureState? && !c.originOf(trace.genesis.state).Fixture?)
  {
    hide FaithfulSteps, FaithfulStarts, NewTrace, NextStep, IdentifyStart, Recorded;
    StartsAgree(c, trace);
    if Recorded(c, trace) {
      RecordedAccepted(c, trace);
    }
    if IdentifyStart(c, trace.genesis.state) == Ok(trace.genesis.start) {
      AcceptedRecorded(c, trace);
    }
  }

  /** A kernel with one preset, whose only game is the given state and offers no action. */
  function OneGame(production: bool, s: State, view: View, entropy: Entropy, error: Error): Content {
    Content(
      production, "build", true,
      (preset, seed) => if preset == "preset" && seed == 0 then Ok(s) else Err(error),
      (selection, seed) => Err(error),
      selection => Err(error),
      state => state == s, state => Origin.Preset("preset"), state => 0, state => entropy, state => "state",
      action => "action", state => Ok([]), legal => Ok("legal"), (state, action) => Err(error),
      state => Ok(view), transition => Ok(view), events => Ok("events"), shown => Ok("view"),
      genesis => Ok("genesis"), body => Ok("step"))
  }

  /** Such a trace exists in every kernel: a fixture label on a preset's own state is accepted, and never recorded. */
  lemma FixtureLabelIsAccepted(s: State, view: View, entropy: Entropy, error: Error) returns (c: Content, trace: Trace)
    ensures FaithfulSteps(c) && FaithfulStarts(c) && c == OneGame(false, s, view, entropy, error)
    ensures trace.genesis.state == s && trace.genesis.start.FixtureState?
    ensures Accepts(c, trace) && !Recorded(c, trace)
  {
    c := OneGame(false, s, view, entropy, error);
    trace := NewTrace(c, s, FixtureState).value;
    assert ActionsOf(trace.steps) == [];
    AcceptedUnrecorded(c, trace);
  }

  // ---- Resuming ----

  method Resume(c: Content, trace: Trace) returns (live: Option<Live>)
    ensures live.Some? ==> Accepts(c, trace) && Rerun(c, trace) == Ok(live.value)
    ensures FaithfulSteps(c) && live.None? ==> !Accepts(c, trace)
  {
    hide FaithfulSteps;
    var state := Verify(c, trace);
    if state.None? {
      return None;
    }
    return Some(Live(state.value, trace));
  }

  /** Stopping, resuming from the verified prefix, and recording the rest is the same as never stopping. */
  lemma PrefixParity(c: Content, s: State, a: seq<Action>, b: seq<Action>)
    requires FaithfulSteps(c) && NewSession(c, s).Ok? && RecordAll(c, NewSession(c, s).value, a).Ok?
    ensures var prefix := RecordAll(c, NewSession(c, s).value, a).value;
            && Rerun(c, prefix.trace) == Ok(prefix)
            && RecordAll(c, NewSession(c, s).value, a + b) == RecordAll(c, Rerun(c, prefix.trace).value, b)
  {
    hide FaithfulSteps, NextStep;
    var begun := NewSession(c, s).value;
    var prefix := RecordAll(c, begun, a).value;
    RecordAllShape(c, begun, a);
    RecordedActions(c, begun, a);
    assert ActionsOf(prefix.trace.steps) == [] + a == a;
    assert NewTrace(c, s, prefix.trace.genesis.start) == Ok(begun.trace);
    RecordAllSplit(c, begun, a, b);
  }

  // ---- Player saves ----

  function ActionIds(c: Content, steps: seq<TraceStep>): seq<Id> {
    if steps == [] then [] else ActionIds(c, steps[..|steps| - 1]) + [c.actionId(steps[|steps| - 1].body.action)]
  }

  function PlayerTraceOf(c: Content, live: Live): Result<PlayerTrace, ReplayError> {
    var t := live.trace;
    if t.genesis.start.FixtureState? then Err(InvalidTrace)
    else Ok(PlayerTrace(
      PLAYER_VERSION, t.genesis.buildId, t.genesis.start, ActionIds(c, t.steps), t.finalStateId, t.finalReceipt))
  }

  function FindAction(c: Content, legal: seq<Action>, id: Id): Option<Action> {
    if legal == [] then None else if c.actionId(legal[0]) == id then Some(legal[0]) else FindAction(c, legal[1..], id)
  }

  function ChooseOne(c: Content, live: Live, id: Id): Result<Live, ReplayError> {
    var legal := c.enumerate(live.state);
    if legal.Err? then Err(KernelError(legal.error))
    else
      var action := FindAction(c, legal.value, id);
      if action.None? then Err(InvalidTrace) else RecordOne(c, live, action.value)
  }

  function ChooseAll(c: Content, live: Live, ids: seq<Id>): Result<Live, ReplayError> {
    if ids == [] then Ok(live)
    else
      var earlier := ChooseAll(c, live, ids[..|ids| - 1]);
      if earlier.Err? then earlier else ChooseOne(c, earlier.value, ids[|ids| - 1])
  }

  function SessionOf(c: Content, start: TraceStart): Result<Live, ReplayError> {
    match start
    case CharacterPreset(p, seed) =>
      var state := c.newGame(p, seed);
      if state.Err? then Err(InvalidTrace) else NewSession(c, state.value)
    case CharacterCreation(selection, seed) =>
      var state := c.newCustomGame(selection, seed);
      if state.Err? then Err(InvalidTrace) else NewSession(c, state.value)
    case FixtureState => Err(InvalidTrace)
  }

  function ResumedPlayer(c: Content, p: PlayerTrace): Result<Live, ReplayError> {
    if p.version != PLAYER_VERSION then Err(InvalidTrace)
    else if p.buildId != c.buildId then Err(Mismatch)
    else
      var begun := SessionOf(c, p.start);
      if begun.Err? then begun
      else if begun.value.trace.genesis.start != p.start then Err(Mismatch)
      else
        var live := ChooseAll(c, begun.value, p.actionIds);
        if live.Err? then live
        else if live.value.trace.finalStateId != p.finalStateId || live.value.trace.finalReceipt != p.finalReceipt
        then Err(Mismatch)
        else live
  }

  /** resume_player_trace: every identity is looked up in the legal set of the reconstructed state. */
  method ResumePlayerTrace(c: Content, p: PlayerTrace) returns (r: Result<Live, ReplayError>)
    ensures r == ResumedPlayer(c, p)
  {
    hide ChooseOne, SessionOf;
    if p.version != PLAYER_VERSION {
      return Err(InvalidTrace);
    }
    if p.buildId != c.buildId {
      return Err(Mismatch);
    }
    var begun := SessionOf(c, p.start);
    if begun.Err? {
      return begun;
    }
    if begun.value.trace.genesis.start != p.start {
      return Err(Mismatch);
    }
    var live := begun.value;
    for i := 0 to |p.actionIds|
      invariant ChooseAll(c, begun.value, p.actionIds[..i]) == Ok(live)
    {
      assert p.actionIds[..i + 1][..i] == p.actionIds[..i];
      var next := ChooseOne(c, live, p.actionIds[i]);
      if next.Err? {
        ChooseAllFails(c, begun.value, p.actionIds, i + 1);
        return next;
      }
      live := next.value;
    }
    assert p.actionIds[..|p.actionIds|] == p.actionIds;
    if live.trace.finalStateId != p.finalStateId || live.trace.finalReceipt != p.finalReceipt {
      return Err(Mismatch);
    }
    return Ok(live);
  }

  lemma {:induction false} ChooseAllFails(c: Content, live: Live, ids: seq<Id>, n: nat)
    requires n <= |ids| && ChooseAll(c, live, ids[..n]).Err?
    ensures ChooseAll(c, live, ids) == ChooseAll(c, live, ids[..n])
    decreases |ids| - n
  {
    if n == |ids| {
      assert ids[..n] == ids;
    } else {
      assert ids[..n + 1][..n] == ids[..n];
      ChooseAllFails(c, live, ids, n + 1);
    }
  }

  /** Within each legal set, identities are distinct. */
  ghost predicate DistinctActionIds(c: Content) {
    forall s :: c.enumerate(s).Ok? ==>
      forall a <- c.enumerate(s).value, b <- c.enumerate(s).value :: c.actionId(a) == c.actionId(b) ==> a == b
  }

  lemma {:induction false} FindActionOwn(c: Content, legal: seq<Action>, a: Action)
    requires a in legal && forall x <- legal :: c.actionId(x) == c.actionId(a) ==> x == a
    ensures FindAction(c, legal, c.actionId(a)) == Some(a)
    decreases |legal|
  {
    if legal[0] != a {
      FindActionOwn(c, legal[1..], a);
    }
  }

  /** Choosing by identity records the same steps as choosing the actions themselves. */
  lemma {:induction false} ChoosingIsRecording(c: Content, live: Live, actions: seq<Action>)
    requires FaithfulSteps(c) && DistinctActionIds(c) && RecordAll(c, live, actions).Ok?
    ensures var after := RecordAll(c, live, actions).value;
            var ids := ActionIds(c, after.trace.steps);
            |live.trace.steps| <= |ids| == |after.trace.steps|
            && ids[..|live.trace.steps|] == ActionIds(c, live.trace.steps)
            && ChooseAll(c, live, ids[|live.trace.steps|..]) == Ok(after)
    decreases |actions|
  {
    if actions == [] {
      IdsLength(c, live.trace.steps);
      var ids := ActionIds(c, live.trace.steps);
      assert ids[..|ids|] == ids && ids[|ids|..] == [];
    } else {
      var n := |actions| - 1;
      ChoosingIsRecording(c, live, actions[..n]);
      RecordAllShape(c, live, actions[..n]);
      LastChoice(c, live, RecordAll(c, live, actions[..n]).value, actions[n]);
    }
  }

  lemma {:induction false} IdsLength(c: Content, steps: seq<TraceStep>)
    ensures |ActionIds(c, steps)| == |steps|
  {
    if steps != [] {
      IdsLength(c, steps[..|steps| - 1]);
    }
  }

  lemma LastChoice(c: Content, live: Live, earlier: Live, a: Action)
    requires FaithfulSteps(c) && DistinctActionIds(c) && RecordOne(c, earlier, a).Ok?
    requires var ids := ActionIds(c, earlier.trace.steps);
             |live.trace.steps| <= |ids| == |earlier.trace.steps|
             && ids[..|live.trace.steps|] == ActionIds(c, live.trace.steps)
             && ChooseAll(c, live, ids[|live.trace.steps|..]) == Ok(earlier)
    ensures var after := RecordOne(c, earlier, a).value;
            var ids := ActionIds(c, after.trace.steps);
            |live.trace.steps| <= |ids| == |after.trace.steps|
            && ids[..|live.trace.steps|] == ActionIds(c, live.trace.steps)
            && ChooseAll(c, live, ids[|live.trace.steps|..]) == Ok(after)
  {
    hide FaithfulSteps, NextStep, DistinctActionIds, FindAction;
    var after := RecordOne(c, earlier, a).value;
    StepAction(c, earlier, a);
    FoundByIdentity(c, earlier, a);
    var k := |live.trace.steps|;
    var before := ActionIds(c, earlier.trace.steps);
    assert after.trace.steps[..|earlier.trace.steps|] == earlier.trace.steps;
    var ids := ActionIds(c, after.trace.steps);
    assert ids == before + [c.actionId(a)];
    assert ids[k..][..|ids[k..]| - 1] == before[k..];
  }

  lemma FoundByIdentity(c: Content, live: Live, a: Action)
    requires FaithfulSteps(c) && DistinctActionIds(c) && NextStep(c, live, a).Ok?
    ensures c.enumerate(live.state).Ok?
    ensures FindAction(c, c.enumerate(live.state).value, c.actionId(a)) == Some(a)
  {
    FindActionOwn(c, c.enumerate(live.state).value, a);
  }

  /** A save carries only identities, yet resuming it rebuilds the identical session. */
  lemma SaveRoundTrip(c: Content, s: State, actions: seq<Action>)
    requires FaithfulSteps(c) && DistinctActionIds(c)
    requires NewSession(c, s).Ok? && RecordAll(c, NewSession(c, s).value, actions).Ok?
    requires !c.originOf(s).Fixture?
    ensures var live := RecordAll(c, NewSession(c, s).value, actions).value;
            PlayerTraceOf(c, live).Ok? && ResumedPlayer(c, PlayerTraceOf(c, live).value) == Ok(live)
  {
    hide FaithfulSteps, DistinctActionIds, NewSession, SessionOf, ChooseAll, ActionIds, RecordAll;
    var begun := NewSession(c, s).value;
    BegunByStart(c, s);
    RecordAllShape(c, begun, actions);
    ChoosingIsRecording(c, begun, actions);
    var live := RecordAll(c, begun, actions).value;
    var ids := ActionIds(c, live.trace.steps);
    assert ids[0..] == ids;
  }

  lemma BegunByStart(c: Content, s: State)
    requires NewSession(c, s).Ok? && !c.originOf(s).Fixture?
    ensures var begun := NewSession(c, s).value;
            && begun.trace.steps == [] && begun.trace.genesis.buildId == c.buildId
            && !begun.trace.genesis.start.FixtureState? && SessionOf(c, begun.trace.genesis.start) == Ok(begun)
  {
  }

  // ---- The other half: a resumed session saves what it was resumed from ----

  lemma {:induction false} FoundAction(c: Content, legal: seq<Action>, id: Id)
    requires FindAction(c, legal, id).Some?
    ensures c.actionId(FindAction(c, legal, id).value) == id
    decreases |legal|
  {
    if c.actionId(legal[0]) != id {
      FoundAction(c, legal[1..], id);
    }
  }

  lemma ChoiceAdds(c: Content, live: Live, id: Id)
    requires FaithfulSteps(c) && ChooseOne(c, live, id).Ok?
    ensures var next := ChooseOne(c, live, id).value;
            && next.trace.genesis == live.trace.genesis
            && ActionIds(c, next.trace.steps) == ActionIds(c, live.trace.steps) + [id]
  {
    hide FaithfulSteps, NextStep;
    var legal := c.enumerate(live.state).value;
    FoundAction(c, legal, id);
    var action := FindAction(c, legal, id).value;
    StepAction(c, live, action);
    var next := ChooseOne(c, live, id).value;
    assert next.trace.steps[..|live.trace.steps|] == live.trace.steps;
  }

  lemma {:induction false} ChoicesAdd(c: Content, live: Live, ids: seq<Id>)
    requires FaithfulSteps(c) && ChooseAll(c, live, ids).Ok?
    ensures var next := ChooseAll(c, live, ids).value;
            && next.trace.genesis == live.trace.genesis
            && ActionIds(c, next.trace.steps) == ActionIds(c, live.trace.steps) + ids
    decreases |ids|
  {
    hide FaithfulSteps, ChooseOne, ActionIds;
    if ids == [] {
      assert ActionIds(c, live.trace.steps) + [] == ActionIds(c, live.trace.steps);
    } else {
      var n := |ids| - 1;
      ChoicesAdd(c, live, ids[..n]);
      ChoiceAdds(c, ChooseAll(c, live, ids[..n]).value, ids[n]);
      assert ids == ids[..n] + [ids[n]];
    }
  }

  /** A new session is the one its own start begins. */
  lemma StartsItself(c: Content, start: TraceStart)
    requires SessionOf(c, start).Ok?
    ensures var begun := SessionOf(c, start).value;
            && begun.trace.steps == [] && begun.trace.genesis.buildId == c.buildId
            && (!begun.trace.genesis.start.FixtureState? ==> SessionOf(c, begun.trace.genesis.start) == Ok(begun))
  {
  }

  /** A resumed session began at the start its save names, which is never a fixture. */
  lemma ResumedGenesis(c: Content, p: PlayerTrace)
    requires ResumedPlayer(c, p).Ok?
    ensures ResumedPlayer(c, p).value.trace.genesis.start == p.start && !p.start.FixtureState?
  {
    hide NewSession, ChooseOne;
    var begun := SessionOf(c, p.start).value;
    ChoicesKeepGenesis(c, begun, p.actionIds);
  }

  lemma {:induction false} ChoicesKeepGenesis(c: Content, live: Live, ids: seq<Id>)
    requires ChooseAll(c, live, ids).Ok?
    ensures ChooseAll(c, live, ids).value.trace.genesis == live.trace.genesis
    decreases |ids|
  {
    hide NextStep;
    if ids != [] {
      ChoicesKeepGenesis(c, live, ids[..|ids| - 1]);
    }
  }

  /** Saving a resumed session gives back the save it was resumed from. */
  lemma SavedAgain(c: Content, p: PlayerTrace)
    requires FaithfulSteps(c) && ResumedPlayer(c, p).Ok?
    ensures PlayerTraceOf(c, ResumedPlayer(c, p).value) == Ok(p)
  {
    hide FaithfulSteps, ChooseAll, SessionOf;
    var begun := SessionOf(c, p.start).value;
    StartsItself(c, p.start);
    ChoicesAdd(c, begun, p.actionIds);
    assert ActionIds(c, []) + p.actionIds == p.actionIds;
    NoFixtureSession(c);
  }

  lemma NoFixtureSession(c: Content)
    ensures SessionOf(c, FixtureState).Err?
  {
  }

  /** A new session that can be saved is resumed by its save. */
  lemma StartedSaves(c: Content, start: TraceStart)
    requires SessionOf(c, start).Ok? && PlayerTraceOf(c, SessionOf(c, start).value).Ok?
    ensures ResumedPlayer(c, PlayerTraceOf(c, SessionOf(c, start).value).value) == SessionOf(c, start)
  {
    StartsItself(c, start);
    hide SessionOf;
  }

  /** One more choice keeps the session and its save in step. */
  lemma NextSaves(c: Content, p: PlayerTrace, id: Id)
    requires FaithfulSteps(c) && ResumedPlayer(c, p).Ok? && ChooseOne(c, ResumedPlayer(c, p).value, id).Ok?
    ensures var next := ChooseOne(c, ResumedPlayer(c, p).value, id).value;
            PlayerTraceOf(c, next).Ok? && ResumedPlayer(c, PlayerTraceOf(c, next).value) == Ok(next)
  {
    hide FaithfulSteps, ChooseOne, SessionOf;
    var live := ResumedPlayer(c, p).value;
    var next := ChooseOne(c, live, id).value;
    SavedAgain(c, p);
    ChoiceAdds(c, live, id);
    assert ActionIds(c, live.trace.steps) == p.actionIds && live.trace.genesis.start == p.start;
    var ids := p.actionIds + [id];
    assert ids[..|ids| - 1] == p.actionIds;
  }
}
