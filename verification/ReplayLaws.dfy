// What an accepted trace claims, said link by link: no session is rerun (crates/forge-replay/src/lib.rs).
module ReplayLaws {
  import opened Basics
  import opened Replay

  // ---- The links ----

  /** The genesis claims what content says of its state, and its receipt covers exactly these claims. */
  ghost predicate GenesisClaims(c: Content, trace: Trace) {
    var g := trace.genesis;
    && trace.version == TRACE_VERSION && g.buildId == c.buildId && g.stateId == c.stateId(g.state)
    && c.observe(g.state) == Ok(g.view) && c.hashView(g.view) == Ok(g.viewHash)
    && c.genesisReceipt(g) == Ok(trace.receipt)
  }

  /** The receipt a step is chained to: that of the step before it, or the genesis receipt. */
  function PriorReceipt(trace: Trace, n: nat): Id
    requires n <= |trace.steps|
  {
    if n == 0 then trace.receipt else trace.steps[n - 1].receipt
  }

  /** The step's claims about the legal set it chose from, the transition it took and the observation it led to. */
  ghost predicate StepClaims(c: Content, before: State, body: StepBody, t: Transition) {
    && c.step(before, body.action) == Ok(t)
    && c.enumerate(before).Ok? && c.digest(c.enumerate(before).value) == Ok(body.legalDigest)
    && t.action == body.action && t.preStateId == body.preStateId && t.postStateId == body.postStateId
    && t.events == body.events && c.hashEvents(t.events) == Ok(body.eventsHash)
    && t.entropyBefore == body.entropyBefore && t.draws == body.draws && t.entropyAfter == body.entropyAfter
    && c.observeAfter(t) == Ok(body.view) && c.hashView(body.view) == Ok(body.viewHash)
  }

  /** Step n takes the state before it to the state after it, in its place in the chain. */
  ghost predicate Link(c: Content, trace: Trace, before: State, after: State, n: nat)
    requires n < |trace.steps|
  {
    var step := trace.steps[n];
    && step.body.index == n <= U64_MAX && step.body.buildId == trace.genesis.buildId
    && step.body.priorReceipt == PriorReceipt(trace, n)
    && c.stepReceipt(step.body) == Ok(step.receipt)
    && exists t: Transition :: StepClaims(c, before, step.body, t) && t.state == after
  }

  /** The states the trace passes through, from its genesis to the state it claims to end in. */
  ghost predicate PassesThrough(c: Content, trace: Trace, states: seq<State>) {
    && |states| == |trace.steps| + 1 && states[0] == trace.genesis.state
    && (forall n :: 0 <= n < |trace.steps| ==> Link(c, trace, states[n], states[n + 1], n))
    && trace.finalStateId == c.stateId(states[|trace.steps|])
    && trace.finalReceipt == PriorReceipt(trace, |trace.steps|)
  }

  ghost predicate LawfulTrace(c: Content, trace: Trace) {
    && ValidateInitialState(c, trace.genesis.state) && StartAccepted(c, trace)
    && GenesisClaims(c, trace) && exists states :: PassesThrough(c, trace, states)
  }

  // ---- Rerunning a trace finds exactly these links ----

  lemma GenesisExact(c: Content, trace: Trace)
    ensures GenesisClaims(c, trace) <==>
      var begun := NewTrace(c, trace.genesis.state, trace.genesis.start);
      && trace.version == TRACE_VERSION
      && begun.Ok? && begun.value.genesis == trace.genesis && begun.value.receipt == trace.receipt
  {
  }

  /** One recorded step is the claimed one exactly when its link holds. */
  lemma LinkExact(c: Content, trace: Trace, live: Live, n: nat, after: State)
    requires n < |trace.steps| && Reconstructed(c, trace, n, live)
    ensures Link(c, trace, live.state, after, n) <==>
      NextStep(c, live, trace.steps[n].body.action) == Ok((after, trace.steps[n]))
  {
    hide NewTrace, RecordAll, ActionsOf;
    assert LastReceipt(live.trace) == PriorReceipt(trace, n);
  }

  ghost predicate PassedThrough(c: Content, trace: Trace, states: seq<State>, n: nat) {
    && n <= |trace.steps| && |states| == n + 1 && states[0] == trace.genesis.state
    && forall k :: 0 <= k < n ==> Link(c, trace, states[k], states[k + 1], k)
  }

  lemma {:induction false} LinksReconstruct(c: Content, trace: Trace, states: seq<State>, n: nat) returns (live: Live)
    requires GenesisClaims(c, trace) && PassedThrough(c, trace, states, n)
    ensures Reconstructed(c, trace, n, live) && live.state == states[n]
    decreases n
  {
    hide Link, NextStep, NewTrace, ActionsOf;
    if n == 0 {
      GenesisExact(c, trace);
      BegunReconstructed(c, trace);
      live := Live(trace.genesis.state, NewTrace(c, trace.genesis.state, trace.genesis.start).value);
    } else {
      var earlier := LinksReconstruct(c, trace, states[..n], n - 1);
      LinkExact(c, trace, earlier, n - 1, states[n]);
      ReconstructedNext(c, trace, n - 1, earlier, states[n]);
      live := Extended(c, earlier, states[n], trace.steps[n - 1]);
    }
  }

  lemma {:induction false} ReconstructionLinks(c: Content, trace: Trace, n: nat) returns (states: seq<State>, live: Live)
    requires Accepts(c, trace) && n <= |trace.steps|
    ensures PassedThrough(c, trace, states, n) && Reconstructed(c, trace, n, live) && live.state == states[n]
    decreases n
  {
    hide Link, NextStep, NewTrace, ActionsOf, Accepts, Rerun, Reconstructed;
    if n == 0 {
      NotGenesis(c, trace);
      BegunReconstructed(c, trace);
      live := Live(trace.genesis.state, NewTrace(c, trace.genesis.state, trace.genesis.start).value);
      states := [trace.genesis.state];
    } else {
      var earlier, before := ReconstructionLinks(c, trace, n - 1);
      RerunTakesSteps(c, trace, n - 1, before);
      var after := NextStep(c, before, trace.steps[n - 1].body.action).value.0;
      LinkExact(c, trace, before, n - 1, after);
      ReconstructedNext(c, trace, n - 1, before, after);
      live := Extended(c, before, after, trace.steps[n - 1]);
      states := earlier + [after];
    }
  }

  lemma RerunTakesSteps(c: Content, trace: Trace, n: nat, live: Live)
    requires Accepts(c, trace) && n < |trace.steps| && Reconstructed(c, trace, n, live)
    ensures var r := NextStep(c, live, trace.steps[n].body.action); r.Ok? && r.value.1 == trace.steps[n]
  {
    hide NextStep, Reconstructed, Rerun;
    var r := NextStep(c, live, trace.steps[n].body.action);
    if r.Err? || r.value.1 != trace.steps[n] {
      WrongStep(c, trace, n, live);
    }
  }

  lemma RerunEnds(c: Content, trace: Trace, live: Live)
    requires Reconstructed(c, trace, |trace.steps|, live)
    ensures Rerun(c, trace) == Ok(live)
    ensures live.trace == trace <==>
      trace.finalStateId == c.stateId(live.state) && trace.finalReceipt == PriorReceipt(trace, |trace.steps|)
  {
    hide NewTrace, RecordAll, ActionsOf;
    assert trace.steps[..|trace.steps|] == trace.steps;
    assert LastReceipt(live.trace) == PriorReceipt(trace, |trace.steps|);
    assert live.trace == trace.(finalStateId := c.stateId(live.state), finalReceipt := PriorReceipt(trace, |trace.steps|));
  }

  /** Verification accepts exactly the lawful traces. */
  lemma AcceptsExactly(c: Content, trace: Trace)
    ensures Accepts(c, trace) <==> LawfulTrace(c, trace)
  {
    hide Link, NewTrace, Rerun, Reconstructed, StartAccepted, GenesisClaims;
    var n := |trace.steps|;
    if Accepts(c, trace) {
      NotGenesis(c, trace);
      GenesisExact(c, trace);
      var states, live := ReconstructionLinks(c, trace, n);
      RerunEnds(c, trace, live);
      assert PassesThrough(c, trace, states);
    }
    if LawfulTrace(c, trace) {
      var states :| PassesThrough(c, trace, states);
      var live := LinksReconstruct(c, trace, states, n);
      RerunEnds(c, trace, live);
    }
  }

  /** The claims of one step of an accepted trace, about the states before and after it. */
  lemma AcceptedStep(c: Content, trace: Trace, n: nat) returns (before: State, after: State)
    requires Accepts(c, trace) && n < |trace.steps|
    ensures Link(c, trace, before, after, n)
    ensures n == 0 ==> before == trace.genesis.state
    ensures n == |trace.steps| - 1 ==> trace.finalStateId == c.stateId(after) && trace.finalReceipt == trace.steps[n].receipt
  {
    hide Link, Accepts;
    AcceptsExactly(c, trace);
    var states :| PassesThrough(c, trace, states);
    before, after := states[n], states[n + 1];
  }
}
