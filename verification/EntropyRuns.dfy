// The random draws of a whole run: one record per cursor, in order, never repeated.
module EntropyRuns {
  import opened Basics
  import opened Model
  import opened Content
  import opened Effects
  import opened Kernel
  import Entropy
  import Timeline

  datatype DrawRecord = DrawRecord(algorithm: string, cursor: u64, value: u64)

  function Draws(log: seq<Event>): seq<DrawRecord> {
    if log == [] then []
    else
      var last := log[|log| - 1].kind;
      var front := Draws(log[..|log| - 1]);
      if last.RandomDraw? then front + [DrawRecord(last.algorithm, last.cursor, last.value)] else front
  }

  /** The i-th record was drawn at cursor i, and the cursor counts the records. */
  ghost predicate Consecutive(stream: Stream, log: seq<Event>, entropy: EntropyState) {
    && |Draws(log)| == entropy.cursor
    && forall i :: 0 <= i < |Draws(log)| ==>
         Draws(log)[i] == DrawRecord(ENTROPY_ALGORITHM, i, stream(entropy.seed, i))
  }

  lemma {:induction false} SilentDraws(log: seq<Event>, longer: seq<Event>)
    requires log <= longer && forall i :: |log| <= i < |longer| ==> !longer[i].kind.RandomDraw?
    ensures Draws(longer) == Draws(log)
    decreases |longer|
  {
    if |log| < |longer| {
      SilentDraws(log, longer[..|longer| - 1]);
    } else {
      assert log == longer;
    }
  }

  lemma PlainDrawsNothing(c: Compiled, parameters: Parameters, e: Effect, m: Machine)
    requires !e.RandomChance? && ApplyPlain(c, parameters, e, m).Ok?
    ensures var after := ApplyPlain(c, parameters, e, m).value;
            && m.events <= after.events && after.entropy == m.entropy && after.state.log == m.state.log
            && forall i :: |m.events| <= i < |after.events| ==> !after.events[i].kind.RandomDraw?
  {
  }

  ghost predicate DrawsInStep(stream: Stream, m: Machine) {
    Consecutive(stream, Timeline.Ledger(m), m.entropy)
  }

  lemma ChanceDraws(stream: Stream, percent: nat, m: Machine)
    requires DrawsInStep(stream, m) && Chance(stream, percent, m).Ok?
    ensures var spent := Chance(stream, percent, m).value.0;
            DrawsInStep(stream, spent) && spent.entropy.seed == m.entropy.seed
  {
    var spent := Chance(stream, percent, m).value.0;
    var record := spent.events[|m.events|];
    assert Timeline.Ledger(spent) == Timeline.Ledger(m) + [record];
    assert Timeline.Ledger(spent)[..|Timeline.Ledger(m)|] == Timeline.Ledger(m);
  }

  lemma {:induction false} EffectDraws(c: Compiled, stream: Stream, parameters: Parameters, e: Effect, m: Machine)
    requires DrawsInStep(stream, m) && ApplyEffect(c, stream, parameters, e, m).Ok?
    ensures var after := ApplyEffect(c, stream, parameters, e, m).value;
            DrawsInStep(stream, after) && after.entropy.seed == m.entropy.seed
    decreases e
  {
    if e.RandomChance? {
      var drawn := Chance(stream, e.percent, m).value;
      ChanceDraws(stream, e.percent, m);
      EffectDraws(c, stream, parameters, if drawn.1 then e.onSuccess else e.onFailure, drawn.0);
    } else {
      PlainDrawsNothing(c, parameters, e, m);
      SilentDraws(Timeline.Ledger(m), Timeline.Ledger(ApplyPlain(c, parameters, e, m).value));
    }
  }

  lemma {:induction false} EffectsDraw(
    c: Compiled, stream: Stream, parameters: Parameters, effects: seq<Effect>, m: Machine)
    requires DrawsInStep(stream, m) && ApplyEffects(c, stream, parameters, effects, m).Ok?
    ensures var after := ApplyEffects(c, stream, parameters, effects, m).value;
            DrawsInStep(stream, after) && after.entropy.seed == m.entropy.seed
    decreases |effects|
  {
    if effects != [] {
      EffectDraws(c, stream, parameters, effects[0], m);
      EffectsDraw(c, stream, parameters, effects[1..], ApplyEffect(c, stream, parameters, effects[0], m).value);
    }
  }

  lemma {:induction false} ResolveDraws(c: Compiled, stream: Stream, due: seq<ScheduledEvent>, m: Machine)
    requires DrawsInStep(stream, m) && ResolveAll(c, stream, due, m).Ok?
    ensures var after := ResolveAll(c, stream, due, m).value;
            DrawsInStep(stream, after) && after.entropy.seed == m.entropy.seed
    decreases |due|
  {
    if due != [] {
      var program := ProgramOf(c, due[0]).value;
      var noted := Timeline.Noted(c, due[0], m);
      SilentDraws(Timeline.Ledger(m), Timeline.Ledger(noted));
      if program.condition.Holds(m.state) {
        EffectsDraw(c, stream, map[], program.effects, noted);
      }
      ResolveDraws(c, stream, due[1..], ResolveOne(c, stream, due[0], m).value);
    }
  }

  ghost predicate DrawsSettled(stream: Stream, s: GameState) {
    Consecutive(stream, s.log, s.entropy)
  }

  lemma StepDraws(c: Compiled, stream: Stream, s: GameState, action: Id, parameters: Parameters)
    requires DrawsSettled(stream, s) && Step(c, stream, s, action, parameters).Ok?
    ensures DrawsSettled(stream, Step(c, stream, s, action, parameters).value.state)
  {
    var m := Effects.Start(s);
    assert Timeline.Ledger(m) == s.log;
    EffectsDraw(c, stream, parameters, c.actions[action].effects, m);
    var acted := ApplyEffects(c, stream, parameters, c.actions[action].effects, m).value;
    ResolveDraws(c, stream, DueNow(acted), WithoutDue(acted));
    LedgersKept(c, stream, s, action, parameters);
  }

  lemma LedgersKept(c: Compiled, stream: Stream, s: GameState, action: Id, parameters: Parameters)
    requires Step(c, stream, s, action, parameters).Ok?
    ensures var acted := ApplyEffects(c, stream, parameters, c.actions[action].effects, Effects.Start(s)).value;
            ResolveDue(c, stream, acted).value.state.log == s.log
  {
    var acted := ApplyEffects(c, stream, parameters, c.actions[action].effects, Effects.Start(s)).value;
    EffectsKeepLog(c, stream, parameters, c.actions[action].effects, Effects.Start(s));
    ResolveKeepsLog(c, stream, DueNow(acted), WithoutDue(acted));
  }

  lemma {:induction false} EffectsKeepLog(
    c: Compiled, stream: Stream, parameters: Parameters, effects: seq<Effect>, m: Machine)
    requires ApplyEffects(c, stream, parameters, effects, m).Ok?
    ensures ApplyEffects(c, stream, parameters, effects, m).value.state.log == m.state.log
    decreases |effects|
  {
    if effects != [] {
      Timeline.EventsGrow(c, stream, parameters, effects[0], m);
      EffectsKeepLog(c, stream, parameters, effects[1..], ApplyEffect(c, stream, parameters, effects[0], m).value);
    }
  }

  lemma {:induction false} ResolveKeepsLog(c: Compiled, stream: Stream, due: seq<ScheduledEvent>, m: Machine)
    requires ResolveAll(c, stream, due, m).Ok?
    ensures ResolveAll(c, stream, due, m).value.state.log == m.state.log
    decreases |due|
  {
    if due != [] {
      var program := ProgramOf(c, due[0]).value;
      if program.condition.Holds(m.state) {
        EffectsKeepLog(c, stream, map[], program.effects, Timeline.Noted(c, due[0], m));
      }
      ResolveKeepsLog(c, stream, due[1..], ResolveOne(c, stream, due[0], m).value);
    }
  }

  lemma {:induction false} PlayDraws(c: Compiled, stream: Stream, s: GameState, commands: seq<Command>)
    requires DrawsSettled(stream, s) && Play(c, stream, s, commands).Ok?
    ensures DrawsSettled(stream, Play(c, stream, s, commands).value)
    decreases |commands|
  {
    hide Step, DrawsSettled;
    if commands != [] {
      var last := commands[|commands| - 1];
      PlayDraws(c, stream, s, commands[..|commands| - 1]);
      StepDraws(c, stream, Play(c, stream, s, commands[..|commands| - 1]).value, last.action, last.parameters);
    }
  }

  /** Every run records one draw per cursor value, from zero on. */
  lemma ReachableDraws(c: Compiled, stream: Stream, s: GameState)
    requires Reachable(c, stream, s)
    ensures Consecutive(stream, s.log, s.entropy)
  {
    hide Play, Draws;
    var start, commands :| AuthoredStart(c, start) && Play(c, stream, start, commands) == Ok(s);
    NothingDrawn(stream, start);
    PlayDraws(c, stream, start, commands);
  }

  lemma NothingDrawn(stream: Stream, s: GameState)
    requires s.log == [] && s.entropy.cursor == 0
    ensures DrawsSettled(stream, s)
  {
  }

  /** SplitMix64 as the kernel's stream, for a reading of words as numbers. */
  ghost predicate IsSplitMix(stream: Stream, number: bv64 -> u64) {
    forall seed, cursor :: stream(seed, cursor) == number(Entropy.Value(seed, cursor))
  }

  /** In no run does the recorded random value ever repeat. */
  lemma NoDrawRepeats(c: Compiled, stream: Stream, number: bv64 -> u64, s: GameState, i: nat, j: nat)
    requires Reachable(c, stream, s) && IsSplitMix(stream, number)
    requires forall x, y :: number(x) == number(y) ==> x == y
    requires i < j < |Draws(s.log)|
    ensures Draws(s.log)[i].value != Draws(s.log)[j].value
  {
    hide Reachable, Draws, Entropy.Value;
    ReachableDraws(c, stream, s);
    var seed := s.entropy.seed;
    assert Draws(s.log)[i].value == stream(seed, i) == number(Entropy.Value(seed, i));
    assert Draws(s.log)[j].value == stream(seed, j) == number(Entropy.Value(seed, j));
    if Entropy.Value(seed, i) == Entropy.Value(seed, j) {
      Entropy.DistinctDraws(seed, i, j);
    }
  }
}
