// Why the deferred result bound holds in every run: templates scheduled together keep their relative deadlines.
module CohortRuns {
  import opened Basics
  import opened Model
  import opened Content
  import opened Effects
  import opened Kernel
  import opened Schedule
  import opened Timeline
  import opened Validation
  import opened Windows
  import opened Cohorts
  import Text
  import TimeCost

  // ---- What a program does to the queue ----

  /** Only scheduling changes the queue during an action. */
  lemma PlainQueue(c: Compiled, parameters: Parameters, e: Effect, m: Machine)
    requires !e.RandomChance? && !e.ScheduleEvent? && ApplyPlain(c, parameters, e, m).Ok?
    ensures ApplyPlain(c, parameters, e, m).value.state.world.queue == m.state.world.queue
  {
  }

  lemma PlainTime(c: Compiled, parameters: Parameters, e: Effect, m: Machine)
    requires !e.RandomChance? && ApplyPlain(c, parameters, e, m).Ok?
    ensures ApplyPlain(c, parameters, e, m).value.state.world.time
         == m.state.world.time + if e.AdvanceTime? then e.ticks else 0
  {
  }

  /** Nothing leaves the queue, and only what the effect mentions enters it. */
  lemma {:induction false} EffectQueue(
    c: Compiled, stream: Stream, parameters: Parameters, e: Effect, m: Machine, x: ScheduledEvent)
    requires ApplyEffect(c, stream, parameters, e, m).Ok?
    ensures var after := ApplyEffect(c, stream, parameters, e, m).value.state.world.queue;
            (x in m.state.world.queue ==> x in after)
            && (x in after ==> x in m.state.world.queue || Mentions(e, x.id))
    decreases e
  {
    if e.RandomChance? {
      var drawn := Chance(stream, e.percent, m).value;
      EffectQueue(c, stream, parameters, if drawn.1 then e.onSuccess else e.onFailure, drawn.0, x);
    } else if e.ScheduleEvent? {
      var due := m.state.world.time + c.deferredEvents[e.event].delay;
      EnqueueMembers(m.state.world.queue, ScheduledEvent(e.event, due, c.deferredEvents[e.event].kind), x);
    } else {
      PlainQueue(c, parameters, e, m);
    }
  }

  ghost predicate MentionedIn(effects: seq<Effect>, id: Id) {
    exists i: nat :: i < |effects| && Mentions(effects[i], id)
  }

  lemma {:induction false} ProgramQueue(
    c: Compiled, stream: Stream, parameters: Parameters, effects: seq<Effect>, m: Machine, x: ScheduledEvent)
    requires ApplyEffects(c, stream, parameters, effects, m).Ok?
    ensures var after := ApplyEffects(c, stream, parameters, effects, m).value.state.world.queue;
            (x in m.state.world.queue ==> x in after)
            && (x in after ==> x in m.state.world.queue || MentionedIn(effects, x.id))
    decreases |effects|
  {
    if effects != [] {
      var front := effects[..|effects| - 1];
      TimeCost.LastEffect(c, stream, parameters, effects, m);
      ProgramQueue(c, stream, parameters, front, m, x);
      EffectQueue(c, stream, parameters, effects[|effects| - 1], ApplyEffects(c, stream, parameters, front, m).value, x);
      if MentionedIn(front, x.id) {
        var i: nat :| i < |front| && Mentions(front[i], x.id);
        assert Mentions(effects[i], x.id);
      }
    }
  }

  /** The entry was placed by effect i of a program started at a given time. */
  ghost predicate PlacedBy(c: Compiled, effects: seq<Effect>, started: u64, i: nat, x: ScheduledEvent) {
    && i < |effects| && effects[i] == ScheduleEvent(x.id) && x.id in c.deferredEvents
    && x.due == started + Elapsed(effects[..i]) + c.deferredEvents[x.id].delay
  }

  ghost predicate Placed(c: Compiled, effects: seq<Effect>, started: u64, x: ScheduledEvent) {
    exists i :: PlacedBy(c, effects, started, i, x)
  }

  /** In a program without draws, every entry's due time follows from the effects before it. */
  lemma {:induction false} ProgramTimes(
    c: Compiled, stream: Stream, parameters: Parameters, effects: seq<Effect>, m: Machine, x: ScheduledEvent)
    requires NoChance(effects) && ApplyEffects(c, stream, parameters, effects, m).Ok?
    ensures var after := ApplyEffects(c, stream, parameters, effects, m).value.state.world;
            after.time == m.state.world.time + Elapsed(effects)
            && (x in after.queue ==> x in m.state.world.queue || Placed(c, effects, m.state.world.time, x))
    decreases |effects|
  {
    if effects != [] {
      var n := |effects| - 1;
      var front, last := effects[..n], effects[n];
      TimeCost.LastEffect(c, stream, parameters, effects, m);
      ProgramTimes(c, stream, parameters, front, m, x);
      var middle := ApplyEffects(c, stream, parameters, front, m).value;
      assert last in effects;
      PlainTime(c, parameters, last, middle);
      if Placed(c, front, m.state.world.time, x) {
        var i: nat :| PlacedBy(c, front, m.state.world.time, i, x);
        assert front[..i] == effects[..i];
        assert PlacedBy(c, effects, m.state.world.time, i, x);
      }
      LastPlaces(c, parameters, effects, m.state.world.time, middle, x);
    }
  }

  lemma LastPlaces(
    c: Compiled, parameters: Parameters, effects: seq<Effect>, started: u64, middle: Machine, x: ScheduledEvent)
    requires effects != [] && !effects[|effects| - 1].RandomChance?
    requires middle.state.world.time == started + Elapsed(effects[..|effects| - 1])
    requires ApplyPlain(c, parameters, effects[|effects| - 1], middle).Ok?
    ensures x in ApplyPlain(c, parameters, effects[|effects| - 1], middle).value.state.world.queue ==>
              x in middle.state.world.queue || Placed(c, effects, started, x)
  {
    var last := effects[|effects| - 1];
    if last.ScheduleEvent? {
      var due := middle.state.world.time + c.deferredEvents[last.event].delay;
      var entry := ScheduledEvent(last.event, due, c.deferredEvents[last.event].kind);
      EnqueueMembers(middle.state.world.queue, entry, x);
      assert PlacedBy(c, effects, started, |effects| - 1, entry);
    } else {
      PlainQueue(c, parameters, last, middle);
    }
  }

  /** A program that succeeds found every template it schedules unused: permanently one-shot identities. */
  lemma ScheduledFresh(
    c: Compiled, stream: Stream, parameters: Parameters, effects: seq<Effect>, m: Machine, j: nat)
    requires ApplyEffects(c, stream, parameters, effects, m).Ok?
    requires j < |effects| && effects[j].ScheduleEvent?
    ensures !Pending(m.state.world.queue, effects[j].event)
  {
    TimeCost.EffectsSplit(c, stream, parameters, effects, m, j);
    var middle := ApplyEffects(c, stream, parameters, effects[..j], m).value;
    assert effects[j..][0] == effects[j];
    assert Effects.Schedule(c, middle, effects[j].event).Ok?;
    forall x | x in m.state.world.queue ensures x.id != effects[j].event {
      ProgramQueue(c, stream, parameters, effects[..j], m, x);
    }
  }

  // ---- Alignment ----

  /** The time the scheduling action must have started for this entry. */
  function BaseOf(d: Draft, e: ScheduledEvent): int
    requires FixedOf(d, e.id).Some?
  {
    e.due - FixedOf(d, e.id).value.1
  }

  predicate SameCohort(d: Draft, a: Id, b: Id) {
    FixedOf(d, a).Some? && FixedOf(d, b).Some? && FixedOf(d, a).value.0 == FixedOf(d, b).value.0
  }

  /** Pending templates of one cohort go back to one start. */
  ghost predicate Aligned(d: Draft, queue: seq<ScheduledEvent>) {
    forall x <- queue, y <- queue :: SameCohort(d, x.id, y.id) ==> BaseOf(d, x) == BaseOf(d, y)
  }

  /** An action only adds entries of its own cohort, all based at its start, and finds none of them pending. */
  lemma FixedOrigin(d: Draft, stream: Stream, a: nat, parameters: Parameters, m: Machine, x: ScheduledEvent)
    requires a < |d.actions| && ApplyEffects(Compile(d), stream, parameters, d.actions[a].effects, m).Ok?
    requires x in ApplyEffects(Compile(d), stream, parameters, d.actions[a].effects, m).value.state.world.queue
    requires FixedOf(d, x.id).Some?
    ensures FixedOf(d, x.id).value.0 != a ==> x in m.state.world.queue
    ensures FixedOf(d, x.id).value.0 == a ==> BaseOf(d, x) == m.state.world.time
  {
    var c := Compile(d);
    var effects := d.actions[a].effects;
    var j := FixedIsSole(d, x.id);
    ProgramQueue(c, stream, parameters, effects, m, x);
    if FixedOf(d, x.id).value.0 == a {
      ScheduledFresh(c, stream, parameters, effects, m, j);
      assert x !in m.state.world.queue;
      ProgramTimes(c, stream, parameters, effects, m, x);
      var i: nat :| PlacedBy(c, effects, m.state.world.time, i, x);
      assert Processed(d, |d.actions|, 0, a, i);
    } else if MentionedIn(effects, x.id) {
      MentionIsOwn(d, a, x.id);
    }
  }

  /** Only the action a fixed offset belongs to mentions the template. */
  lemma MentionIsOwn(d: Draft, a: nat, id: Id)
    requires a < |d.actions| && FixedOf(d, id).Some? && MentionedIn(d.actions[a].effects, id)
    ensures FixedOf(d, id).value.0 == a
  {
    var j := FixedIsSole(d, id);
    var i: nat :| i < |d.actions[a].effects| && Mentions(d.actions[a].effects[i], id);
    assert Processed(d, |d.actions|, 0, a, i);
  }

  lemma ActionKeepsAligned(d: Draft, stream: Stream, a: nat, parameters: Parameters, m: Machine)
    requires a < |d.actions| && ApplyEffects(Compile(d), stream, parameters, d.actions[a].effects, m).Ok?
    requires Aligned(d, m.state.world.queue)
    ensures Aligned(d, ApplyEffects(Compile(d), stream, parameters, d.actions[a].effects, m).value.state.world.queue)
  {
    var after := ApplyEffects(Compile(d), stream, parameters, d.actions[a].effects, m).value.state.world.queue;
    forall x, y | x in after && y in after && SameCohort(d, x.id, y.id) ensures BaseOf(d, x) == BaseOf(d, y) {
      FixedOrigin(d, stream, a, parameters, m, x);
      FixedOrigin(d, stream, a, parameters, m, y);
    }
  }

  lemma ActionIndex(d: Draft, action: Id) returns (a: nat)
    requires action in Compile(d).actions
    ensures a < |d.actions| && d.actions[a] == Compile(d).actions[action]
  {
    TableEntries(d.actions, ActionKey);
    a :| 0 <= a < |d.actions| && d.actions[a] == Compile(d).actions[action];
  }

  lemma FixedIsTemplate(d: Draft, id: Id)
    ensures FixedOf(d, id).Some? ==> id in TemplatesOf(d)
  {
    if FixedOf(d, id).Some? {
      var j := FixedIsSole(d, id);
    }
  }

  lemma StartAligned(d: Draft, s: GameState)
    requires StructureValid(d) && AuthoredStart(Compile(d), s)
    ensures Aligned(d, s.world.queue)
  {
    CompiledEvents(d);
    SortedQueueRepresents(AbsoluteEvents(Compile(d)));
    forall x | x in s.world.queue ensures FixedOf(d, x.id).None? {
      FixedIsTemplate(d, x.id);
    }
  }

  lemma AlignedSubset(d: Draft, queue: seq<ScheduledEvent>, part: seq<ScheduledEvent>)
    requires Aligned(d, queue) && forall x <- part :: x in queue
    ensures Aligned(d, part)
  {
    hide FixedOf, BaseOf;
  }

  // ---- What a step resolves ----

  /** The machine once the action's own effects are done. */
  function Acted(c: Compiled, stream: Stream, s: GameState, action: Id, parameters: Parameters): Outcome
    requires action in c.actions
  {
    ApplyEffects(c, stream, parameters, c.actions[action].effects, Effects.Start(s))
  }

  lemma ActedInStep(d: Draft, stream: Stream, s: GameState, action: Id, parameters: Parameters)
    requires StructureValid(d) && Admitted(Compile(d), s)
    requires Step(Compile(d), stream, s, action, parameters).Ok?
    ensures var acted := Acted(Compile(d), stream, s, action, parameters);
            acted.Ok? && InStep(Compile(d), [], acted.value) && acted.value.state.log == s.log
  {
    var c := Compile(d);
    CompiledEvents(d);
    var m := Effects.Start(s);
    assert Timeline.Ledger(m) == s.log && [] + s.world.queue == s.world.queue;
    EffectsKeepStep(c, stream, parameters, c.actions[action].effects, m);
  }

  lemma ActedAligned(d: Draft, stream: Stream, s: GameState, action: Id, parameters: Parameters)
    requires Step(Compile(d), stream, s, action, parameters).Ok? && Aligned(d, s.world.queue)
    ensures Aligned(d, Acted(Compile(d), stream, s, action, parameters).value.state.world.queue)
  {
    var a := ActionIndex(d, action);
    ActionKeepsAligned(d, stream, a, parameters, Effects.Start(s));
  }

  lemma StepQueue(d: Draft, stream: Stream, s: GameState, action: Id, parameters: Parameters)
    requires StructureValid(d) && Admitted(Compile(d), s)
    requires Step(Compile(d), stream, s, action, parameters).Ok?
    ensures action in Compile(d).actions && Acted(Compile(d), stream, s, action, parameters).Ok?
    ensures Step(Compile(d), stream, s, action, parameters).value.state.world.queue
         == WithoutDue(Acted(Compile(d), stream, s, action, parameters).value).state.world.queue
  {
    CompiledEvents(d);
    ActedInStep(d, stream, s, action, parameters);
    ResolveDueKeepsStep(Compile(d), stream, Acted(Compile(d), stream, s, action, parameters).value);
  }

  /** Alignment survives a step: what it leaves pending was pending after its action. */
  lemma StepAligned(d: Draft, stream: Stream, s: GameState, action: Id, parameters: Parameters)
    requires StructureValid(d) && Admitted(Compile(d), s) && Aligned(d, s.world.queue)
    requires Step(Compile(d), stream, s, action, parameters).Ok?
    ensures Aligned(d, Step(Compile(d), stream, s, action, parameters).value.state.world.queue)
  {
    hide Step, StructureValid, Admitted, FixedOf, ApplyEffects;
    ActedAligned(d, stream, s, action, parameters);
    StepQueue(d, stream, s, action, parameters);
    var acted := Acted(Compile(d), stream, s, action, parameters).value;
    AlignedSubset(d, acted.state.world.queue, WithoutDue(acted).state.world.queue);
  }

  /** The entries a step resolves: distinct, aligned, and due within the time the step takes. */
  ghost predicate ResolvesTogether(d: Draft, start: u64, ticks: nat, due: seq<ScheduledEvent>) {
    && DistinctEntries(due) && Aligned(d, due)
    && forall e <- due :: start < e.due <= start + ticks
  }

  lemma DueDistinct(c: Compiled, m: Machine)
    requires InStep(c, [], m)
    ensures DistinctEntries(DueNow(m)) && forall e <- DueNow(m) :: e in m.state.world.queue && e.due <= m.state.world.time
  {
    assert [] + m.state.world.queue == m.state.world.queue;
    QueueInvariant(c, Timeline.Ledger(m));
    TakingDueKeepsStep(c, m);
  }

  lemma DueTogether(d: Draft, stream: Stream, s: GameState, action: Id, parameters: Parameters, ticks: nat)
    requires StructureValid(d) && Admitted(Compile(d), s) && Aligned(d, s.world.queue)
    requires Step(Compile(d), stream, s, action, parameters).Ok?
    requires TimeCost.ActionCost(Compile(d).actions[action].effects).Some?
    requires TimeCost.ActionCost(Compile(d).actions[action].effects).value.maximum <= ticks
    ensures Acted(Compile(d), stream, s, action, parameters).Ok?
    ensures ResolvesTogether(d, s.world.time, ticks, DueNow(Acted(Compile(d), stream, s, action, parameters).value))
  {
    var c := Compile(d);
    ActedInStep(d, stream, s, action, parameters);
    ActedAligned(d, stream, s, action, parameters);
    var acted := Acted(c, stream, s, action, parameters).value;
    DueDistinct(c, acted);
    AlignedSubset(d, acted.state.world.queue, DueNow(acted));
    TimeCost.ActionTakes(c, stream, parameters, c.actions[action].effects, Effects.Start(s));
    forall e | e in DueNow(acted) ensures s.world.time < e.due {
      DueAfterStart(d, stream, parameters, c.actions[action].effects, Effects.Start(s), e);
    }
  }

  /** Delays are positive, so nothing falls due at or before the moment it is scheduled. */
  lemma {:induction false} DueAfterStart(
    d: Draft, stream: Stream, parameters: Parameters, effects: seq<Effect>, m: Machine, e: ScheduledEvent)
    requires StructureValid(d) && forall x <- m.state.world.queue :: x.due > m.state.world.time
    requires ApplyEffects(Compile(d), stream, parameters, effects, m).Ok?
    requires e in ApplyEffects(Compile(d), stream, parameters, effects, m).value.state.world.queue
    ensures e.due > m.state.world.time
    decreases |effects|
  {
    if effects != [] {
      var c := Compile(d);
      var front, last := effects[..|effects| - 1], effects[|effects| - 1];
      TimeCost.LastEffect(c, stream, parameters, effects, m);
      var middle := ApplyEffects(c, stream, parameters, front, m).value;
      if e in middle.state.world.queue {
        DueAfterStart(d, stream, parameters, front, m, e);
      } else {
        TimeForward(c, stream, parameters, front, m);
        CompiledEvents(d);
        EffectDueAfter(c, stream, parameters, last, middle, e);
      }
    }
  }

  lemma {:induction false} TimeForward(
    c: Compiled, stream: Stream, parameters: Parameters, effects: seq<Effect>, m: Machine)
    requires ApplyEffects(c, stream, parameters, effects, m).Ok?
    ensures ApplyEffects(c, stream, parameters, effects, m).value.state.world.time >= m.state.world.time
    decreases |effects|
  {
    if effects != [] {
      TimeCost.EffectTakes(c, stream, parameters, effects[0], m);
      TimeForward(c, stream, parameters, effects[1..], ApplyEffect(c, stream, parameters, effects[0], m).value);
    }
  }

  lemma {:induction false} EffectDueAfter(
    c: Compiled, stream: Stream, parameters: Parameters, e: Effect, m: Machine, x: ScheduledEvent)
    requires forall id <- c.deferredEvents :: c.deferredEvents[id].delay > 0
    requires ApplyEffect(c, stream, parameters, e, m).Ok?
    requires x in ApplyEffect(c, stream, parameters, e, m).value.state.world.queue && x !in m.state.world.queue
    ensures x.due > m.state.world.time
    decreases e
  {
    if e.RandomChance? {
      var drawn := Chance(stream, e.percent, m).value;
      EffectDueAfter(c, stream, parameters, if drawn.1 then e.onSuccess else e.onFailure, drawn.0, x);
    } else if e.ScheduleEvent? {
      var due := m.state.world.time + c.deferredEvents[e.event].delay;
      EnqueueMembers(m.state.world.queue, ScheduledEvent(e.event, due, c.deferredEvents[e.event].kind), x);
    } else {
      PlainQueue(c, parameters, e, m);
    }
  }
}
