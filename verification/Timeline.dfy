// Every run of the kernel keeps an admitted scheduler ledger (reducer.rs against validate_event_schedule).
module Timeline {
  import opened Basics
  import opened Model
  import opened Content
  import opened Effects
  import opened Kernel
  import opened Schedule
  import opened Validation

  // ---- What programs leave alone ----

  /** Events are only appended, and only the world, the character and the entropy cursor change. */
  lemma {:induction false} EventsGrow(c: Compiled, stream: Stream, parameters: Parameters, e: Effect, m: Machine)
    requires ApplyEffect(c, stream, parameters, e, m).Ok?
    ensures var after := ApplyEffect(c, stream, parameters, e, m).value;
            m.events <= after.events && after.state.log == m.state.log && after.state.start == m.state.start
    decreases e
  {
    if e.RandomChance? {
      var drawn := Chance(stream, e.percent, m).value;
      EventsGrow(c, stream, parameters, if drawn.1 then e.onSuccess else e.onFailure, drawn.0);
    }
  }

  /** A quiet program keeps the clock and the queue and writes no scheduler record. */
  lemma {:induction false} QuietEffect(c: Compiled, stream: Stream, parameters: Parameters, e: Effect, m: Machine)
    requires Quiet(e) && ApplyEffect(c, stream, parameters, e, m).Ok?
    ensures var after := ApplyEffect(c, stream, parameters, e, m).value;
            && after.state.world.time == m.state.world.time
            && after.state.world.queue == m.state.world.queue
            && m.events <= after.events
            && forall i :: |m.events| <= i < |after.events| ==> !IsSchedulerRecord(after.events[i])
    decreases e
  {
    if e.RandomChance? {
      var drawn := Chance(stream, e.percent, m).value;
      QuietEffect(c, stream, parameters, if drawn.1 then e.onSuccess else e.onFailure, drawn.0);
    }
  }

  lemma {:induction false} RunQueueQuiet(c: Compiled, log: seq<Event>, longer: seq<Event>)
    requires log <= longer && forall i :: |log| <= i < |longer| ==> !IsSchedulerRecord(longer[i])
    ensures RunQueue(c, longer) == RunQueue(c, log)
    decreases |longer|
  {
    if |log| < |longer| {
      RunQueueQuiet(c, log, longer[..|longer| - 1]);
    } else {
      assert log == longer;
    }
  }

  /** Every id the queue has used is authored as absolute or recorded in the ledger. */
  lemma {:induction false} UsedAreRecorded(c: Compiled, log: seq<Event>, id: Id)
    requires RunQueue(c, log).Some? && id in RunQueue(c, log).value.used
    ensures id in c.timedEvents || UsedIn(log, id)
    decreases |log|
  {
    if log != [] {
      var front, e := log[..|log| - 1], log[|log| - 1];
      if id in RunQueue(c, front).value.used {
        UsedAreRecorded(c, front, id);
        assert forall x <- front :: x in log;
      } else {
        assert e in log;
      }
    }
  }

  // ---- The ledger during a step ----

  function Ledger(m: Machine): seq<Event> {
    m.state.log + m.events
  }

  /** The staged ledger runs the queue to the due entries still to resolve, followed by the stored queue. */
  ghost predicate InStep(c: Compiled, due: seq<ScheduledEvent>, m: Machine) {
    var q := RunQueue(c, Ledger(m));
    q.Some? && q.value.queue == due + m.state.world.queue && q.value.turn <= m.state.world.time
  }

  ghost predicate DisjointEvents(c: Compiled) {
    c.timedEvents.Keys !! c.deferredEvents.Keys
  }

  lemma UnusedInLedger(m: Machine, event: Id)
    requires !AlreadyUsed(m, event)
    ensures !UsedIn(Ledger(m), event)
  {
    assert forall e <- Ledger(m) :: e in m.state.log || e in m.events;
  }

  lemma ScheduleKeepsStep(c: Compiled, event: Id, m: Machine)
    requires DisjointEvents(c) && InStep(c, [], m) && Effects.Schedule(c, m, event).Ok?
    ensures InStep(c, [], Effects.Schedule(c, m, event).value)
  {
    hide UsedIn, AlreadyUsed, Enqueue;
    var after := Effects.Schedule(c, m, event).value;
    var record := after.events[|m.events|];
    assert Ledger(after) == Ledger(m) + [record];
    RunQueueExtend(c, Ledger(m), record);
    var q := RunQueue(c, Ledger(m)).value;
    assert [] + m.state.world.queue == m.state.world.queue;
    UnusedInLedger(m, event);
    if event in q.used {
      UsedAreRecorded(c, Ledger(m), event);
    }
    assert [] + after.state.world.queue == after.state.world.queue;
  }

  lemma {:induction false} EffectKeepsStep(
    c: Compiled, stream: Stream, parameters: Parameters, e: Effect, m: Machine)
    requires DisjointEvents(c) && InStep(c, [], m) && ApplyEffect(c, stream, parameters, e, m).Ok?
    ensures InStep(c, [], ApplyEffect(c, stream, parameters, e, m).value)
    decreases e
  {
    hide DisjointEvents;
    var after := ApplyEffect(c, stream, parameters, e, m).value;
    match e
    case RandomChance(percent, onSuccess, onFailure) =>
      var drawn := Chance(stream, percent, m).value;
      RunQueueQuiet(c, Ledger(m), Ledger(drawn.0));
      EffectKeepsStep(c, stream, parameters, if drawn.1 then onSuccess else onFailure, drawn.0);
    case ScheduleEvent(event) =>
      ScheduleKeepsStep(c, event, m);
    case AdvanceTime(ticks) =>
      RunQueueQuiet(c, Ledger(m), Ledger(after));
    case TransferNpcItemToCharacter(_, _, _) =>
      RunQueueQuiet(c, Ledger(m), Ledger(after));
    case TransferStorageItemToCharacter(_, _, _) =>
      RunQueueQuiet(c, Ledger(m), Ledger(after));
    case TransferCharacterItemToStorage(_, _, _) =>
      RunQueueQuiet(c, Ledger(m), Ledger(after));
    case _ =>
      QuietEffect(c, stream, parameters, e, m);
      EventsGrow(c, stream, parameters, e, m);
      RunQueueQuiet(c, Ledger(m), Ledger(after));
  }

  lemma {:induction false} EffectsKeepStep(
    c: Compiled, stream: Stream, parameters: Parameters, effects: seq<Effect>, m: Machine)
    requires DisjointEvents(c) && InStep(c, [], m) && ApplyEffects(c, stream, parameters, effects, m).Ok?
    ensures var after := ApplyEffects(c, stream, parameters, effects, m).value;
            InStep(c, [], after) && after.state.log == m.state.log && after.state.start == m.state.start
    decreases |effects|
  {
    if effects != [] {
      EffectKeepsStep(c, stream, parameters, effects[0], m);
      EventsGrow(c, stream, parameters, effects[0], m);
      EffectsKeepStep(c, stream, parameters, effects[1..], ApplyEffect(c, stream, parameters, effects[0], m).value);
    }
  }

  // ---- Resolving what is due ----

  lemma {:induction false} QuietEffects(c: Compiled, stream: Stream, effects: seq<Effect>, m: Machine)
    requires (forall e <- effects :: Quiet(e)) && ApplyEffects(c, stream, map[], effects, m).Ok?
    ensures var after := ApplyEffects(c, stream, map[], effects, m).value;
            && after.state.world.time == m.state.world.time
            && after.state.world.queue == m.state.world.queue
            && after.state.log == m.state.log && after.state.start == m.state.start
            && m.events <= after.events
            && forall i :: |m.events| <= i < |after.events| ==> !IsSchedulerRecord(after.events[i])
    decreases |effects|
  {
    if effects != [] {
      QuietEffect(c, stream, map[], effects[0], m);
      EventsGrow(c, stream, map[], effects[0], m);
      QuietEffects(c, stream, effects[1..], ApplyEffect(c, stream, map[], effects[0], m).value);
    }
  }

  /** No event program moves the clock, schedules or transfers. */
  ghost predicate QuietEvents(c: Compiled) {
    && (forall id <- c.timedEvents :: forall e <- c.timedEvents[id].effects :: Quiet(e))
    && (forall id <- c.deferredEvents :: forall e <- c.deferredEvents[id].effects :: Quiet(e))
  }

  function Noted(c: Compiled, e: ScheduledEvent, m: Machine): Machine
    requires ProgramOf(c, e).Some?
  {
    EmitWorld(m, m.state.world, Resolved(e.id, e.kind, ProgramOf(c, e).value.condition.Holds(m.state)))
  }

  lemma NotedKeepsStep(c: Compiled, e: ScheduledEvent, rest: seq<ScheduledEvent>, m: Machine)
    requires e.due <= m.state.world.time && ProgramOf(c, e).Some? && InStep(c, [e] + rest, m)
    ensures InStep(c, rest, Noted(c, e, m))
  {
    var noted := Noted(c, e, m);
    var record := noted.events[|m.events|];
    assert Ledger(noted) == Ledger(m) + [record];
    RunQueueExtend(c, Ledger(m), record);
    var queue := RunQueue(c, Ledger(m)).value.queue;
    assert queue[0] == e && queue[1..] == rest + m.state.world.queue;
  }

  lemma ResolveOneKeepsStep(
    c: Compiled, stream: Stream, e: ScheduledEvent, rest: seq<ScheduledEvent>, m: Machine)
    requires QuietEvents(c) && e.due <= m.state.world.time
    requires InStep(c, [e] + rest, m) && ResolveOne(c, stream, e, m).Ok?
    ensures var after := ResolveOne(c, stream, e, m).value;
            && InStep(c, rest, after)
            && after.state.world.time == m.state.world.time
            && after.state.world.queue == m.state.world.queue
            && after.state.log == m.state.log && after.state.start == m.state.start
            && |m.events| < |after.events| && m.events <= after.events
            && after.events[|m.events|].kind == Resolved(e.id, e.kind, ProgramOf(c, e).value.condition.Holds(m.state))
            && forall i :: |m.events| < i < |after.events| ==> !IsSchedulerRecord(after.events[i])
  {
    var noted := Noted(c, e, m);
    NotedKeepsStep(c, e, rest, m);
    var program := ProgramOf(c, e).value;
    if program.condition.Holds(m.state) {
      QuietEffects(c, stream, program.effects, noted);
      RunQueueQuiet(c, Ledger(noted), Ledger(ResolveOne(c, stream, e, m).value));
    }
  }

  /** The due entries are resolved in queue order, once each. */
  lemma {:induction false} ResolveAllKeepsStep(c: Compiled, stream: Stream, due: seq<ScheduledEvent>, m: Machine)
    requires QuietEvents(c) && forall e <- due :: e.due <= m.state.world.time
    requires InStep(c, due, m) && ResolveAll(c, stream, due, m).Ok?
    ensures var after := ResolveAll(c, stream, due, m).value;
            && InStep(c, [], after)
            && after.state.world.time == m.state.world.time
            && after.state.world.queue == m.state.world.queue
            && after.state.log == m.state.log && after.state.start == m.state.start
            && m.events <= after.events
    decreases |due|
  {
    if due != [] {
      assert due == [due[0]] + due[1..];
      ResolveOneKeepsStep(c, stream, due[0], due[1..], m);
      ResolveAllKeepsStep(c, stream, due[1..], ResolveOne(c, stream, due[0], m).value);
    }
  }

  lemma {:induction false} DueCountSplits(queue: seq<ScheduledEvent>, time: u64)
    requires Sorted(queue)
    ensures forall e <- queue[..DueCount(queue, time)] :: e.due <= time
    ensures forall e <- queue[DueCount(queue, time)..] :: e.due > time
    decreases |queue|
  {
    if queue != [] {
      if queue[0].due > time {
        assert forall i :: 0 < i < |queue| ==> Before(queue[0], queue[i]);
      } else {
        DueCountSplits(queue[1..], time);
        var n := DueCount(queue[1..], time);
        assert queue[..n + 1] == [queue[0]] + queue[1..][..n];
        assert queue[n + 1..] == queue[1..][n..];
      }
    }
  }

  lemma TakingDueKeepsStep(c: Compiled, m: Machine)
    requires InStep(c, [], m)
    ensures InStep(c, DueNow(m), WithoutDue(m))
    ensures forall e <- DueNow(m) :: e.due <= m.state.world.time
    ensures forall e <- WithoutDue(m).state.world.queue :: e.due > m.state.world.time
  {
    var queue := m.state.world.queue;
    assert [] + queue == queue;
    QueueInvariant(c, Ledger(m));
    DueCountSplits(queue, m.state.world.time);
    assert DueNow(m) + WithoutDue(m).state.world.queue == queue;
  }

  lemma ResolveDueKeepsStep(c: Compiled, stream: Stream, m: Machine)
    requires QuietEvents(c) && InStep(c, [], m) && ResolveDue(c, stream, m).Ok?
    ensures var after := ResolveDue(c, stream, m).value;
            && InStep(c, [], after)
            && after.state.world.time == m.state.world.time
            && after.state.world.queue == WithoutDue(m).state.world.queue
            && after.state.log == m.state.log && after.state.start == m.state.start
            && forall e <- after.state.world.queue :: e.due > after.state.world.time
  {
    TakingDueKeepsStep(c, m);
    ResolveAllKeepsStep(c, stream, DueNow(m), WithoutDue(m));
  }

  // ---- Whole runs ----

  lemma StepAdmitted(c: Compiled, stream: Stream, s: GameState, action: Id, parameters: Parameters)
    requires DisjointEvents(c) && QuietEvents(c) && Admitted(c, s)
    requires Step(c, stream, s, action, parameters).Ok?
    ensures Admitted(c, Step(c, stream, s, action, parameters).value.state)
  {
    var m := Effects.Start(s);
    assert Ledger(m) == s.log && [] + s.world.queue == s.world.queue;
    var effects := c.actions[action].effects;
    EffectsKeepStep(c, stream, parameters, effects, m);
    var acted := ApplyEffects(c, stream, parameters, effects, m).value;
    ResolveDueKeepsStep(c, stream, acted);
    var settled := ResolveDue(c, stream, acted).value;
    assert [] + settled.state.world.queue == settled.state.world.queue;
  }

  ghost predicate FutureEvents(c: Compiled) {
    forall id <- c.timedEvents :: c.timedEvents[id].due > 0
  }

  lemma StartAdmitted(c: Compiled, s: GameState)
    requires FutureEvents(c) && AuthoredStart(c, s)
    ensures Admitted(c, s)
  {
    SortedQueueRepresents(AbsoluteEvents(c));
  }

  lemma {:induction false} PlayAdmitted(c: Compiled, stream: Stream, s: GameState, commands: seq<Command>)
    requires DisjointEvents(c) && QuietEvents(c) && Admitted(c, s)
    requires Play(c, stream, s, commands).Ok?
    ensures Admitted(c, Play(c, stream, s, commands).value)
    decreases |commands|
  {
    if commands != [] {
      var last := commands[|commands| - 1];
      PlayAdmitted(c, stream, s, commands[..|commands| - 1]);
      StepAdmitted(c, stream, Play(c, stream, s, commands[..|commands| - 1]).value, last.action, last.parameters);
    }
  }

  // ---- Compiled content inherits what the draft was checked for ----

  lemma CompiledEvents(d: Draft)
    requires StructureValid(d)
    ensures DisjointEvents(Compile(d)) && QuietEvents(Compile(d)) && FutureEvents(Compile(d))
    ensures forall id <- Compile(d).deferredEvents :: Compile(d).deferredEvents[id].delay > 0
  {
    TableEntries(d.timedEvents, TimedKey);
    TableEntries(d.deferredEvents, DeferredKey);
    var c := Compile(d);
    forall id, e | id in c.timedEvents && e in c.timedEvents[id].effects ensures Quiet(e) {
      assert c.timedEvents[id] in d.timedEvents;
      CheckedIsQuiet(d, e, 0);
    }
    forall id, e | id in c.deferredEvents && e in c.deferredEvents[id].effects ensures Quiet(e) {
      assert c.deferredEvents[id] in d.deferredEvents;
      CheckedIsQuiet(d, e, 0);
    }
  }

  /** The validator of scheduler ledgers accepts every state a canonical run reaches. */
  lemma ReachableAdmitted(d: Draft, stream: Stream, s: GameState)
    requires StructureValid(d) && Reachable(Compile(d), stream, s)
    ensures Admitted(Compile(d), s)
  {
    var c := Compile(d);
    CompiledEvents(d);
    var start, commands :| AuthoredStart(c, start) && Play(c, stream, start, commands) == Ok(s);
    StartAdmitted(c, start);
    PlayAdmitted(c, stream, start, commands);
  }
}
