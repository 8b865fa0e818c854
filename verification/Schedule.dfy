// The one-shot event queue and the admission of a scheduler ledger (validate_event_schedule).
module Schedule {
  import opened Basics
  import opened Model
  import opened Content
  import opened Effects
  import opened Kernel

  // ---- Queues in (due, id) order ----

  predicate Sorted(queue: seq<ScheduledEvent>) {
    forall i, j :: 0 <= i < j < |queue| ==> Before(queue[i], queue[j])
  }

  lemma BeforeTransitive(a: ScheduledEvent, b: ScheduledEvent, c: ScheduledEvent)
    requires Before(a, b) && Before(b, c)
    ensures Before(a, c)
  {
    if a.due == b.due == c.due {
      LessTransitive(a.id, b.id, c.id);
    }
  }

  lemma BeforeTotal(a: ScheduledEvent, b: ScheduledEvent)
    requires a.id != b.id
    ensures Before(a, b) <==> !Before(b, a)
  {
    LessTotal(a.id, b.id);
    if Less(a.id, b.id) {
      LessAsymmetric(a.id, b.id);
    }
  }

  lemma BeforeIrreflexive(a: ScheduledEvent)
    ensures !Before(a, a)
  {
    LessIrreflexive(a.id);
  }

  /** Insertion keeps the order and adds exactly the new entry. */
  lemma {:induction false} EnqueueSorted(queue: seq<ScheduledEvent>, e: ScheduledEvent)
    requires Sorted(queue) && !Pending(queue, e.id)
    ensures Sorted(Enqueue(queue, e))
    ensures forall x :: x in Enqueue(queue, e) <==> x in queue || x == e
    decreases |queue|
  {
    var n := |queue| - 1;
    if queue != [] && Before(e, queue[n]) {
      var front, last := queue[..n], queue[n];
      EnqueueSorted(front, e);
      var inserted := Enqueue(front, e);
      assert queue == front + [last];
      forall x | x in inserted ensures Before(x, last) {
        if x != e {
          var i :| 0 <= i < n && queue[i] == x;
        }
      }
      assert forall i :: 0 <= i < |inserted| ==> inserted[i] in inserted;
    } else if queue != [] {
      forall i | 0 <= i <= n ensures Before(queue[i], e) {
        assert queue[i] in queue;
        BeforeTotal(e, queue[n]);
        if i < n {
          BeforeTransitive(queue[i], queue[n], e);
        }
      }
    }
  }

  /** A sorted queue is determined by its entries. */
  lemma {:induction false} SortedUnique(a: seq<ScheduledEvent>, b: seq<ScheduledEvent>)
    requires Sorted(a) && Sorted(b)
    requires forall x :: x in a <==> x in b
    ensures a == b
    decreases |a|
  {
    assert b != [] ==> b[0] in b;
    if a != [] {
      assert a[0] in b;
      assert b[0] in a;
      if a[0] != b[0] {
        BeforeTransitive(a[0], b[0], a[0]);
        BeforeIrreflexive(a[0]);
      }
      forall x ensures x in a[1..] <==> x in b[1..] {
        BeforeIrreflexive(a[0]);
        if x in a[1..] {
          assert x in a && Before(a[0], x);
        }
        if x in b[1..] {
          assert x in b && Before(b[0], x);
        }
      }
      SortedUnique(a[1..], b[1..]);
    }
  }

  /** A queue holds exactly the entries of a table keyed by their ids. */
  ghost predicate Represents(queue: seq<ScheduledEvent>, pending: map<Id, ScheduledEvent>) {
    && Sorted(queue)
    && (forall e <- queue :: e.id in pending && pending[e.id] == e)
    && (forall id <- pending :: pending[id] in queue && pending[id].id == id)
  }

  lemma {:induction false} EnqueueAllSorted(events: seq<ScheduledEvent>)
    requires forall i, j :: 0 <= i < j < |events| ==> events[i].id != events[j].id
    ensures Sorted(EnqueueAll(events))
    ensures forall x :: x in EnqueueAll(events) <==> x in events
    decreases |events|
  {
    if events != [] {
      var n := |events| - 1;
      EnqueueAllSorted(events[..n]);
      assert !Pending(EnqueueAll(events[..n]), events[n].id);
      EnqueueSorted(EnqueueAll(events[..n]), events[n]);
      assert events == events[..n] + [events[n]];
    }
  }

  lemma SortedQueueRepresents(pending: map<Id, ScheduledEvent>)
    requires forall id <- pending :: pending[id].id == id
    ensures Represents(SortedQueue(pending), pending)
  {
    var keys := SortedKeys(pending.Keys);
    var events := seq(|keys|, i requires 0 <= i < |keys| => pending[keys[i]]);
    forall i, j | 0 <= i < j < |keys| ensures events[i].id != events[j].id {
      LessIrreflexive(keys[i]);
    }
    EnqueueAllSorted(events);
    forall id | id in pending ensures pending[id] in events {
      var i :| 0 <= i < |keys| && keys[i] == id;
      assert events[i] == pending[id];
    }
  }

  lemma RepresentsUnique(queue: seq<ScheduledEvent>, pending: map<Id, ScheduledEvent>)
    requires Represents(queue, pending)
    ensures queue == SortedQueue(pending)
  {
    SortedQueueRepresents(pending);
    SortedUnique(queue, SortedQueue(pending));
  }

  /** Removing the first entry of the queue removes its id from the table. */
  lemma RepresentsTail(queue: seq<ScheduledEvent>, pending: map<Id, ScheduledEvent>)
    requires Represents(queue, pending) && queue != []
    ensures Represents(queue[1..], pending - {queue[0].id})
  {
    forall e | e in queue[1..] ensures e.id != queue[0].id {
      var i :| 1 <= i < |queue| && queue[i] == e;
      assert pending[e.id] == e && pending[queue[0].id] == queue[0];
      BeforeIrreflexive(e);
    }
  }

  lemma RepresentsInsert(queue: seq<ScheduledEvent>, pending: map<Id, ScheduledEvent>, e: ScheduledEvent)
    requires Represents(queue, pending) && e.id !in pending
    ensures Represents(Enqueue(queue, e), pending[e.id := e])
  {
    EnqueueSorted(queue, e);
  }

  // ---- The queue machine ----

  /** The pending queue, every id ever placed on it, and the turn of the last scheduler record. */
  datatype QueueState = QueueState(queue: seq<ScheduledEvent>, used: set<Id>, turn: u64)

  /** The authored absolute events are pending from the start. */
  function InitialQueue(c: Compiled): QueueState {
    QueueState(SortedQueue(AbsoluteEvents(c)), c.timedEvents.Keys, 0)
  }

  predicate IsSchedulerRecord(e: Event) {
    e.kind.Scheduled? || e.kind.Resolved?
  }

  /** A template enters once, at its delay after the turn; only the first due entry leaves. */
  function Advance(c: Compiled, q: QueueState, e: Event): Option<QueueState> {
    if !IsSchedulerRecord(e) then Some(q)
    else if e.turn < q.turn then None
    else
      match e.kind
      case Scheduled(id, kind, due) =>
        if && id in c.deferredEvents && id !in q.used
           && kind == c.deferredEvents[id].kind && due == e.turn + c.deferredEvents[id].delay
        then Some(QueueState(Enqueue(q.queue, ScheduledEvent(id, due, kind)), q.used + {id}, e.turn))
        else None
      case Resolved(id, kind, _) =>
        if q.queue != [] && q.queue[0].id == id && q.queue[0].kind == kind && q.queue[0].due <= e.turn
        then Some(QueueState(q.queue[1..], q.used, e.turn))
        else None
      case _ => Some(q)
  }

  function RunQueue(c: Compiled, log: seq<Event>): Option<QueueState> {
    if log == [] then Some(InitialQueue(c))
    else
      var earlier := RunQueue(c, log[..|log| - 1]);
      if earlier.None? then None else Advance(c, earlier.value, log[|log| - 1])
  }

  // ---- What a run of the queue means ----

  function Resolutions(log: seq<Event>, id: Id): nat {
    if log == [] then 0
    else
      var e := log[|log| - 1];
      Resolutions(log[..|log| - 1], id) + if e.kind.Resolved? && e.kind.event == id then 1 else 0
  }

  /** How often an id was placed on the queue: once by authoring, once by each Scheduled record. */
  function Placements(c: Compiled, log: seq<Event>, id: Id): nat {
    if log == [] then if id in c.timedEvents then 1 else 0
    else
      var e := log[|log| - 1];
      Placements(c, log[..|log| - 1], id) + if e.kind.Scheduled? && e.kind.event == id then 1 else 0
  }

  function PendingCount(queue: seq<ScheduledEvent>, id: Id): nat {
    if Pending(queue, id) then 1 else 0
  }

  predicate DistinctEntries(queue: seq<ScheduledEvent>) {
    forall i, j :: 0 <= i < j < |queue| ==> queue[i].id != queue[j].id
  }

  /** One step keeps the queue ordered, with distinct used ids, and never skips the earliest entry. */
  lemma {:induction false} QueueInvariant(c: Compiled, log: seq<Event>)
    requires RunQueue(c, log).Some?
    ensures var q := RunQueue(c, log).value;
            && Sorted(q.queue) && DistinctEntries(q.queue)
            && forall e <- q.queue :: e.id in q.used
    decreases |log|
  {
    if log == [] {
      var pending := AbsoluteEvents(c);
      SortedQueueRepresents(pending);
      RepresentsDistinct(SortedQueue(pending), pending);
    } else {
      var front, e := log[..|log| - 1], log[|log| - 1];
      QueueInvariant(c, front);
      var q := RunQueue(c, front).value;
      if e.kind.Scheduled? {
        var entry := ScheduledEvent(e.kind.event, e.kind.due, e.kind.eventKind);
        assert !Pending(q.queue, entry.id);
        EnqueueSorted(q.queue, entry);
        EnqueueDistinct(q.queue, entry);
      }
    }
  }

  lemma RepresentsDistinct(queue: seq<ScheduledEvent>, pending: map<Id, ScheduledEvent>)
    requires Represents(queue, pending)
    ensures DistinctEntries(queue)
  {
    forall i, j | 0 <= i < j < |queue| ensures queue[i].id != queue[j].id {
      assert queue[i] in queue && queue[j] in queue;
      BeforeIrreflexive(queue[i]);
    }
  }

  lemma EnqueueDistinct(queue: seq<ScheduledEvent>, e: ScheduledEvent)
    requires Sorted(queue) && DistinctEntries(queue) && !Pending(queue, e.id)
    ensures DistinctEntries(Enqueue(queue, e))
  {
    EnqueueSorted(queue, e);
    var grown := Enqueue(queue, e);
    forall i, j | 0 <= i < j < |grown| ensures grown[i].id != grown[j].id {
      BeforeIrreflexive(grown[i]);
      assert grown[i] in grown && grown[j] in grown;
    }
  }

  lemma EnqueueCount(queue: seq<ScheduledEvent>, e: ScheduledEvent, id: Id)
    requires Sorted(queue) && !Pending(queue, e.id)
    ensures PendingCount(Enqueue(queue, e), id) == PendingCount(queue, id) + if e.id == id then 1 else 0
  {
    EnqueueSorted(queue, e);
    assert e in Enqueue(queue, e);
  }

  lemma TailCount(queue: seq<ScheduledEvent>, id: Id)
    requires queue != [] && DistinctEntries(queue)
    ensures PendingCount(queue, id) == PendingCount(queue[1..], id) + if queue[0].id == id then 1 else 0
  {
    assert queue == [queue[0]] + queue[1..];
  }

  /** Conservation: every id placed on the queue is pending or resolved, never both and never twice. */
  lemma {:induction false} OneShotConservation(c: Compiled, log: seq<Event>, id: Id)
    requires RunQueue(c, log).Some?
    ensures var q := RunQueue(c, log).value;
            && Placements(c, log, id) == Resolutions(log, id) + PendingCount(q.queue, id)
            && Placements(c, log, id) == (if id in q.used then 1 else 0)
    decreases |log|
  {
    if log == [] {
      SortedQueueRepresents(AbsoluteEvents(c));
      assert id in c.timedEvents ==> AbsoluteEvents(c)[id] in SortedQueue(AbsoluteEvents(c));
    } else {
      var front, e := log[..|log| - 1], log[|log| - 1];
      OneShotConservation(c, front, id);
      QueueInvariant(c, front);
      var q := RunQueue(c, front).value;
      if e.kind.Scheduled? {
        EnqueueCount(q.queue, ScheduledEvent(e.kind.event, e.kind.due, e.kind.eventKind), id);
      } else if e.kind.Resolved? {
        TailCount(q.queue, id);
      }
    }
  }

  /** The scheduler records are a run of the queue that ends in the stored queue, with nothing overdue. */
  ghost predicate Admitted(c: Compiled, s: GameState) {
    var q := RunQueue(c, s.log);
    && q.Some?
    && q.value.queue == s.world.queue
    && q.value.turn <= s.world.time
    && forall e <- s.world.queue :: e.due > s.world.time
  }

  /** No extension of the log can be admitted at this time. */
  ghost predicate Rejected(c: Compiled, log: seq<Event>, time: u64) {
    var q := RunQueue(c, log);
    q.None? || q.value.turn > time
  }

  method FirstPending(pending: map<Id, ScheduledEvent>) returns (first: Option<ScheduledEvent>)
    requires forall id <- pending :: pending[id].id == id
    ensures first.None? <==> pending == map[]
    ensures first.Some? ==> first.value.id in pending && pending[first.value.id] == first.value
    ensures first.Some? ==> forall id <- pending :: id == first.value.id || Before(first.value, pending[id])
  {
    first := None;
    var keys := SortedKeys(pending.Keys);
    for i := 0 to |keys|
      invariant first.None? <==> i == 0
      invariant first.Some? ==> first.value.id in pending && pending[first.value.id] == first.value
      invariant first.Some? ==> first.value.id in keys[..i]
      invariant first.Some? ==> forall j :: 0 <= j < i ==> keys[j] == first.value.id || Before(first.value, pending[keys[j]])
    {
      var candidate := pending[keys[i]];
      if first.None? {
        first := Some(candidate);
      } else {
        ghost var kept := first.value;
        LessIrreflexive(kept.id);
        BeforeTotal(candidate, kept);
        if Before(candidate, first.value) {
          first := Some(candidate);
          forall j | 0 <= j < i ensures Before(candidate, pending[keys[j]]) {
            if keys[j] != kept.id {
              BeforeTransitive(candidate, kept, pending[keys[j]]);
            }
          }
        }
      }
    }
    forall id | first.Some? && id in pending ensures id == first.value.id || Before(first.value, pending[id]) {
      var j :| 0 <= j < |keys| && keys[j] == id;
    }
    if pending != map[] {
      var id :| id in pending;
      assert id in keys;
    }
  }

  /** The first pending entry by (due, id) is the head of the queue that represents the table. */
  lemma FirstIsHead(queue: seq<ScheduledEvent>, pending: map<Id, ScheduledEvent>, first: ScheduledEvent)
    requires Represents(queue, pending)
    requires first.id in pending && pending[first.id] == first
    requires forall id <- pending :: id == first.id || Before(first, pending[id])
    ensures queue != [] && queue[0] == first
  {
    assert first in queue;
    assert queue[0] in queue;
    if queue[0] != first {
      BeforeTransitive(first, queue[0], first);
      BeforeIrreflexive(first);
    }
  }

  /** What the validator has rebuilt after reading a prefix of the ledger. */
  datatype Ledger = Ledger(ok: bool, pending: map<Id, ScheduledEvent>, scheduledIds: set<Id>, previousTurn: u64)

  ghost predicate Tracks(c: Compiled, log: seq<Event>, time: u64, l: Ledger) {
    && (forall id <- l.pending :: l.pending[id].id == id)
    && (!l.ok ==> Rejected(c, log, time))
    && (l.ok ==>
          && !Rejected(c, log, time)
          && var q := RunQueue(c, log).value;
          && Represents(q.queue, l.pending)
          && l.pending.Keys <= l.scheduledIds == q.used
          && q.turn == l.previousTurn)
  }

  lemma RunQueueExtend(c: Compiled, log: seq<Event>, e: Event)
    ensures RunQueue(c, log + [e])
         == if RunQueue(c, log).None? then None else Advance(c, RunQueue(c, log).value, e)
  {
    assert (log + [e])[..|log|] == log;
  }

  method AdmitScheduled(c: Compiled, e: Event, l: Ledger, ghost log: seq<Event>, ghost time: u64) returns (next: Ledger)
    requires e.kind.Scheduled? && e.turn <= time
    requires Tracks(c, log, time, l)
    ensures l.previousTurn <= e.turn ==> Tracks(c, log + [e], time, next.(previousTurn := e.turn))
    ensures forall id <- next.pending :: next.pending[id].id == id
  {
    RunQueueExtend(c, log, e);
    hide RunQueue, Represents, Enqueue;
    next := l;
    var id, kind, due := e.kind.event, e.kind.eventKind, e.kind.due;
    if id !in c.deferredEvents {
      next := next.(ok := false);
      return;
    }
    var definition := c.deferredEvents[id];
    if kind != definition.kind || CheckedAdd64(e.turn, definition.delay) != Some(due) {
      next := next.(ok := false);
      return;
    }
    if id in l.scheduledIds {
      next := next.(ok := false);
      return;
    }
    var entry := ScheduledEvent(id, due, kind);
    next := next.(scheduledIds := l.scheduledIds + {id}, pending := l.pending[id := entry]);
    if l.ok {
      RepresentsInsert(RunQueue(c, log).value.queue, l.pending, entry);
    }
  }

  method AdmitResolved(c: Compiled, e: Event, l: Ledger, ghost log: seq<Event>, ghost time: u64) returns (next: Ledger)
    requires e.kind.Resolved? && e.turn <= time
    requires Tracks(c, log, time, l)
    ensures l.previousTurn <= e.turn ==> Tracks(c, log + [e], time, next.(previousTurn := e.turn))
    ensures forall id <- next.pending :: next.pending[id].id == id
  {
    RunQueueExtend(c, log, e);
    next := l;
    var id, kind := e.kind.event, e.kind.eventKind;
    ghost var queue := if l.ok then RunQueue(c, log).value.queue else [];
    if id !in l.pending {
      assert l.ok && queue != [] ==> queue[0] in queue;
      next := next.(ok := false);
      return;
    }
    var scheduled := l.pending[id];
    if kind != scheduled.kind || e.turn < scheduled.due {
      assert l.ok && queue != [] ==> queue[0] in queue;
      next := next.(ok := false);
      return;
    }
    var first := FirstPending(l.pending);
    if l.ok {
      FirstIsHead(queue, l.pending, first.value);
      RepresentsTail(queue, l.pending);
    }
    if first.Some? && first.value.id != id {
      next := next.(ok := false);
    }
    next := next.(pending := l.pending - {id});
  }

  lemma OutOfOrderRejected(c: Compiled, log: seq<Event>, e: Event, time: u64, l: Ledger)
    requires Tracks(c, log, time, l) && IsSchedulerRecord(e)
    requires e.turn < l.previousTurn || e.turn > time
    ensures Rejected(c, log + [e], time)
  {
    RunQueueExtend(c, log, e);
  }

  lemma TracksRejected(c: Compiled, log: seq<Event>, time: u64, l: Ledger)
    requires Rejected(c, log, time) && forall id <- l.pending :: l.pending[id].id == id
    ensures Tracks(c, log, time, l.(ok := false))
  {
  }

  method AdmitRecord(c: Compiled, e: Event, l: Ledger, ghost log: seq<Event>, time: u64) returns (next: Ledger)
    requires IsSchedulerRecord(e) && Tracks(c, log, time, l)
    ensures Tracks(c, log + [e], time, next)
  {
    var inOrder := e.turn >= l.previousTurn;
    if e.turn > time {
      next := l.(ok := false, previousTurn := e.turn);
      OutOfOrderRejected(c, log, e, time, l);
    } else {
      if e.kind.Scheduled? {
        next := AdmitScheduled(c, e, l, log, time);
      } else {
        next := AdmitResolved(c, e, l, log, time);
      }
      next := next.(previousTurn := e.turn);
      if !inOrder {
        next := next.(ok := false);
        OutOfOrderRejected(c, log, e, time, l);
        TracksRejected(c, log + [e], time, next);
      }
    }
  }

  method RebuildPending(c: Compiled, log: seq<Event>, time: u64) returns (l: Ledger)
    ensures Tracks(c, log, time, l)
  {
    var pending := AbsoluteEvents(c);
    SortedQueueRepresents(pending);
    l := Ledger(true, pending, pending.Keys, 0);
    for index := 0 to |log|
      invariant Tracks(c, log[..index], time, l)
    {
      assert log[..index + 1] == log[..index] + [log[index]];
      if IsSchedulerRecord(log[index]) {
        l := AdmitRecord(c, log[index], l, log[..index], time);
      } else {
        RunQueueExtend(c, log[..index], log[index]);
      }
    }
    assert log[..|log|] == log;
  }

  method NothingOverdue(pending: map<Id, ScheduledEvent>, time: u64) returns (ok: bool)
    ensures ok <==> forall id <- pending :: pending[id].due > time
  {
    ok := true;
    var keys := SortedKeys(pending.Keys);
    for i := 0 to |keys|
      invariant ok <==> forall j :: 0 <= j < i ==> pending[keys[j]].due > time
    {
      if pending[keys[i]].due <= time {
        ok := false;
      }
    }
    assert forall id <- pending :: id in keys;
  }

  lemma AdmittedFromLedger(c: Compiled, s: GameState, l: Ledger)
    requires Tracks(c, s.log, s.world.time, l)
    ensures Admitted(c, s) <==>
      && l.ok
      && (forall id <- l.pending :: l.pending[id].due > s.world.time)
      && s.world.queue == SortedQueue(l.pending)
  {
    if l.ok {
      var queue := RunQueue(c, s.log).value.queue;
      RepresentsUnique(queue, l.pending);
      assert forall id <- l.pending :: l.pending[id] in queue;
      assert forall e <- queue :: l.pending[e.id] == e;
    }
  }

  /** validate_event_schedule: rebuild the pending table from the ledger and compare. */
  method ValidateEventSchedule(c: Compiled, s: GameState) returns (ok: bool)
    ensures ok <==> Admitted(c, s)
  {
    var l := RebuildPending(c, s.log, s.world.time);
    var current := NothingOverdue(l.pending, s.world.time);
    ok := l.ok && current && s.world.queue == SortedQueue(l.pending);
    AdmittedFromLedger(c, s, l);
  }

  /** In an admitted state an event was resolved exactly when it was placed and is no longer pending, and once. */
  lemma AdmittedResolvesOnce(c: Compiled, s: GameState, id: Id)
    requires Admitted(c, s)
    ensures Resolutions(s.log, id) <= 1
    ensures Resolutions(s.log, id) == 1 <==> Placements(c, s.log, id) == 1 && !Pending(s.world.queue, id)
    ensures id in c.timedEvents && c.timedEvents[id].due <= s.world.time ==> Resolutions(s.log, id) == 1
  {
    OneShotConservation(c, s.log, id);
    if id in c.timedEvents {
      PlacedOnce(c, s.log, id);
      AbsoluteStays(c, s.log, id);
    }
  }

  lemma {:induction false} PlacedOnce(c: Compiled, log: seq<Event>, id: Id)
    requires id in c.timedEvents
    ensures Placements(c, log, id) >= 1
    decreases |log|
  {
    if log != [] {
      PlacedOnce(c, log[..|log| - 1], id);
    }
  }

  /** While an absolute event is pending, it is pending at its authored time. */
  lemma {:induction false} AbsoluteStays(c: Compiled, log: seq<Event>, id: Id)
    requires RunQueue(c, log).Some? && id in c.timedEvents
    ensures var q := RunQueue(c, log).value;
            && id in q.used && forall e <- q.queue :: e.id == id ==> e.due == c.timedEvents[id].due
    decreases |log|
  {
    if log == [] {
      SortedQueueRepresents(AbsoluteEvents(c));
    } else {
      AbsoluteStays(c, log[..|log| - 1], id);
      QueueInvariant(c, log[..|log| - 1]);
      var q, e := RunQueue(c, log[..|log| - 1]).value, log[|log| - 1];
      if e.kind.Scheduled? {
        var entry := ScheduledEvent(e.kind.event, e.kind.due, e.kind.eventKind);
        assert !Pending(q.queue, entry.id);
        EnqueueSorted(q.queue, entry);
      }
    }
  }
}
