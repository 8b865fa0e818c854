// What the scheduler validator accepts, said of the ledger itself: no queue is run, no table is rebuilt.
module ScheduleLaws {
  import opened Basics
  import opened Model
  import opened Content
  import opened Effects
  import opened Kernel
  import opened Schedule

  // ---- Placed, resolved, open ----

  /** The entry was authored as an absolute event, or a record schedules it. */
  predicate Placed(c: Compiled, log: seq<Event>, e: ScheduledEvent) {
    || (e.id in c.timedEvents && e.due == c.timedEvents[e.id].due && e.kind == c.timedEvents[e.id].kind)
    || exists r <- log :: r.kind == EventKind.Scheduled(e.id, e.kind, e.due)
  }

  predicate ScheduledIn(log: seq<Event>, id: Id) {
    exists r <- log :: r.kind.Scheduled? && r.kind.event == id
  }

  predicate ResolvedIn(log: seq<Event>, id: Id) {
    exists r <- log :: r.kind.Resolved? && r.kind.event == id
  }

  /** Placed and not yet resolved. */
  predicate Open(c: Compiled, log: seq<Event>, e: ScheduledEvent) {
    Placed(c, log, e) && !ResolvedIn(log, e.id)
  }

  predicate NotAfter(log: seq<Event>, turn: u64) {
    forall r <- log :: IsSchedulerRecord(r) ==> r.turn <= turn
  }

  // ---- Lawful records ----

  /** A template is scheduled at most once, never under the id of an absolute event, at exactly its delay. */
  predicate LawfulSchedule(c: Compiled, log: seq<Event>, turn: u64, id: Id, kind: Id, due: u64) {
    && id in c.deferredEvents && id !in c.timedEvents && !ScheduledIn(log, id)
    && kind == c.deferredEvents[id].kind && due == turn + c.deferredEvents[id].delay
  }

  /** An entry is resolved when it is open, due, and before every other open entry by due time and id. */
  ghost predicate LawfulResolution(c: Compiled, log: seq<Event>, turn: u64, id: Id, kind: Id) {
    exists e: ScheduledEvent :: e.id == id && e.kind == kind && e.due <= turn && Earliest(c, log, e)
  }

  ghost predicate Earliest(c: Compiled, log: seq<Event>, e: ScheduledEvent) {
    Open(c, log, e) && forall x: ScheduledEvent :: Open(c, log, x) ==> x == e || Before(e, x)
  }

  /** What a record may say behind the records before it. */
  ghost predicate LawfulNext(c: Compiled, log: seq<Event>, r: Event) {
    && (IsSchedulerRecord(r) ==> NotAfter(log, r.turn))
    && match r.kind
       case Scheduled(id, kind, due) => LawfulSchedule(c, log, r.turn, id, kind, due)
       case Resolved(id, kind, _) => LawfulResolution(c, log, r.turn, id, kind)
       case _ => true
  }

  ghost predicate LawfulLog(c: Compiled, log: seq<Event>) {
    forall n :: 0 <= n < |log| ==> LawfulNext(c, log[..n], log[n])
  }

  // ---- The queue machine runs exactly on lawful ledgers ----

  /** What the machine knows, in terms of the ledger. */
  ghost predicate Reads(c: Compiled, log: seq<Event>, q: QueueState) {
    && Sorted(q.queue)
    && (forall e: ScheduledEvent :: e in q.queue <==> Open(c, log, e))
    && (forall id: Id :: id in q.used <==> id in c.timedEvents || ScheduledIn(log, id))
    && (forall id: Id :: ResolvedIn(log, id) ==> id in q.used)
    && (forall turn: u64 :: q.turn <= turn <==> NotAfter(log, turn))
  }

  lemma InitialReads(c: Compiled)
    ensures Reads(c, [], InitialQueue(c))
  {
    hide SortedQueue, Sorted, Open, AbsoluteEvents;
    AuthoredFirst(c);
  }

  lemma AuthoredFirst(c: Compiled)
    ensures Sorted(SortedQueue(AbsoluteEvents(c)))
    ensures forall e: ScheduledEvent :: e in SortedQueue(AbsoluteEvents(c)) <==> Open(c, [], e)
  {
    hide SortedQueue, Sorted;
    var pending := AbsoluteEvents(c);
    SortedQueueRepresents(pending);
    forall e: ScheduledEvent ensures Open(c, [], e) <==> e.id in pending && pending[e.id] == e {
    }
  }

  lemma OneMoreRecord(log: seq<Event>, r: Event)
    ensures forall id: Id :: ScheduledIn(log + [r], id) <==> ScheduledIn(log, id) || (r.kind.Scheduled? && r.kind.event == id)
    ensures forall id: Id :: ResolvedIn(log + [r], id) <==> ResolvedIn(log, id) || (r.kind.Resolved? && r.kind.event == id)
    ensures forall turn: u64 :: NotAfter(log + [r], turn) <==> NotAfter(log, turn) && (IsSchedulerRecord(r) ==> r.turn <= turn)
  {
    assert forall x :: x in log + [r] <==> x in log || x == r;
  }

  lemma OneMorePlaced(c: Compiled, log: seq<Event>, r: Event)
    ensures forall e: ScheduledEvent :: Placed(c, log + [r], e) <==>
      Placed(c, log, e) || r.kind == EventKind.Scheduled(e.id, e.kind, e.due)
  {
    assert forall x :: x in log + [r] <==> x in log || x == r;
  }

  lemma ScheduleReads(c: Compiled, log: seq<Event>, q: QueueState, r: Event)
    requires Reads(c, log, q) && r.kind.Scheduled?
    ensures Advance(c, q, r).Some? <==> LawfulNext(c, log, r)
    ensures Advance(c, q, r).Some? ==> Reads(c, log + [r], Advance(c, q, r).value)
  {
    hide ScheduledIn, ResolvedIn, Placed, NotAfter, Sorted, Enqueue;
    OneMoreRecord(log, r);
    OneMorePlaced(c, log, r);
    if Advance(c, q, r).Some? {
      var entry := ScheduledEvent(r.kind.event, r.kind.due, r.kind.eventKind);
      NotPending(c, log, q, entry.id);
      EnqueueSorted(q.queue, entry);
    }
  }

  /** An id nobody used is not pending. */
  lemma NotPending(c: Compiled, log: seq<Event>, q: QueueState, id: Id)
    requires Reads(c, log, q) && id !in q.used
    ensures !Pending(q.queue, id)
  {
    forall e | e in q.queue ensures e.id in q.used {
      assert Open(c, log, e);
    }
  }

  lemma FirstIsEarliest(c: Compiled, log: seq<Event>, q: QueueState)
    requires Reads(c, log, q) && q.queue != []
    ensures Earliest(c, log, q.queue[0])
  {
    hide Open;
    var head := q.queue[0];
    assert head in q.queue;
    forall x: ScheduledEvent | Open(c, log, x) ensures x == head || Before(head, x) {
      assert x in q.queue;
    }
  }

  lemma EarliestIsFirst(c: Compiled, log: seq<Event>, q: QueueState, e: ScheduledEvent)
    requires Reads(c, log, q) && Earliest(c, log, e)
    ensures q.queue != [] && q.queue[0] == e
  {
    hide Open;
    assert e in q.queue;
    FirstIsEarliest(c, log, q);
    var head := q.queue[0];
    assert head in q.queue;
    if head != e {
      BeforeTransitive(e, head, e);
      BeforeIrreflexive(e);
    }
  }

  lemma ResolutionReads(c: Compiled, log: seq<Event>, q: QueueState, r: Event)
    requires Reads(c, log, q) && DistinctEntries(q.queue) && r.kind.Resolved?
    ensures Advance(c, q, r).Some? <==> LawfulNext(c, log, r)
    ensures Advance(c, q, r).Some? ==> Reads(c, log + [r], Advance(c, q, r).value)
  {
    hide ScheduledIn, ResolvedIn, Placed, NotAfter, Earliest;
    if LawfulResolution(c, log, r.turn, r.kind.event, r.kind.eventKind) {
      var e: ScheduledEvent :| e.id == r.kind.event && e.kind == r.kind.eventKind && e.due <= r.turn && Earliest(c, log, e);
      EarliestIsFirst(c, log, q, e);
    }
    if Advance(c, q, r).Some? {
      FirstIsEarliest(c, log, q);
      OneMoreRecord(log, r);
      OneMorePlaced(c, log, r);
      TailReads(c, log, q, r);
    }
  }

  lemma TailReads(c: Compiled, log: seq<Event>, q: QueueState, r: Event)
    requires Reads(c, log, q) && DistinctEntries(q.queue) && q.queue != []
    requires r.kind.Resolved? && r.kind.event == q.queue[0].id
    ensures Sorted(q.queue[1..])
    ensures forall e: ScheduledEvent :: e in q.queue[1..] <==> Open(c, log + [r], e)
    ensures q.queue[0].id in q.used
  {
    hide Placed, ScheduledIn, ResolvedIn, NotAfter;
    OneMoreRecord(log, r);
    OneMorePlaced(c, log, r);
    var head := q.queue[0];
    assert q.queue == [head] + q.queue[1..];
    forall e: ScheduledEvent ensures e in q.queue[1..] <==> e in q.queue && e.id != head.id {
      if e in q.queue[1..] {
        var k :| 0 <= k < |q.queue[1..]| && q.queue[1..][k] == e;
        assert q.queue[k + 1] == e;
      }
    }
    assert Open(c, log, head);
    OpenIsUsed(c, log, q, head);
  }

  lemma OpenIsUsed(c: Compiled, log: seq<Event>, q: QueueState, e: ScheduledEvent)
    requires Reads(c, log, q) && Open(c, log, e)
    ensures e.id in q.used
  {
  }

  lemma {:induction false} RunReads(c: Compiled, log: seq<Event>)
    ensures RunQueue(c, log).Some? <==> LawfulLog(c, log)
    ensures RunQueue(c, log).Some? ==> Reads(c, log, RunQueue(c, log).value)
    decreases |log|
  {
    hide Advance, LawfulNext, Reads, InitialQueue;
    if log == [] {
      InitialReads(c);
    } else {
      var front, r := log[..|log| - 1], log[|log| - 1];
      RunReads(c, front);
      LawfulSplits(c, log);
      assert log == front + [r];
      if RunQueue(c, front).Some? {
        QueueInvariant(c, front);
        NextReads(c, front, RunQueue(c, front).value, r);
      }
    }
  }

  lemma LawfulSplits(c: Compiled, log: seq<Event>)
    requires log != []
    ensures LawfulLog(c, log) <==> LawfulLog(c, log[..|log| - 1]) && LawfulNext(c, log[..|log| - 1], log[|log| - 1])
  {
    hide LawfulNext;
    var front := log[..|log| - 1];
    forall n | 0 <= n < |front| ensures front[..n] == log[..n] && front[n] == log[n] {
    }
  }

  lemma NextReads(c: Compiled, log: seq<Event>, q: QueueState, r: Event)
    requires Reads(c, log, q) && DistinctEntries(q.queue)
    ensures Advance(c, q, r).Some? <==> LawfulNext(c, log, r)
    ensures Advance(c, q, r).Some? ==> Reads(c, log + [r], Advance(c, q, r).value)
  {
    match r.kind
    case Scheduled(_, _, _) => ScheduleReads(c, log, q, r);
    case Resolved(_, _, _) => ResolutionReads(c, log, q, r);
    case _ =>
      hide ScheduledIn, ResolvedIn, Placed, NotAfter;
      OneMoreRecord(log, r);
      OneMorePlaced(c, log, r);
  }

  // ---- Admission, said of the ledger ----

  /** The stored queue holds exactly the open entries in (due, id) order, all in the future; no record is. */
  ghost predicate LawfulState(c: Compiled, s: GameState) {
    && LawfulLog(c, s.log) && NotAfter(s.log, s.world.time)
    && Sorted(s.world.queue)
    && (forall e: ScheduledEvent :: e in s.world.queue <==> Open(c, s.log, e))
    && forall e <- s.world.queue :: e.due > s.world.time
  }

  /** The validator accepts exactly the lawful states. */
  lemma AdmittedExactly(c: Compiled, s: GameState)
    ensures Admitted(c, s) <==> LawfulState(c, s)
  {
    hide LawfulLog, Sorted, NotAfter, Open;
    RunReads(c, s.log);
    if LawfulState(c, s) {
      SortedUnique(RunQueue(c, s.log).value.queue, s.world.queue);
    }
  }

  /** Every Scheduled record of an admitted ledger names a template, its kind, and its delay after the record's turn. */
  lemma ScheduledRecordsAreTemplates(c: Compiled, s: GameState, r: Event)
    requires Admitted(c, s) && r in s.log && r.kind.Scheduled?
    ensures r.kind.event in c.deferredEvents && r.kind.event !in c.timedEvents
    ensures r.kind.eventKind == c.deferredEvents[r.kind.event].kind
    ensures r.kind.due == r.turn + c.deferredEvents[r.kind.event].delay && r.turn <= s.world.time
  {
    AdmittedExactly(c, s);
    var n :| 0 <= n < |s.log| && s.log[n] == r;
    assert LawfulNext(c, s.log[..n], s.log[n]);
  }

  /** Every Resolved record of an admitted ledger comes no earlier than the due time its id was placed at. */
  lemma ResolvedRecordsAreDue(c: Compiled, s: GameState, r: Event) returns (e: ScheduledEvent)
    requires Admitted(c, s) && r in s.log && r.kind.Resolved?
    ensures Placed(c, s.log, e) && e.id == r.kind.event && e.kind == r.kind.eventKind && e.due <= r.turn <= s.world.time
  {
    AdmittedExactly(c, s);
    var n :| 0 <= n < |s.log| && s.log[n] == r;
    assert LawfulNext(c, s.log[..n], s.log[n]);
    e :| e.id == r.kind.event && e.kind == r.kind.eventKind && e.due <= r.turn && Earliest(c, s.log[..n], e);
    assert forall x <- s.log[..n] :: x in s.log;
  }
}
