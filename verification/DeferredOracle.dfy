// The scenario oracle for deferred events (crates/forge-verify/src/deferred_evidence.rs) against the kernel's ledger.
module DeferredOracle {
  import opened Basics
  import opened Model
  import opened Content
  import opened Schedule
  import Effects
  import Kernel
  import Text

  /** The one absolute event of the shipped content; the oracle leaves it to other predicates. */
  const ABSOLUTE_SURGE := "lowsail.next_surge"

  datatype Expectation =
    | ExpectScheduled(turn: u64, id: Id, kind: Id, due: u64)
    | ExpectResolved(turn: u64, id: Id, kind: Id, applied: bool)

  datatype Oracle = Oracle(used: set<Id>, queue: map<Id, ScheduledEvent>, lastTurn: u64)

  predicate First(queue: map<Id, ScheduledEvent>, id: Id) {
    id in queue && forall k <- queue :: k == id || Before(queue[id], queue[k])
  }

  predicate Chronological(e: Expectation, lastTurn: u64, end: Option<u64>) {
    && !Text.Blank(e.id) && e.id != ABSOLUTE_SURGE && !Text.Blank(e.kind)
    && lastTurn <= e.turn && (end.Some? ==> e.turn <= end.value)
  }

  /** One expectation: positive one-shot schedules; resolutions in (due, id) order, once due. */
  function Accept(o: Oracle, e: Expectation, end: Option<u64>): Option<Oracle> {
    if !Chronological(e, o.lastTurn, end) then None
    else
      match e
      case ExpectScheduled(turn, id, kind, due) =>
        if due <= turn || id in o.used then None
        else Some(Oracle(o.used + {id}, o.queue[id := ScheduledEvent(id, due, kind)], turn))
      case ExpectResolved(turn, id, kind, _) =>
        if First(o.queue, id) && o.queue[id].kind == kind && o.queue[id].due <= turn
        then Some(Oracle(o.used, o.queue - {id}, turn)) else None
  }

  const NOTHING := Oracle({}, map[], 0)

  function AcceptAll(events: seq<Expectation>, end: Option<u64>): Option<Oracle> {
    if events == [] then Some(NOTHING)
    else
      var earlier := AcceptAll(events[..|events| - 1], end);
      if earlier.None? then None else Accept(earlier.value, events[|events| - 1], end)
  }

  /** The history is accepted and leaves exactly the pending records, all in the future of the final time. */
  predicate Accepts(events: seq<Expectation>, pending: seq<ScheduledEvent>, end: Option<u64>) {
    var o := AcceptAll(events, end);
    && o.Some? && Kernel.SortedQueue(o.value.queue) == pending
    && (end.Some? ==> forall e <- pending :: e.due > end.value)
  }

  predicate OwnIds(queue: map<Id, ScheduledEvent>) {
    forall id <- queue :: queue[id].id == id
  }

  method AcceptOne(o: Oracle, e: Expectation, end: Option<u64>) returns (next: Option<Oracle>)
    requires OwnIds(o.queue)
    ensures next == Accept(o, e, end)
    ensures next.Some? ==> OwnIds(next.value.queue)
  {
    var used, queue := o.used, o.queue;
    match e {
      case ExpectScheduled(turn, id, kind, due) =>
        if due <= turn || id in used {
          return None;
        }
        used := used + {id};
        queue := queue[id := ScheduledEvent(id, due, kind)];
      case ExpectResolved(turn, id, kind, _) =>
        var first := FirstPending(queue);
        if first.None? {
          return None;
        }
        FirstIsUnique(queue, first.value.id, id);
        if first.value.id != id || first.value.kind != kind || first.value.due > turn {
          return None;
        }
        queue := queue - {id};
    }
    if !Chronological(e, o.lastTurn, end) {
      return None;
    }
    return Some(Oracle(used, queue, e.turn));
  }

  lemma FirstIsUnique(queue: map<Id, ScheduledEvent>, a: Id, b: Id)
    requires OwnIds(queue) && First(queue, a)
    ensures First(queue, b) <==> b == a
  {
    if First(queue, b) && a != b {
      BeforeTotal(queue[a], queue[b]);
    }
  }

  method AcceptEvery(events: seq<Expectation>, end: Option<u64>) returns (oracle: Option<Oracle>)
    ensures oracle == AcceptAll(events, end)
  {
    hide Accept;
    var o := NOTHING;
    for i := 0 to |events|
      invariant AcceptAll(events[..i], end) == Some(o) && OwnIds(o.queue)
    {
      assert events[..i + 1][..i] == events[..i];
      var next := AcceptOne(o, events[i], end);
      if next.None? {
        RefusedAll(events, end, i + 1);
        return None;
      }
      o := next.value;
    }
    assert events[..|events|] == events;
    return Some(o);
  }

  /** The unresolved records are the expected ones, none of them overdue. */
  method SameFuture(unresolved: seq<ScheduledEvent>, pending: seq<ScheduledEvent>, end: Option<u64>) returns (ok: bool)
    ensures ok <==> unresolved == pending && (end.Some? ==> forall e <- pending :: e.due > end.value)
  {
    if |unresolved| != |pending| {
      return false;
    }
    for i := 0 to |pending|
      invariant unresolved[..i] == pending[..i]
      invariant end.Some? ==> forall e <- pending[..i] :: e.due > end.value
    {
      assert pending[..i + 1] == pending[..i] + [pending[i]];
      assert unresolved[..i + 1] == unresolved[..i] + [unresolved[i]];
      if unresolved[i] != pending[i] || (end.Some? && unresolved[i].due <= end.value) {
        return false;
      }
    }
    assert pending[..|pending|] == pending && unresolved[..|unresolved|] == unresolved;
    return true;
  }

  /** validate_deferred_expectations. */
  method ValidateDeferredExpectations(events: seq<Expectation>, pending: seq<ScheduledEvent>, end: Option<u64>)
    returns (ok: bool)
    ensures ok <==> Accepts(events, pending, end)
  {
    hide AcceptAll, Kernel.SortedQueue;
    var o := AcceptEvery(events, end);
    if o.None? {
      return false;
    }
    ok := SameFuture(Kernel.SortedQueue(o.value.queue), pending, end);
  }

  lemma {:induction false} RefusedAll(events: seq<Expectation>, end: Option<u64>, n: nat)
    requires n <= |events| && AcceptAll(events[..n], end).None?
    ensures AcceptAll(events, end).None?
    decreases |events| - n
  {
    if n == |events| {
      assert events[..n] == events;
    } else {
      assert events[..n + 1][..n] == events[..n];
      RefusedAll(events, end, n + 1);
    }
  }

  // ---- The kernel's ledger, without the surge ----

  function Expected(e: Event): Option<Expectation> {
    match e.kind
    case Scheduled(id, kind, due) => Some(ExpectScheduled(e.turn, id, kind, due))
    case Resolved(id, kind, applied) =>
      if id == ABSOLUTE_SURGE then None else Some(ExpectResolved(e.turn, id, kind, applied))
    case _ => None
  }

  function History(log: seq<Event>): seq<Expectation> {
    if log == [] then []
    else
      var last := Expected(log[|log| - 1]);
      History(log[..|log| - 1]) + if last.Some? then [last.value] else []
  }

  function WithoutSurge(queue: seq<ScheduledEvent>): seq<ScheduledEvent> {
    if queue == [] then []
    else (if queue[0].id == ABSOLUTE_SURGE then [] else [queue[0]]) + WithoutSurge(queue[1..])
  }

  /** validate_deferred_history: the recorded history and queue, item by item. */
  method ValidateDeferredHistory(s: GameState, expected: seq<Expectation>, pending: seq<ScheduledEvent>) returns (ok: bool)
    ensures ok <==> History(s.log) == expected && WithoutSurge(s.world.queue) == pending
  {
    var actual: seq<Expectation> := [];
    for i := 0 to |s.log|
      invariant actual == History(s.log[..i])
    {
      assert s.log[..i + 1][..i] == s.log[..i];
      var e := Expected(s.log[i]);
      if e.Some? {
        actual := actual + [e.value];
      }
    }
    assert s.log[..|s.log|] == s.log;
    if |actual| != |expected| {
      return false;
    }
    for i := 0 to |expected|
      invariant forall j :: 0 <= j < i ==> actual[j] == expected[j]
    {
      if actual[i] != expected[i] {
        return false;
      }
    }
    var waiting := WithoutSurge(s.world.queue);
    if |waiting| != |pending| {
      return false;
    }
    for i := 0 to |pending|
      invariant forall j :: 0 <= j < i ==> waiting[j] == pending[j]
    {
      if waiting[i] != pending[i] {
        return false;
      }
    }
    return true;
  }

  // ---- Agreement ----

  /** The surge is the only absolute event, and every template is named and positively delayed. */
  ghost predicate SurgeOnly(c: Compiled) {
    && c.timedEvents.Keys == {ABSOLUTE_SURGE}
    && ABSOLUTE_SURGE !in c.deferredEvents
    && forall id <- c.deferredEvents ::
         !Text.Blank(id) && !Text.Blank(c.deferredEvents[id].kind) && c.deferredEvents[id].delay > 0
  }

  lemma {:induction false} WithoutSurgeMembers(queue: seq<ScheduledEvent>)
    requires Sorted(queue)
    ensures forall e :: e in WithoutSurge(queue) <==> e in queue && e.id != ABSOLUTE_SURGE
    ensures Sorted(WithoutSurge(queue))
    decreases |queue|
  {
    if queue != [] {
      var rest := queue[1..];
      WithoutSurgeMembers(rest);
      assert queue == [queue[0]] + rest;
      var kept := WithoutSurge(rest);
      forall j | 0 <= j < |kept| ensures Before(queue[0], kept[j]) {
        assert kept[j] in rest;
        var k :| 0 <= k < |rest| && rest[k] == kept[j];
        assert Before(queue[0], queue[k + 1]);
      }
    }
  }

  /** The oracle has followed the kernel's queue, less the surge. */
  ghost predicate Follows(q: QueueState, o: Oracle) {
    && o.used <= q.used && ABSOLUTE_SURGE !in o.used
    && (forall id <- q.used :: id in o.used || id == ABSOLUTE_SURGE)
    && OwnIds(o.queue)
    && (forall e <- q.queue :: e.id != ABSOLUTE_SURGE ==> e.id in o.queue && o.queue[e.id] == e)
    && (forall id <- o.queue :: o.queue[id] in q.queue && id != ABSOLUTE_SURGE)
    && o.lastTurn <= q.turn
  }

  lemma SurgeInitially(c: Compiled)
    requires SurgeOnly(c)
    ensures Follows(InitialQueue(c), NOTHING)
  {
    SortedQueueRepresents(Kernel.AbsoluteEvents(c));
  }

  lemma ScheduledFollows(c: Compiled, log: seq<Event>, e: Event, o: Oracle, end: Option<u64>)
    requires SurgeOnly(c) && RunQueue(c, log).Some? && Follows(RunQueue(c, log).value, o)
    requires e.kind.Scheduled? && Advance(c, RunQueue(c, log).value, e).Some?
    requires end.Some? ==> e.turn <= end.value
    ensures var next := Accept(o, Expected(e).value, end);
            next.Some? && Follows(Advance(c, RunQueue(c, log).value, e).value, next.value)
  {
    QueueInvariant(c, log);
    var q := RunQueue(c, log).value;
    var entry := ScheduledEvent(e.kind.event, e.kind.due, e.kind.eventKind);
    EnqueueSorted(q.queue, entry);
    assert entry in Effects.Enqueue(q.queue, entry);
  }

  lemma ResolvedFollows(c: Compiled, log: seq<Event>, e: Event, o: Oracle, end: Option<u64>)
    requires SurgeOnly(c) && RunQueue(c, log).Some? && Follows(RunQueue(c, log).value, o)
    requires e.kind.Resolved? && Advance(c, RunQueue(c, log).value, e).Some?
    requires end.Some? ==> e.turn <= end.value
    ensures var after := Advance(c, RunQueue(c, log).value, e).value;
            if e.kind.event == ABSOLUTE_SURGE then Follows(after, o)
            else Named(o, Expected(e).value) ==>
              var next := Accept(o, Expected(e).value, end); next.Some? && Follows(after, next.value)
  {
    QueueInvariant(c, log);
    var q := RunQueue(c, log).value;
    var head := q.queue[0];
    assert q.queue == [head] + q.queue[1..];
    forall k | k in o.queue && k != head.id ensures Before(head, o.queue[k]) {
      var j :| 0 <= j < |q.queue| && q.queue[j] == o.queue[k];
    }
    forall x | x in q.queue[1..] ensures x.id != head.id {
      var j :| 1 <= j < |q.queue| && q.queue[j] == x;
    }
  }

  predicate Named(o: Oracle, e: Expectation) {
    !Text.Blank(e.id) && !Text.Blank(e.kind)
  }

  /** Every pending entry but the surge comes from a template. */
  lemma {:induction false} PendingAreTemplates(c: Compiled, log: seq<Event>)
    requires RunQueue(c, log).Some?
    ensures forall e <- RunQueue(c, log).value.queue ::
      e.id in c.timedEvents || (e.id in c.deferredEvents && e.kind == c.deferredEvents[e.id].kind)
    decreases |log|
  {
    if log == [] {
      SortedQueueRepresents(Kernel.AbsoluteEvents(c));
    } else {
      var front, e := log[..|log| - 1], log[|log| - 1];
      PendingAreTemplates(c, front);
      QueueInvariant(c, front);
      if e.kind.Scheduled? {
        var q := RunQueue(c, front).value;
        EnqueueSorted(q.queue, ScheduledEvent(e.kind.event, e.kind.due, e.kind.eventKind));
      }
    }
  }

  lemma {:induction false} TurnsGrow(c: Compiled, log: seq<Event>, n: nat)
    requires n <= |log| && RunQueue(c, log).Some?
    ensures RunQueue(c, log[..n]).Some? && RunQueue(c, log[..n]).value.turn <= RunQueue(c, log).value.turn
    decreases |log|
  {
    if n == |log| {
      assert log[..n] == log;
    } else {
      TurnsGrow(c, log[..|log| - 1], n);
      assert log[..|log| - 1][..n] == log[..n];
    }
  }

  lemma {:induction false} OracleFollows(c: Compiled, log: seq<Event>, end: Option<u64>)
    requires SurgeOnly(c) && RunQueue(c, log).Some?
    requires end.Some? ==> RunQueue(c, log).value.turn <= end.value
    ensures AcceptAll(History(log), end).Some?
    ensures Follows(RunQueue(c, log).value, AcceptAll(History(log), end).value)
    decreases |log|
  {
    if log == [] {
      SurgeInitially(c);
    } else {
      var front, e := log[..|log| - 1], log[|log| - 1];
      TurnsGrow(c, log, |log| - 1);
      OracleFollows(c, front, end);
      var o := AcceptAll(History(front), end).value;
      var last := Expected(e);
      HistoryLonger(front, e, end);
      if e.kind.Scheduled? {
        ScheduledFollows(c, front, e, o, end);
      } else if e.kind.Resolved? {
        PendingAreTemplates(c, front);
        assert RunQueue(c, front).value.queue[0] in RunQueue(c, front).value.queue;
        ResolvedFollows(c, front, e, o, end);
      }
    }
  }

  lemma HistoryLonger(front: seq<Event>, e: Event, end: Option<u64>)
    requires AcceptAll(History(front), end).Some?
    ensures AcceptAll(History(front + [e]), end)
         == if Expected(e).Some? then Accept(AcceptAll(History(front), end).value, Expected(e).value, end)
            else AcceptAll(History(front), end)
  {
    assert (front + [e])[..|front|] == front;
    if Expected(e).Some? {
      assert (History(front) + [Expected(e).value])[..|History(front)|] == History(front);
    } else {
      assert History(front) + [] == History(front);
    }
  }

  /** Whatever ledger the kernel admits, with the surge projected out, the independent oracle accepts. */
  lemma OracleAgrees(c: Compiled, s: GameState)
    requires SurgeOnly(c) && Admitted(c, s)
    ensures Accepts(History(s.log), WithoutSurge(s.world.queue), Some(s.world.time))
  {
    QueueInvariant(c, s.log);
    OracleFollows(c, s.log, Some(s.world.time));
    var o := AcceptAll(History(s.log), Some(s.world.time)).value;
    var waiting := WithoutSurge(s.world.queue);
    WithoutSurgeMembers(s.world.queue);
    assert Represents(waiting, o.queue);
    RepresentsUnique(waiting, o.queue);
  }
}
