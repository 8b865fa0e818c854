// What the deferred oracle accepts, said of the history itself: no queue is kept, no id set is carried along.
module OracleLaws {
  import opened Basics
  import opened Model
  import opened Schedule
  import opened DeferredOracle
  import Kernel

  // ---- Placed, resolved, open ----

  predicate Expects(events: seq<Expectation>, e: ScheduledEvent) {
    exists x <- events :: x.ExpectScheduled? && x.id == e.id && x.kind == e.kind && x.due == e.due
  }

  predicate PlacedIn(events: seq<Expectation>, id: Id) {
    exists x <- events :: x.ExpectScheduled? && x.id == id
  }

  predicate ClearedIn(events: seq<Expectation>, id: Id) {
    exists x <- events :: x.ExpectResolved? && x.id == id
  }

  predicate Outstanding(events: seq<Expectation>, e: ScheduledEvent) {
    Expects(events, e) && !ClearedIn(events, e.id)
  }

  predicate NoneLater(events: seq<Expectation>, turn: u64) {
    forall x <- events :: x.turn <= turn
  }

  // ---- Lawful histories ----

  ghost predicate LawfulClearing(events: seq<Expectation>, turn: u64, id: Id, kind: Id) {
    exists e: ScheduledEvent :: e.id == id && e.kind == kind && e.due <= turn && Soonest(events, e)
  }

  ghost predicate Soonest(events: seq<Expectation>, e: ScheduledEvent) {
    Outstanding(events, e) && forall x: ScheduledEvent :: Outstanding(events, x) ==> x == e || Before(e, x)
  }

  /** What may be expected next: an id placed for the first time and for later, or the first outstanding one, once due. */
  ghost predicate LawfulExpectation(events: seq<Expectation>, x: Expectation, end: Option<u64>) {
    && Chronological(x, 0, end) && NoneLater(events, x.turn)
    && match x
       case ExpectScheduled(turn, id, _, due) => turn < due && !PlacedIn(events, id)
       case ExpectResolved(turn, id, kind, _) => LawfulClearing(events, turn, id, kind)
  }

  ghost predicate LawfulHistory(events: seq<Expectation>, end: Option<u64>) {
    forall n :: 0 <= n < |events| ==> LawfulExpectation(events[..n], events[n], end)
  }

  // ---- The oracle runs exactly on lawful histories ----

  ghost predicate Knows(events: seq<Expectation>, o: Oracle) {
    && OwnIds(o.queue)
    && (forall e: ScheduledEvent :: e.id in o.queue && o.queue[e.id] == e <==> Outstanding(events, e))
    && (forall id: Id :: id in o.used <==> PlacedIn(events, id))
    && (forall id: Id :: ClearedIn(events, id) ==> id in o.used)
    && (forall turn: u64 :: o.lastTurn <= turn <==> NoneLater(events, turn))
  }

  lemma OneMoreExpectation(events: seq<Expectation>, x: Expectation)
    ensures forall e: ScheduledEvent :: Expects(events + [x], e) <==>
      Expects(events, e) || (x.ExpectScheduled? && x.id == e.id && x.kind == e.kind && x.due == e.due)
    ensures forall id: Id :: PlacedIn(events + [x], id) <==> PlacedIn(events, id) || (x.ExpectScheduled? && x.id == id)
    ensures forall id: Id :: ClearedIn(events + [x], id) <==> ClearedIn(events, id) || (x.ExpectResolved? && x.id == id)
    ensures forall turn: u64 :: NoneLater(events + [x], turn) <==> NoneLater(events, turn) && x.turn <= turn
  {
    assert forall y :: y in events + [x] <==> y in events || y == x;
  }

  lemma ExpectedIsPlaced(events: seq<Expectation>, e: ScheduledEvent)
    requires Expects(events, e)
    ensures PlacedIn(events, e.id)
  {
  }

  lemma PlacingKnows(events: seq<Expectation>, o: Oracle, x: Expectation, end: Option<u64>)
    requires Knows(events, o) && x.ExpectScheduled?
    ensures Accept(o, x, end).Some? <==> LawfulExpectation(events, x, end)
    ensures Accept(o, x, end).Some? ==> Knows(events + [x], Accept(o, x, end).value)
  {
    hide Expects, PlacedIn, ClearedIn, NoneLater;
    OneMoreExpectation(events, x);
    if Accept(o, x, end).Some? {
      forall e: ScheduledEvent | Expects(events, e) ensures e.id in o.used {
        ExpectedIsPlaced(events, e);
      }
    }
  }

  lemma FirstIsSoonest(events: seq<Expectation>, o: Oracle, id: Id)
    requires Knows(events, o)
    ensures First(o.queue, id) ==> Soonest(events, o.queue[id])
    ensures forall e: ScheduledEvent :: Soonest(events, e) && e.id == id ==> First(o.queue, id) && o.queue[id] == e
  {
    hide Outstanding;
    if First(o.queue, id) {
      forall x: ScheduledEvent | Outstanding(events, x) ensures x == o.queue[id] || Before(o.queue[id], x) {
        assert x.id in o.queue && o.queue[x.id] == x;
      }
    }
    forall e: ScheduledEvent | Soonest(events, e) && e.id == id ensures First(o.queue, id) && o.queue[id] == e {
      forall k | k in o.queue ensures k == id || Before(o.queue[id], o.queue[k]) {
        assert Outstanding(events, o.queue[k]);
      }
    }
  }

  lemma ClearingKnows(events: seq<Expectation>, o: Oracle, x: Expectation, end: Option<u64>)
    requires Knows(events, o) && x.ExpectResolved?
    ensures Accept(o, x, end).Some? <==> LawfulExpectation(events, x, end)
    ensures Accept(o, x, end).Some? ==> Knows(events + [x], Accept(o, x, end).value)
  {
    hide Expects, PlacedIn, ClearedIn, NoneLater, Soonest, First;
    FirstIsSoonest(events, o, x.id);
    if First(o.queue, x.id) {
      SoonestIsOutstanding(events, o.queue, x.id);
    }
    if LawfulClearing(events, x.turn, x.id, x.kind) {
      var e: ScheduledEvent :| e.id == x.id && e.kind == x.kind && e.due <= x.turn && Soonest(events, e);
    }
    if Accept(o, x, end).Some? {
      OneMoreExpectation(events, x);
      assert Outstanding(events, o.queue[x.id]);
      ExpectedIsPlaced(events, o.queue[x.id]);
    }
  }

  lemma SoonestIsOutstanding(events: seq<Expectation>, queue: map<Id, ScheduledEvent>, id: Id)
    requires First(queue, id) && Soonest(events, queue[id])
    ensures id in queue && Outstanding(events, queue[id])
  {
  }

  lemma LawfulHistorySplits(events: seq<Expectation>, end: Option<u64>)
    requires events != []
    ensures var n := |events| - 1;
            LawfulHistory(events, end) <==> LawfulHistory(events[..n], end) && LawfulExpectation(events[..n], events[n], end)
  {
    hide LawfulExpectation;
    var front := events[..|events| - 1];
    forall n | 0 <= n < |front| ensures front[..n] == events[..n] && front[n] == events[n] {
    }
  }

  lemma {:induction false} OracleKnows(events: seq<Expectation>, end: Option<u64>)
    ensures AcceptAll(events, end).Some? <==> LawfulHistory(events, end)
    ensures AcceptAll(events, end).Some? ==> Knows(events, AcceptAll(events, end).value)
    decreases |events|
  {
    if events != [] {
      hide Accept, LawfulExpectation, Knows;
      var front, x := events[..|events| - 1], events[|events| - 1];
      assert events == front + [x];
      OracleKnows(front, end);
      LawfulHistorySplits(events, end);
      if AcceptAll(front, end).Some? {
        match x
        case ExpectScheduled(_, _, _, _) => PlacingKnows(front, AcceptAll(front, end).value, x, end);
        case ExpectResolved(_, _, _, _) => ClearingKnows(front, AcceptAll(front, end).value, x, end);
      }
    }
  }

  // ---- Acceptance, said of the history ----

  /** The pending list is what is outstanding, in (due, id) order, and none of it is overdue at the end. */
  ghost predicate LawfulEvidence(events: seq<Expectation>, pending: seq<ScheduledEvent>, end: Option<u64>) {
    && LawfulHistory(events, end) && Sorted(pending)
    && (forall e: ScheduledEvent :: e in pending <==> Outstanding(events, e))
    && (end.Some? ==> forall e <- pending :: e.due > end.value)
  }

  /** The oracle accepts exactly the lawful evidence. */
  lemma AcceptsExactly(events: seq<Expectation>, pending: seq<ScheduledEvent>, end: Option<u64>)
    ensures Accepts(events, pending, end) <==> LawfulEvidence(events, pending, end)
  {
    hide LawfulHistory, Sorted, Outstanding, Kernel.SortedQueue, AcceptAll;
    OracleKnows(events, end);
    var o := AcceptAll(events, end);
    if o.Some? {
      SortedQueueRepresents(o.value.queue);
      var queue := Kernel.SortedQueue(o.value.queue);
      if LawfulEvidence(events, pending, end) {
        SortedUnique(queue, pending);
      }
    }
  }

  /** An accepted history places no id twice. */
  lemma PlacedOnce(events: seq<Expectation>, pending: seq<ScheduledEvent>, end: Option<u64>, i: nat, j: nat)
    requires Accepts(events, pending, end) && i < j < |events|
    requires events[i].ExpectScheduled? && events[j].ExpectScheduled?
    ensures events[i].id != events[j].id
  {
    hide Accepts, LawfulClearing;
    AcceptsExactly(events, pending, end);
    assert LawfulExpectation(events[..j], events[j], end);
    assert events[..j][i] == events[i];
  }

  // ---- The history read off the ledger ----

  predicate Scheduler(r: Event) {
    r.kind.Scheduled? || (r.kind.Resolved? && r.kind.event != ABSOLUTE_SURGE)
  }

  /** The expectation says what the record says. */
  predicate SaysTheSame(x: Expectation, r: Event) {
    && x.turn == r.turn
    && match r.kind
       case Scheduled(id, kind, due) => x == ExpectScheduled(r.turn, id, kind, due)
       case Resolved(id, kind, applied) => x == ExpectResolved(r.turn, id, kind, applied) && id != ABSOLUTE_SURGE
       case _ => false
  }

  predicate Ascending(places: seq<nat>, limit: nat) {
    && (forall k :: 0 <= k < |places| ==> places[k] < limit)
    && forall j, k :: 0 <= j < k < |places| ==> places[j] < places[k]
  }

  /** Places of the ledger that the history names: all scheduler records but the surge's, in their order, word for word. */
  predicate Mirrors(log: seq<Event>, history: seq<Expectation>, places: seq<nat>) {
    && |places| == |history| && Ascending(places, |log|)
    && (forall k :: 0 <= k < |places| ==> SaysTheSame(history[k], log[places[k]]))
    && forall n :: 0 <= n < |log| && Scheduler(log[n]) ==> n in places
  }

  lemma MirrorsKept(log: seq<Event>, history: seq<Expectation>, places: seq<nat>, r: Event)
    requires Mirrors(log, history, places) && !Scheduler(r)
    ensures Mirrors(log + [r], history, places)
  {
    hide SaysTheSame, Scheduler;
  }

  lemma MirrorsNext(log: seq<Event>, history: seq<Expectation>, places: seq<nat>, r: Event, x: Expectation)
    requires Mirrors(log, history, places) && SaysTheSame(x, r)
    ensures Mirrors(log + [r], history + [x], places + [|log|])
  {
    hide SaysTheSame, Scheduler;
    var more := places + [|log|];
    forall n | 0 <= n < |log| + 1 && Scheduler((log + [r])[n]) ensures n in more {
      if n < |log| {
        assert n in places;
      } else {
        assert more[|places|] == n;
      }
    }
  }

  lemma HistoryNext(log: seq<Event>, r: Event)
    ensures History(log + [r]) == History(log) + if Expected(r).Some? then [Expected(r).value] else []
    ensures if Expected(r).Some? then SaysTheSame(Expected(r).value, r) else !Scheduler(r)
  {
    assert (log + [r])[..|log|] == log;
  }

  /** The history mirrors the ledger. */
  lemma {:induction false} HistoryIsTheLedger(log: seq<Event>) returns (places: seq<nat>)
    ensures Mirrors(log, History(log), places)
    decreases |log|
  {
    places := [];
    if log != [] {
      hide Mirrors, History, Expected;
      var front, r := log[..|log| - 1], log[|log| - 1];
      assert log == front + [r];
      places := HistoryIsTheLedger(front);
      HistoryNext(front, r);
      if Expected(r).Some? {
        MirrorsNext(front, History(front), places, r, Expected(r).value);
        places := places + [|front|];
      } else {
        MirrorsKept(front, History(front), places, r);
        assert History(front) + [] == History(front);
      }
    }
  }
}
