// The words of all events that resolve in one transition, against the compile-time bounds.
module ResultBudget {
  import opened Basics
  import opened Model
  import opened Content
  import opened Effects
  import opened Kernel
  import opened Schedule
  import opened Validation
  import opened Windows
  import opened Cohorts
  import opened CohortRuns
  import Text
  import Timeline
  import TimeCost

  // ---- Sums over the authored lists, restricted to a set of resolved ids ----

  function TimedDue(t: TimedEvent): Due {
    Due(t.due, Text.WordCount(t.result))
  }

  function TimedDues(events: seq<TimedEvent>): seq<Due> {
    if events == [] then [] else TimedDues(events[..|events| - 1]) + [TimedDue(events[|events| - 1])]
  }

  function TimedHit(events: seq<TimedEvent>, hit: set<Id>): nat {
    if events == [] then 0
    else
      var last := events[|events| - 1];
      TimedHit(events[..|events| - 1], hit) + if last.id in hit then TimedDue(last).words else 0
  }

  function DeferredHit(events: seq<DeferredEvent>, hit: set<Id>): nat {
    if events == [] then 0
    else
      var last := events[|events| - 1];
      DeferredHit(events[..|events| - 1], hit) + if last.id in hit then ResultWords(last) else 0
  }

  function CohortHit(d: Draft, events: seq<DeferredEvent>, action: nat, hit: set<Id>): nat {
    if events == [] then 0
    else
      var last := events[|events| - 1];
      CohortHit(d, events[..|events| - 1], action, hit)
      + if last.id in hit && InCohort(d, last.id, action) then ResultWords(last) else 0
  }

  lemma {:induction false} TimedHitWindow(events: seq<TimedEvent>, hit: set<Id>, start: int, ticks: nat)
    requires forall t <- events :: t.id in hit ==> Within(TimedDue(t), start, ticks)
    ensures TimedHit(events, hit) <= WindowWords(TimedDues(events), start, ticks)
    decreases |events|
  {
    if events != [] {
      TimedHitWindow(events[..|events| - 1], hit, start, ticks);
    }
  }

  lemma {:induction false} CohortHitWindow(
    d: Draft, events: seq<DeferredEvent>, action: nat, hit: set<Id>, start: int, ticks: nat)
    requires forall x <- events :: x.id in hit && InCohort(d, x.id, action) ==>
               start < FixedOf(d, x.id).value.1 <= start + ticks
    ensures CohortHit(d, events, action, hit) <= WindowWords(Cohort(d, events, action), start, ticks)
    decreases |events|
  {
    if events != [] {
      CohortHitWindow(d, events[..|events| - 1], action, hit, start, ticks);
    }
  }

  function SumTo(n: nat, f: nat -> nat): nat {
    if n == 0 then 0 else SumTo(n - 1, f) + f(n - 1)
  }

  lemma {:induction false} SumToBump(n: nat, f: nat -> nat, g: nat -> nat, k: nat, w: nat)
    requires forall i: nat :: i < n ==> g(i) == f(i) + if i == k then w else 0
    ensures SumTo(n, g) == SumTo(n, f) + if k < n then w else 0
    decreases n
  {
    if n > 0 {
      SumToBump(n - 1, f, g, k, w);
    }
  }

  lemma {:induction false} SumToZero(n: nat, f: nat -> nat)
    requires forall i: nat :: i < n ==> f(i) == 0
    ensures SumTo(n, f) == 0
  {
    if n > 0 {
      SumToZero(n - 1, f);
    }
  }

  lemma {:induction false} SumToAtMost(f: nat -> nat, xs: seq<nat>)
    requires forall i: nat :: i < |xs| ==> f(i) <= xs[i]
    ensures SumTo(|xs|, f) <= SumSeq(xs)
    decreases |xs|
  {
    if xs != [] {
      SumToAtMost(f, xs[..|xs| - 1]);
    }
  }

  function CohortHits(d: Draft, events: seq<DeferredEvent>, hit: set<Id>): nat -> nat {
    a => CohortHit(d, events, a, hit)
  }

  lemma FixedAction(d: Draft, id: Id)
    ensures FixedOf(d, id).Some? ==> FixedOf(d, id).value.0 < |d.actions|
  {
    if FixedOf(d, id).Some? {
      var j := FixedIsSole(d, id);
    }
  }

  /** Every resolved deferred event is independent or in exactly one cohort. */
  lemma {:induction false} DeferredHitSplits(d: Draft, events: seq<DeferredEvent>, hit: set<Id>)
    ensures DeferredHit(events, hit) <= IndependentWords(d, events) + SumTo(|d.actions|, CohortHits(d, events, hit))
    decreases |events|
  {
    if events == [] {
      SumToZero(|d.actions|, CohortHits(d, events, hit));
    } else {
      var front, last := events[..|events| - 1], events[|events| - 1];
      DeferredHitSplits(d, front, hit);
      FixedAction(d, last.id);
      var k := if FixedOf(d, last.id).Some? then FixedOf(d, last.id).value.0 else |d.actions|;
      var w := if last.id in hit then ResultWords(last) else 0;
      forall i: nat | i < |d.actions|
        ensures CohortHits(d, events, hit)(i) == CohortHits(d, front, hit)(i) + if i == k then w else 0
      {
      }
      SumToBump(|d.actions|, CohortHits(d, front, hit), CohortHits(d, events, hit), k, w);
    }
  }

  lemma {:induction false} AllWordsCover(events: seq<DeferredEvent>, hit: set<Id>)
    ensures DeferredHit(events, hit) <= AllWords(events)
    decreases |events|
  {
    if events != [] {
      AllWordsCover(events[..|events| - 1], hit);
    }
  }

  // ---- One transition's results ----

  /** The result text of the event behind an id: absolute events first. */
  function ResultOf(c: Compiled, id: Id): string {
    if id in c.timedEvents then c.timedEvents[id].result
    else if id in c.deferredEvents then c.deferredEvents[id].result
    else ""
  }

  function DueWords(c: Compiled, due: seq<ScheduledEvent>): nat {
    if due == [] then 0 else DueWords(c, due[..|due| - 1]) + Text.WordCount(ResultOf(c, due[|due| - 1].id))
  }

  function Ids(due: seq<ScheduledEvent>): set<Id> {
    set e <- due :: e.id
  }

  lemma {:induction false} TimedHitGrows(events: seq<TimedEvent>, hit: set<Id>, id: Id)
    requires id !in hit
    ensures TimedHit(events, hit) <= TimedHit(events, hit + {id})
    ensures forall t <- events :: t.id == id ==> TimedHit(events, hit) + TimedDue(t).words <= TimedHit(events, hit + {id})
    decreases |events|
  {
    if events != [] {
      var front, last := events[..|events| - 1], events[|events| - 1];
      TimedHitGrows(front, hit, id);
      forall t | t in events && t.id == id
        ensures TimedHit(events, hit) + TimedDue(t).words <= TimedHit(events, hit + {id})
      {
        if t != last {
          assert t in front;
        }
      }
    }
  }

  lemma {:induction false} DeferredHitGrows(events: seq<DeferredEvent>, hit: set<Id>, id: Id)
    requires id !in hit
    ensures DeferredHit(events, hit) <= DeferredHit(events, hit + {id})
    ensures forall x <- events :: x.id == id ==> DeferredHit(events, hit) + ResultWords(x) <= DeferredHit(events, hit + {id})
    decreases |events|
  {
    if events != [] {
      var front, last := events[..|events| - 1], events[|events| - 1];
      DeferredHitGrows(front, hit, id);
      forall x | x in events && x.id == id
        ensures DeferredHit(events, hit) + ResultWords(x) <= DeferredHit(events, hit + {id})
      {
        if x != last {
          assert x in front;
        }
      }
    }
  }

  lemma ResultCounted(d: Draft, hit: set<Id>, id: Id)
    requires id !in hit
    ensures TimedHit(d.timedEvents, hit) + DeferredHit(d.deferredEvents, hit) + Text.WordCount(ResultOf(Compile(d), id))
         <= TimedHit(d.timedEvents, hit + {id}) + DeferredHit(d.deferredEvents, hit + {id})
  {
    var c := Compile(d);
    TimedHitGrows(d.timedEvents, hit, id);
    DeferredHitGrows(d.deferredEvents, hit, id);
    TableEntries(d.timedEvents, TimedKey);
    TableEntries(d.deferredEvents, DeferredKey);
  }

  lemma {:induction false} DueWordsHit(d: Draft, due: seq<ScheduledEvent>)
    requires DistinctEntries(due)
    ensures DueWords(Compile(d), due) <= TimedHit(d.timedEvents, Ids(due)) + DeferredHit(d.deferredEvents, Ids(due))
    decreases |due|
  {
    if due != [] {
      var front, last := due[..|due| - 1], due[|due| - 1];
      DueWordsHit(d, front);
      assert last.id !in Ids(front);
      assert due == front + [last];
      assert Ids(due) == Ids(front) + {last.id};
      ResultCounted(d, Ids(front), last.id);
    }
  }

  lemma CohortWindow(d: Draft, start: u64, ticks: nat, due: seq<ScheduledEvent>, action: nat) returns (window: int)
    requires ResolvesTogether(d, start, ticks, due)
    ensures CohortHit(d, d.deferredEvents, action, Ids(due)) <= WindowWords(Cohort(d, d.deferredEvents, action), window, ticks)
  {
    if exists e <- due :: InCohort(d, e.id, action) {
      var e :| e in due && InCohort(d, e.id, action);
      window := start - BaseOf(d, e);
      forall x | x in d.deferredEvents && x.id in Ids(due) && InCohort(d, x.id, action)
        ensures window < FixedOf(d, x.id).value.1 <= window + ticks
      {
        var y :| y in due && y.id == x.id;
        assert BaseOf(d, y) == BaseOf(d, e);
      }
    } else {
      window := 0;
    }
    CohortHitWindow(d, d.deferredEvents, action, Ids(due), window, ticks);
  }

  /** The deferred results resolving together never exceed maximum_result_words. */
  lemma DeferredResultsBound(d: Draft, start: u64, ticks: nat, due: seq<ScheduledEvent>, total: nat)
    requires ResolvesTogether(d, start, ticks, due) && ticks > 0 && IsResultBound(d, ticks, total)
    ensures DeferredHit(d.deferredEvents, Ids(due)) <= total
  {
    if DistinctIds(d.deferredEvents, DeferredKey) {
      var maxima :| |maxima| == |d.actions| && CohortMaxima(d, ticks, maxima)
        && total == IndependentWords(d, d.deferredEvents) + SumSeq(maxima);
      var hits := CohortHits(d, d.deferredEvents, Ids(due));
      forall a: nat | a < |maxima| ensures hits(a) <= maxima[a] {
        var window := CohortWindow(d, start, ticks, due, a);
        assert IsMaximumWindow(Cohort(d, d.deferredEvents, a), ticks, maxima[a]);
      }
      DeferredHitSplits(d, d.deferredEvents, Ids(due));
      SumToAtMost(hits, maxima);
    } else {
      AllWordsCover(d.deferredEvents, Ids(due));
    }
  }

  /** An absolute entry is pending at its authored due time. */
  ghost predicate AuthoredDue(c: Compiled, due: seq<ScheduledEvent>) {
    forall e <- due :: e.id in c.timedEvents ==> e.due == c.timedEvents[e.id].due
  }

  lemma TimedResultsBound(d: Draft, start: u64, ticks: nat, due: seq<ScheduledEvent>, maximum: nat)
    requires StructureValid(d) && ResolvesTogether(d, start, ticks, due) && AuthoredDue(Compile(d), due)
    requires IsMaximumWindow(TimedDues(d.timedEvents), ticks, maximum)
    ensures TimedHit(d.timedEvents, Ids(due)) <= maximum
  {
    TableEntries(d.timedEvents, TimedKey);
    forall t | t in d.timedEvents && t.id in Ids(due) ensures Within(TimedDue(t), start, ticks) {
      var e :| e in due && e.id == t.id;
      assert Compile(d).timedEvents[t.id] == t;
    }
    TimedHitWindow(d.timedEvents, Ids(due), start, ticks);
  }

  /** All results of one transition, absolute and deferred, stay within the two bounds. */
  lemma ResultsBound(d: Draft, start: u64, ticks: nat, due: seq<ScheduledEvent>, maximum: nat, total: nat)
    requires StructureValid(d) && ResolvesTogether(d, start, ticks, due) && AuthoredDue(Compile(d), due)
    requires IsMaximumWindow(TimedDues(d.timedEvents), ticks, maximum) && IsResultBound(d, ticks, total)
    ensures DueWords(Compile(d), due) <= maximum + total
  {
    if ticks == 0 {
      EmptyOrNot(due);
    } else {
      DueWordsHit(d, due);
      TimedResultsBound(d, start, ticks, due, maximum);
      DeferredResultsBound(d, start, ticks, due, total);
    }
  }
}
