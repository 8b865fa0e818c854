// The compile-time budgets are no larger than they must be: every part of them is attained.
module BudgetTight {
  import opened Basics
  import opened Model
  import opened Content
  import opened Effects
  import opened Schedule
  import opened Validation
  import opened Windows
  import opened Cohorts
  import opened CohortRuns
  import opened ResultBudget
  import opened Observation
  import opened ObservationBudget
  import opened SupplyReadout
  import Text
  import TimeCost
  import SupplyBudget
  import SupplyWords

  // ---- Every window maximum exists ----

  lemma {:induction false} LargestUpTo(events: seq<Due>, ticks: nat, bound: nat)
    requires forall start: int :: WindowWords(events, start, ticks) <= bound
    ensures exists m: nat :: IsMaximumWindow(events, ticks, m)
    decreases bound
  {
    if exists start: int :: WindowWords(events, start, ticks) == bound {
      assert IsMaximumWindow(events, ticks, bound);
    } else {
      assert WindowWords(events, 0, ticks) < bound;
      LargestUpTo(events, ticks, bound - 1);
    }
  }

  lemma {:induction false} WindowAtMostAll(events: seq<Due>, start: int, ticks: nat)
    ensures WindowWords(events, start, ticks) <= SumRange(events, 0, |events|)
    decreases |events|
  {
    if events != [] {
      var n := |events| - 1;
      WindowAtMostAll(events[..n], start, ticks);
      SumRangePrefix(events, n, n);
    }
  }

  lemma {:induction false} SumRangePrefix(events: seq<Due>, n: nat, hi: nat)
    requires hi <= n <= |events|
    ensures SumRange(events[..n], 0, hi) == SumRange(events, 0, hi)
    decreases hi
  {
    if hi > 0 {
      SumRangePrefix(events, n, hi - 1);
    }
  }

  lemma MaximumExists(events: seq<Due>, ticks: nat)
    ensures exists m: nat :: IsMaximumWindow(events, ticks, m)
  {
    forall start: int ensures WindowWords(events, start, ticks) <= SumRange(events, 0, |events|) {
      WindowAtMostAll(events, start, ticks);
    }
    LargestUpTo(events, ticks, SumRange(events, 0, |events|));
  }

  lemma {:induction false} MaximaExist(d: Draft, ticks: nat, n: nat) returns (maxima: seq<nat>)
    requires n <= |d.actions|
    ensures |maxima| == n && CohortMaxima(d, ticks, maxima)
    decreases n
  {
    hide IsMaximumWindow, Cohort;
    maxima := [];
    if n > 0 {
      var earlier := MaximaExist(d, ticks, n - 1);
      MaximumExists(Cohort(d, d.deferredEvents, n - 1), ticks);
      var m: nat :| IsMaximumWindow(Cohort(d, d.deferredEvents, n - 1), ticks, m);
      maxima := earlier + [m];
    }
  }

  lemma EventBudgetExists(d: Draft, ticks: nat) returns (words: nat)
    ensures EventBudget(d, ticks, words)
  {
    hide IsMaximumWindow, CohortMaxima;
    MaximumExists(TimedDues(d.timedEvents), ticks);
    var timed: nat :| IsMaximumWindow(TimedDues(d.timedEvents), ticks, timed);
    var deferred := 0;
    if ticks > 0 {
      deferred := AllWords(d.deferredEvents);
      if DistinctIds(d.deferredEvents, DeferredKey) {
        var maxima := MaximaExist(d, ticks, |d.actions|);
        deferred := IndependentWords(d, d.deferredEvents) + SumSeq(maxima);
      }
    }
    assert IsResultBound(d, ticks, deferred);
    words := timed + deferred;
  }

  // ---- The budgets, text by text ----

  /** The words of a text some place can show; none where there is no place. */
  ghost predicate PlaceWords(d: Draft, words: nat) {
    if d.locations == [] then words == 0 else exists text :: PlaceShows(d, text, words)
  }

  predicate PlaceShows(d: Draft, text: string, words: nat) {
    PlaceText(d.locations, text) && Text.WordCount(text) == words
  }

  predicate ResultShows(a: ActionDefinition, text: string) {
    TextOf(ShownResult(a), a.variants, text)
  }

  /** No combination of a result text, a place text, the largest event words and the largest readout reaches the limit. */
  ghost predicate FitsTextByText(d: Draft, a: ActionDefinition)
    requires TimeCost.ActionCost(a.effects).Some?
  {
    forall text, place: nat, events: nat
      | ResultShows(a, text) && PlaceWords(d, place) && EventBudget(d, MaximumTicks(a), events) ::
      Text.WordCount(text) + place + events + SummaryBound(d) < OBSERVATION_WORD_LIMIT
  }

  lemma LargestPlace(d: Draft)
    ensures PlaceWords(d, LocationMaximum(d.locations))
    ensures forall words: nat :: PlaceWords(d, words) ==> words <= LocationMaximum(d.locations)
  {
    hide Text.WordCount;
    var longest := LongestPlaceText(d.locations);
    if d.locations != [] {
      assert PlaceShows(d, longest, LocationMaximum(d.locations));
      forall words: nat | PlaceWords(d, words) ensures words <= LocationMaximum(d.locations) {
        var text :| PlaceShows(d, text, words);
        PlaceTextAtMost(d.locations, text);
      }
    }
  }

  lemma ActionFitsTextByText(d: Draft, a: ActionDefinition)
    requires TimeCost.ActionCost(a.effects).Some?
    ensures ActionFits(d, a, SummaryBound(d)) <==> FitsTextByText(d, a)
  {
    hide EventBudget, MaximumText, LocationMaximum, PlaceWords, SummaryBound, TextOf, Text.WordCount;
    LargestPlace(d);
    var budget := EventBudgetExists(d, MaximumTicks(a));
    var longest := LongestText(ShownResult(a), a.variants);
    forall text | ResultShows(a, text) ensures Text.WordCount(text) <= MaximumText(ShownResult(a), a.variants) {
      EveryTextAtMost(ShownResult(a), a.variants, text);
    }
    forall other: nat | EventBudget(d, MaximumTicks(a), other) ensures other == budget {
      EventBudgetUnique(d, MaximumTicks(a), budget, other);
    }
    if FitsTextByText(d, a) {
      assert ResultShows(a, longest) && PlaceWords(d, LocationMaximum(d.locations));
    }
  }

  /** The budgets hold exactly when no combination of texts can reach the limit. */
  lemma BudgetsTextByText(d: Draft)
    requires TimesValid(d)
    ensures BudgetsHold(d) <==>
      && (forall place: nat | PlaceWords(d, place) :: place + SummaryBound(d) < OBSERVATION_WORD_LIMIT)
      && forall a <- d.actions :: FitsTextByText(d, a)
  {
    hide ActionFits, FitsTextByText, PlaceWords, SummaryBound, LocationMaximum;
    LargestPlace(d);
    forall a | a in d.actions ensures ActionFits(d, a, SummaryBound(d)) <==> FitsTextByText(d, a) {
      ActionFitsTextByText(d, a);
    }
  }

  // ---- Fixed offsets, exactly ----

  predicate NoEventMentions(d: Draft, id: Id) {
    forall e <- EventEffects(d) :: !Mentions(e, id)
  }

  /** The use of a template whose only occurrence is effect j of action a. */
  ghost predicate SoleUse(d: Draft, n: nat, m: nat, a: nat, j: nat, offset: u64, u: ScheduleUse) {
    u == if a < n || (a == n && j < m) then ScheduleUse(1, Some((a, offset))) else UNUSED
  }

  lemma SoleUseNext(d: Draft, id: Id, n: nat, m: nat, a: nat, j: nat, offset: u64, u: ScheduleUse)
    requires OccursAt(d, id, a, j, offset) && OnlyAt(d, id, |d.actions|, 0, a, j)
    requires n < |d.actions| && m < |d.actions[n].effects| && SoleUse(d, n, m, a, j, offset, u)
    ensures var effects := d.actions[n].effects;
            SoleUse(d, n, m + 1, a, j, offset,
                    UseAfterEffect(TemplatesOf(d), effects[m], OccurrenceAt(n, effects, m), id, u))
  {
    var effects := d.actions[n].effects;
    UseOfEffect(TemplatesOf(d), effects[m], OccurrenceAt(n, effects, m), id, u);
    assert Processed(d, |d.actions|, 0, n, m);
    if n == a && m == j {
      ElapsedPrefix(effects, m);
    }
  }

  lemma {:induction false} SoleUseInAction(d: Draft, id: Id, n: nat, m: nat, a: nat, j: nat, offset: u64, u: ScheduleUse)
    requires OccursAt(d, id, a, j, offset) && OnlyAt(d, id, |d.actions|, 0, a, j)
    requires n < |d.actions| && m <= |d.actions[n].effects| && SoleUse(d, n, 0, a, j, offset, u)
    ensures SoleUse(d, n, m, a, j, offset, UseInAction(TemplatesOf(d), n, d.actions[n].effects, m, id, u))
    decreases m
  {
    hide OccursAt, OnlyAt, UseAfterEffect, TemplatesOf;
    if m > 0 {
      SoleUseInAction(d, id, n, m - 1, a, j, offset, u);
      SoleUseNext(d, id, n, m - 1, a, j, offset, UseInAction(TemplatesOf(d), n, d.actions[n].effects, m - 1, id, u));
    }
  }

  lemma {:induction false} SoleUseInActions(d: Draft, id: Id, n: nat, a: nat, j: nat, offset: u64)
    requires OccursAt(d, id, a, j, offset) && OnlyAt(d, id, |d.actions|, 0, a, j) && n <= |d.actions|
    ensures SoleUse(d, n, 0, a, j, offset, UseInActions(TemplatesOf(d), d.actions, n, id))
    decreases n
  {
    hide OnlyAt, UseInAction, TemplatesOf;
    if n > 0 {
      SoleUseInActions(d, id, n - 1, a, j, offset);
      var effects := d.actions[n - 1].effects;
      SoleUseInAction(d, id, n - 1, |effects|, a, j, offset, UseInActions(TemplatesOf(d), d.actions, n - 1, id));
    }
  }

  lemma {:induction false} QuietEventsKeepUse(d: Draft, id: Id, effects: seq<Effect>, n: nat, u: ScheduleUse)
    requires n <= |effects| && forall e <- effects :: !Mentions(e, id)
    ensures UseInEvents(TemplatesOf(d), effects, n, id, u) == u
    decreases n
  {
    if n > 0 {
      QuietEventsKeepUse(d, id, effects, n - 1, u);
      UseOfEffect(TemplatesOf(d), effects[n - 1], None, id, UseInEvents(TemplatesOf(d), effects, n - 1, id, u));
    }
  }

  lemma {:induction false} FixedNeedsQuietEvents(d: Draft, id: Id, effects: seq<Effect>, n: nat, u: ScheduleUse)
    requires n <= |effects|
    requires var after := UseInEvents(TemplatesOf(d), effects, n, id, u); after.count == 1 && after.fixed.Some?
    ensures forall i :: 0 <= i < n ==> !Mentions(effects[i], id)
    decreases n
  {
    if n > 0 {
      UseOfEffect(TemplatesOf(d), effects[n - 1], None, id, UseInEvents(TemplatesOf(d), effects, n - 1, id, u));
      FixedNeedsQuietEvents(d, id, effects, n - 1, u);
    }
  }

  /** A template has a fixed offset exactly when its one occurrence is plain, in an action of fixed duration. */
  lemma FixedExactly(d: Draft, id: Id, a: nat, offset: u64)
    ensures FixedOf(d, id) == Some((a, offset)) <==>
      NoEventMentions(d, id) && exists j :: OccursAt(d, id, a, j, offset) && OnlyAt(d, id, |d.actions|, 0, a, j)
  {
    hide OccursAt, OnlyAt, TemplatesOf, UseInEvents, UseInActions;
    var effects := EventEffects(d);
    var acted := UseInActions(TemplatesOf(d), d.actions, |d.actions|, id);
    if FixedOf(d, id).Some? {
      var j := FixedIsSole(d, id);
      FixedNeedsQuietEvents(d, id, effects, |effects|, acted);
    }
    if j: nat :| NoEventMentions(d, id) && OccursAt(d, id, a, j, offset) && OnlyAt(d, id, |d.actions|, 0, a, j) {
      InsideActions(d, id, a, j, offset);
      SoleUseInActions(d, id, |d.actions|, a, j, offset);
      QuietEventsKeepUse(d, id, effects, |effects|, acted);
    }
  }

  lemma InsideActions(d: Draft, id: Id, a: nat, j: nat, offset: u64)
    requires OccursAt(d, id, a, j, offset)
    ensures a < |d.actions|
  {
  }

  // ---- Results that do resolve together ----

  /** The template resolves when its cohort is placed at the given windows; independent ones always can. */
  predicate Resolves(d: Draft, windows: seq<int>, ticks: nat, x: DeferredEvent)
    requires |windows| == |d.actions|
  {
    var fixed := FixedOf(d, x.id);
    fixed.None? || fixed.value.0 >= |windows|
    || windows[fixed.value.0] < fixed.value.1 <= windows[fixed.value.0] + ticks
  }

  function ResolvedWords(d: Draft, windows: seq<int>, ticks: nat, events: seq<DeferredEvent>): nat
    requires |windows| == |d.actions|
  {
    if events == [] then 0
    else
      var last := events[|events| - 1];
      ResolvedWords(d, windows, ticks, events[..|events| - 1]) + if Resolves(d, windows, ticks, last) then ResultWords(last) else 0
  }

  function CohortWords(d: Draft, windows: seq<int>, ticks: nat, events: seq<DeferredEvent>): nat -> nat
    requires |windows| == |d.actions|
  {
    (a: nat) => if a < |windows| then WindowWords(Cohort(d, events, a), windows[a], ticks) else 0
  }

  /** What the last template adds to the words of a cohort. */
  function LastWords(d: Draft, windows: seq<int>, ticks: nat, events: seq<DeferredEvent>, a: nat): nat
    requires |windows| == |d.actions| && events != []
  {
    var last := events[|events| - 1];
    if InCohort(d, last.id, a) && Resolves(d, windows, ticks, last) then ResultWords(last) else 0
  }

  lemma CohortGrows(d: Draft, windows: seq<int>, ticks: nat, events: seq<DeferredEvent>, a: nat)
    requires |windows| == |d.actions| && events != [] && a < |windows|
    ensures CohortWords(d, windows, ticks, events)(a)
         == CohortWords(d, windows, ticks, events[..|events| - 1])(a) + LastWords(d, windows, ticks, events, a)
  {
    var front, last := events[..|events| - 1], events[|events| - 1];
    if InCohort(d, last.id, a) {
      var cohort := Cohort(d, events, a);
      assert cohort[..|cohort| - 1] == Cohort(d, front, a);
    }
  }

  lemma {:induction false} ResolvedSplits(d: Draft, windows: seq<int>, ticks: nat, events: seq<DeferredEvent>)
    requires |windows| == |d.actions|
    ensures ResolvedWords(d, windows, ticks, events)
         == IndependentWords(d, events) + SumTo(|windows|, CohortWords(d, windows, ticks, events))
    decreases |events|
  {
    if events == [] {
      SumToZero(|windows|, CohortWords(d, windows, ticks, events));
    } else {
      hide FixedOf, CohortWords, ResultWords;
      var front, last := events[..|events| - 1], events[|events| - 1];
      ResolvedSplits(d, windows, ticks, front);
      FixedAction(d, last.id);
      var k := if FixedOf(d, last.id).Some? then FixedOf(d, last.id).value.0 else |windows|;
      var w := if Resolves(d, windows, ticks, last) then ResultWords(last) else 0;
      var f, g := CohortWords(d, windows, ticks, front), CohortWords(d, windows, ticks, events);
      forall a: nat | a < |windows| ensures g(a) == f(a) + if a == k then w else 0 {
        CohortGrows(d, windows, ticks, events, a);
      }
      SumToBump(|windows|, f, g, k, w);
    }
  }

  lemma {:induction false} SumToIs(f: nat -> nat, xs: seq<nat>)
    requires forall i: nat :: i < |xs| ==> f(i) == xs[i]
    ensures SumTo(|xs|, f) == SumSeq(xs)
    decreases |xs|
  {
    if xs != [] {
      SumToIs(f, xs[..|xs| - 1]);
    }
  }

  lemma {:induction false} BestWindows(d: Draft, ticks: nat, maxima: seq<nat>, n: nat) returns (windows: seq<int>)
    requires CohortMaxima(d, ticks, maxima) && n <= |maxima|
    ensures |windows| == n
    ensures forall a: nat :: a < n ==> WindowWords(Cohort(d, d.deferredEvents, a), windows[a], ticks) == maxima[a]
    decreases n
  {
    hide Cohort, WindowWords;
    windows := [];
    if n > 0 {
      var earlier := BestWindows(d, ticks, maxima, n - 1);
      assert IsMaximumWindow(Cohort(d, d.deferredEvents, n - 1), ticks, maxima[n - 1]);
      var start: int :| WindowWords(Cohort(d, d.deferredEvents, n - 1), start, ticks) == maxima[n - 1];
      windows := earlier + [start];
    }
  }

  /** The entry of a resolving template in a transition that starts at time zero. */
  function EntryAt(d: Draft, windows: seq<int>, ticks: u64, x: DeferredEvent): ScheduledEvent
    requires |windows| == |d.actions| && Resolves(d, windows, ticks, x) && ticks > 0
  {
    var fixed := FixedOf(d, x.id);
    if fixed.None? || fixed.value.0 >= |windows| then ScheduledEvent(x.id, 1, x.kind)
    else ScheduledEvent(x.id, fixed.value.1 - windows[fixed.value.0], x.kind)
  }

  function Entries(d: Draft, windows: seq<int>, ticks: u64, events: seq<DeferredEvent>): seq<ScheduledEvent>
    requires |windows| == |d.actions| && ticks > 0
  {
    if events == [] then []
    else
      var last := events[|events| - 1];
      var front := Entries(d, windows, ticks, events[..|events| - 1]);
      if Resolves(d, windows, ticks, last) then front + [EntryAt(d, windows, ticks, last)] else front
  }

  lemma {:induction false} EntriesAre(d: Draft, windows: seq<int>, ticks: u64, events: seq<DeferredEvent>)
    requires |windows| == |d.actions| && ticks > 0
    ensures forall e <- Entries(d, windows, ticks, events) :: exists x <- events ::
      Resolves(d, windows, ticks, x) && e == EntryAt(d, windows, ticks, x)
    ensures forall x <- events :: Resolves(d, windows, ticks, x) ==> x.id in Ids(Entries(d, windows, ticks, events))
    decreases |events|
  {
    hide Resolves, FixedOf;
    if events != [] {
      var front, last := events[..|events| - 1], events[|events| - 1];
      assert events == front + [last];
      EntriesAre(d, windows, ticks, front);
      forall e | e in Entries(d, windows, ticks, events)
        ensures exists x <- events :: Resolves(d, windows, ticks, x) && e == EntryAt(d, windows, ticks, x)
      {
        if e in Entries(d, windows, ticks, front) {
          var x :| x in front && Resolves(d, windows, ticks, x) && e == EntryAt(d, windows, ticks, x);
          assert x in events;
        } else {
          assert last in events;
        }
      }
    }
  }

  lemma LastIdIsNew(events: seq<DeferredEvent>)
    requires events != [] && DistinctIds(events, DeferredKey)
    ensures DistinctIds(events[..|events| - 1], DeferredKey)
    ensures forall x <- events[..|events| - 1] :: x.id != events[|events| - 1].id
  {
    var n := |events| - 1;
    forall x | x in events[..n] ensures x.id != events[n].id {
      var i :| 0 <= i < n && events[i] == x;
      assert DeferredKey(events[i]) != DeferredKey(events[n]);
    }
  }

  /** The entries carry ids of the templates they came from. */
  lemma EntryIds(d: Draft, windows: seq<int>, ticks: u64, events: seq<DeferredEvent>, e: ScheduledEvent) returns (x: DeferredEvent)
    requires |windows| == |d.actions| && ticks > 0 && e in Entries(d, windows, ticks, events)
    ensures x in events && Resolves(d, windows, ticks, x) && e == EntryAt(d, windows, ticks, x) && e.id == x.id
  {
    EntriesAre(d, windows, ticks, events);
    hide Resolves, Entries, EntryAt;
    x :| x in events && Resolves(d, windows, ticks, x) && e == EntryAt(d, windows, ticks, x);
    EntryKeepsId(d, windows, ticks, x);
  }

  lemma {:induction false} EntriesDistinct(d: Draft, windows: seq<int>, ticks: u64, events: seq<DeferredEvent>)
    requires |windows| == |d.actions| && ticks > 0 && DistinctIds(events, DeferredKey)
    ensures DistinctEntries(Entries(d, windows, ticks, events))
    decreases |events|
  {
    if events == [] {
      assert Entries(d, windows, ticks, events) == [];
    } else {
      hide *;
      var front, last := events[..|events| - 1], events[|events| - 1];
      LastIdIsNew(events);
      EntriesDistinct(d, windows, ticks, front);
      EntriesNext(d, windows, ticks, events);
      if Resolves(d, windows, ticks, last) {
        EntryKeepsId(d, windows, ticks, last);
        forall e | e in Entries(d, windows, ticks, front) ensures e.id != last.id {
          var x := EntryIds(d, windows, ticks, front, e);
        }
        DistinctAppended(Entries(d, windows, ticks, front), EntryAt(d, windows, ticks, last));
      }
    }
  }

  lemma EntryKeepsId(d: Draft, windows: seq<int>, ticks: u64, x: DeferredEvent)
    requires |windows| == |d.actions| && Resolves(d, windows, ticks, x) && ticks > 0
    ensures EntryAt(d, windows, ticks, x).id == x.id
  {
  }

  lemma EntriesNext(d: Draft, windows: seq<int>, ticks: u64, events: seq<DeferredEvent>)
    requires |windows| == |d.actions| && ticks > 0 && events != []
    ensures Entries(d, windows, ticks, events)
         == var last := events[|events| - 1];
            var front := Entries(d, windows, ticks, events[..|events| - 1]);
            if Resolves(d, windows, ticks, last) then front + [EntryAt(d, windows, ticks, last)] else front
  {
  }

  lemma DistinctAppended(queue: seq<ScheduledEvent>, e: ScheduledEvent)
    requires DistinctEntries(queue) && forall x <- queue :: x.id != e.id
    ensures DistinctEntries(queue + [e])
  {
    assert forall i :: 0 <= i < |queue| ==> queue[i] in queue;
  }

  lemma EntriesTogether(d: Draft, windows: seq<int>, ticks: u64)
    requires |windows| == |d.actions| && ticks > 0 && DistinctIds(d.deferredEvents, DeferredKey)
    ensures ResolvesTogether(d, 0, ticks, Entries(d, windows, ticks, d.deferredEvents))
  {
    var due := Entries(d, windows, ticks, d.deferredEvents);
    EntriesDistinct(d, windows, ticks, d.deferredEvents);
    EntriesAre(d, windows, ticks, d.deferredEvents);
    hide FixedOf, Entries, DistinctEntries, EntryAt, Resolves, BaseIs;
    forall e | e in due ensures 0 < e.due <= ticks && (FixedOf(d, e.id).Some? ==> BaseIs(d, windows, e)) {
      var x :| x in d.deferredEvents && Resolves(d, windows, ticks, x) && e == EntryAt(d, windows, ticks, x);
      EntryPlaced(d, windows, ticks, x);
    }
    AlignedByBase(d, windows, due);
  }

  lemma EntryPlaced(d: Draft, windows: seq<int>, ticks: u64, x: DeferredEvent)
    requires |windows| == |d.actions| && Resolves(d, windows, ticks, x) && ticks > 0
    ensures var e := EntryAt(d, windows, ticks, x);
            0 < e.due <= ticks && (FixedOf(d, e.id).Some? ==> BaseIs(d, windows, e))
  {
    hide FixedOf;
    FixedAction(d, x.id);
  }

  lemma AlignedByBase(d: Draft, windows: seq<int>, due: seq<ScheduledEvent>)
    requires |windows| == |d.actions| && forall e <- due :: FixedOf(d, e.id).Some? ==> BaseIs(d, windows, e)
    ensures Aligned(d, due)
  {
    hide FixedOf;
  }

  predicate BaseIs(d: Draft, windows: seq<int>, e: ScheduledEvent)
    requires |windows| == |d.actions| && FixedOf(d, e.id).Some?
  {
    FixedOf(d, e.id).value.0 < |windows| && BaseOf(d, e) == -windows[FixedOf(d, e.id).value.0]
  }

  lemma DeferredResult(d: Draft, x: DeferredEvent)
    requires SharedEventIds(d) && x in d.deferredEvents
    ensures ResultOf(Compile(d), x.id) == x.result
  {
    TableEntries(d.deferredEvents, DeferredKey);
    TableEntries(d.timedEvents, TimedKey);
    var c := Compile(d);
    forall id | id in c.timedEvents ensures id != x.id {
      assert c.timedEvents[id] in d.timedEvents;
    }
  }

  lemma TimedResult(d: Draft, t: TimedEvent)
    requires SharedEventIds(d) && t in d.timedEvents
    ensures ResultOf(Compile(d), t.id) == t.result
  {
    TableEntries(d.timedEvents, TimedKey);
  }

  lemma DueWordsLast(c: Compiled, due: seq<ScheduledEvent>, e: ScheduledEvent)
    ensures DueWords(c, due + [e]) == DueWords(c, due) + Text.WordCount(ResultOf(c, e.id))
  {
    assert (due + [e])[..|due|] == due;
  }

  /** The entries show what their templates say: their words are the words the player is shown. */
  lemma {:induction false} EntriesWords(d: Draft, windows: seq<int>, ticks: u64, events: seq<DeferredEvent>)
    requires |windows| == |d.actions| && ticks > 0 && SharedEventIds(d) && forall x <- events :: x in d.deferredEvents
    ensures DueWords(Compile(d), Entries(d, windows, ticks, events)) == ResolvedWords(d, windows, ticks, events)
    decreases |events|
  {
    if events == [] {
      assert Entries(d, windows, ticks, events) == [];
    } else {
      hide Resolves, EntryAt, SharedEventIds, Compile, ResultOf, DueWords, FixedOf;
      var front, last := events[..|events| - 1], events[|events| - 1];
      EntriesWords(d, windows, ticks, front);
      EntriesNext(d, windows, ticks, events);
      assert last in events;
      DeferredResult(d, last);
      if Resolves(d, windows, ticks, last) {
        EntryKeepsId(d, windows, ticks, last);
        DueWordsLast(Compile(d), Entries(d, windows, ticks, front), EntryAt(d, windows, ticks, last));
      }
    }
  }

  /** Some aligned entries that are due together show the player exactly as many words as the bound allows. */
  lemma ResultBoundAttained(d: Draft, ticks: u64, total: nat) returns (due: seq<ScheduledEvent>)
    requires ticks > 0 && SharedEventIds(d) && IsResultBound(d, ticks, total)
    ensures ResolvesTogether(d, 0, ticks, due) && DueWords(Compile(d), due) == total
  {
    hide ResolvesTogether, Cohort, IndependentWords, SumSeq, DueWords, Entries, Resolves, IsMaximumWindow, Compile;
    var maxima :| |maxima| == |d.actions| && CohortMaxima(d, ticks, maxima)
      && total == IndependentWords(d, d.deferredEvents) + SumSeq(maxima);
    var windows := BestWindows(d, ticks, maxima, |maxima|);
    due := Entries(d, windows, ticks, d.deferredEvents);
    EntriesTogether(d, windows, ticks);
    EntriesWords(d, windows, ticks, d.deferredEvents);
    ResolvedSplits(d, windows, ticks, d.deferredEvents);
    SumToIs(CohortWords(d, windows, ticks, d.deferredEvents), maxima);
  }

  /** The absolute events of a window, as the queue holds them. */
  function TimedEntries(events: seq<TimedEvent>, start: int, ticks: nat): seq<ScheduledEvent> {
    if events == [] then []
    else
      var last := events[|events| - 1];
      TimedEntries(events[..|events| - 1], start, ticks)
      + if start < last.due <= start + ticks then [ScheduledEvent(last.id, last.due, last.kind)] else []
  }

  lemma {:induction false} TimedEntriesWords(d: Draft, events: seq<TimedEvent>, start: int, ticks: nat)
    requires SharedEventIds(d) && forall t <- events :: t in d.timedEvents
    ensures DueWords(Compile(d), TimedEntries(events, start, ticks)) == WindowWords(TimedDues(events), start, ticks)
    decreases |events|
  {
    if events == [] {
      assert TimedEntries(events, start, ticks) == [] && TimedDues(events) == [];
    } else {
      hide SharedEventIds, DueWords, WindowWords, TimedDues, TimedEntries, Compile;
      var front, last := events[..|events| - 1], events[|events| - 1];
      assert last in events;
      TimedEntriesWords(d, front, start, ticks);
      TimedWordsNext(d, front, last, start, ticks);
      assert events == front + [last];
    }
  }

  lemma TimedWordsNext(d: Draft, front: seq<TimedEvent>, last: TimedEvent, start: int, ticks: nat)
    requires SharedEventIds(d) && last in d.timedEvents
    requires DueWords(Compile(d), TimedEntries(front, start, ticks)) == WindowWords(TimedDues(front), start, ticks)
    ensures DueWords(Compile(d), TimedEntries(front + [last], start, ticks))
         == WindowWords(TimedDues(front + [last]), start, ticks)
  {
    hide *;
    TimedResult(d, last);
    TimedWindowLast(front, last, start, ticks);
    TimedEntriesLast(front, last, start, ticks);
    DueWordsLast(Compile(d), TimedEntries(front, start, ticks), ScheduledEvent(last.id, last.due, last.kind));
  }

  lemma TimedEntriesLast(front: seq<TimedEvent>, last: TimedEvent, start: int, ticks: nat)
    ensures TimedEntries(front + [last], start, ticks)
         == if start < last.due <= start + ticks
            then TimedEntries(front, start, ticks) + [ScheduledEvent(last.id, last.due, last.kind)]
            else TimedEntries(front, start, ticks)
  {
    assert (front + [last])[..|front|] == front;
  }

  lemma TimedWindowLast(front: seq<TimedEvent>, last: TimedEvent, start: int, ticks: nat)
    ensures WindowWords(TimedDues(front + [last]), start, ticks)
         == WindowWords(TimedDues(front), start, ticks)
          + if start < last.due <= start + ticks then Text.WordCount(last.result) else 0
  {
    assert (front + [last])[..|front|] == front;
    var dues := TimedDues(front + [last]);
    assert dues[..|dues| - 1] == TimedDues(front);
  }

  lemma {:induction false} TimedEntriesAuthored(events: seq<TimedEvent>, start: int, ticks: nat)
    ensures forall e <- TimedEntries(events, start, ticks) ::
      start < e.due <= start + ticks && exists t <- events :: e == ScheduledEvent(t.id, t.due, t.kind)
    decreases |events|
  {
    if events != [] {
      var front, last := events[..|events| - 1], events[|events| - 1];
      TimedEntriesAuthored(front, start, ticks);
      assert events == front + [last];
    }
  }

  /** Some absolute events of one window show the player exactly as many words as the bound allows. */
  lemma TimedBoundAttained(d: Draft, ticks: nat, maximum: nat) returns (start: int, due: seq<ScheduledEvent>)
    requires SharedEventIds(d) && IsMaximumWindow(TimedDues(d.timedEvents), ticks, maximum)
    ensures forall e <- due ::
      start < e.due <= start + ticks && exists t <- d.timedEvents :: e == ScheduledEvent(t.id, t.due, t.kind)
    ensures DueWords(Compile(d), due) == maximum
  {
    hide SharedEventIds, DueWords, TimedDues, WindowWords, Compile;
    start :| WindowWords(TimedDues(d.timedEvents), start, ticks) == maximum;
    due := TimedEntries(d.timedEvents, start, ticks);
    TimedEntriesWords(d, d.timedEvents, start, ticks);
    TimedEntriesAuthored(d.timedEvents, start, ticks);
  }

  // ---- The readout bound ----

  /** A character with every listed resource misses the bound by exactly what the items are over-estimated. */
  lemma ReadoutIsTight(d: Draft, character: Character)
    requires character.resources.Keys == PotentialResources(d) && character.inventory.Keys <= PotentialItems(d)
    requires character.inventory != map[]
    ensures Text.WordCount(Readout(Compile(d), character)) + ItemBound(d)
         == SummaryBound(d) + SupplyBudget.LineWords(d, character.inventory.Keys)
  {
    hide Text.WordCount, Readout, PotentialResources, PotentialItems, ItemBound;
    ReadoutWords(Compile(d), character);
    CompiledLabels(d);
    assert character.inventory.Keys != {};
  }

  /** Without listed items the bound is exactly the readout of a character with every listed resource. */
  lemma EmptyReadoutIsTight(d: Draft, character: Character)
    requires character.resources.Keys == PotentialResources(d)
    requires character.inventory == map[] && PotentialItems(d) == {}
    ensures Text.WordCount(Readout(Compile(d), character)) == SummaryBound(d)
  {
    hide Text.WordCount, Readout, PotentialResources, ItemBound;
    ReadoutWords(Compile(d), character);
    CompiledLabels(d);
  }
}
