// Result words of deferred events that can resolve together (crates/forge-kernel/src/deferred_budget.rs).
module Cohorts {
  import opened Basics
  import opened Model
  import opened Content
  import opened Windows
  import Text

  /** How often a template is scheduled, and the action and offset of the last plain occurrence. */
  datatype ScheduleUse = ScheduleUse(count: nat, fixed: Option<(nat, u64)>)

  /** Where an effect runs: the index of its action and the time that passed before it. */
  type Occurrence = Option<(nat, u64)>

  type Templates = map<Id, DeferredEvent>

  const UNUSED := ScheduleUse(0, None)

  predicate Mentions(e: Effect, id: Id) {
    match e
    case ScheduleEvent(event) => event == id
    case RandomChance(_, onSuccess, onFailure) => Mentions(onSuccess, id) || Mentions(onFailure, id)
    case _ => false
  }

  function FixedOffset(templates: Templates, event: Id, occurrence: Occurrence): Option<(nat, u64)> {
    if occurrence.None? || event !in templates || occurrence.value.1 + templates[event].delay > U64_MAX then None
    else Some((occurrence.value.0, occurrence.value.1 + templates[event].delay))
  }

  /** What one effect adds to the uses of one template. */
  function UseAfterEffect(templates: Templates, e: Effect, occurrence: Occurrence, id: Id, u: ScheduleUse): ScheduleUse
    decreases e
  {
    match e
    case ScheduleEvent(event) =>
      if event == id then ScheduleUse(u.count + 1, FixedOffset(templates, event, occurrence)) else u
    case RandomChance(_, onSuccess, onFailure) =>
      UseAfterEffect(templates, onFailure, None, id, UseAfterEffect(templates, onSuccess, None, id, u))
    case _ => u
  }

  /** Time passed by the plain time advances of a program. */
  function Elapsed(effects: seq<Effect>): nat {
    if effects == [] then 0
    else
      var last := effects[|effects| - 1];
      Elapsed(effects[..|effects| - 1]) + if last.AdvanceTime? then last.ticks else 0
  }

  predicate NoChance(effects: seq<Effect>) {
    forall e <- effects :: !e.RandomChance?
  }

  /** A program whose duration no draw changes and that fits in u64. */
  predicate FixedDuration(effects: seq<Effect>) {
    NoChance(effects) && Elapsed(effects) <= U64_MAX
  }

  function OccurrenceAt(action: nat, effects: seq<Effect>, j: nat): Occurrence
    requires j <= |effects|
  {
    if FixedDuration(effects) && Elapsed(effects[..j]) <= U64_MAX then Some((action, Elapsed(effects[..j]))) else None
  }

  function UseInAction(
    templates: Templates, action: nat, effects: seq<Effect>, n: nat, id: Id, u: ScheduleUse): ScheduleUse
    requires n <= |effects|
  {
    if n == 0 then u
    else UseAfterEffect(
      templates, effects[n - 1], OccurrenceAt(action, effects, n - 1), id,
      UseInAction(templates, action, effects, n - 1, id, u))
  }

  function UseInActions(templates: Templates, actions: seq<ActionDefinition>, n: nat, id: Id): ScheduleUse
    requires n <= |actions|
  {
    if n == 0 then UNUSED
    else
      var effects := actions[n - 1].effects;
      UseInAction(templates, n - 1, effects, |effects|, id, UseInActions(templates, actions, n - 1, id))
  }

  /** Occurrences in event programs are never fixed. */
  function UseInEvents(templates: Templates, effects: seq<Effect>, n: nat, id: Id, u: ScheduleUse): ScheduleUse
    requires n <= |effects|
  {
    if n == 0 then u
    else UseAfterEffect(templates, effects[n - 1], None, id, UseInEvents(templates, effects, n - 1, id, u))
  }

  function TimedEffects(events: seq<TimedEvent>): seq<Effect> {
    if events == [] then [] else TimedEffects(events[..|events| - 1]) + events[|events| - 1].effects
  }

  function DeferredEffects(events: seq<DeferredEvent>): seq<Effect> {
    if events == [] then [] else DeferredEffects(events[..|events| - 1]) + events[|events| - 1].effects
  }

  function EventEffects(d: Draft): seq<Effect> {
    TimedEffects(d.timedEvents) + DeferredEffects(d.deferredEvents)
  }

  function TemplatesOf(d: Draft): Templates {
    Table(d.deferredEvents, DeferredKey)
  }

  function UseOf(d: Draft, id: Id): ScheduleUse {
    var effects := EventEffects(d);
    UseInEvents(TemplatesOf(d), effects, |effects|, id, UseInActions(TemplatesOf(d), d.actions, |d.actions|, id))
  }

  /** The action and offset of a template that is scheduled exactly once, plainly, by an action of fixed duration. */
  function FixedOf(d: Draft, id: Id): Option<(nat, u64)> {
    if UseOf(d, id).count == 1 then UseOf(d, id).fixed else None
  }

  // ---- What a fixed occurrence says about the content ----

  /** Effect i of action b is among the first n actions and m effects of the next. */
  predicate Processed(d: Draft, n: nat, m: nat, b: nat, i: nat) {
    b < |d.actions| && i < |d.actions[b].effects| && (b < n || (b == n && i < m))
  }

  ghost predicate OnlyAt(d: Draft, id: Id, n: nat, m: nat, a: nat, j: nat) {
    forall b: nat, i: nat | Processed(d, n, m, b, i) :: Mentions(d.actions[b].effects[i], id) ==> b == a && i == j
  }

  /** The single occurrence behind a fixed offset. */
  ghost predicate OccursAt(d: Draft, id: Id, a: nat, j: nat, offset: u64) {
    && a < |d.actions| && j < |d.actions[a].effects|
    && d.actions[a].effects[j] == ScheduleEvent(id)
    && FixedDuration(d.actions[a].effects)
    && id in TemplatesOf(d)
    && offset == Elapsed(d.actions[a].effects[..j]) + TemplatesOf(d)[id].delay
  }

  ghost predicate Unmentioned(d: Draft, id: Id, n: nat, m: nat) {
    forall b: nat, i: nat | Processed(d, n, m, b, i) :: !Mentions(d.actions[b].effects[i], id)
  }

  /** What a use says about the first n actions and m effects of the next. */
  ghost predicate Explains(d: Draft, id: Id, n: nat, m: nat, u: ScheduleUse) {
    && (u.count == 0 ==> Unmentioned(d, id, n, m))
    && (u.count == 1 && u.fixed.Some? ==>
          exists j :: OccursAt(d, id, u.fixed.value.0, j, u.fixed.value.1) && OnlyAt(d, id, n, m, u.fixed.value.0, j))
  }

  lemma {:induction false} UseOfEffect(templates: Templates, e: Effect, occurrence: Occurrence, id: Id, u: ScheduleUse)
    ensures var after := UseAfterEffect(templates, e, occurrence, id, u);
            if Mentions(e, id) then
              after.count > u.count && (after.count == 1 && after.fixed.Some? ==>
                e == ScheduleEvent(id) && after.fixed == FixedOffset(templates, id, occurrence))
            else after == u
    decreases e
  {
    if e.RandomChance? {
      UseOfEffect(templates, e.onSuccess, None, id, u);
      UseOfEffect(templates, e.onFailure, None, id, UseAfterEffect(templates, e.onSuccess, None, id, u));
    }
  }

  lemma ExplainsNext(d: Draft, id: Id, n: nat, m: nat, u: ScheduleUse)
    requires n < |d.actions| && m < |d.actions[n].effects| && Explains(d, id, n, m, u)
    ensures var effects := d.actions[n].effects;
            Explains(d, id, n, m + 1,
                     UseAfterEffect(TemplatesOf(d), effects[m], OccurrenceAt(n, effects, m), id, u))
  {
    var effects := d.actions[n].effects;
    UseOfEffect(TemplatesOf(d), effects[m], OccurrenceAt(n, effects, m), id, u);
    var after := UseAfterEffect(TemplatesOf(d), effects[m], OccurrenceAt(n, effects, m), id, u);
    if after.count == 1 && after.fixed.Some? {
      if Mentions(effects[m], id) {
        assert Unmentioned(d, id, n, m);
        assert OccursAt(d, id, n, m, after.fixed.value.1);
        assert OnlyAt(d, id, n, m + 1, n, m);
      } else {
        var j :| OccursAt(d, id, u.fixed.value.0, j, u.fixed.value.1) && OnlyAt(d, id, n, m, u.fixed.value.0, j);
        assert OnlyAt(d, id, n, m + 1, u.fixed.value.0, j);
      }
    }
  }

  lemma {:induction false} ActionExplained(d: Draft, id: Id, n: nat, m: nat, u: ScheduleUse)
    requires n < |d.actions| && m <= |d.actions[n].effects| && Explains(d, id, n, 0, u)
    ensures Explains(d, id, n, m, UseInAction(TemplatesOf(d), n, d.actions[n].effects, m, id, u))
    decreases m
  {
    if m > 0 {
      ActionExplained(d, id, n, m - 1, u);
      ExplainsNext(d, id, n, m - 1, UseInAction(TemplatesOf(d), n, d.actions[n].effects, m - 1, id, u));
    }
  }

  lemma {:induction false} ActionsExplained(d: Draft, id: Id, n: nat)
    requires n <= |d.actions|
    ensures Explains(d, id, n, 0, UseInActions(TemplatesOf(d), d.actions, n, id))
    decreases n
  {
    if n > 0 {
      ActionsExplained(d, id, n - 1);
      var before := UseInActions(TemplatesOf(d), d.actions, n - 1, id);
      ActionExplained(d, id, n - 1, |d.actions[n - 1].effects|, before);
      NextAction(d, id, n - 1, UseInActions(TemplatesOf(d), d.actions, n, id));
    }
  }

  lemma NextAction(d: Draft, id: Id, n: nat, u: ScheduleUse)
    requires n < |d.actions| && Explains(d, id, n, |d.actions[n].effects|, u)
    ensures Explains(d, id, n + 1, 0, u)
  {
    if u.count == 1 && u.fixed.Some? {
      var a := u.fixed.value.0;
      var j :| OccursAt(d, id, a, j, u.fixed.value.1) && OnlyAt(d, id, n, |d.actions[n].effects|, a, j);
      assert OnlyAt(d, id, n + 1, 0, a, j);
    }
  }

  lemma {:induction false} EventsExplained(d: Draft, id: Id, n: nat, u: ScheduleUse)
    requires n <= |EventEffects(d)| && Explains(d, id, |d.actions|, 0, u)
    ensures Explains(d, id, |d.actions|, 0, UseInEvents(TemplatesOf(d), EventEffects(d), n, id, u))
    decreases n
  {
    if n > 0 {
      EventsExplained(d, id, n - 1, u);
      UseOfEffect(TemplatesOf(d), EventEffects(d)[n - 1], None, id,
                  UseInEvents(TemplatesOf(d), EventEffects(d), n - 1, id, u));
    }
  }

  /** A template with a fixed offset is scheduled at one place only: plainly, in an action of fixed duration. */
  lemma FixedIsSole(d: Draft, id: Id) returns (j: nat)
    requires FixedOf(d, id).Some?
    ensures OccursAt(d, id, FixedOf(d, id).value.0, j, FixedOf(d, id).value.1)
    ensures OnlyAt(d, id, |d.actions|, 0, FixedOf(d, id).value.0, j)
  {
    ActionsExplained(d, id, |d.actions|);
    EventsExplained(d, id, |EventEffects(d)|, UseInActions(TemplatesOf(d), d.actions, |d.actions|, id));
    j :| OccursAt(d, id, FixedOf(d, id).value.0, j, FixedOf(d, id).value.1)
      && OnlyAt(d, id, |d.actions|, 0, FixedOf(d, id).value.0, j);
  }

  // ---- Collecting the uses ----

  type Uses = map<Id, ScheduleUse>

  function UseIn(uses: Uses, id: Id): ScheduleUse {
    if id in uses then uses[id] else UNUSED
  }

  method CollectScheduleUses(templates: Templates, e: Effect, occurrence: Occurrence, uses: Uses) returns (next: Uses)
    ensures forall id :: UseIn(next, id) == UseAfterEffect(templates, e, occurrence, id, UseIn(uses, id))
    decreases e
  {
    match e
    case ScheduleEvent(event) =>
      var count := UseIn(uses, event).count + 1;
      return uses[event := ScheduleUse(count, FixedOffset(templates, event, occurrence))];
    case RandomChance(_, onSuccess, onFailure) =>
      var middle := CollectScheduleUses(templates, onSuccess, None, uses);
      next := CollectScheduleUses(templates, onFailure, None, middle);
    case _ =>
      return uses;
  }

  lemma {:induction false} ElapsedPrefix(effects: seq<Effect>, j: nat)
    requires j <= |effects|
    ensures Elapsed(effects[..j]) <= Elapsed(effects)
    decreases |effects|
  {
    if j == |effects| {
      assert effects[..j] == effects;
    } else {
      ElapsedPrefix(effects[..|effects| - 1], j);
      assert effects[..|effects| - 1][..j] == effects[..j];
    }
  }

  /** The duration of a program that no draw changes. */
  method Duration(effects: seq<Effect>) returns (fixed: Option<u64>)
    ensures fixed.Some? <==> FixedDuration(effects)
    ensures fixed.Some? ==> fixed.value == Elapsed(effects)
  {
    var total := 0;
    for i := 0 to |effects|
      invariant total == Elapsed(effects[..i]) && total <= U64_MAX && NoChance(effects[..i])
    {
      ElapsedPrefix(effects, i + 1);
      assert effects[..i + 1][..i] == effects[..i];
      if effects[i].RandomChance? {
        return None;
      }
      if effects[i].AdvanceTime? {
        if total + effects[i].ticks > U64_MAX {
          return None;
        }
        total := total + effects[i].ticks;
      }
    }
    assert effects[..|effects|] == effects;
    return Some(total);
  }

  method CollectAction(templates: Templates, action: nat, effects: seq<Effect>, uses: Uses) returns (next: Uses)
    ensures forall id :: UseIn(next, id) == UseInAction(templates, action, effects, |effects|, id, UseIn(uses, id))
  {
    next := uses;
    var fixed := Duration(effects);
    var prefix: Option<u64> := Some(0);
    for j := 0 to |effects|
      invariant forall id :: UseIn(next, id) == UseInAction(templates, action, effects, j, id, UseIn(uses, id))
      invariant prefix == if Elapsed(effects[..j]) <= U64_MAX then Some(Elapsed(effects[..j])) else None
    {
      assert effects[..j + 1][..j] == effects[..j];
      var occurrence: Occurrence := if fixed.Some? && prefix.Some? then Some((action, prefix.value)) else None;
      next := CollectScheduleUses(templates, effects[j], occurrence, next);
      if effects[j].AdvanceTime? && prefix.Some? {
        prefix := CheckedAdd64(prefix.value, effects[j].ticks);
      }
    }
  }

  method CollectAll(d: Draft) returns (uses: Uses)
    ensures forall id :: UseIn(uses, id) == UseOf(d, id)
  {
    uses := map[];
    var templates := TemplatesOf(d);
    for n := 0 to |d.actions|
      invariant forall id :: UseIn(uses, id) == UseInActions(templates, d.actions, n, id)
    {
      uses := CollectAction(templates, n, d.actions[n].effects, uses);
    }
    var effects := EventEffects(d);
    ghost var started := uses;
    for n := 0 to |effects|
      invariant forall id :: UseIn(uses, id) == UseInEvents(templates, effects, n, id, UseIn(started, id))
    {
      uses := CollectScheduleUses(templates, effects[n], None, uses);
    }
  }

  // ---- The bound ----

  function ResultWords(e: DeferredEvent): nat {
    Text.WordCount(e.result)
  }

  function AllWords(events: seq<DeferredEvent>): nat {
    if events == [] then 0 else AllWords(events[..|events| - 1]) + ResultWords(events[|events| - 1])
  }

  predicate InCohort(d: Draft, id: Id, action: nat) {
    FixedOf(d, id).Some? && FixedOf(d, id).value.0 == action
  }

  /** The offsets and words of the templates an action schedules together. */
  function Cohort(d: Draft, events: seq<DeferredEvent>, action: nat): seq<Due> {
    if events == [] then []
    else
      var last := events[|events| - 1];
      var front := Cohort(d, events[..|events| - 1], action);
      if InCohort(d, last.id, action) then front + [Due(FixedOf(d, last.id).value.1, ResultWords(last))] else front
  }

  function IndependentWords(d: Draft, events: seq<DeferredEvent>): nat {
    if events == [] then 0
    else
      var last := events[|events| - 1];
      IndependentWords(d, events[..|events| - 1]) + if FixedOf(d, last.id).None? then ResultWords(last) else 0
  }

  function SumSeq(xs: seq<nat>): nat {
    if xs == [] then 0 else SumSeq(xs[..|xs| - 1]) + xs[|xs| - 1]
  }

  ghost predicate CohortMaxima(d: Draft, ticks: nat, maxima: seq<nat>) {
    |maxima| <= |d.actions|
    && forall a :: 0 <= a < |maxima| ==> IsMaximumWindow(Cohort(d, d.deferredEvents, a), ticks, maxima[a])
  }

  /** Every independent result, plus the largest window of every cohort. */
  ghost predicate IsResultBound(d: Draft, ticks: nat, total: nat) {
    if ticks == 0 then total == 0
    else if !DistinctIds(d.deferredEvents, DeferredKey) then total == AllWords(d.deferredEvents)
    else exists maxima :: |maxima| == |d.actions| && CohortMaxima(d, ticks, maxima)
                          && total == IndependentWords(d, d.deferredEvents) + SumSeq(maxima)
  }

  lemma DistinctLast<T>(xs: seq<T>, id: T -> Id)
    requires xs != []
    ensures DistinctIds(xs, id) <==>
      DistinctIds(xs[..|xs| - 1], id) && id(xs[|xs| - 1]) !in Table(xs[..|xs| - 1], id)
  {
    var n := |xs| - 1;
    var front, key := xs[..n], id(xs[n]);
    TableEntries(front, id);
    if DistinctIds(front, id) && key !in Table(front, id) {
      forall i, j | 0 <= i < j < |xs| ensures id(xs[i]) != id(xs[j]) {
        assert xs[i] == front[i] && front[i] in front;
        if j < n {
          assert front[j] == xs[j];
        }
      }
    }
    if DistinctIds(xs, id) {
      assert forall i :: 0 <= i < n ==> front[i] == xs[i];
      forall x | x in front ensures id(x) != key {
        var i :| 0 <= i < n && front[i] == x;
        assert id(xs[i]) != id(xs[n]);
      }
    }
  }

  lemma {:induction false} TableSize<T>(xs: seq<T>, id: T -> Id)
    ensures |Table(xs, id)| <= |xs|
    ensures |Table(xs, id)| == |xs| <==> DistinctIds(xs, id)
    decreases |xs|
  {
    if xs != [] {
      var n := |xs| - 1;
      TableSize(xs[..n], id);
      DistinctLast(xs, id);
      assert Table(xs, id).Keys == Table(xs[..n], id).Keys + {id(xs[n])};
    }
  }

  /** The results seen so far, sorted into independent ones and cohorts. */
  ghost predicate Grouped(d: Draft, events: seq<DeferredEvent>, independent: nat, cohorts: map<nat, seq<Due>>) {
    && independent == IndependentWords(d, events)
    && forall a :: CohortAt(cohorts, a) == Cohort(d, events, a)
  }

  function CohortAt(cohorts: map<nat, seq<Due>>, a: nat): seq<Due> {
    if a in cohorts then cohorts[a] else []
  }

  lemma GroupedIndependent(
    d: Draft, events: seq<DeferredEvent>, e: DeferredEvent, independent: nat, cohorts: map<nat, seq<Due>>)
    requires Grouped(d, events, independent, cohorts) && FixedOf(d, e.id).None?
    ensures Grouped(d, events + [e], independent + ResultWords(e), cohorts)
  {
    assert (events + [e])[..|events|] == events;
    forall a ensures CohortAt(cohorts, a) == Cohort(d, events + [e], a) {
      assert CohortAt(cohorts, a) == Cohort(d, events, a);
    }
  }

  lemma GroupedFixed(
    d: Draft, events: seq<DeferredEvent>, e: DeferredEvent, independent: nat, cohorts: map<nat, seq<Due>>)
    requires Grouped(d, events, independent, cohorts) && FixedOf(d, e.id).Some?
    ensures var (action, offset) := FixedOf(d, e.id).value;
            Grouped(d, events + [e], independent,
                    cohorts[action := CohortAt(cohorts, action) + [Due(offset, ResultWords(e))]])
  {
    assert (events + [e])[..|events|] == events;
    var (action, offset) := FixedOf(d, e.id).value;
    var after := cohorts[action := CohortAt(cohorts, action) + [Due(offset, ResultWords(e))]];
    forall a ensures CohortAt(after, a) == Cohort(d, events + [e], a) {
      assert CohortAt(cohorts, a) == Cohort(d, events, a);
    }
  }

  lemma GroupedNone(d: Draft)
    ensures Grouped(d, [], 0, map[])
  {
  }

  /** Sort the templates into independent results and cohorts by action. */
  method GroupByAction(d: Draft, uses: Uses) returns (independent: nat, cohorts: map<nat, seq<Due>>)
    requires forall id :: UseIn(uses, id) == UseOf(d, id)
    ensures Grouped(d, d.deferredEvents, independent, cohorts)
  {
    hide UseOf, ResultWords, IndependentWords, Cohort, Grouped;
    independent, cohorts := 0, map[];
    var events := d.deferredEvents;
    GroupedNone(d);
    for i := 0 to |events|
      invariant Grouped(d, events[..i], independent, cohorts)
    {
      assert events[..i + 1] == events[..i] + [events[i]];
      assert UseIn(uses, events[i].id) == UseOf(d, events[i].id);
      var u := UseIn(uses, events[i].id);
      var words := ResultWords(events[i]);
      if u.count == 1 && u.fixed.Some? {
        var (action, offset) := u.fixed.value;
        GroupedFixed(d, events[..i], events[i], independent, cohorts);
        cohorts := cohorts[action := CohortAt(cohorts, action) + [Due(offset, words)]];
      } else {
        GroupedIndependent(d, events[..i], events[i], independent, cohorts);
        independent := independent + words;
      }
    }
    assert events[..|events|] == events;
  }

  method CohortMaximum(cohort: seq<Due>, ticks: nat) returns (maximum: nat)
    requires ticks > 0
    ensures IsMaximumWindow(cohort, ticks, maximum)
  {
    SortDueSorted(cohort);
    maximum := MaximumRun(SortDue(cohort), ticks);
    SortDueMaximum(cohort, ticks, maximum);
  }

  /** maximum_result_words: an independent sum plus a largest window per cohort. */
  method MaximumResultWords(d: Draft, ticks: nat) returns (total: nat)
    ensures IsResultBound(d, ticks, total)
  {
    if ticks == 0 {
      return 0;
    }
    TableSize(d.deferredEvents, DeferredKey);
    if |TemplatesOf(d)| != |d.deferredEvents| {
      return AllWords(d.deferredEvents);
    }
    var uses := CollectAll(d);
    var independent, cohorts := GroupByAction(d, uses);
    total := independent;
    ghost var maxima: seq<nat> := [];
    for a := 0 to |d.actions|
      invariant |maxima| == a && CohortMaxima(d, ticks, maxima)
      invariant total == independent + SumSeq(maxima)
    {
      var maximum := CohortMaximum(CohortAt(cohorts, a), ticks);
      assert (maxima + [maximum])[..a] == maxima;
      maxima := maxima + [maximum];
      total := total + maximum;
    }
  }
}
