// What a player is shown (observe_with_result and observe_after_transition in crates/forge-kernel/src/content.rs).
module Observation {
  import opened Basics
  import opened Model
  import opened Content
  import opened Effects
  import opened Kernel
  import opened Schedule
  import opened Timeline
  import opened Text
  import opened SupplyReadout
  import opened ResultBudget
  import Validation

  datatype ObserveError = UnknownPlace | LedgerDiffers | UnknownResult | KindDiffers | TooLong

  datatype Observation = Observation(location: Id, text: string, summary: string, result: Option<string>)

  function LocationText(place: LocationDefinition, s: GameState): string {
    SelectText(place.description, place.variants, s)
  }

  /** Result first, then the location; refused at the word limit. */
  function ObserveWith(c: Compiled, s: GameState, result: Option<string>): Result<Observation, ObserveError> {
    if s.world.location !in c.locations then Err(UnknownPlace)
    else
      var place := LocationText(c.locations[s.world.location], s);
      var text := if result.Some? then result.value + [' '] + place else place;
      var summary := Readout(c, s.character);
      if WordCount(text) + WordCount(summary) >= OBSERVATION_WORD_LIMIT then Err(TooLong)
      else Ok(Observation(s.world.location, text, summary, result))
  }

  function KindOfEvent(c: Compiled, id: Id): Option<Id> {
    if id in c.timedEvents then Some(c.timedEvents[id].kind)
    else if id in c.deferredEvents then Some(c.deferredEvents[id].kind)
    else None
  }

  /** The result texts of the events that applied, in resolution order. */
  function ResultsOf(c: Compiled, events: seq<Event>): Result<seq<string>, ObserveError> {
    if events == [] then Ok([])
    else
      var earlier := ResultsOf(c, events[..|events| - 1]);
      var last := events[|events| - 1].kind;
      if earlier.Err? || !last.Resolved? || !last.applied then earlier
      else if KindOfEvent(c, last.event).None? then Err(UnknownResult)
      else if KindOfEvent(c, last.event) != Some(last.eventKind) then Err(KindDiffers)
      else Ok(earlier.value + [ResultOf(c, last.event)])
  }

  function ActionText(a: ActionDefinition, s: GameState): string {
    SelectText(ShownResult(a), a.variants, s)
  }

  /** The transition's events are the end of the state's ledger. */
  predicate EndsWith(log: seq<Event>, events: seq<Event>) {
    |events| <= |log| && log[|log| - |events|..] == events
  }

  function ObservationAfter(c: Compiled, t: Transition): Result<Observation, ObserveError>
    requires t.action in c.actions
  {
    var results := ResultsOf(c, t.events);
    if !EndsWith(t.state.log, t.events) then Err(LedgerDiffers)
    else if results.Err? then Err(results.error)
    else ObserveWith(c, t.state, Some(Join([ActionText(c.actions[t.action], t.state)] + results.value, " ")))
  }

  /** observe_after_transition. */
  method ObserveAfterTransition(c: Compiled, t: Transition) returns (r: Result<Observation, ObserveError>)
    requires t.action in c.actions
    ensures r == ObservationAfter(c, t)
  {
    hide EndsWith, ObserveWith, Join, ActionText;
    if !EndsWith(t.state.log, t.events) {
      return Err(LedgerDiffers);
    }
    var parts := [ActionText(c.actions[t.action], t.state)];
    ghost var first := parts;
    ghost var results: seq<string> := [];
    for i := 0 to |t.events|
      invariant parts == first + results && ResultsOf(c, t.events[..i]) == Ok(results)
    {
      assert t.events[..i + 1][..i] == t.events[..i];
      var kind := t.events[i].kind;
      if kind.Resolved? && kind.applied {
        var shown := KindOfEvent(c, kind.event);
        if shown.None? {
          FailedResults(c, t.events, i + 1);
          return Err(UnknownResult);
        }
        if shown.value != kind.eventKind {
          FailedResults(c, t.events, i + 1);
          return Err(KindDiffers);
        }
        parts := parts + [ResultOf(c, kind.event)];
        results := results + [ResultOf(c, kind.event)];
      }
    }
    assert t.events[..|t.events|] == t.events;
    r := ObserveWith(c, t.state, Some(Join(parts, " ")));
  }

  lemma {:induction false} FailedResults(c: Compiled, events: seq<Event>, n: nat)
    requires n <= |events| && ResultsOf(c, events[..n]).Err?
    ensures ResultsOf(c, events) == ResultsOf(c, events[..n])
    decreases |events| - n
  {
    if n == |events| {
      assert events[..n] == events;
    } else {
      assert events[..n + 1][..n] == events[..n];
      FailedResults(c, events, n + 1);
    }
  }

  // ---- The results a step shows ----

  lemma {:induction false} SilentResults(c: Compiled, events: seq<Event>, longer: seq<Event>)
    requires events <= longer && forall i :: |events| <= i < |longer| ==> !longer[i].kind.Resolved?
    ensures ResultsOf(c, longer) == ResultsOf(c, events)
    decreases |longer|
  {
    if |events| < |longer| {
      SilentResults(c, events, longer[..|longer| - 1]);
    } else {
      assert events == longer;
    }
  }

  lemma PlainResolvesNothing(c: Compiled, parameters: Parameters, e: Effect, m: Machine)
    requires !e.RandomChance? && ApplyPlain(c, parameters, e, m).Ok?
    ensures var after := ApplyPlain(c, parameters, e, m).value;
            m.events <= after.events && forall i :: |m.events| <= i < |after.events| ==> !after.events[i].kind.Resolved?
  {
  }

  lemma {:induction false} EffectShowsNothing(
    c: Compiled, stream: Stream, parameters: Parameters, e: Effect, m: Machine)
    requires ApplyEffect(c, stream, parameters, e, m).Ok?
    ensures ResultsOf(c, ApplyEffect(c, stream, parameters, e, m).value.events) == ResultsOf(c, m.events)
    decreases e
  {
    if e.RandomChance? {
      var drawn := Chance(stream, e.percent, m).value;
      SilentResults(c, m.events, drawn.0.events);
      EffectShowsNothing(c, stream, parameters, if drawn.1 then e.onSuccess else e.onFailure, drawn.0);
    } else {
      PlainResolvesNothing(c, parameters, e, m);
      SilentResults(c, m.events, ApplyPlain(c, parameters, e, m).value.events);
    }
  }

  lemma {:induction false} EffectsShowNothing(
    c: Compiled, stream: Stream, parameters: Parameters, effects: seq<Effect>, m: Machine)
    requires ApplyEffects(c, stream, parameters, effects, m).Ok?
    ensures ResultsOf(c, ApplyEffects(c, stream, parameters, effects, m).value.events) == ResultsOf(c, m.events)
    decreases |effects|
  {
    if effects != [] {
      EffectShowsNothing(c, stream, parameters, effects[0], m);
      EffectsShowNothing(c, stream, parameters, effects[1..], ApplyEffect(c, stream, parameters, effects[0], m).value);
    }
  }

  /** A resolved entry shows its result once if its condition held, and nothing otherwise. */
  lemma ResolveOneShows(c: Compiled, stream: Stream, e: ScheduledEvent, m: Machine)
    requires ResolveOne(c, stream, e, m).Ok? && ResultsOf(c, m.events).Ok?
    ensures ProgramOf(c, e).Some?
    ensures ResultsOf(c, ResolveOne(c, stream, e, m).value.events)
         == Ok(ResultsOf(c, m.events).value
               + if ProgramOf(c, e).value.condition.Holds(m.state) then [ResultOf(c, e.id)] else [])
  {
    var noted := Noted(c, e, m);
    assert noted.events[..|m.events|] == m.events;
    var program := ProgramOf(c, e).value;
    if program.condition.Holds(m.state) {
      EffectsShowNothing(c, stream, map[], program.effects, noted);
    } else {
      assert ResultsOf(c, m.events).value + [] == ResultsOf(c, m.events).value;
    }
  }

  lemma {:induction false} ResolveAllShows(c: Compiled, stream: Stream, due: seq<ScheduledEvent>, m: Machine)
    requires ResolveAll(c, stream, due, m).Ok? && ResultsOf(c, m.events).Ok?
    ensures var shown := ResultsOf(c, ResolveAll(c, stream, due, m).value.events);
            shown.Ok? && SumWords(shown.value) <= SumWords(ResultsOf(c, m.events).value) + DueWords(c, due)
    ensures forall e <- due :: ProgramOf(c, e).Some?
    decreases |due|
  {
    if due != [] {
      var next := ResolveOne(c, stream, due[0], m).value;
      ResolveOneShows(c, stream, due[0], m);
      ResolveAllShows(c, stream, due[1..], next);
      DueWordsHead(c, due);
      var before := ResultsOf(c, m.events).value;
      assert (before + [ResultOf(c, due[0].id)])[..|before|] == before;
      assert before + [] == before;
    }
  }

  lemma {:induction false} DueWordsHead(c: Compiled, due: seq<ScheduledEvent>)
    requires due != []
    ensures DueWords(c, due) == WordCount(ResultOf(c, due[0].id)) + DueWords(c, due[1..])
    decreases |due|
  {
    var n := |due| - 1;
    if n == 0 {
      assert due[..0] == [] && due[1..] == [];
    } else {
      DueWordsHead(c, due[..n]);
      assert due[..n][1..] == due[1..][..n - 1];
    }
  }

  /** The event results a transition shows are no more words than all entries it resolves have. */
  lemma StepShows(c: Compiled, stream: Stream, s: GameState, action: Id, parameters: Parameters)
    requires Step(c, stream, s, action, parameters).Ok?
    ensures var t := Step(c, stream, s, action, parameters).value;
            var acted := ApplyEffects(c, stream, parameters, c.actions[action].effects, Effects.Start(s)).value;
            && EndsWith(t.state.log, t.events)
            && ResultsOf(c, t.events).Ok?
            && SumWords(ResultsOf(c, t.events).value) <= DueWords(c, DueNow(acted))
            && AuthoredDue(c, DueNow(acted))
  {
    var m := Effects.Start(s);
    EffectsShowNothing(c, stream, parameters, c.actions[action].effects, m);
    var acted := ApplyEffects(c, stream, parameters, c.actions[action].effects, m).value;
    ResolveAllShows(c, stream, DueNow(acted), WithoutDue(acted));
  }

  // ---- Texts ----

  function MaximumText(fallback: string, variants: seq<TextVariant>): nat {
    if variants == [] then WordCount(fallback)
    else Max(MaximumText(fallback, variants[..|variants| - 1]), WordCount(variants[|variants| - 1].text))
  }

  lemma {:induction false} FallbackAtMost(fallback: string, variants: seq<TextVariant>)
    ensures WordCount(fallback) <= MaximumText(fallback, variants)
    decreases |variants|
  {
    if variants != [] {
      FallbackAtMost(fallback, variants[..|variants| - 1]);
    }
  }

  lemma {:induction false} BestAtMost(fallback: string, variants: seq<TextVariant>, s: GameState)
    requires BestVariant(variants, s).Some?
    ensures WordCount(BestVariant(variants, s).value.text) <= MaximumText(fallback, variants)
    decreases |variants|
  {
    var front := variants[..|variants| - 1];
    if BestVariant(variants, s) == BestVariant(front, s) {
      BestAtMost(fallback, front, s);
    }
  }

  /** Whatever variant a state selects, the text is within the maximum over all of them. */
  lemma SelectedAtMost(fallback: string, variants: seq<TextVariant>, s: GameState)
    ensures WordCount(SelectText(fallback, variants, s)) <= MaximumText(fallback, variants)
  {
    FallbackAtMost(fallback, variants);
    if BestVariant(variants, s).Some? {
      BestAtMost(fallback, variants, s);
    }
  }

  function LocationMaximum(places: seq<LocationDefinition>): nat {
    if places == [] then 0
    else
      var last := places[|places| - 1];
      Max(LocationMaximum(places[..|places| - 1]), MaximumText(last.description, last.variants))
  }

  lemma {:induction false} LocationAtMost(places: seq<LocationDefinition>, place: LocationDefinition)
    requires place in places
    ensures MaximumText(place.description, place.variants) <= LocationMaximum(places)
    decreases |places|
  {
    if place != places[|places| - 1] {
      LocationAtMost(places[..|places| - 1], place);
    }
  }

  // ---- The bounds are attained ----

  /** A text a place or an action can show in some state, as far as its author is concerned. */
  predicate TextOf(fallback: string, variants: seq<TextVariant>, text: string) {
    text == fallback || exists v <- variants :: v.text == text
  }

  lemma {:induction false} LongestText(fallback: string, variants: seq<TextVariant>) returns (text: string)
    ensures TextOf(fallback, variants, text) && WordCount(text) == MaximumText(fallback, variants)
    decreases |variants|
  {
    text := fallback;
    if variants != [] {
      var last := variants[|variants| - 1];
      text := LongestText(fallback, variants[..|variants| - 1]);
      if WordCount(text) < WordCount(last.text) {
        text := last.text;
      }
    }
  }

  lemma {:induction false} EveryTextAtMost(fallback: string, variants: seq<TextVariant>, text: string)
    requires TextOf(fallback, variants, text)
    ensures WordCount(text) <= MaximumText(fallback, variants)
    decreases |variants|
  {
    if variants != [] {
      var front, last := variants[..|variants| - 1], variants[|variants| - 1];
      assert variants == front + [last];
      if text == last.text {
        FallbackAtMost(fallback, front);
      } else {
        EveryTextAtMost(fallback, front, text);
      }
    }
  }

  /** The maximum is the longest authored text's, no more and no less. */
  lemma MaximumTextIsLongest(fallback: string, variants: seq<TextVariant>, limit: int)
    ensures MaximumText(fallback, variants) < limit <==>
      forall text | TextOf(fallback, variants, text) :: WordCount(text) < limit
  {
    var longest := LongestText(fallback, variants);
    forall text | TextOf(fallback, variants, text) ensures WordCount(text) <= MaximumText(fallback, variants) {
      EveryTextAtMost(fallback, variants, text);
    }
  }

  /** A text of one of the places. */
  predicate PlaceText(places: seq<LocationDefinition>, text: string) {
    exists place <- places :: TextOf(place.description, place.variants, text)
  }

  lemma {:induction false} LongestPlaceText(places: seq<LocationDefinition>) returns (text: string)
    ensures places == [] ==> LocationMaximum(places) == 0
    ensures places != [] ==> PlaceText(places, text) && WordCount(text) == LocationMaximum(places)
    decreases |places|
  {
    text := "";
    if places != [] {
      var front, last := places[..|places| - 1], places[|places| - 1];
      assert places == front + [last];
      text := LongestText(last.description, last.variants);
      assert PlaceText(places, text);
      if LocationMaximum(front) > MaximumText(last.description, last.variants) {
        text := LongestPlaceText(front);
      }
    }
  }

  lemma PlaceTextAtMost(places: seq<LocationDefinition>, text: string)
    requires PlaceText(places, text)
    ensures WordCount(text) <= LocationMaximum(places)
  {
    var place :| place in places && TextOf(place.description, place.variants, text);
    LocationAtMost(places, place);
    EveryTextAtMost(place.description, place.variants, text);
  }

  // ---- The text that is selected ----

  predicate Chosen(variants: seq<TextVariant>, s: GameState, v: TextVariant) {
    && v in variants && v.condition.Holds(s)
    && forall u <- variants :: u.condition.Holds(s) ==>
         u.priority < v.priority || (u.priority == v.priority && !Less(u.id, v.id))
  }

  lemma {:induction false} BestIsChosen(variants: seq<TextVariant>, s: GameState)
    ensures BestVariant(variants, s).None? <==> forall u <- variants :: !u.condition.Holds(s)
    ensures BestVariant(variants, s).Some? ==> Chosen(variants, s, BestVariant(variants, s).value)
    decreases |variants|
  {
    if variants != [] {
      var front, last := variants[..|variants| - 1], variants[|variants| - 1];
      assert variants == front + [last];
      BestIsChosen(front, s);
      LessIrreflexive(last.id);
      var earlier := BestVariant(front, s);
      if last.condition.Holds(s) && earlier.Some? {
        OutranksAll(front, s, earlier.value, last);
      }
    }
  }

  lemma OutranksAll(variants: seq<TextVariant>, s: GameState, best: TextVariant, last: TextVariant)
    requires Chosen(variants, s, best)
    ensures if last.priority > best.priority || (last.priority == best.priority && Less(last.id, best.id))
            then forall u <- variants :: u.condition.Holds(s) ==>
                   u.priority < last.priority || (u.priority == last.priority && !Less(u.id, last.id))
            else last.priority < best.priority || (last.priority == best.priority && !Less(last.id, best.id))
  {
    forall u | u in variants && Less(u.id, last.id) && Less(last.id, best.id) ensures Less(u.id, best.id) {
      LessTransitive(u.id, last.id, best.id);
    }
  }

  /** The text shown is that of a holding variant of the highest priority, the least id breaking ties, or the fallback. */
  lemma SelectedIsChosen(fallback: string, variants: seq<TextVariant>, s: GameState)
    ensures (exists v <- variants :: Chosen(variants, s, v) && SelectText(fallback, variants, s) == v.text)
         || ((forall u <- variants :: !u.condition.Holds(s)) && SelectText(fallback, variants, s) == fallback)
  {
    BestIsChosen(variants, s);
  }
}
