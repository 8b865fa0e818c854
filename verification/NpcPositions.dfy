// Where every NPC may be: the entity index and the move history (validate_state and validate_production_npc_positions).
module NpcPositions {
  import opened Basics
  import opened Model
  import opened Content
  import opened Effects
  import opened Kernel
  import opened Chronicle
  import opened Validation
  import Timeline

  // ---- The move history ----

  /** A move of a known NPC between two known places, from where it was, in order and not in the future. */
  predicate LawfulMove(c: Compiled, s: GameState, n: nat)
    requires n < |s.log|
  {
    var r := s.log[n];
    r.kind.NpcMoved? ==>
      && r.turn <= s.world.time
      && (forall m :: 0 <= m < n && s.log[m].kind.NpcMoved? ==> s.log[m].turn <= r.turn)
      && r.kind.npc in c.npcs && r.kind.origin in c.locations && r.kind.destination in c.locations
      && r.kind.origin != r.kind.destination
      && r.kind.origin == Whereabouts(c.npcs[r.kind.npc].location, s.log[..n], r.kind.npc)
  }

  /** Every move is lawful and every NPC is where its last move took it. */
  predicate PositionsAdmitted(c: Compiled, s: GameState) {
    && (forall n :: 0 <= n < |s.log| ==> LawfulMove(c, s, n))
    && forall npc <- c.npcs :: npc in s.world.npcs ==>
         s.world.npcs[npc].location == Whereabouts(c.npcs[npc].location, s.log, npc)
  }

  /** What the loop knows of the records before it, as long as it has found no issue. */
  ghost predicate Follows(c: Compiled, s: GameState, n: nat, expected: map<Id, Id>, previous: Option<u64>)
    requires n <= |s.log|
  {
    && expected.Keys == c.npcs.Keys
    && (forall npc <- c.npcs :: expected[npc] == Whereabouts(c.npcs[npc].location, s.log[..n], npc))
    && (forall m :: 0 <= m < n && s.log[m].kind.NpcMoved? ==> previous.Some? && s.log[m].turn <= previous.value)
    && (previous.Some? ==> exists m :: 0 <= m < n && s.log[m].kind.NpcMoved? && s.log[m].turn == previous.value)
  }

  lemma OtherRecord(c: Compiled, s: GameState, n: nat, expected: map<Id, Id>, previous: Option<u64>)
    requires n < |s.log| && Follows(c, s, n, expected, previous) && !s.log[n].kind.NpcMoved?
    ensures Follows(c, s, n + 1, expected, previous)
  {
    assert s.log[..n + 1][..n] == s.log[..n];
  }

  lemma MoveRecord(c: Compiled, s: GameState, n: nat, expected: map<Id, Id>, previous: Option<u64>)
    requires n < |s.log| && Follows(c, s, n, expected, previous) && s.log[n].kind.NpcMoved?
    ensures var r := s.log[n]; var k := r.kind;
            && (k.npc in expected <==> k.npc in c.npcs)
            && (LawfulMove(c, s, n) <==>
                  && (previous.Some? ==> previous.value <= r.turn) && r.turn <= s.world.time
                  && k.npc in expected && k.origin in c.locations && k.destination in c.locations
                  && k.origin != k.destination && expected[k.npc] == k.origin)
            && (LawfulMove(c, s, n) ==> Follows(c, s, n + 1, expected[k.npc := k.destination], Some(r.turn)))
  {
    assert s.log[..n + 1][..n] == s.log[..n];
  }

  ghost predicate LawfulMoves(c: Compiled, s: GameState, n: nat)
    requires n <= |s.log|
  {
    forall m :: 0 <= m < n ==> LawfulMove(c, s, m)
  }

  /** Follow the moves; the first unlawful one decides, the rest of the ledger is still read. */
  method FollowMoves(c: Compiled, s: GameState) returns (ok: bool, expected: map<Id, Id>)
    ensures ok <==> LawfulMoves(c, s, |s.log|)
    ensures ok ==> expected.Keys == c.npcs.Keys
                   && forall npc <- c.npcs :: expected[npc] == Whereabouts(c.npcs[npc].location, s.log, npc)
  {
    expected := map npc <- c.npcs :: c.npcs[npc].location;
    var previous: Option<u64> := None;
    ok := true;
    for n := 0 to |s.log|
      invariant ok <==> LawfulMoves(c, s, n)
      invariant ok ==> Follows(c, s, n, expected, previous)
    {
      hide LawfulMove, Follows;
      var r := s.log[n];
      if !r.kind.NpcMoved? {
        NoMoveIsLawful(c, s, n);
        if ok {
          OtherRecord(c, s, n, expected, previous);
        }
        continue;
      }
      if ok {
        MoveRecord(c, s, n, expected, previous);
      }
      var fine := previous.Some? ==> previous.value <= r.turn;
      fine := fine && r.turn <= s.world.time && r.kind.npc in c.npcs && r.kind.origin in c.locations
              && r.kind.destination in c.locations && r.kind.origin != r.kind.destination;
      previous := Some(r.turn);
      if r.kind.npc in expected && expected[r.kind.npc] == r.kind.origin {
        expected := expected[r.kind.npc := r.kind.destination];
      } else {
        fine := false;
      }
      ok := ok && fine;
    }
    assert s.log[..|s.log|] == s.log;
  }

  method AllThere(expected: map<Id, Id>, npcs: map<Id, NpcState>) returns (ok: bool)
    ensures ok <==> forall npc <- expected :: npc in npcs ==> npcs[npc].location == expected[npc]
  {
    ok := true;
    var rest := expected.Keys;
    while rest != {}
      invariant rest <= expected.Keys
      invariant ok <==> forall npc <- expected.Keys - rest :: npc in npcs ==> npcs[npc].location == expected[npc]
    {
      var npc :| npc in rest;
      if npc in npcs && npcs[npc].location != expected[npc] {
        ok := false;
      }
      rest := rest - {npc};
    }
    assert expected.Keys - {} == expected.Keys;
  }

  /** validate_production_npc_positions: follow the moves, then compare where everybody is. */
  method ValidateNpcPositions(c: Compiled, s: GameState) returns (ok: bool)
    ensures ok <==> PositionsAdmitted(c, s)
  {
    hide LawfulMove;
    var lawful, expected := FollowMoves(c, s);
    var there := AllThere(expected, s.world.npcs);
    ok := lawful && there;
  }

  lemma NoMoveIsLawful(c: Compiled, s: GameState, n: nat)
    requires n < |s.log| && !s.log[n].kind.NpcMoved?
    ensures LawfulMove(c, s, n)
  {
  }

  // ---- Every run ----

  /** The state has everybody where the content put them. */
  predicate AtHome(c: Compiled, g: GameState) {
    && g.world.locations.Keys == c.locations.Keys && g.world.npcs.Keys == c.npcs.Keys
    && forall npc <- g.world.npcs :: g.world.npcs[npc].location == c.npcs[npc].location
  }

  lemma HomesAreKnown(d: Draft)
    requires StructureValid(d)
    ensures forall npc <- Compile(d).npcs :: Compile(d).npcs[npc].location in Compile(d).locations
  {
    TableEntries(d.npcs, NpcKey);
    TableEntries(d.locations, LocationKey);
    var c := Compile(d);
    forall npc | npc in c.npcs ensures c.npcs[npc].location in c.locations {
      assert c.npcs[npc] in d.npcs;
    }
  }

  lemma NewGameIndexed(c: Compiled, character: Character, start: CharacterStart, seed: u64)
    requires forall npc <- c.npcs :: c.npcs[npc].location in c.locations
    ensures var g := NewGame(c, character, start, seed); Indexed(g.world) && AtHome(c, g)
  {
    hide SortedQueue;
  }

  lemma StartIndexed(d: Draft, start: GameState)
    requires StructureValid(d) && AuthoredStart(Compile(d), start)
    ensures Indexed(start.world) && AtHome(Compile(d), start)
  {
    hide StructureValid, Compile, AuthoredCharacter, NewGame, Indexed, AtHome;
    HomesAreKnown(d);
    NewGameIndexed(Compile(d), start.character, start.start, start.entropy.seed);
  }

  lemma LawfulWhenTold(c: Compiled, g: GameState, s: GameState, n: nat)
    requires RouteTold(g, s, s.log) && OrderTold(s, s.log) && n < |s.log|
    requires AtHome(c, g)
    ensures LawfulMove(c, s, n)
  {
    assert RouteAt(g, s.log, n);
  }

  lemma ReachableFromHome(d: Draft, stream: Stream, s: GameState) returns (g: GameState)
    requires StructureValid(d) && Reachable(Compile(d), stream, s)
    ensures Indexed(g.world) && AtHome(Compile(d), g) && AllTold(g, s, s.log)
  {
    hide *;
    g := ReachableTold(Compile(d), stream, s);
    StartIndexed(d, g);
  }

  lemma TogetherAdmitted(c: Compiled, g: GameState, s: GameState)
    requires AtHome(c, g) && AllTold(g, s, s.log)
    ensures PositionsAdmitted(c, s)
  {
    hide LawfulMove, ClockTold, RouteTold, OrderTold;
    forall n | 0 <= n < |s.log| ensures LawfulMove(c, s, n) {
      LawfulWhenTold(c, g, s, n);
    }
  }

  /** In every state of every run all moves are lawful, everybody is where they lead, and the index lists exactly that. */
  lemma ReachablePositions(d: Draft, stream: Stream, s: GameState)
    requires StructureValid(d) && Reachable(Compile(d), stream, s)
    ensures PositionsAdmitted(Compile(d), s) && Indexed(s.world)
  {
    var c := Compile(d);
    var g := ReachableFromHome(d, stream, s);
    hide StructureValid, Reachable, Compile, AtHome, PositionsAdmitted, Indexed;
    TogetherAdmitted(c, g, s);
  }

  // ---- The index never breaks ----

  lemma RelocationUnbroken(c: Compiled, m: Machine, npc: Id, place: Id)
    requires Indexed(m.state.world)
    ensures RelocateNpc(c, m, npc, place) != Err(BrokenIndex)
  {
  }

  lemma PlainUnbroken(c: Compiled, parameters: Parameters, e: Effect, m: Machine)
    requires !e.RandomChance? && Indexed(m.state.world)
    ensures ApplyPlain(c, parameters, e, m) != Err(BrokenIndex)
  {
    hide Indexed;
    forall npc, place ensures RelocateNpc(c, m, npc, place) != Err(BrokenIndex) {
      RelocationUnbroken(c, m, npc, place);
    }
    hide RelocateNpc;
  }

  /** What a machine reached from an indexed state tells. */
  ghost predicate Placed(g: GameState, m: Machine) {
    Indexed(g.world) && Tells(g, m)
  }

  lemma PlacedIsIndexed(g: GameState, m: Machine)
    requires Placed(g, m)
    ensures Indexed(m.state.world)
  {
  }

  lemma {:induction false} EffectUnbroken(
    c: Compiled, g: GameState, stream: Stream, parameters: Parameters, e: Effect, m: Machine)
    requires Placed(g, m)
    ensures ApplyEffect(c, stream, parameters, e, m) != Err(BrokenIndex)
    decreases e
  {
    hide Tells, ApplyPlain, Recorded, Indexed;
    if e.RandomChance? {
      if Chance(stream, e.percent, m).Ok? {
        var drawn := Chance(stream, e.percent, m).value;
        SilentRecorded(m, drawn.0);
        RecordedTells(g, m, drawn.0);
        EffectUnbroken(c, g, stream, parameters, if drawn.1 then e.onSuccess else e.onFailure, drawn.0);
      }
    } else {
      PlacedIsIndexed(g, m);
      PlainUnbroken(c, parameters, e, m);
    }
  }

  lemma {:induction false} EffectsUnbroken(
    c: Compiled, g: GameState, stream: Stream, parameters: Parameters, effects: seq<Effect>, m: Machine)
    requires Placed(g, m)
    ensures ApplyEffects(c, stream, parameters, effects, m) != Err(BrokenIndex)
    decreases |effects|
  {
    hide Tells, ApplyEffect, Indexed;
    if effects != [] {
      EffectUnbroken(c, g, stream, parameters, effects[0], m);
      var next := ApplyEffect(c, stream, parameters, effects[0], m);
      if next.Ok? {
        EffectTells(c, g, stream, parameters, effects[0], m);
        EffectsUnbroken(c, g, stream, parameters, effects[1..], next.value);
      }
    }
  }

  lemma ResolutionUnbroken(c: Compiled, g: GameState, stream: Stream, e: ScheduledEvent, m: Machine)
    requires Placed(g, m)
    ensures ResolveOne(c, stream, e, m) != Err(BrokenIndex)
  {
    hide Tells, ApplyEffects, Recorded, Indexed;
    var program := ProgramOf(c, e);
    if program.Some? && program.value.condition.Holds(m.state) {
      var noted := EmitWorld(m, m.state.world, Resolved(e.id, e.kind, true));
      SilentRecorded(m, noted);
      RecordedTells(g, m, noted);
      EffectsUnbroken(c, g, stream, map[], program.value.effects, noted);
    }
  }

  lemma {:induction false} ResolutionsUnbroken(c: Compiled, g: GameState, stream: Stream, due: seq<ScheduledEvent>, m: Machine)
    requires Placed(g, m)
    ensures ResolveAll(c, stream, due, m) != Err(BrokenIndex)
    decreases |due|
  {
    hide Tells, ResolveOne, Indexed;
    if due != [] {
      ResolutionUnbroken(c, g, stream, due[0], m);
      if ResolveOne(c, stream, due[0], m).Ok? {
        ResolutionTells(c, g, stream, due[0], m);
        ResolutionsUnbroken(c, g, stream, due[1..], ResolveOne(c, stream, due[0], m).value);
      }
    }
  }

  /** No transition of a run ever finds the entity index broken, whatever is drawn. */
  lemma StepUnbroken(d: Draft, stream: Stream, s: GameState, action: Id, parameters: Parameters)
    requires StructureValid(d) && Reachable(Compile(d), stream, s)
    ensures Step(Compile(d), stream, s, action, parameters) != Err(BrokenIndex)
  {
    var c := Compile(d);
    var g := ReachableFromHome(d, stream, s);
    UnbrokenFrom(c, g, stream, s, action, parameters);
  }

  lemma UnbrokenFrom(c: Compiled, g: GameState, stream: Stream, s: GameState, action: Id, parameters: Parameters)
    requires Indexed(g.world) && AllTold(g, s, s.log)
    ensures Step(c, stream, s, action, parameters) != Err(BrokenIndex)
  {
    hide Indexed, AllTold, ApplyEffects, ResolveAll, Enumerated;
    if Enumerated(c, s, action, parameters) {
      EnumeratedIsAction(c, s, action, parameters);
      var started := Effects.Start(s);
      assert Timeline.Ledger(started) == s.log;
      EffectsUnbroken(c, g, stream, parameters, c.actions[action].effects, started);
      var acted := ApplyEffects(c, stream, parameters, c.actions[action].effects, started);
      if acted.Ok? {
        EffectsTell(c, g, stream, parameters, c.actions[action].effects, started);
        var waiting := WithoutDue(acted.value);
        QueueUntold(g, acted.value.state, waiting.state.world.queue, acted.value.state.entropy,
                    Timeline.Ledger(acted.value), acted.value.state.log);
        ResolutionsUnbroken(c, g, stream, DueNow(acted.value), waiting);
      }
    }
  }

  lemma EnumeratedIsAction(c: Compiled, s: GameState, action: Id, parameters: Parameters)
    requires Enumerated(c, s, action, parameters)
    ensures action in c.actions
  {
  }
}
