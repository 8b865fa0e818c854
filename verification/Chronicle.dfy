// The event ledger tells the whole story: every fact of a state is read off its start and its records.
module Chronicle {
  import opened Basics
  import opened Model
  import opened Content
  import opened Effects
  import opened Kernel
  import Timeline

  // ---- Reading the ledger ----

  function Elapsed(log: seq<Event>): nat {
    if log == [] then 0
    else
      var earlier := Elapsed(log[..|log| - 1]);
      match log[|log| - 1].kind
      case TimeAdvanced(ticks) => earlier + ticks
      case _ => earlier
  }

  /** What the last record about a world flag said. */
  function LastFlag(initially: bool, log: seq<Event>, flag: Id): bool {
    if log == [] then initially
    else
      match log[|log| - 1].kind
      case WorldFlagSet(f, on) => if f == flag then on else LastFlag(initially, log[..|log| - 1], flag)
      case _ => LastFlag(initially, log[..|log| - 1], flag)
  }

  function LastPlaceFlag(initially: bool, log: seq<Event>, place: Id, flag: Id): bool {
    if log == [] then initially
    else
      match log[|log| - 1].kind
      case LocationFlagSet(p, f, on) =>
        if p == place && f == flag then on else LastPlaceFlag(initially, log[..|log| - 1], place, flag)
      case _ => LastPlaceFlag(initially, log[..|log| - 1], place, flag)
  }

  function Adjusted(log: seq<Event>, resource: Id): int {
    if log == [] then 0
    else
      var earlier := Adjusted(log[..|log| - 1], resource);
      match log[|log| - 1].kind
      case ResourceAdjusted(r, amount) => if r == resource then earlier + amount else earlier
      case _ => earlier
  }

  function Regard(log: seq<Event>, npc: Id): int {
    if log == [] then 0
    else
      var earlier := Regard(log[..|log| - 1], npc);
      match log[|log| - 1].kind
      case NpcRelationshipAdjusted(n, amount) => if n == npc then earlier + amount else earlier
      case _ => earlier
  }

  function Arrived(origin: Id, log: seq<Event>): Id {
    if log == [] then origin
    else
      match log[|log| - 1].kind
      case Moved(_, destination) => destination
      case _ => Arrived(origin, log[..|log| - 1])
  }

  /** Where the last move took an NPC. */
  function Whereabouts(origin: Id, log: seq<Event>, npc: Id): Id {
    if log == [] then origin
    else
      match log[|log| - 1].kind
      case NpcMoved(n, _, destination) => if n == npc then destination else Whereabouts(origin, log[..|log| - 1], npc)
      case _ => Whereabouts(origin, log[..|log| - 1], npc)
  }

  predicate Told(log: seq<Event>, kind: EventKind) {
    exists e <- log :: e.kind == kind
  }

  /** The turn of the last record of a kind. */
  function LastTurn(log: seq<Event>, kind: EventKind): Option<u64> {
    if log == [] then None
    else if log[|log| - 1].kind == kind then Some(log[|log| - 1].turn)
    else LastTurn(log[..|log| - 1], kind)
  }

  predicate Touched(log: seq<Event>, resource: Id) {
    exists e <- log :: e.kind.ResourceAdjusted? && e.kind.resource == resource
  }

  // ---- A state told by its ledger ----

  function Amount(resources: map<Id, i64>, resource: Id): i64 {
    if resource in resources then resources[resource] else 0
  }

  predicate ClockTold(g: GameState, s: GameState, log: seq<Event>) {
    && s.world.time == g.world.time + Elapsed(log)
    && s.world.location == Arrived(g.world.location, log)
  }

  ghost predicate FlagsTold(g: GameState, s: GameState, log: seq<Event>) {
    forall flag: Id :: flag in s.world.flags <==> LastFlag(flag in g.world.flags, log, flag)
  }

  ghost predicate PlacesTold(g: GameState, s: GameState, log: seq<Event>) {
    && s.world.locations.Keys == g.world.locations.Keys
    && forall place: Id, flag: Id | place in g.world.locations ::
         flag in s.world.locations[place].flags
         <==> LastPlaceFlag(flag in g.world.locations[place].flags, log, place, flag)
  }

  ghost predicate ResourcesTold(g: GameState, s: GameState, log: seq<Event>) {
    forall resource: Id ::
      && Amount(s.character.resources, resource) == Amount(g.character.resources, resource) + Adjusted(log, resource)
      && (resource in s.character.resources <==> resource in g.character.resources || Touched(log, resource))
  }

  ghost predicate DeedsTold(g: GameState, s: GameState, log: seq<Event>) {
    forall deed: Id :: deed in s.character.deeds <==> deed in g.character.deeds || Told(log, FlagSet("deed:" + deed, true))
  }

  ghost predicate RegardTold(g: GameState, s: GameState, log: seq<Event>) {
    && s.world.npcs.Keys == g.world.npcs.Keys
    && forall npc <- g.world.npcs ::
         && s.world.npcs[npc].relationship == g.world.npcs[npc].relationship + Regard(log, npc)
         && s.world.npcs[npc].location == Whereabouts(g.world.npcs[npc].location, log, npc)
  }

  ghost predicate MindsTold(g: GameState, s: GameState, log: seq<Event>) {
    && s.world.npcs.Keys == g.world.npcs.Keys
    && forall npc: Id, x: Id | npc in g.world.npcs ::
         && (x in s.world.npcs[npc].knowledge <==> x in g.world.npcs[npc].knowledge || Told(log, NpcKnowledgeAdded(npc, x)))
         && (x in s.world.npcs[npc].memories <==> x in g.world.npcs[npc].memories || Told(log, NpcMemoryAdded(npc, x)))
  }

  /** An entry is dated by the record that added it last; one that no record added is still the initial one. */
  ghost predicate DatedBy(initially: map<Id, Record>, now: map<Id, Record>, x: Id, last: Option<u64>) {
    x in now ==> match last
                 case None => x in initially && now[x] == initially[x]
                 case Some(turn) => now[x].turn == turn
  }

  ghost predicate DatesTold(g: GameState, s: GameState, log: seq<Event>) {
    && s.world.npcs.Keys == g.world.npcs.Keys
    && forall npc: Id, x: Id | npc in g.world.npcs ::
         && DatedBy(g.world.npcs[npc].knowledge, s.world.npcs[npc].knowledge, x, LastTurn(log, NpcKnowledgeAdded(npc, x)))
         && DatedBy(g.world.npcs[npc].memories, s.world.npcs[npc].memories, x, LastTurn(log, NpcMemoryAdded(npc, x)))
  }

  /** Nothing else about the character ever changes. */
  predicate IdentityTold(g: GameState, s: GameState) {
    && s.character == g.character.(
         inventory := s.character.inventory, resources := s.character.resources, deeds := s.character.deeds)
    && s.start == g.start
  }

  /** Every move starts where the one before it ended. */
  predicate RouteTold(g: GameState, s: GameState, log: seq<Event>) {
    && s.world.locations.Keys == g.world.locations.Keys
    && forall n :: 0 <= n < |log| ==> RouteAt(g, log, n)
  }

  predicate RouteAt(g: GameState, log: seq<Event>, n: nat)
    requires n < |log|
  {
    match log[n].kind
    case Moved(origin, _) => origin == Arrived(g.world.location, log[..n])
    case NpcMoved(npc, origin, destination) =>
      && npc in g.world.npcs && origin == Whereabouts(g.world.npcs[npc].location, log[..n], npc)
      && origin in g.world.locations && destination in g.world.locations && origin != destination
    case _ => true
  }

  /** Records are in the order of their turns, none of them in the future. */
  predicate OrderTold(s: GameState, log: seq<Event>) {
    && (forall i :: 0 <= i < |log| ==> log[i].turn <= s.world.time)
    && forall i, j :: 0 <= i < j < |log| ==> log[i].turn <= log[j].turn
  }

  /** Every NPC is listed at exactly the place it is in. */
  ghost predicate Indexed(w: World) {
    && (forall npc <- w.npcs :: w.npcs[npc].location in w.locations)
    && forall place: Id, npc: Id | place in w.locations ::
         npc in w.locations[place].entities <==> npc in w.npcs && w.npcs[npc].location == place
  }

  ghost predicate IndexTold(g: GameState, s: GameState) {
    Indexed(g.world) ==> Indexed(s.world)
  }

  ghost predicate AllTold(g: GameState, s: GameState, log: seq<Event>) {
    && ClockTold(g, s, log) && FlagsTold(g, s, log) && PlacesTold(g, s, log) && ResourcesTold(g, s, log)
    && DeedsTold(g, s, log) && RegardTold(g, s, log) && MindsTold(g, s, log) && IdentityTold(g, s)
    && RouteTold(g, s, log) && OrderTold(s, log) && IndexTold(g, s)
    && DatesTold(g, s, log)
  }

  // ---- What one record says about the state ----

  predicate ClockStep(s: GameState, t: GameState, k: EventKind) {
    && t.world.time == s.world.time + (if k.TimeAdvanced? then k.ticks else 0)
    && t.world.location == if k.Moved? then k.destination else s.world.location
  }

  ghost predicate FlagStep(s: GameState, t: GameState, k: EventKind) {
    forall flag: Id :: flag in t.world.flags <==> if k.WorldFlagSet? && k.flag == flag then k.on else flag in s.world.flags
  }

  ghost predicate PlaceStep(s: GameState, t: GameState, k: EventKind) {
    && t.world.locations.Keys == s.world.locations.Keys
    && forall place: Id, flag: Id | place in s.world.locations ::
         flag in t.world.locations[place].flags
         <==> if k.LocationFlagSet? && k.location == place && k.flag == flag then k.on
              else flag in s.world.locations[place].flags
  }

  ghost predicate ResourceStep(s: GameState, t: GameState, k: EventKind) {
    forall resource: Id ::
      var here := k.ResourceAdjusted? && k.resource == resource;
      && Amount(t.character.resources, resource) == Amount(s.character.resources, resource) + (if here then k.amount else 0)
      && (resource in t.character.resources <==> resource in s.character.resources || here)
  }

  ghost predicate DeedStep(s: GameState, t: GameState, k: EventKind) {
    forall deed: Id :: deed in t.character.deeds <==> deed in s.character.deeds || k == FlagSet("deed:" + deed, true)
  }

  /** What a record about one NPC says of that NPC. */
  ghost predicate NpcStep(time: u64, npc: Id, before: NpcState, after: NpcState, k: EventKind) {
    && after.relationship == before.relationship + (if k.NpcRelationshipAdjusted? && k.npc == npc then k.amount else 0)
    && after.location == (if k.NpcMoved? && k.npc == npc then k.destination else before.location)
    && forall x: Id ::
         && (x in after.knowledge <==> x in before.knowledge || k == NpcKnowledgeAdded(npc, x))
         && (x in after.memories <==> x in before.memories || k == NpcMemoryAdded(npc, x))
         && DatedBy(before.knowledge, after.knowledge, x, if k == NpcKnowledgeAdded(npc, x) then Some(time) else None)
         && DatedBy(before.memories, after.memories, x, if k == NpcMemoryAdded(npc, x) then Some(time) else None)
  }

  ghost predicate NpcSteps(s: GameState, t: GameState, k: EventKind) {
    && t.world.npcs.Keys == s.world.npcs.Keys
    && forall npc <- s.world.npcs :: NpcStep(s.world.time, npc, s.world.npcs[npc], t.world.npcs[npc], k)
  }

  ghost predicate EntityStep(s: GameState, t: GameState, k: EventKind) {
    && t.world.locations.Keys == s.world.locations.Keys
    && forall place: Id, npc: Id | place in s.world.locations ::
         npc in t.world.locations[place].entities
         <==> if k.NpcMoved? && k.npc == npc && (place == k.origin || place == k.destination) then place == k.destination
              else npc in s.world.locations[place].entities
  }

  predicate RouteStep(s: GameState, k: EventKind) {
    match k
    case Moved(origin, _) => origin == s.world.location
    case NpcMoved(npc, origin, destination) =>
      && npc in s.world.npcs && origin == s.world.npcs[npc].location && origin != destination
      && origin in s.world.locations && destination in s.world.locations
    case _ => true
  }

  ghost predicate AllSteps(s: GameState, t: GameState, k: EventKind) {
    && ClockStep(s, t, k) && FlagStep(s, t, k) && PlaceStep(s, t, k) && ResourceStep(s, t, k)
    && DeedStep(s, t, k) && NpcSteps(s, t, k) && IdentityTold(s, t) && RouteStep(s, k)
    && EntityStep(s, t, k)
  }

  // ---- One effect ----

  /** Nothing done, or one more record that accounts for all that changed. */
  ghost predicate Recorded(m: Machine, after: Machine) {
    && after.state.log == m.state.log
    && (after == m
        || (|after.events| == |m.events| + 1 && m.events <= after.events
            && after.events[|m.events|].turn == m.state.world.time
            && AllSteps(m.state, after.state, after.events[|m.events|].kind)))
  }

  lemma NpcsKept(s: GameState, t: GameState, k: EventKind)
    requires t.world.npcs == s.world.npcs && forall npc: Id :: NamesAnother(k, npc)
    ensures NpcSteps(s, t, k)
  {
    hide NpcStep;
    forall npc | npc in s.world.npcs ensures NpcStep(s.world.time, npc, s.world.npcs[npc], t.world.npcs[npc], k) {
      UnnamedStays(s.world.time, npc, s.world.npcs[npc], k);
    }
  }

  lemma PlacesKept(s: GameState, t: GameState, k: EventKind)
    requires t.world.locations == s.world.locations && !k.LocationFlagSet? && !k.NpcMoved?
    ensures PlaceStep(s, t, k) && EntityStep(s, t, k)
  {
  }

  lemma CharacterKept(s: GameState, t: GameState, k: EventKind)
    requires t.character.resources == s.character.resources && t.character.deeds == s.character.deeds
    requires !k.ResourceAdjusted? && !k.FlagSet?
    ensures ResourceStep(s, t, k) && DeedStep(s, t, k)
  {
  }

  predicate NamesAnother(k: EventKind, npc: Id) {
    (k.NpcRelationshipAdjusted? || k.NpcMoved? || k.NpcKnowledgeAdded? || k.NpcMemoryAdded?) ==> k.npc != npc
  }

  lemma UnnamedStays(time: u64, npc: Id, npcState: NpcState, k: EventKind)
    requires NamesAnother(k, npc)
    ensures NpcStep(time, npc, npcState, npcState, k)
  {
  }

  lemma OneNpcUpdated(s: GameState, t: GameState, npc: Id, updated: NpcState, k: EventKind)
    requires npc in s.world.npcs && t.world.npcs == s.world.npcs[npc := updated]
    requires NpcStep(s.world.time, npc, s.world.npcs[npc], updated, k)
    requires forall other: Id :: other != npc ==> NamesAnother(k, other)
    ensures NpcSteps(s, t, k)
  {
    hide NpcStep;
    forall other | other in s.world.npcs
      ensures NpcStep(s.world.time, other, s.world.npcs[other], t.world.npcs[other], k)
    {
      if other != npc {
        UnnamedStays(s.world.time, other, s.world.npcs[other], k);
      }
    }
  }

  lemma TransferRecorded(m: Machine, npc: Id, item: Id, count: u32)
    ensures TransferFromNpc(m, npc, item, count).Ok? ==> Recorded(m, TransferFromNpc(m, npc, item, count).value)
  {
    if TransferFromNpc(m, npc, item, count).Ok? {
      var s, t, k := m.state, TransferFromNpc(m, npc, item, count).value.state, NpcItemTransferred(npc, item, count);
      OneNpcUpdated(s, t, npc, t.world.npcs[npc], k);
      PlacesKept(s, t, k);
      CharacterKept(s, t, k);
      hide NpcSteps, PlaceStep, EntityStep, ResourceStep, DeedStep;
    }
  }

  lemma StorageRecorded(c: Compiled, m: Machine, storage: Id, item: Id, count: u32, withdrawing: bool)
    ensures TransferWithStorage(c, m, storage, item, count, withdrawing).Ok? ==>
      Recorded(m, TransferWithStorage(c, m, storage, item, count, withdrawing).value)
  {
    hide NpcSteps, PlaceStep, EntityStep, ResourceStep, DeedStep, SetCount, Count;
    if TransferWithStorage(c, m, storage, item, count, withdrawing).Ok? {
      var after := TransferWithStorage(c, m, storage, item, count, withdrawing).value;
      var k := after.events[|m.events|].kind;
      NpcsKept(m.state, after.state, k);
      PlacesKept(m.state, after.state, k);
      CharacterKept(m.state, after.state, k);
    }
  }

  lemma CraftRecorded(c: Compiled, m: Machine, recipe: Id)
    ensures Craft(c, m, recipe).Ok? ==> Recorded(m, Craft(c, m, recipe).value)
  {
    hide NpcSteps, PlaceStep, EntityStep, ResourceStep, DeedStep, HasInputs, HasRoom, AfterRecipe;
    if Craft(c, m, recipe).Ok? {
      var after := Craft(c, m, recipe).value;
      var k := after.events[|m.events|].kind;
      NpcsKept(m.state, after.state, k);
      PlacesKept(m.state, after.state, k);
      CharacterKept(m.state, after.state, k);
    }
  }

  lemma RelocationPlaces(c: Compiled, m: Machine, npc: Id, place: Id)
    requires RelocateNpc(c, m, npc, place).Ok? && m.state.world.npcs[npc].location != place
    ensures var k := EventKind.NpcMoved(npc, m.state.world.npcs[npc].location, place);
            var t := RelocateNpc(c, m, npc, place).value.state;
            PlaceStep(m.state, t, k) && EntityStep(m.state, t, k)
  {
  }

  lemma RelocationRecorded(c: Compiled, m: Machine, npc: Id, place: Id)
    ensures RelocateNpc(c, m, npc, place).Ok? ==> Recorded(m, RelocateNpc(c, m, npc, place).value)
  {
    hide NpcSteps, PlaceStep, EntityStep, ResourceStep, DeedStep;
    if RelocateNpc(c, m, npc, place).Ok? && m.state.world.npcs[npc].location != place {
      var s, t := m.state, RelocateNpc(c, m, npc, place).value.state;
      var k := EventKind.NpcMoved(npc, s.world.npcs[npc].location, place);
      OneNpcUpdated(s, t, npc, s.world.npcs[npc].(location := place), k);
      RelocationPlaces(c, m, npc, place);
      CharacterKept(s, t, k);
    }
  }

  lemma TeachingRecorded(m: Machine, npc: Id, knowledge: Id, subject: string, provenance: Provenance)
    ensures Teach(m, npc, knowledge, subject, provenance).Ok? ==>
      Recorded(m, Teach(m, npc, knowledge, subject, provenance).value)
  {
    hide NpcSteps, PlaceStep, EntityStep, ResourceStep, DeedStep;
    if Teach(m, npc, knowledge, subject, provenance).Ok? {
      var s, t := m.state, Teach(m, npc, knowledge, subject, provenance).value.state;
      var k := NpcKnowledgeAdded(npc, knowledge);
      OneNpcUpdated(s, t, npc, t.world.npcs[npc], k);
      PlacesKept(s, t, k);
      CharacterKept(s, t, k);
    }
  }

  lemma SchedulingRecorded(c: Compiled, m: Machine, event: Id)
    ensures Schedule(c, m, event).Ok? ==> Recorded(m, Schedule(c, m, event).value)
  {
  }

  lemma DeedNames(a: Id, b: Id)
    ensures "deed:" + a == "deed:" + b ==> a == b
  {
    assert ("deed:" + a)[5..] == a && ("deed:" + b)[5..] == b;
  }

  lemma DeedRecorded(m: Machine, deed: Id)
    ensures Recorded(m, EmitCharacter(m, m.state.character.(deeds := m.state.character.deeds + {deed}), FlagSet("deed:" + deed, true)))
  {
    forall other: Id | FlagSet("deed:" + deed, true) == FlagSet("deed:" + other, true) ensures other == deed {
      DeedNames(deed, other);
    }
  }

  lemma FlagRecorded(c: Compiled, parameters: Parameters, e: Effect, m: Machine)
    requires (e.SetFlag? || e.SetWorldFlag?) && ApplyPlain(c, parameters, e, m).Ok?
    ensures Recorded(m, ApplyPlain(c, parameters, e, m).value)
  {
  }

  lemma PlaceFlagRecorded(c: Compiled, parameters: Parameters, e: Effect, m: Machine)
    requires e.SetLocationFlag? && ApplyPlain(c, parameters, e, m).Ok?
    ensures Recorded(m, ApplyPlain(c, parameters, e, m).value)
  {
  }

  lemma AdjustmentRecorded(c: Compiled, parameters: Parameters, e: Effect, m: Machine)
    requires e.AdjustResource? && ApplyPlain(c, parameters, e, m).Ok?
    ensures Recorded(m, ApplyPlain(c, parameters, e, m).value)
  {
  }

  lemma JourneyRecorded(c: Compiled, parameters: Parameters, e: Effect, m: Machine)
    requires (e.MoveCharacter? || e.AdvanceTime? || e.Noop?) && ApplyPlain(c, parameters, e, m).Ok?
    ensures Recorded(m, ApplyPlain(c, parameters, e, m).value)
  {
  }

  lemma RegardRecorded(c: Compiled, parameters: Parameters, e: Effect, m: Machine)
    requires e.AdjustNpcRelationship? && ApplyPlain(c, parameters, e, m).Ok?
    ensures Recorded(m, ApplyPlain(c, parameters, e, m).value)
  {
    hide NpcSteps, PlaceStep, EntityStep, ResourceStep, DeedStep;
    var s, t := m.state, ApplyPlain(c, parameters, e, m).value.state;
    var npc := Resolve(e.npc, parameters).value;
    var k := NpcRelationshipAdjusted(npc, e.amount);
    OneNpcUpdated(s, t, npc, t.world.npcs[npc], k);
    PlacesKept(s, t, k);
    CharacterKept(s, t, k);
  }

  lemma MemoryRecorded(c: Compiled, parameters: Parameters, e: Effect, m: Machine)
    requires e.AddNpcMemory? && ApplyPlain(c, parameters, e, m).Ok?
    ensures Recorded(m, ApplyPlain(c, parameters, e, m).value)
  {
    hide NpcSteps, PlaceStep, EntityStep, ResourceStep, DeedStep;
    var s, t := m.state, ApplyPlain(c, parameters, e, m).value.state;
    var npc := Resolve(e.npc, parameters).value;
    var k := NpcMemoryAdded(npc, e.memory);
    OneNpcUpdated(s, t, npc, t.world.npcs[npc], k);
    PlacesKept(s, t, k);
    CharacterKept(s, t, k);
  }

  lemma PeopleRecorded(c: Compiled, parameters: Parameters, e: Effect, m: Machine)
    requires (e.MoveNpc? || e.TeachNpc? || e.ScheduleEvent? || e.AddCharacterDeed?) && ApplyPlain(c, parameters, e, m).Ok?
    ensures Recorded(m, ApplyPlain(c, parameters, e, m).value)
  {
    hide Recorded, RelocateNpc, Teach, Schedule;
    match e
    case MoveNpc(npc, place) => RelocationRecorded(c, m, Resolve(npc, parameters).value, Resolve(place, parameters).value);
    case TeachNpc(npc, knowledge, subject, provenance) =>
      TeachingRecorded(m, Resolve(npc, parameters).value, knowledge, subject, provenance);
    case ScheduleEvent(event) => SchedulingRecorded(c, m, event);
    case AddCharacterDeed(deed) => DeedRecorded(m, deed);
  }

  lemma StockRecorded(c: Compiled, parameters: Parameters, e: Effect, m: Machine)
    requires (e.TransferNpcItemToCharacter? || e.TransferStorageItemToCharacter?
              || e.TransferCharacterItemToStorage? || e.ApplyRecipe?) && ApplyPlain(c, parameters, e, m).Ok?
    ensures Recorded(m, ApplyPlain(c, parameters, e, m).value)
  {
    hide Recorded, TransferFromNpc, TransferWithStorage, Craft;
    match e
    case TransferNpcItemToCharacter(npc, item, count) => TransferRecorded(m, Resolve(npc, parameters).value, item, count);
    case TransferStorageItemToCharacter(storage, item, count) => StorageRecorded(c, m, storage, item, count, true);
    case TransferCharacterItemToStorage(storage, item, count) => StorageRecorded(c, m, storage, item, count, false);
    case ApplyRecipe(recipe) => CraftRecorded(c, m, recipe);
  }

  lemma PlainRecorded(c: Compiled, parameters: Parameters, e: Effect, m: Machine)
    requires !e.RandomChance? && ApplyPlain(c, parameters, e, m).Ok?
    ensures Recorded(m, ApplyPlain(c, parameters, e, m).value)
  {
    hide *;
    match e
    case SetFlag(_, _) => FlagRecorded(c, parameters, e, m);
    case SetWorldFlag(_, _) => FlagRecorded(c, parameters, e, m);
    case SetLocationFlag(_, _, _) => PlaceFlagRecorded(c, parameters, e, m);
    case AdjustResource(_, _) => AdjustmentRecorded(c, parameters, e, m);
    case Noop => JourneyRecorded(c, parameters, e, m);
    case MoveCharacter(_) => JourneyRecorded(c, parameters, e, m);
    case AdvanceTime(_) => JourneyRecorded(c, parameters, e, m);
    case AdjustNpcRelationship(_, _) => RegardRecorded(c, parameters, e, m);
    case AddNpcMemory(_, _, _, _) => MemoryRecorded(c, parameters, e, m);
    case MoveNpc(_, _) => PeopleRecorded(c, parameters, e, m);
    case TeachNpc(_, _, _, _) => PeopleRecorded(c, parameters, e, m);
    case ScheduleEvent(_) => PeopleRecorded(c, parameters, e, m);
    case AddCharacterDeed(_) => PeopleRecorded(c, parameters, e, m);
    case _ => StockRecorded(c, parameters, e, m);
  }

  // ---- One more record ----

  lemma ClockNext(g: GameState, s: GameState, t: GameState, log: seq<Event>, r: Event)
    requires ClockTold(g, s, log) && ClockStep(s, t, r.kind)
    ensures ClockTold(g, t, log + [r])
  {
    assert (log + [r])[..|log|] == log;
  }

  lemma FlagsNext(g: GameState, s: GameState, t: GameState, log: seq<Event>, r: Event)
    requires FlagsTold(g, s, log) && FlagStep(s, t, r.kind)
    ensures FlagsTold(g, t, log + [r])
  {
    assert (log + [r])[..|log|] == log;
  }

  lemma PlacesNext(g: GameState, s: GameState, t: GameState, log: seq<Event>, r: Event)
    requires PlacesTold(g, s, log) && PlaceStep(s, t, r.kind)
    ensures PlacesTold(g, t, log + [r])
  {
    assert (log + [r])[..|log|] == log;
  }

  lemma ResourcesNext(g: GameState, s: GameState, t: GameState, log: seq<Event>, r: Event)
    requires ResourcesTold(g, s, log) && ResourceStep(s, t, r.kind)
    ensures ResourcesTold(g, t, log + [r])
  {
    assert (log + [r])[..|log|] == log;
    assert forall x :: x in log + [r] <==> x in log || x == r;
  }

  lemma DeedsNext(g: GameState, s: GameState, t: GameState, log: seq<Event>, r: Event)
    requires DeedsTold(g, s, log) && DeedStep(s, t, r.kind)
    ensures DeedsTold(g, t, log + [r])
  {
    assert (log + [r])[..|log|] == log;
    assert forall x :: x in log + [r] <==> x in log || x == r;
  }

  lemma RegardNext(g: GameState, s: GameState, t: GameState, log: seq<Event>, r: Event)
    requires RegardTold(g, s, log) && NpcSteps(s, t, r.kind)
    ensures RegardTold(g, t, log + [r])
  {
    assert (log + [r])[..|log|] == log;
  }

  lemma MindsNext(g: GameState, s: GameState, t: GameState, log: seq<Event>, r: Event)
    requires MindsTold(g, s, log) && NpcSteps(s, t, r.kind)
    ensures MindsTold(g, t, log + [r])
  {
    assert (log + [r])[..|log|] == log;
    assert forall x :: x in log + [r] <==> x in log || x == r;
  }

  lemma RouteNext(g: GameState, s: GameState, t: GameState, log: seq<Event>, r: Event)
    requires RouteTold(g, s, log) && ClockTold(g, s, log) && RegardTold(g, s, log)
    requires RouteStep(s, r.kind) && PlaceStep(s, t, r.kind)
    ensures RouteTold(g, t, log + [r])
  {
    hide RouteAt;
    forall n | 0 <= n < |log| + 1 ensures RouteAt(g, log + [r], n) {
      if n < |log| {
        RouteBefore(g, log, r, n);
      } else {
        RouteLast(g, s, log, r);
      }
    }
  }

  lemma RouteBefore(g: GameState, log: seq<Event>, r: Event, n: nat)
    requires n < |log| && RouteAt(g, log, n)
    ensures RouteAt(g, log + [r], n)
  {
    assert (log + [r])[..n] == log[..n];
  }

  lemma RouteLast(g: GameState, s: GameState, log: seq<Event>, r: Event)
    requires RouteTold(g, s, log) && ClockTold(g, s, log) && RegardTold(g, s, log) && RouteStep(s, r.kind)
    ensures RouteAt(g, log + [r], |log|)
  {
    assert (log + [r])[..|log|] == log;
  }

  lemma DatesNext(g: GameState, s: GameState, t: GameState, log: seq<Event>, r: Event)
    requires DatesTold(g, s, log) && NpcSteps(s, t, r.kind) && r.turn == s.world.time
    ensures DatesTold(g, t, log + [r])
  {
    assert (log + [r])[..|log|] == log;
  }

  lemma IndexNext(g: GameState, s: GameState, t: GameState, k: EventKind)
    requires IndexTold(g, s) && EntityStep(s, t, k) && NpcSteps(s, t, k) && RouteStep(s, k)
    ensures IndexTold(g, t)
  {
  }

  lemma OrderNext(s: GameState, t: GameState, log: seq<Event>, r: Event)
    requires OrderTold(s, log) && r.turn == s.world.time && s.world.time <= t.world.time
    ensures OrderTold(t, log + [r])
  {
  }

  lemma AllNext(g: GameState, s: GameState, t: GameState, log: seq<Event>, r: Event)
    requires AllTold(g, s, log) && AllSteps(s, t, r.kind) && r.turn == s.world.time
    ensures AllTold(g, t, log + [r])
  {
    ClockGoesOn(s, t, r.kind);
    hide ClockTold, FlagsTold, PlacesTold, ResourcesTold, DeedsTold, RegardTold, MindsTold, RouteTold, OrderTold,
      ClockStep, FlagStep, IndexTold, EntityStep, DatesTold, PlaceStep, ResourceStep, DeedStep, NpcSteps, RouteStep;
    ClockNext(g, s, t, log, r);
    FlagsNext(g, s, t, log, r);
    PlacesNext(g, s, t, log, r);
    ResourcesNext(g, s, t, log, r);
    DeedsNext(g, s, t, log, r);
    RegardNext(g, s, t, log, r);
    MindsNext(g, s, t, log, r);
    RouteNext(g, s, t, log, r);
    IndexNext(g, s, t, r.kind);
    DatesNext(g, s, t, log, r);
    OrderNext(s, t, log, r);
  }

  lemma ClockGoesOn(s: GameState, t: GameState, k: EventKind)
    requires ClockStep(s, t, k)
    ensures s.world.time <= t.world.time
  {
  }

  // ---- Runs ----

  ghost predicate Tells(g: GameState, m: Machine) {
    AllTold(g, m.state, Timeline.Ledger(m))
  }

  lemma RecordedTells(g: GameState, m: Machine, after: Machine)
    requires Tells(g, m) && Recorded(m, after)
    ensures Tells(g, after)
  {
    hide AllTold, AllSteps;
    if after != m {
      var r := after.events[|m.events|];
      assert after.events == m.events + [r];
      assert Timeline.Ledger(after) == Timeline.Ledger(m) + [r];
      AllNext(g, m.state, after.state, Timeline.Ledger(m), r);
    }
  }

  /** A draw or a resolution changes none of these facts. */
  lemma SilentRecorded(m: Machine, after: Machine)
    requires after.state == m.state && |after.events| == |m.events| + 1 && m.events <= after.events
    requires var r := after.events[|m.events|]; r.turn == m.state.world.time && (r.kind.RandomDraw? || r.kind.Resolved?)
    ensures Recorded(m, after)
  {
  }

  lemma {:induction false} EffectTells(
    c: Compiled, g: GameState, stream: Stream, parameters: Parameters, e: Effect, m: Machine)
    requires Tells(g, m) && ApplyEffect(c, stream, parameters, e, m).Ok?
    ensures Tells(g, ApplyEffect(c, stream, parameters, e, m).value)
    decreases e
  {
    hide Tells, Recorded, ApplyPlain;
    if e.RandomChance? {
      var drawn := Chance(stream, e.percent, m).value;
      SilentRecorded(m, drawn.0);
      RecordedTells(g, m, drawn.0);
      EffectTells(c, g, stream, parameters, if drawn.1 then e.onSuccess else e.onFailure, drawn.0);
    } else {
      PlainRecorded(c, parameters, e, m);
      RecordedTells(g, m, ApplyPlain(c, parameters, e, m).value);
    }
  }

  lemma {:induction false} EffectsTell(
    c: Compiled, g: GameState, stream: Stream, parameters: Parameters, effects: seq<Effect>, m: Machine)
    requires Tells(g, m) && ApplyEffects(c, stream, parameters, effects, m).Ok?
    ensures Tells(g, ApplyEffects(c, stream, parameters, effects, m).value)
    decreases |effects|
  {
    hide Tells, ApplyEffect;
    if effects != [] {
      EffectTells(c, g, stream, parameters, effects[0], m);
      EffectsTell(c, g, stream, parameters, effects[1..], ApplyEffect(c, stream, parameters, effects[0], m).value);
    }
  }

  lemma ResolutionTells(c: Compiled, g: GameState, stream: Stream, e: ScheduledEvent, m: Machine)
    requires Tells(g, m) && ResolveOne(c, stream, e, m).Ok?
    ensures Tells(g, ResolveOne(c, stream, e, m).value)
  {
    hide Tells, ApplyEffects, Recorded;
    var program := ProgramOf(c, e).value;
    var noted := EmitWorld(m, m.state.world, Resolved(e.id, e.kind, program.condition.Holds(m.state)));
    SilentRecorded(m, noted);
    RecordedTells(g, m, noted);
    if program.condition.Holds(m.state) {
      EffectsTell(c, g, stream, map[], program.effects, noted);
    }
  }

  lemma {:induction false} ResolutionsTell(c: Compiled, g: GameState, stream: Stream, due: seq<ScheduledEvent>, m: Machine)
    requires Tells(g, m) && ResolveAll(c, stream, due, m).Ok?
    ensures Tells(g, ResolveAll(c, stream, due, m).value)
    decreases |due|
  {
    hide Tells, ResolveOne;
    if due != [] {
      ResolutionTells(c, g, stream, due[0], m);
      ResolutionsTell(c, g, stream, due[1..], ResolveOne(c, stream, due[0], m).value);
    }
  }

  /** The queue is not part of what is told. */
  lemma QueueUntold(g: GameState, s: GameState, queue: seq<ScheduledEvent>, entropy: EntropyState, log: seq<Event>, all: seq<Event>)
    requires AllTold(g, s, log)
    ensures AllTold(g, s.(world := s.world.(queue := queue), entropy := entropy, log := all), log)
  {
  }

  lemma StepTells(c: Compiled, g: GameState, stream: Stream, s: GameState, action: Id, parameters: Parameters)
    requires AllTold(g, s, s.log) && Step(c, stream, s, action, parameters).Ok?
    ensures var t := Step(c, stream, s, action, parameters).value.state; AllTold(g, t, t.log)
  {
    hide AllTold, ApplyEffects, ResolveAll;
    var started := Effects.Start(s);
    assert Timeline.Ledger(started) == s.log;
    EffectsTell(c, g, stream, parameters, c.actions[action].effects, started);
    var acted := ApplyEffects(c, stream, parameters, c.actions[action].effects, started).value;
    var waiting := WithoutDue(acted);
    QueueUntold(g, acted.state, waiting.state.world.queue, acted.state.entropy, Timeline.Ledger(acted), acted.state.log);
    ResolutionsTell(c, g, stream, DueNow(acted), waiting);
    var settled := ResolveAll(c, stream, DueNow(acted), waiting).value;
    QueueUntold(g, settled.state, settled.state.world.queue, settled.entropy, Timeline.Ledger(settled), Timeline.Ledger(settled));
  }

  lemma {:induction false} PlayTells(c: Compiled, stream: Stream, s: GameState, commands: seq<Command>)
    requires AllTold(s, s, s.log) && Play(c, stream, s, commands).Ok?
    ensures var t := Play(c, stream, s, commands).value; AllTold(s, t, t.log)
    decreases |commands|
  {
    hide AllTold, Step;
    if commands != [] {
      var last := commands[|commands| - 1];
      PlayTells(c, stream, s, commands[..|commands| - 1]);
      StepTells(c, s, stream, Play(c, stream, s, commands[..|commands| - 1]).value, last.action, last.parameters);
    }
  }

  lemma UntoldYet(s: GameState)
    requires s.log == []
    ensures AllTold(s, s, s.log)
  {
  }

  /** Every state of every run is told by its ledger from the authored start it began with. */
  lemma ReachableTold(c: Compiled, stream: Stream, s: GameState) returns (start: GameState)
    requires Reachable(c, stream, s)
    ensures AuthoredStart(c, start) && AllTold(start, s, s.log)
  {
    hide AllTold, AuthoredCharacter, Play;
    var commands;
    start, commands :| AuthoredStart(c, start) && Play(c, stream, start, commands) == Ok(s);
    UntoldYet(start);
    PlayTells(c, stream, start, commands);
  }
}
