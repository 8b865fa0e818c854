// What an effect establishes, said in the language of conditions (evaluate and apply_effect).
module EffectLaws {
  import opened Basics
  import opened Model
  import opened Content
  import opened Effects

  function Switched(condition: Condition, on: bool): Condition {
    if on then condition else Not(condition)
  }

  /** The condition an effect is written to bring about, if conditions can say it. */
  function Purpose(parameters: Parameters, e: Effect): Option<Condition> {
    match e
    case SetFlag(flag, on) => Some(Switched(WorldFlag(flag), on))
    case SetWorldFlag(flag, on) => Some(Switched(WorldFlag(flag), on))
    case SetLocationFlag(reference, flag, on) =>
      var place := Resolve(reference, parameters);
      if place.None? then None else Some(Switched(LocationFlag(place.value, flag), on))
    case MoveCharacter(reference) =>
      var place := Resolve(reference, parameters);
      if place.None? then None else Some(AtLocation(place.value))
    case MoveNpc(npcRef, placeRef) =>
      var npc, place := Resolve(npcRef, parameters), Resolve(placeRef, parameters);
      if npc.None? || place.None? then None else Some(NpcAtLocation(npc.value, place.value))
    case AddNpcMemory(reference, memory, _, _) =>
      var npc := Resolve(reference, parameters);
      if npc.None? then None else Some(NpcRemembers(npc.value, memory))
    case TeachNpc(reference, knowledge, _, provenance) =>
      var npc := Resolve(reference, parameters);
      if npc.None? then None else Some(NpcKnowsWithProvenance(npc.value, knowledge, KindOf(provenance)))
    case TransferNpcItemToCharacter(_, item, count) => Some(HasItem(item, count))
    case TransferStorageItemToCharacter(_, item, count) => Some(HasItem(item, count))
    case AddCharacterDeed(deed) => Some(CharacterHasDeed(deed))
    case _ => None
  }

  lemma WorldEffectEstablishes(c: Compiled, parameters: Parameters, e: Effect, m: Machine)
    requires e.SetFlag? || e.SetWorldFlag? || e.SetLocationFlag? || e.MoveCharacter? || e.AddCharacterDeed?
    requires ApplyPlain(c, parameters, e, m).Ok? && Purpose(parameters, e).Some?
    ensures Purpose(parameters, e).value.Holds(ApplyPlain(c, parameters, e, m).value.state)
  {
  }

  lemma NpcEffectEstablishes(c: Compiled, parameters: Parameters, e: Effect, m: Machine)
    requires e.MoveNpc? || e.AddNpcMemory? || e.TeachNpc?
    requires ApplyPlain(c, parameters, e, m).Ok? && Purpose(parameters, e).Some?
    ensures Purpose(parameters, e).value.Holds(ApplyPlain(c, parameters, e, m).value.state)
  {
  }

  lemma StockEffectEstablishes(c: Compiled, parameters: Parameters, e: Effect, m: Machine)
    requires e.TransferNpcItemToCharacter? || e.TransferStorageItemToCharacter?
    requires ApplyPlain(c, parameters, e, m).Ok?
    ensures Purpose(parameters, e).value.Holds(ApplyPlain(c, parameters, e, m).value.state)
  {
  }

  /** An effect that succeeds brings about its purpose: a flag is on after it is set and off after it is cleared. */
  lemma EffectEstablishes(c: Compiled, parameters: Parameters, e: Effect, m: Machine)
    requires !e.RandomChance? && ApplyPlain(c, parameters, e, m).Ok? && Purpose(parameters, e).Some?
    ensures Purpose(parameters, e).value.Holds(ApplyPlain(c, parameters, e, m).value.state)
  {
    hide ApplyPlain;
    if e.MoveNpc? || e.AddNpcMemory? || e.TeachNpc? {
      NpcEffectEstablishes(c, parameters, e, m);
    } else if e.TransferNpcItemToCharacter? || e.TransferStorageItemToCharacter? {
      StockEffectEstablishes(c, parameters, e, m);
    } else {
      WorldEffectEstablishes(c, parameters, e, m);
    }
  }

  /** A threshold on a resource moves by exactly the amount of its adjustment. */
  lemma AdjustmentShifts(c: Compiled, parameters: Parameters, m: Machine, resource: Id, amount: i64, threshold: i64)
    requires ApplyPlain(c, parameters, AdjustResource(resource, amount), m).Ok? && I64_MIN <= threshold - amount <= I64_MAX
    ensures ResourceAtLeast(resource, threshold).Holds(ApplyPlain(c, parameters, AdjustResource(resource, amount), m).value.state)
       <==> ResourceAtLeast(resource, threshold - amount).Holds(m.state)
  {
  }

  /** Delivered stock is no longer with its owner: what one side gains the other has lost. */
  lemma DepositShifts(c: Compiled, parameters: Parameters, m: Machine, storage: Id, item: Id, count: u32, left: u32)
    requires left > 0 && left + count <= U32_MAX
    requires ApplyPlain(c, parameters, TransferCharacterItemToStorage(storage, item, count), m).Ok?
    ensures HasItem(item, left).Holds(ApplyPlain(c, parameters, TransferCharacterItemToStorage(storage, item, count), m).value.state)
       <==> HasItem(item, left + count).Holds(m.state)
  {
  }

  // ---- The share of a chance ----

  predicate Succeeds(percent: nat, entropy: EntropyState, state: GameState, value: u64) {
    var drawn := Chance((seed, cursor) => value, percent, Machine(state, entropy, []));
    drawn.Ok? && drawn.value.1
  }

  /** How many of the values from a start up to an end succeed. */
  function Successes(percent: nat, entropy: EntropyState, state: GameState, start: u64, count: nat): nat
    requires start + count <= U64_MAX + 1
  {
    if count == 0 then 0
    else Successes(percent, entropy, state, start, count - 1) + if Succeeds(percent, entropy, state, start + count - 1) then 1 else 0
  }

  lemma {:induction false} SuccessesUpTo(percent: nat, entropy: EntropyState, state: GameState, hundreds: nat, count: nat)
    requires percent <= 100 && count <= 100 && 100 * hundreds + 100 <= U64_MAX + 1
    requires entropy.algorithm == ENTROPY_ALGORITHM && entropy.cursor < MAX_ENTROPY_CURSOR
    ensures Successes(percent, entropy, state, 100 * hundreds, count) == Min(count, percent)
    decreases count
  {
    if count > 0 {
      SuccessesUpTo(percent, entropy, state, hundreds, count - 1);
      assert (100 * hundreds + count - 1) % 100 == count - 1;
    }
  }

  /** A chance of p percent succeeds for exactly p values of every full hundred. */
  lemma ChanceShare(percent: nat, entropy: EntropyState, state: GameState, hundreds: nat)
    requires percent <= 100 && 100 * hundreds + 100 <= U64_MAX + 1
    requires entropy.algorithm == ENTROPY_ALGORITHM && entropy.cursor < MAX_ENTROPY_CURSOR
    ensures Successes(percent, entropy, state, 100 * hundreds, 100) == percent
  {
    SuccessesUpTo(percent, entropy, state, hundreds, 100);
  }
}
