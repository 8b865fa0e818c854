// The static duration of an action (effect_time_cost and action_time_cost).
module TimeCost {
  import opened Basics
  import opened Model
  import opened Content
  import opened Effects
  import opened Kernel

  datatype Cost = Cost(minimum: u64, maximum: u64)

  function EffectCost(e: Effect): Cost {
    match e
    case AdvanceTime(ticks) => Cost(ticks, ticks)
    case RandomChance(percent, onSuccess, onFailure) =>
      var success, failure := EffectCost(onSuccess), EffectCost(onFailure);
      if percent == 0 then failure
      else if percent == 100 then success
      else Cost(Min(success.minimum, failure.minimum), Max(success.maximum, failure.maximum))
    case _ => Cost(0, 0)
  }

  /** The cost of a program; None if it leaves u64. */
  function ActionCost(effects: seq<Effect>): Option<Cost> {
    if effects == [] then Some(Cost(0, 0))
    else
      var total := ActionCost(effects[..|effects| - 1]);
      var cost := EffectCost(effects[|effects| - 1]);
      if total.None? || total.value.minimum + cost.minimum > U64_MAX || total.value.maximum + cost.maximum > U64_MAX
      then None
      else Some(Cost(total.value.minimum + cost.minimum, total.value.maximum + cost.maximum))
  }

  /** On every branch a draw can take, an effect takes at least its minimum and at most its maximum time. */
  lemma {:induction false} EffectTakes(c: Compiled, stream: Stream, parameters: Parameters, e: Effect, m: Machine)
    requires ApplyEffect(c, stream, parameters, e, m).Ok?
    ensures var elapsed := ApplyEffect(c, stream, parameters, e, m).value.state.world.time - m.state.world.time;
            EffectCost(e).minimum <= elapsed <= EffectCost(e).maximum
    decreases e
  {
    if e.RandomChance? {
      var drawn := Chance(stream, e.percent, m).value;
      EffectTakes(c, stream, parameters, if drawn.1 then e.onSuccess else e.onFailure, drawn.0);
    }
  }

  /** Running a program is running its front, then its last effect. */
  lemma {:induction false} EffectsSplit(
    c: Compiled, stream: Stream, parameters: Parameters, effects: seq<Effect>, m: Machine, k: nat)
    requires k <= |effects|
    ensures ApplyEffects(c, stream, parameters, effects, m)
         == var front := ApplyEffects(c, stream, parameters, effects[..k], m);
            if front.Err? then front else ApplyEffects(c, stream, parameters, effects[k..], front.value)
    decreases |effects|
  {
    if k == 0 {
      assert effects[..0] == [] && effects[0..] == effects;
    } else {
      var next := ApplyEffect(c, stream, parameters, effects[0], m);
      assert effects[..k][0] == effects[0] && effects[..k][1..] == effects[1..][..k - 1];
      assert effects[1..][k - 1..] == effects[k..];
      if next.Ok? {
        EffectsSplit(c, stream, parameters, effects[1..], next.value, k - 1);
      }
    }
  }

  /** One effect as a program of its own. */
  lemma LastEffect(c: Compiled, stream: Stream, parameters: Parameters, effects: seq<Effect>, m: Machine)
    requires effects != []
    ensures ApplyEffects(c, stream, parameters, effects, m)
         == var front := ApplyEffects(c, stream, parameters, effects[..|effects| - 1], m);
            if front.Err? then front else ApplyEffect(c, stream, parameters, effects[|effects| - 1], front.value)
  {
    var n := |effects| - 1;
    EffectsSplit(c, stream, parameters, effects, m, n);
    var front := ApplyEffects(c, stream, parameters, effects[..n], m);
    if front.Ok? {
      assert effects[n..] == [effects[n]];
      assert effects[n..][1..] == [];
      assert ApplyEffects(c, stream, parameters, effects[n..], front.value)
          == ApplyEffect(c, stream, parameters, effects[n], front.value);
    }
  }

  /** The published time cost of an action brackets the time every accepted run of it takes. */
  lemma {:induction false} ActionTakes(
    c: Compiled, stream: Stream, parameters: Parameters, effects: seq<Effect>, m: Machine)
    requires ActionCost(effects).Some? && ApplyEffects(c, stream, parameters, effects, m).Ok?
    ensures var elapsed := ApplyEffects(c, stream, parameters, effects, m).value.state.world.time - m.state.world.time;
            ActionCost(effects).value.minimum <= elapsed <= ActionCost(effects).value.maximum
    decreases |effects|
  {
    if effects != [] {
      var n := |effects| - 1;
      LastEffect(c, stream, parameters, effects, m);
      ActionTakes(c, stream, parameters, effects[..n], m);
      EffectTakes(c, stream, parameters, effects[n], ApplyEffects(c, stream, parameters, effects[..n], m).value);
    }
  }

  // ---- The bounds are attained ----

  /** Some branches a draw can take last so long. */
  predicate CanTake(e: Effect, time: nat)
    decreases e
  {
    match e
    case AdvanceTime(ticks) => time == ticks
    case RandomChance(percent, onSuccess, onFailure) =>
      (percent != 0 && CanTake(onSuccess, time)) || (percent != 100 && CanTake(onFailure, time))
    case _ => time == 0
  }

  ghost predicate CanTakeAll(effects: seq<Effect>, time: nat)
    decreases |effects|
  {
    if effects == [] then time == 0
    else
      exists last: nat ::
        EndsTaking(effects, last) && last <= time && CanTakeAll(effects[..|effects| - 1], time - last)
  }

  predicate EndsTaking(effects: seq<Effect>, last: nat) {
    effects != [] && CanTake(effects[|effects| - 1], last)
  }

  /** The cost of an effect is the shortest and the longest time its branches can take. */
  lemma {:induction false} CostIsExact(e: Effect)
    ensures CanTake(e, EffectCost(e).minimum) && CanTake(e, EffectCost(e).maximum)
    ensures forall time: nat :: CanTake(e, time) ==> EffectCost(e).minimum <= time <= EffectCost(e).maximum
    decreases e
  {
    if e.RandomChance? {
      CostIsExact(e.onSuccess);
      CostIsExact(e.onFailure);
    }
  }

  lemma CanTakeBoth(effects: seq<Effect>, first: nat, last: nat)
    requires effects != [] && CanTakeAll(effects[..|effects| - 1], first) && CanTake(effects[|effects| - 1], last)
    ensures CanTakeAll(effects, first + last)
  {
    assert EndsTaking(effects, last) && first + last - last == first;
  }

  lemma SplitTaking(effects: seq<Effect>, time: nat) returns (last: nat)
    requires effects != [] && CanTakeAll(effects, time)
    ensures last <= time && CanTake(effects[|effects| - 1], last) && CanTakeAll(effects[..|effects| - 1], time - last)
  {
    last :| EndsTaking(effects, last) && last <= time && CanTakeAll(effects[..|effects| - 1], time - last);
  }

  /** The cost of a program, likewise; there is none exactly when some branches can leave u64. */
  lemma {:induction false} ActionCostIsExact(effects: seq<Effect>)
    ensures ActionCost(effects).Some? <==> forall time: nat :: CanTakeAll(effects, time) ==> time <= U64_MAX
    ensures ActionCost(effects).Some? ==>
      var cost := ActionCost(effects).value;
      && CanTakeAll(effects, cost.minimum) && CanTakeAll(effects, cost.maximum)
      && forall time: nat :: CanTakeAll(effects, time) ==> cost.minimum <= time <= cost.maximum
    decreases |effects|
  {
    if effects == [] {
      assert CanTakeAll(effects, 0);
    } else {
      hide EffectCost, CanTake, CanTakeAll;
      var front, last := effects[..|effects| - 1], effects[|effects| - 1];
      ActionCostIsExact(front);
      CostIsExact(last);
      if ActionCost(front).Some? {
        var cost := ActionCost(front).value;
        CanTakeBoth(effects, cost.minimum, EffectCost(last).minimum);
        CanTakeBoth(effects, cost.maximum, EffectCost(last).maximum);
        forall time: nat | CanTakeAll(effects, time)
          ensures cost.minimum + EffectCost(last).minimum <= time <= cost.maximum + EffectCost(last).maximum
        {
          var end := SplitTaking(effects, time);
        }
        assert CanTakeAll(effects, cost.maximum + EffectCost(last).maximum);
      } else {
        var time: nat :| CanTakeAll(front, time) && time > U64_MAX;
        CanTakeBoth(effects, time, EffectCost(last).maximum);
        assert CanTakeAll(effects, time + EffectCost(last).maximum);
      }
    }
  }

  /** What a run of an effect takes is what some of its branches can take. */
  lemma {:induction false} EffectTakesOne(c: Compiled, stream: Stream, parameters: Parameters, e: Effect, m: Machine)
    requires ApplyEffect(c, stream, parameters, e, m).Ok?
    ensures m.state.world.time <= ApplyEffect(c, stream, parameters, e, m).value.state.world.time
    ensures CanTake(e, ApplyEffect(c, stream, parameters, e, m).value.state.world.time - m.state.world.time)
    decreases e
  {
    if e.RandomChance? {
      var drawn := Chance(stream, e.percent, m).value;
      EffectTakesOne(c, stream, parameters, if drawn.1 then e.onSuccess else e.onFailure, drawn.0);
    }
  }
}
