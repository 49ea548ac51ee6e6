/** Shield-piercing damage (src/QuantumMechanics/QuantumTunneling.py). The
    simulated measurement that decides whether tunnelling happens is the
    parameter `tunnels`; it is consulted only when the rules would run the
    simulation. */
module QuantumTunneling {
  import opened Wrappers
  import opened HealthBar
  import opened Characters

  const BaseProbability: real := 0.7

  predicate Armed<C>(caster: Character<C>)
  {
    caster.tunnelingActive == Some(true)
  }

  /** `calculate_tunneling_probability`: 0 for a caster that is not armed,
      else the caster's own probability, else the base 0.7. */
  function TunnelingProbability<C>(caster: Character<C>): (p: real)
    ensures !Armed(caster) ==> p == 0.0
    ensures Armed(caster) && caster.tunnelingProbability.Some? ==> p == caster.tunnelingProbability.value
    ensures Armed(caster) && caster.tunnelingProbability.None? ==> p == BaseProbability
  {
    if caster.tunnelingActive != Some(true) then 0.0
    else if caster.tunnelingProbability.Some? then caster.tunnelingProbability.value
    else BaseProbability
  }

  /** The answer of `attempt_tunneling`. */
  datatype Attempt = Attempt(occurred: bool, consume: bool)

  /** `attempt_tunneling`: an unshielded target wastes the effect, a caster
      with no probability keeps it, otherwise the measurement decides and the
      effect is spent. */
  function AttemptTunneling<C>(caster: Character<C>, target: Character<C>, tunnels: bool): (r: Attempt)
    ensures r.occurred ==> target.shield && Armed(caster) && tunnels
    ensures !target.shield ==> r == Attempt(false, true)
    ensures target.shield && TunnelingProbability(caster) <= 0.0 ==> r == Attempt(false, false)
    ensures target.shield && TunnelingProbability(caster) > 0.0 ==> r == Attempt(tunnels, true)
  {
    if !target.shield then Attempt(false, true)
    else
      var p := TunnelingProbability(caster);
      if p <= 0.0 then Attempt(false, false) else Attempt(tunnels, true)
  }

  /** The caster after its tunnelling has been spent: only a caster that
      has the attribute is disarmed. */
  function Disarm<C>(caster: Character<C>): (r: Character<C>)
    ensures caster.tunnelingActive.None? ==> r == caster
    ensures caster.tunnelingActive.Some? ==>
      r == caster.(tunnelingActive := Some(false), tunnelingProbability := Some(0.0))
  {
    if caster.tunnelingActive.Some? then
      caster.(tunnelingActive := Some(false), tunnelingProbability := Some(0.0))
    else caster
  }

  datatype Strike<C> = Strike(caster: Character<C>, target: Character<C>, applied: bool)

  /** `apply_tunneling_damage`: resolve one attack of `damage` against the
      target's shield and vulnerability. */
  function ApplyTunnelingDamage<C>(caster: Character<C>, target: Character<C>, damage: int, tunnels: bool)
    : (r: Strike<C>)
    ensures var a := AttemptTunneling(caster, target, tunnels);
      && (r.applied <==> a.occurred || !target.shield)
      && (r.applied ==> r.target.health == ReduceHealth(target.health, damage * target.multiplier))
      && (!r.applied ==> r.target.health == target.health)
      && r.target.shield == (target.shield && a.occurred)
      && r.target.multiplier == 1
      && r.target == target.(health := r.target.health, shield := r.target.shield, multiplier := 1)
      && r.caster == (if a.consume then Disarm(caster) else caster)
  {
    var a := AttemptTunneling(caster, target, tunnels);
    var hit := target.(health := ReduceHealth(target.health, damage * target.multiplier));
    var struck :=
      if a.occurred then Strike(caster, hit, true)
      else if !target.shield then Strike(caster, hit.(shield := false), true)
      else Strike(caster, target.(shield := false), false);
    var reset := struck.target.(multiplier := 1);
    Strike(if a.consume then Disarm(caster) else caster, reset, struck.applied)
  }

  /** A shield stops one attack from an unarmed caster: no damage, the
      shield is used up and the caster is unchanged. */
  lemma ShieldAbsorbsUnarmedAttack<C>(caster: Character<C>, target: Character<C>, damage: int, tunnels: bool)
    requires target.shield && !Armed(caster)
    ensures var r := ApplyTunnelingDamage(caster, target, damage, tunnels);
      && !r.applied && !r.target.shield
      && r.target.health == target.health
      && r.caster == caster
  {
  }

  /** An unshielded target always takes the damage, and an armed caster's
      tunnelling is spent on it anyway. */
  lemma UnshieldedTargetWastesTunnelling<C>(caster: Character<C>, target: Character<C>, damage: int, tunnels: bool)
    requires !target.shield && Armed(caster)
    ensures var r := ApplyTunnelingDamage(caster, target, damage, tunnels);
      && r.applied
      && r.caster.tunnelingActive == Some(false)
      && r.caster.tunnelingProbability == Some(0.0)
  {
  }
}
