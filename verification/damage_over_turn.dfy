/** A damage-over-turn effect (src/Characters/DamageOverTurn.py): a fixed
    damage dealt once per call for a number of turns, tripled while the
    weather matches the spell's element. */
module DamageOverTurn {
  import opened Wrappers
  import opened HealthBar
  import opened WeatherManager

  datatype DamageOverTurn = DamageOverTurn(damage: int, forTurns: int, spellType: string)

  /** The elemental attack whose damage each weather triples. */
  const AmplifyingWeather: map<string, WeatherType> :=
    map["Fireball" := HEAT, "WaterGeyser" := RAIN, "WindSlash" := WIND, "EarthSpike" := EARTH]

  predicate Amplified(spellType: string, weather: Option<WeatherType>)
  {
    spellType in AmplifyingWeather && weather == Some(AmplifyingWeather[spellType])
  }

  /** The damage multiplier chosen by `apply_damage`. */
  function Multiplier(spellType: string, weather: Option<WeatherType>): (m: int)
    ensures m == 3 <==> Amplified(spellType, weather)
    ensures m == 1 <==> !Amplified(spellType, weather)
  {
    if spellType == "Fireball" && weather == Some(HEAT) then 3
    else if spellType == "WaterGeyser" && weather == Some(RAIN) then 3
    else if spellType == "WindSlash" && weather == Some(WIND) then 3
    else if spellType == "EarthSpike" && weather == Some(EARTH) then 3
    else 1
  }

  /** One `apply_damage` call: the effect, the target's health and the
      returned flag. */
  datatype Tick = Tick(effect: DamageOverTurn, target: HealthBar, ticked: bool)

  function ApplyDamage(d: DamageOverTurn, target: HealthBar, weather: Option<WeatherType>): (r: Tick)
    ensures r.ticked <==> d.forTurns > 0
    ensures r.ticked ==>
      && r.effect == d.(forTurns := d.forTurns - 1)
      && r.target == ReduceHealth(target, d.damage * Multiplier(d.spellType, weather))
    ensures !r.ticked ==> r.effect == d && r.target == target
  {
    if d.forTurns > 0 then
      var m := Multiplier(d.spellType, weather);
      Tick(d.(forTurns := d.forTurns - 1), ReduceHealth(target, d.damage * m), true)
    else
      Tick(d, target, false)
  }

  /** Successive calls, one per turn, each under that turn's weather. */
  datatype Run = Run(effect: DamageOverTurn, target: HealthBar, results: seq<bool>)

  function ApplyEachTurn(d: DamageOverTurn, target: HealthBar, weathers: seq<Option<WeatherType>>): (r: Run)
    ensures |r.results| == |weathers|
    ensures r.effect.damage == d.damage && r.effect.spellType == d.spellType
    ensures d.damage >= 0 && target.health >= 0 ==> 0 <= r.target.health <= target.health
    decreases |weathers|
  {
    if |weathers| == 0 then Run(d, target, [])
    else
      var t := ApplyDamage(d, target, weathers[0]);
      var rest := ApplyEachTurn(t.effect, t.target, weathers[1..]);
      Run(rest.effect, rest.target, [t.ticked] + rest.results)
  }

  /** An effect created for k >= 0 turns answers True on exactly its first k
      calls and False on every later one, and its turn counter ends at
      max(k - n, 0), never below zero. */
  lemma {:induction false} TicksExactlyForTurns(d: DamageOverTurn, target: HealthBar, weathers: seq<Option<WeatherType>>)
    requires d.forTurns >= 0
    ensures var r := ApplyEachTurn(d, target, weathers);
      && (forall i :: 0 <= i < |weathers| ==> (r.results[i] <==> i < d.forTurns))
      && r.effect.forTurns == (if |weathers| <= d.forTurns then d.forTurns - |weathers| else 0)
      && r.effect.damage == d.damage && r.effect.spellType == d.spellType
    decreases |weathers|
  {
    if |weathers| > 0 {
      var t := ApplyDamage(d, target, weathers[0]);
      TicksExactlyForTurns(t.effect, t.target, weathers[1..]);
      var r := ApplyEachTurn(d, target, weathers);
      var rest := ApplyEachTurn(t.effect, t.target, weathers[1..]);
      assert r.results == [t.ticked] + rest.results;
      forall i | 0 <= i < |weathers|
        ensures r.results[i] <==> i < d.forTurns
      {
        if i > 0 {
          assert r.results[i] == rest.results[i - 1];
        }
      }
    }
  }

  /** A spent effect never deals damage again. */
  lemma SpentEffectIsInert(d: DamageOverTurn, target: HealthBar, weather: Option<WeatherType>)
    requires d.forTurns <= 0
    ensures ApplyDamage(d, target, weather) == Tick(d, target, false)
  {
  }
}
