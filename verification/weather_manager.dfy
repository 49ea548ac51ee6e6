/** The global weather tracker (src/WeatherManager.py): at most one weather
    spell, its kind, the turn it started and how many turns it lasts. The
    current total turn count is an input, since the turn indicator that
    should provide it is not part of this model. */
module WeatherManager {
  import opened Wrappers

  datatype WeatherType = RAIN | WIND | HEAT | EARTH

  /** The spell objects `set_active_weather` can be handed; any other spell
      class is `Unrecognised`. */
  datatype WeatherSpell = Rain | WindTornado | HeatWave | Earthquake | Unrecognised

  datatype Manager = Manager(
    activeTurns: int,
    spell: Option<WeatherSpell>,
    weatherType: Option<WeatherType>,
    startTurn: int)

  /** A fresh manager has no weather, so animating it does nothing. */
  function NewManager(): (m: Manager)
    ensures m.spell == None && m.weatherType == None
    ensures m.activeTurns == 0 && m.startTurn == 0
    ensures forall c :: AnimateWeather(m, c) == m
  {
    Manager(0, None, None, 0)
  }

  /** The element a weather spell stands for, independent of how
      `set_active_weather` tests the spell's class. */
  const ElementOf: map<WeatherSpell, WeatherType> :=
    map[Rain := RAIN, WindTornado := WIND, HeatWave := HEAT, Earthquake := EARTH]

  /** `stop_weather`: drop the spell; the weather type is left as it was. */
  function StopWeather(m: Manager): (r: Manager)
    ensures r.spell == None
    ensures r.weatherType == m.weatherType
    ensures r.activeTurns == m.activeTurns && r.startTurn == m.startTurn
    ensures m.spell == None ==> r == m
  {
    if m.spell.Some? then m.(spell := None) else m
  }

  /** `set_active_weather`: stop the previous spell, then record the new
      spell, its duration and the current turn; the weather type follows the
      spell's class and is kept for an unrecognised class. */
  function SetActiveWeather(m: Manager, s: WeatherSpell, turns: int, currentTurn: int): (r: Manager)
    ensures r.spell == Some(s)
    ensures r.activeTurns == turns && r.startTurn == currentTurn
    ensures s in ElementOf ==> r.weatherType == Some(ElementOf[s])
    ensures s !in ElementOf ==> r.weatherType == m.weatherType
  {
    var stopped := StopWeather(m);
    var t :=
      if s == Rain then Some(RAIN)
      else if s == WindTornado then Some(WIND)
      else if s == HeatWave then Some(HEAT)
      else if s == Earthquake then Some(EARTH)
      else stopped.weatherType;
    Manager(turns, Some(s), t, currentTurn)
  }

  /** `is_weather_over`: strictly past the last covered turn. */
  function IsWeatherOver(m: Manager, currentTurn: int): (b: bool)
    ensures b <==> currentTurn - m.startTurn > m.activeTurns
  {
    currentTurn > m.startTurn + m.activeTurns
  }

  /** `animate_weather`: an expired spell is stopped and cleared; otherwise,
      and when no spell is set, nothing in the record changes. */
  function AnimateWeather(m: Manager, currentTurn: int): (r: Manager)
    ensures m.spell == None ==> r == m
    ensures m.spell.Some? && currentTurn > m.startTurn + m.activeTurns ==>
      r == m.(spell := None)
    ensures currentTurn <= m.startTurn + m.activeTurns ==> r == m
  {
    if m.spell != None then
      if IsWeatherOver(m, currentTurn) then StopWeather(m) else m
    else m
  }

  /** A weather set at turn t for d turns is active for exactly the turns
      t..t+d: the deadline turn itself still counts. */
  lemma WeatherLifetime(m: Manager, s: WeatherSpell, d: int, t: int, c: int)
    ensures var w := SetActiveWeather(m, s, d, t);
      && (IsWeatherOver(w, c) <==> c > t + d)
      && (AnimateWeather(w, c).spell.Some? <==> c <= t + d)
      && AnimateWeather(w, c).weatherType == w.weatherType
  {
  }

  /** Once over, the weather stays over on every later turn. */
  lemma OverIsMonotone(m: Manager, c: int, c': int)
    requires c <= c'
    requires IsWeatherOver(m, c)
    ensures IsWeatherOver(m, c')
  {
  }
}
