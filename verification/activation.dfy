/** What the cards share: their quantum state tag
    (src/QuantumMechanics/QuantumStates.py), the weather cards an
    affliction can hand back, and the shapes of the values `activate_card`
    returns. */
module CardActivation {
  import opened Wrappers
  import opened WeatherManager

  datatype QuantumState = SUPERPOSITION | COLLAPSED | ENTANGLED

  /** The four weather cards of src/Cards/WeatherCards, each carrying one
      weather spell. */
  datatype WeatherCard = RainWeather | Nature | HeatwaveWeather | WindyWeather

  function SpellOfCard(w: WeatherCard): WeatherSpell
  {
    match w
    case RainWeather => Rain
    case Nature => Earthquake
    case HeatwaveWeather => HeatWave
    case WindyWeather => WindTornado
  }

  /** The value an `activate_card` call returns: a bare boolean, a pair
      (animating flag, companion weather card or None), None, a weather spell
      object, or an exception raised from inside the call. */
  datatype Activation =
    | Flag(b: bool)
    | Pair(first: bool, companion: Option<WeatherCard>)
    | NoValue
    | SpellObject(spell: WeatherSpell)
    | Raises
}
