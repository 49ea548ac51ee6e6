/** The ElementalWeather card (src/Cards/ElementalWeather.py): a two-qubit
    card whose collapsed label picks one of four weather spells, which the
    activation hands back as its result. */
module ElementalWeatherCard {
  import opened Wrappers
  import opened CardActivation
  import opened WeatherManager

  datatype ElementalWeather = ElementalWeather(stateType: QuantumState, collapsedState: Option<PyValue>, spell: Option<WeatherSpell>)

  function NewElementalWeather(): (c: ElementalWeather)
    ensures c.stateType == SUPERPOSITION && c.collapsedState == None && c.spell == None
  {
    ElementalWeather(SUPERPOSITION, None, None)
  }

  /** The label table; any other label chooses nothing. */
  function SpellForLabel(v: PyValue): (r: Option<WeatherSpell>)
    ensures r.Some? <==> v in {PyStr("00"), PyStr("01"), PyStr("10"), PyStr("11")}
  {
    if v == PyStr("00") then Some(Earthquake)
    else if v == PyStr("01") then Some(HeatWave)
    else if v == PyStr("11") then Some(WindTornado)
    else if v == PyStr("10") then Some(Rain)
    else None
  }

  /** `activate_card`: the spell is chosen only at the collapse; afterwards
      the stored spell (or None) is returned. */
  function Activate(c: ElementalWeather, sample: PyValue): (r: (ElementalWeather, Activation))
    ensures c.stateType == SUPERPOSITION ==>
      && r.0.stateType == COLLAPSED && r.0.collapsedState == Some(sample)
      && r.0.spell == (if SpellForLabel(sample).Some? then SpellForLabel(sample) else c.spell)
    ensures c.stateType != SUPERPOSITION ==> r.0 == c
    ensures r.0.collapsedState.Some? && r.0.spell.Some? ==> r.1 == SpellObject(r.0.spell.value)
    ensures r.0.collapsedState.None? || r.0.spell.None? ==> r.1 == NoValue
  {
    var card :=
      if c.stateType == SUPERPOSITION then
        var s := SpellForLabel(sample);
        c.(collapsedState := Some(sample), stateType := COLLAPSED,
           spell := if s.Some? then s else c.spell)
      else c;
    if card.collapsedState.Some? && card.spell.Some? then (card, SpellObject(card.spell.value))
    else (card, NoValue)
  }

  /** Each of the four labels gives a distinct weather spell, so every
      weather spell is reachable from exactly one label. */
  lemma LabelTableIsInjective(a: PyValue, b: PyValue)
    requires SpellForLabel(a).Some? && SpellForLabel(a) == SpellForLabel(b)
    ensures a == b
  {
  }

  /** A fresh card returns the same spell on every later activation,
      whatever the later sampler outcomes. */
  lemma SpellIsFixedAtCollapse(sample: PyValue, later: PyValue)
    ensures var first := Activate(NewElementalWeather(), sample);
      Activate(first.0, later) == (first.0, first.1)
  {
  }
}
