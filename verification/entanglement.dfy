/** The pairing between the ElementalAfflication and ElementalWeather cards
    (src/QuantumMechanics/Entanglement.py): whichever side collapses first
    fixes the other side's 2-bit label through a hand-written table. */
module Entanglement {
  import opened Wrappers
  import WeatherManager

  /** The four 2-bit labels a pair of measured qubits can show. */
  const Labels: set<string> := {"00", "01", "10", "11"}

  /** Affliction label to weather label, as `handle_afflication_collapse`
      decides it; `None` where the source leaves the local unbound. */
  function WeatherFor(affliction: string): (r: Option<string>)
    ensures r.Some? ==> r.value in Labels
  {
    if affliction == "00" then Some("00")
    else if affliction == "01" then Some("10")
    else if affliction == "11" then Some("01")
    else if affliction == "10" then Some("11")
    else None
  }

  /** Weather label to affliction label, as `handle_weather_collapse`
      decides it. */
  function AfflictionFor(weather: string): (r: Option<string>)
    ensures r.Some? ==> r.value in Labels
    ensures r.Some? ==> WeatherFor(r.value) == Some(weather)
  {
    if weather == "00" then Some("00")
    else if weather == "10" then Some("01")
    else if weather == "01" then Some("11")
    else if weather == "11" then Some("10")
    else None
  }

  /** The collapse bookkeeping of one entangled pair. */
  datatype Entanglement = Entanglement(
    afflicationCollapsed: bool,
    weatherCollapsed: bool,
    afflicationState: Option<string>,
    weatherState: Option<string>)

  /** Neither side of a fresh pair has collapsed nor holds a label. */
  function NewEntanglement(): (e: Entanglement)
    ensures !e.afflicationCollapsed && !e.weatherCollapsed
    ensures e.afflicationState == None && e.weatherState == None
  {
    Entanglement(false, false, None, None)
  }

  /** A collapse that either completes or raises (an unknown label leaves the
      paired label unbound, and Python raises UnboundLocalError). */
  datatype Collapse<T> = Collapsed(value: T) | Raised

  const WeatherDuration: int := 3

  /** `_activate_weather`'s table from weather label to spell. */
  function WeatherSpellFor(weather: string): (r: Option<WeatherManager.WeatherSpell>)
    ensures r.Some? <==> weather in Labels
    ensures r.Some? ==> r.value in WeatherManager.ElementOf
  {
    if weather == "00" then Some(WeatherManager.Earthquake)
    else if weather == "10" then Some(WeatherManager.Rain)
    else if weather == "01" then Some(WeatherManager.HeatWave)
    else if weather == "11" then Some(WeatherManager.WindTornado)
    else None
  }

  /** `_activate_weather`: start the label's weather for three turns on the
      manager, when there is both a spell and a manager. */
  function ActivateWeather(weather: string, mgr: Option<WeatherManager.Manager>, currentTurn: int)
    : (r: Option<WeatherManager.Manager>)
    ensures mgr.None? ==> r.None?
    ensures mgr.Some? && WeatherSpellFor(weather).None? ==> r == mgr
    ensures mgr.Some? && WeatherSpellFor(weather).Some? ==>
      && r.Some?
      && r.value.spell == WeatherSpellFor(weather)
      && r.value.activeTurns == WeatherDuration
      && r.value.startTurn == currentTurn
  {
    var spell := WeatherSpellFor(weather);
    if spell.Some? && mgr.Some? then
      Some(WeatherManager.SetActiveWeather(mgr.value, spell.value, WeatherDuration, currentTurn))
    else mgr
  }

  datatype AfflicationOutcome = AfflicationOutcome(
    pair: Entanglement, manager: Option<WeatherManager.Manager>, weatherState: string)

  /** `handle_afflication_collapse`: the affliction side is measured first;
      both sides become collapsed, the weather label is derived from the
      table, that weather is started and its label returned. */
  function HandleAfflicationCollapse(
    e: Entanglement, state: string, mgr: Option<WeatherManager.Manager>, currentTurn: int)
    : (r: Collapse<AfflicationOutcome>)
    ensures r.Collapsed? <==> state in Labels
    ensures r.Collapsed? ==>
      var o := r.value;
      && o.pair.afflicationCollapsed && o.pair.weatherCollapsed
      && o.pair.afflicationState == Some(state)
      && o.pair.weatherState == Some(o.weatherState)
      && o.weatherState in Labels
      && AfflictionFor(o.weatherState) == Some(state)
      && o.manager == ActivateWeather(o.weatherState, mgr, currentTurn)
  {
    match WeatherFor(state)
    case None => Raised
    case Some(w) =>
      var pair := Entanglement(true, true, Some(state), Some(w));
      Collapsed(AfflicationOutcome(pair, ActivateWeather(w, mgr, currentTurn), w))
  }

  datatype WeatherOutcome = WeatherOutcome(pair: Entanglement, afflicationState: string)

  /** `handle_weather_collapse`: the weather side is measured first; both
      sides become collapsed and the affliction label is returned. No weather
      is started on this path. */
  function HandleWeatherCollapse(e: Entanglement, state: string): (r: Collapse<WeatherOutcome>)
    ensures r.Collapsed? <==> state in Labels
    ensures r.Collapsed? ==>
      var o := r.value;
      && o.pair.afflicationCollapsed && o.pair.weatherCollapsed
      && o.pair.weatherState == Some(state)
      && o.pair.afflicationState == Some(o.afflicationState)
      && o.afflicationState in Labels
      && WeatherFor(o.afflicationState) == Some(state)
  {
    match AfflictionFor(state)
    case None => Raised
    case Some(a) =>
      Collapsed(WeatherOutcome(Entanglement(true, true, Some(a), Some(state)), a))
  }

  /** `reset`: both sides back to uncollapsed with no labels. */
  function Reset(e: Entanglement): (r: Entanglement)
    ensures !r.afflicationCollapsed && !r.weatherCollapsed
    ensures r.afflicationState == None && r.weatherState == None
  {
    NewEntanglement()
  }

  /** Both tables are defined exactly on the four labels. */
  lemma TableDomains(x: string)
    ensures WeatherFor(x).Some? <==> x in Labels
    ensures AfflictionFor(x).Some? <==> x in Labels
  {
    assert x in Labels <==> x == "00" || x == "01" || x == "10" || x == "11";
  }

  /** Weather-then-affliction lookup returns the original label. */
  lemma AfflictionUndoesWeather(a: string)
    requires a in Labels
    ensures WeatherFor(a).Some? && WeatherFor(a).value in Labels
    ensures AfflictionFor(WeatherFor(a).value) == Some(a)
  {
    assert a == "00" || a == "01" || a == "10" || a == "11";
  }

  /** Affliction-then-weather lookup returns the original label. */
  lemma WeatherUndoesAffliction(w: string)
    requires w in Labels
    ensures AfflictionFor(w).Some? && AfflictionFor(w).value in Labels
    ensures WeatherFor(AfflictionFor(w).value) == Some(w)
  {
    assert w == "00" || w == "01" || w == "10" || w == "11";
  }

  /** Each table is a bijection on the four labels: injective, and every
      label is hit. */
  lemma TablesAreBijections(a: string, b: string)
    requires a in Labels && b in Labels
    ensures WeatherFor(a) == WeatherFor(b) ==> a == b
    ensures AfflictionFor(a) == AfflictionFor(b) ==> a == b
    ensures exists x :: x in Labels && WeatherFor(x) == Some(a)
    ensures exists x :: x in Labels && AfflictionFor(x) == Some(a)
  {
    AfflictionUndoesWeather(a);
    AfflictionUndoesWeather(b);
    WeatherUndoesAffliction(a);
    WeatherUndoesAffliction(b);
    var x := AfflictionFor(a).value;
    assert WeatherFor(x) == Some(a);
    var y := WeatherFor(a).value;
    assert AfflictionFor(y) == Some(a);
  }

  /** Collapsing either side first ends in the same pair of labels. */
  lemma CollapseIsOrderIndependent(e: Entanglement, a: string, mgr: Option<WeatherManager.Manager>, t: int)
    requires a in Labels
    ensures var r := HandleAfflicationCollapse(e, a, mgr, t);
      && r.Collapsed?
      && var back := HandleWeatherCollapse(e, r.value.weatherState);
      && back.Collapsed?
      && back.value.pair == r.value.pair
      && back.value.afflicationState == a
  {
    AfflictionUndoesWeather(a);
  }
}
