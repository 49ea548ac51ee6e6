/** The ElementalAfflication card (src/Cards/ElementalAfflication.py): an
    entangled card whose joint outcome picks an elemental attack and a
    companion weather card. The joint outcome and the attack spell's own
    animation answer are parameters. */
module ElementalAfflicationCard {
  import opened Wrappers
  import opened CardActivation

  datatype ElementalSpell = EarthSpike | WaterGeyser | Fireball | WindSlash

  /** The spell type each attack stamps on the damage-over-turn effect it
      leaves (src/Spells/ElementalAttacks). */
  function SpellTypeName(e: ElementalSpell): string
  {
    match e
    case EarthSpike => "EarthSpike"
    case WaterGeyser => "WaterGeyser"
    case Fireball => "Fireball"
    case WindSlash => "WindSlash"
  }

  datatype ElementalAfflication = ElementalAfflication(
    stateType: QuantumState,
    collapsedState: Option<string>,
    weatherState: Option<string>,
    spell: Option<ElementalSpell>)

  function NewElementalAfflication(): (c: ElementalAfflication)
    ensures c.stateType == ENTANGLED && c.collapsedState == None && c.spell == None
  {
    ElementalAfflication(ENTANGLED, None, None, None)
  }

  /** Python's slices `outcome[0:2]` and `outcome[2:4]` of the measured
      four-bit string; both are clipped to the string's length. */
  function SplitJointOutcome(outcome: string): (r: (string, string))
    ensures |outcome| >= 4 ==> |r.0| == 2 && |r.1| == 2 && r.0 + r.1 == outcome[..4]
    ensures |outcome| <= 2 ==> r.0 == outcome && r.1 == ""
  {
    var i := if |outcome| < 2 then |outcome| else 2;
    var j := if |outcome| < 4 then |outcome| else 4;
    (outcome[..i], outcome[i..j])
  }

  function InterpretAfflicationState(s: string): (r: Option<ElementalSpell>)
    ensures r.Some? <==> s in {"00", "01", "10", "11"}
  {
    if s == "00" then Some(EarthSpike)
    else if s == "01" then Some(WaterGeyser)
    else if s == "11" then Some(Fireball)
    else if s == "10" then Some(WindSlash)
    else None
  }

  function InterpretWeatherState(s: string): (r: Option<WeatherCard>)
    ensures r.Some? <==> s in {"00", "01", "10", "11"}
  {
    if s == "00" then Some(RainWeather)
    else if s == "01" then Some(Nature)
    else if s == "11" then Some(HeatwaveWeather)
    else if s == "10" then Some(WindyWeather)
    else None
  }

  /** `activate_card`: on the first call the joint outcome is recorded; then
      the attack spell's answer is paired with the companion weather card.
      Calling `animate_spell` on a missing spell raises. */
  function Activate(c: ElementalAfflication, joint: (string, string), spellAnimating: bool)
    : (r: (ElementalAfflication, Activation))
    ensures c.stateType == ENTANGLED ==>
      && r.0.stateType == COLLAPSED
      && r.0.collapsedState == Some(joint.0) && r.0.weatherState == Some(joint.1)
      && r.0.spell == (if InterpretAfflicationState(joint.0).Some? then InterpretAfflicationState(joint.0) else c.spell)
    ensures c.stateType != ENTANGLED ==> r.0 == c
    ensures r.0.collapsedState.Some? && r.0.spell.None? ==> r.1 == Raises
    ensures r.0.collapsedState.Some? && r.0.spell.Some? ==>
      r.1 == Pair(spellAnimating, if r.0.weatherState.Some? then InterpretWeatherState(r.0.weatherState.value) else None)
    ensures r.0.collapsedState.None? ==> r.1 == NoValue
  {
    var card :=
      if c.stateType == ENTANGLED then
        var s := InterpretAfflicationState(joint.0);
        c.(collapsedState := Some(joint.0), weatherState := Some(joint.1), stateType := COLLAPSED,
           spell := if s.Some? then s else c.spell)
      else c;
    if card.collapsedState.None? then (card, NoValue)
    else if card.spell.None? then (card, Raises)
    else (card, Pair(spellAnimating, if card.weatherState.Some? then InterpretWeatherState(card.weatherState.value) else None))
  }

  /** A fresh card activated with a well-formed four-bit measurement never
      raises and always hands back a companion weather card. */
  lemma WellFormedOutcomeNeverRaises(outcome: string, animating: bool)
    requires |outcome| == 4 && forall k :: 0 <= k < 4 ==> outcome[k] in {'0', '1'}
    ensures var r := Activate(NewElementalAfflication(), SplitJointOutcome(outcome), animating);
      r.1.Pair? && r.1.companion.Some?
  {
    var p := SplitJointOutcome(outcome);
    assert p.0 == [outcome[0], outcome[1]] && p.1 == [outcome[2], outcome[3]];
    assert p.0 in {"00", "01", "10", "11"};
    assert p.1 in {"00", "01", "10", "11"};
  }
}
