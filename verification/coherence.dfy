/** How the card tables, the entanglement tables and the damage rules fit
    together, and where they do not. */
module Coherence {
  import opened Wrappers
  import opened Characters
  import opened CardActivation
  import WeatherManager
  import Superposition
  import Entanglement
  import DamageOverTurn
  import Decks
  import ThanosSnap
  import CollapseBarrierCard
  import ThanosSnapCardModel
  import ElementalWeatherCard
  import ElementalAfflicationCard
  import PhaseBiasCard
  import PhaseBiasManager
  import Spells
  import MagicMissiveCard
  import Mage
  import QuantumTunnelingCard
  import QuantumTunneling

  const TwoQubitLabels: seq<string> := ["00", "01", "10", "11"]

  // ---- The collapsed outcome is an integer, the tables test strings ----

  /** As written, a CollapseBarrier that collapses through `collapse_qubit`
      stores the integer 0 or 1, matches neither '0' nor '1', and answers
      None on this and every later activation, leaving the caster as it
      was. */
  lemma IntegerCollapseNeverCastsBarrier<C>(caster: Character<C>, counts: map<string, int>,
                                             biasedCounts: map<string, int>, later: Character<C>)
    ensures var c := CollapseBarrierCard.NewCollapseBarrier();
      var first := CollapseBarrierCard.Activate(c, caster,
        Superposition.CollapsedValue(counts), Superposition.CollapsedValue(biasedCounts));
      var second := CollapseBarrierCard.Activate(first.card, later,
        Superposition.CollapsedValue(counts), Superposition.CollapsedValue(biasedCounts));
      && first.result == NoValue && first.caster == caster
      && second.result == NoValue && second.caster == later
  {
  }

  /** As written, the ThanosSnapCard never snaps. */
  lemma IntegerCollapseNeverSnaps<C>(caster: Character<C>, target: Character<C>, counts: map<string, int>, picks: seq<int>)
    ensures var r := ThanosSnapCardModel.Activate(ThanosSnapCardModel.NewThanosSnapCard(), caster, target,
                                                  Superposition.CollapsedValue(counts), picks);
      r.result == NoValue && r.caster == caster && r.target == target
  {
  }

  /** As written, the ElementalWeather card never chooses a spell. */
  lemma IntegerCollapseNeverChoosesWeather(counts: map<string, int>)
    ensures var r := ElementalWeatherCard.Activate(ElementalWeatherCard.NewElementalWeather(),
                                                   Superposition.CollapsedValue(counts));
      r.0.spell == None && r.1 == NoValue
  {
  }

  /** Corrected: with the collapse answering its measured label, a fresh
      CollapseBarrier always casts one of its two spells, on either sampler. */
  lemma LabelCollapseAlwaysCastsBarrier<C>(caster: Character<C>, counts: map<string, int>, biasedCounts: map<string, int>)
    ensures var r := CollapseBarrierCard.Activate(CollapseBarrierCard.NewCollapseBarrier(), caster,
        PyStr(Superposition.CollapseLabel(counts, Superposition.QubitLabels)),
        PyStr(Superposition.CollapseLabel(biasedCounts, Superposition.QubitLabels)));
      r.result.Pair? && r.result.companion == None
  {
    var l := Superposition.CollapseLabel(counts, Superposition.QubitLabels);
    assert l == "0" || l == "1";
  }

  /** Corrected: a fresh ThanosSnapCard always snaps one of the two decks. */
  lemma LabelCollapseAlwaysSnaps<C>(caster: Character<C>, target: Character<C>, counts: map<string, int>, picks: seq<int>)
    requires ThanosSnap.ValidPicks(|caster.deck.cards|, picks) && ThanosSnap.ValidPicks(|target.deck.cards|, picks)
    ensures var r := ThanosSnapCardModel.Activate(ThanosSnapCardModel.NewThanosSnapCard(), caster, target,
        PyStr(Superposition.CollapseLabel(counts, Superposition.QubitLabels)), picks);
      r.result == Pair(true, None)
  {
    var l := Superposition.CollapseLabel(counts, Superposition.QubitLabels);
    assert l == "0" || l == "1";
  }

  /** Corrected: a fresh ElementalWeather card always hands back a weather
      spell, the one `_activate_weather` would start for the same label. */
  lemma LabelCollapseAlwaysChoosesWeather(counts: map<string, int>)
    ensures var l := Superposition.CollapseLabel(counts, TwoQubitLabels);
      var r := ElementalWeatherCard.Activate(ElementalWeatherCard.NewElementalWeather(), PyStr(l));
      r.1.SpellObject? && Entanglement.WeatherSpellFor(l) == Some(r.1.spell)
  {
    var l := Superposition.CollapseLabel(counts, TwoQubitLabels);
    assert l == "00" || l == "01" || l == "10" || l == "11";
  }

  // ---- Cross-table facts ----

  /** The ElementalWeather card and the entanglement's `_activate_weather`
      map every label to the same weather spell. */
  lemma WeatherTablesAgree(l: string)
    ensures ElementalWeatherCard.SpellForLabel(PyStr(l)) == Entanglement.WeatherSpellFor(l)
  {
  }

  /** The affliction card's own companion-weather table disagrees with
      `_activate_weather` on every label. */
  lemma CompanionTableDisagrees(l: string)
    requires l in Entanglement.Labels
    ensures ElementalAfflicationCard.InterpretWeatherState(l).Some?
    ensures Entanglement.WeatherSpellFor(l).Some?
    ensures SpellOfCard(ElementalAfflicationCard.InterpretWeatherState(l).value) != Entanglement.WeatherSpellFor(l).value
  {
    assert l == "00" || l == "01" || l == "10" || l == "11";
  }

  /** Entanglement pairs every affliction with the weather that triples its
      damage over time: the affliction's attack, the weather its label is
      paired with, and that weather's element give multiplier 3. */
  lemma EntangledWeatherAmplifiesAffliction(a: string)
    requires a in Entanglement.Labels
    ensures ElementalAfflicationCard.InterpretAfflicationState(a).Some?
    ensures Entanglement.WeatherFor(a).Some?
    ensures Entanglement.WeatherSpellFor(Entanglement.WeatherFor(a).value).Some?
    ensures var attack := ElementalAfflicationCard.InterpretAfflicationState(a).value;
      var weather := Entanglement.WeatherSpellFor(Entanglement.WeatherFor(a).value).value;
      && weather in WeatherManager.ElementOf
      && DamageOverTurn.Multiplier(ElementalAfflicationCard.SpellTypeName(attack), Some(WeatherManager.ElementOf[weather])) == 3
  {
    assert a == "00" || a == "01" || a == "10" || a == "11";
  }

  // ---- Phase bias has nothing to aim at ----

  /** What `can_target_card` sees of a freshly dealt card of each pool class:
      its initial state tag (DuelistParadox, MagicMissive and
      QuantumTunneling have none), and no class offers `apply_phase_bias`. */
  function PoolView(k: Decks.CardKind): (v: PhaseBiasCard.CardView)
    ensures !v.hasApplyPhaseBias
  {
    var state :=
      match k
      case DuelistParadox => None
      case MagicMissive => None
      case QuantumTunneling => None
      case ThanosSnapCard => Some(SUPERPOSITION)
      case CollapseBarrier => Some(SUPERPOSITION)
      case ElementalWeather => Some(SUPERPOSITION)
      case ElementalAfflication => Some(ENTANGLED)
      case PhaseBias => Some(COLLAPSED);
    PhaseBiasCard.CardView(state, false)
  }

  /** Since no card class offers the hook, targeting fails on every hand:
      the PhaseBias card is always discarded with the error message. */
  lemma PhaseBiasNeverFindsATarget<C>(m: PhaseBiasManager.Manager<C>, card: PhaseBiasCard.PhaseBias<C>,
                                      hand: seq<C>, kindOf: C -> Decks.CardKind)
    ensures var r := PhaseBiasManager.StartTargeting(m, card, hand, c => PoolView(kindOf(c)));
      && !r.1 && !r.0.isActive
      && r.0.showMessage && r.0.messageText == PhaseBiasManager.NoTargetsMessage
  {
  }

  /** MagicMissive is the one card the written `animate` rule handles as
      intended: a queue holding only the missive loses it exactly on the
      frame its missile has finished, and the corrected rule does the same. */
  lemma MissiveLeavesQueueWhenFinished<C>(card: C, frame: int, target: Character<C>)
    ensures var a := MagicMissiveCard.Activate(frame, target).result;
      && (Mage.Animate([card], true, [a]) == Mage.Answered([], 1, false)
          <==> !Spells.MagicMissileAnimate(frame, target).animating)
      && (Mage.Animate([card], true, [a]) == Mage.Answered([card], 1, true)
          <==> Spells.MagicMissileAnimate(frame, target).animating)
      && Mage.Animate([card], true, [a]) == Mage.AnimateFinished([card], true, [a])
  {
    var a := MagicMissiveCard.Activate(frame, target).result;
    Mage.RulesAgreeWithoutPairs([card], true, [a]);
  }

  /** A QuantumTunneling card whose effect has finished (from its ninth play
      on) answers (False, None). As written it stays queued, and every
      further frame plays it again and re-arms the caster; the corrected rule
      removes it. */
  lemma FinishedTunnelingCardStaysQueued<Q>(queued: Q, c: QuantumTunnelingCard.TunnelingCard, caster: Character<Q>)
    requires c.effectFrame >= Spells.TunnelingEffectFrames
    ensures var p := QuantumTunnelingCard.Activate(c, caster);
      && p.result == Pair(false, None)
      && p.card == c
      && QuantumTunneling.Armed(p.caster)
      && Mage.Animate([queued], true, [p.result]) == Mage.Answered([queued], 1, true)
      && Mage.AnimateFinished([queued], true, [p.result]) == Mage.Answered([], 1, false)
  {
    Mage.FinishedPairIsNeverRemoved(queued);
  }
}
