/** The CollapseBarrier card (src/Cards/CollapseBarrier.py): on first use it
    collapses to '0' (Barrier on the caster) or '1' (BacklashSurge on the
    caster) and keeps that outcome. The two samplers' outcomes (plain and
    phase-biased) are parameters; phase bias only chooses which one is used. */
module CollapseBarrierCard {
  import opened Wrappers
  import opened Characters
  import opened CardActivation
  import Spells

  datatype CollapseBarrier = CollapseBarrier(
    stateType: QuantumState,
    collapsedState: Option<PyValue>,
    hasPhaseBias: bool,
    phaseBiasState: Option<string>,
    phaseBiasStrength: real,
    barrierFrame: int,
    vulnerableFrame: int)

  function NewCollapseBarrier(): (c: CollapseBarrier)
    ensures c.stateType == SUPERPOSITION && c.collapsedState == None
    ensures !c.hasPhaseBias && c.phaseBiasState == None && c.phaseBiasStrength == 0.5
    ensures c.barrierFrame == 0 && c.vulnerableFrame == 0
  {
    CollapseBarrier(SUPERPOSITION, None, false, None, 0.5, 0, 0)
  }

  /** The biased sampler is used only when bias is on and a favoured state
      (a non-empty string) is recorded. */
  predicate UsesBiasedSampler(c: CollapseBarrier)
  {
    c.hasPhaseBias && Truthy(c.phaseBiasState)
  }

  datatype Played<C> = Played(card: CollapseBarrier, caster: Character<C>, result: Activation)

  /** `activate_card`: collapse if still in superposition, then dispatch on
      the stored outcome. The target is passed on to the spells, which act on
      the caster only, so it is not part of the model's signature. */
  function Activate<C>(c: CollapseBarrier, caster: Character<C>, plain: PyValue, biased: PyValue)
    : (r: Played<C>)
    ensures c.stateType == SUPERPOSITION ==>
      && r.card.stateType == COLLAPSED
      && r.card.collapsedState == Some(if UsesBiasedSampler(c) then biased else plain)
    ensures c.stateType != SUPERPOSITION ==>
      r.card.stateType == c.stateType && r.card.collapsedState == c.collapsedState
    ensures r.card.hasPhaseBias == c.hasPhaseBias && r.card.phaseBiasState == c.phaseBiasState
    ensures r.card.phaseBiasStrength == c.phaseBiasStrength
    ensures r.card.collapsedState == Some(PyStr("0")) ==>
      var s := Spells.BarrierAnimate(c.barrierFrame, caster);
      && r.result == Pair(s.animating, None)
      && r.caster == s.subject
      && r.card.barrierFrame == s.frame && r.card.vulnerableFrame == c.vulnerableFrame
    ensures r.card.collapsedState == Some(PyStr("1")) ==>
      var s := Spells.BacklashSurgeAnimate(c.vulnerableFrame, caster);
      && r.result == Pair(s.animating, None)
      && r.caster == s.subject
      && r.card.vulnerableFrame == s.frame && r.card.barrierFrame == c.barrierFrame
    ensures r.card.collapsedState !in {Some(PyStr("0")), Some(PyStr("1"))} ==>
      r.result == NoValue && r.caster == caster
      && r.card.barrierFrame == c.barrierFrame && r.card.vulnerableFrame == c.vulnerableFrame
  {
    var card :=
      if c.stateType == SUPERPOSITION then
        c.(collapsedState := Some(if UsesBiasedSampler(c) then biased else plain), stateType := COLLAPSED)
      else c;
    if card.collapsedState == Some(PyStr("0")) then
      var s := Spells.BarrierAnimate(card.barrierFrame, caster);
      Played(card.(barrierFrame := s.frame), s.subject, Pair(s.animating, None))
    else if card.collapsedState == Some(PyStr("1")) then
      var s := Spells.BacklashSurgeAnimate(card.vulnerableFrame, caster);
      Played(card.(vulnerableFrame := s.frame), s.subject, Pair(s.animating, None))
    else Played(card, caster, NoValue)
  }

  /** The card collapses once: every later activation, whatever its sampler
      outcomes, keeps the first outcome and the COLLAPSED state. */
  lemma CollapsesOnce<C>(c: CollapseBarrier, caster: Character<C>, plain: PyValue, biased: PyValue,
                         caster': Character<C>, plain': PyValue, biased': PyValue)
    requires c.stateType == SUPERPOSITION
    ensures var first := Activate(c, caster, plain, biased).card;
      var second := Activate(first, caster', plain', biased').card;
      && second.stateType == COLLAPSED
      && second.collapsedState == first.collapsedState
  {
  }
}
