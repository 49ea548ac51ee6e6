/** The ThanosSnapCard (src/Cards/ThanosSnapCard.py): it collapses once to
    '0' (the snap halves the caster's own deck) or '1' (it halves the
    opponent's deck). The sampler outcome is a parameter. */
module ThanosSnapCardModel {
  import opened Wrappers
  import opened Characters
  import opened CardActivation
  import opened ThanosSnap

  datatype ThanosSnapCard = ThanosSnapCard(stateType: QuantumState, collapsedState: Option<PyValue>, snap: Snap)

  function NewThanosSnapCard(): (c: ThanosSnapCard)
    ensures c.stateType == SUPERPOSITION && c.collapsedState == None && !c.snap.active
  {
    ThanosSnapCard(SUPERPOSITION, None, Snap(false, 0))
  }

  /** The outcome the card holds after an activation with sampler outcome
      `sample`. */
  function OutcomeAfter(c: ThanosSnapCard, sample: PyValue): (o: Option<PyValue>)
    ensures c.stateType == SUPERPOSITION ==> o == Some(sample)
    ensures c.stateType != SUPERPOSITION ==> o == c.collapsedState
  {
    if c.stateType == SUPERPOSITION then Some(sample) else c.collapsedState
  }

  datatype SnapPlayed<C> = SnapPlayed(card: ThanosSnapCard, caster: Character<C>, target: Character<C>, result: Activation)

  /** `activate_card`: the deck that the snap aims at needs pop positions
      that fit it; the other deck is left alone. */
  function Activate<C>(c: ThanosSnapCard, caster: Character<C>, target: Character<C>, sample: PyValue, picks: seq<int>)
    : (r: SnapPlayed<C>)
    requires OutcomeAfter(c, sample) == Some(PyStr("0")) ==> ValidPicks(|caster.deck.cards|, picks)
    requires OutcomeAfter(c, sample) == Some(PyStr("1")) ==> ValidPicks(|target.deck.cards|, picks)
    ensures r.card.collapsedState == OutcomeAfter(c, sample)
    ensures r.card.stateType == if c.stateType == SUPERPOSITION then COLLAPSED else c.stateType
    ensures r.card.collapsedState == Some(PyStr("0")) ==>
      var s := SnapAnimate(c.snap, caster, picks);
      r.caster == s.target && r.target == target && r.result == Pair(s.animating, None) && r.card.snap == s.snap
    ensures r.card.collapsedState == Some(PyStr("1")) ==>
      var s := SnapAnimate(c.snap, target, picks);
      r.caster == caster && r.target == s.target && r.result == Pair(s.animating, None) && r.card.snap == s.snap
    ensures r.card.collapsedState !in {Some(PyStr("0")), Some(PyStr("1"))} ==>
      r.caster == caster && r.target == target && r.result == NoValue && r.card.snap == c.snap
  {
    var card := c.(collapsedState := OutcomeAfter(c, sample),
                   stateType := if c.stateType == SUPERPOSITION then COLLAPSED else c.stateType);
    if card.collapsedState == Some(PyStr("0")) then
      var s := SnapAnimate(c.snap, caster, picks);
      SnapPlayed(card.(snap := s.snap), s.target, target, Pair(s.animating, None))
    else if card.collapsedState == Some(PyStr("1")) then
      var s := SnapAnimate(c.snap, target, picks);
      SnapPlayed(card.(snap := s.snap), caster, s.target, Pair(s.animating, None))
    else SnapPlayed(card, caster, target, NoValue)
  }

  /** Whichever side the snap hits, the side it does not aim at keeps its
      deck, and the side it hits loses nothing but deck cards. */
  lemma SnapHitsOneSide<C>(c: ThanosSnapCard, caster: Character<C>, target: Character<C>, sample: PyValue, picks: seq<int>)
    requires OutcomeAfter(c, sample) == Some(PyStr("0")) ==> ValidPicks(|caster.deck.cards|, picks)
    requires OutcomeAfter(c, sample) == Some(PyStr("1")) ==> ValidPicks(|target.deck.cards|, picks)
    ensures var r := Activate(c, caster, target, sample, picks);
      && r.caster == caster.(deck := r.caster.deck)
      && r.target == target.(deck := r.target.deck)
      && (r.card.collapsedState == Some(PyStr("0")) ==> r.target == target)
      && (r.card.collapsedState == Some(PyStr("1")) ==> r.caster == caster)
  {
  }
}
