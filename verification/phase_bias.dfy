/** The PhaseBias card (src/Cards/PhaseBias.py): it is never cast directly;
    it is aimed at a card in superposition that offers `apply_phase_bias`,
    to which it forwards the favoured state and its strength 0.7. */
module PhaseBiasCard {
  import opened Wrappers
  import opened CardActivation

  /** What `can_target_card` can see of a card: its `stateType` attribute, if
      it has one, and whether its class defines `apply_phase_bias`. */
  datatype CardView = CardView(stateType: Option<QuantumState>, hasApplyPhaseBias: bool)

  datatype PhaseBias<C> = PhaseBias(stateType: QuantumState, targetCard: Option<C>, favoredState: Option<string>, biasStrength: real)

  function NewPhaseBias<C>(): (p: PhaseBias<C>)
    ensures p.stateType == COLLAPSED && p.targetCard == None && p.favoredState == None && p.biasStrength == 0.7
  {
    PhaseBias(COLLAPSED, None, None, 0.7)
  }

  /** The view of a PhaseBias card itself: collapsed, no bias hook. */
  function ViewOfPhaseBias<C>(p: PhaseBias<C>): CardView
  {
    CardView(Some(p.stateType), false)
  }

  function CanTargetCard(v: CardView): (b: bool)
    ensures b <==> v.stateType == Some(SUPERPOSITION) && v.hasApplyPhaseBias
  {
    v.stateType == Some(SUPERPOSITION) && v.hasApplyPhaseBias
  }

  /** `set_target_and_bias`: records the target and state, and reports the
      (state, strength) call made on the target, if its class has the hook. */
  function SetTargetAndBias<C>(p: PhaseBias<C>, target: C, view: CardView, state: string)
    : (r: (PhaseBias<C>, Option<(string, real)>))
    ensures r.0 == p.(targetCard := Some(target), favoredState := Some(state))
    ensures r.1.Some? <==> view.hasApplyPhaseBias
    ensures r.1.Some? ==> r.1.value == (state, p.biasStrength)
  {
    (p.(targetCard := Some(target), favoredState := Some(state)),
     if view.hasApplyPhaseBias then Some((state, p.biasStrength)) else None)
  }

  /** `activate_card`: no direct effect; a pair whose first part is False. */
  function Activate<C>(p: PhaseBias<C>): (r: Activation)
    ensures r.Pair? && !r.first && r.companion == None
  {
    Pair(false, None)
  }

  /** A PhaseBias card can never aim at another PhaseBias card. */
  lemma PhaseBiasIsNeverATarget<C>(p: PhaseBias<C>)
    ensures !CanTargetCard(ViewOfPhaseBias(p))
  {
  }
}
