/** The QuantumTunneling card (src/Cards/QuantumTunneling.py): playing it
    arms the caster's tunnelling with the card's probability and runs the
    tunnelling visual effect. */
module QuantumTunnelingCard {
  import opened Wrappers
  import opened Characters
  import opened CardActivation
  import QuantumTunneling
  import Spells

  datatype TunnelingCard = TunnelingCard(tunnelingProbability: real, effectFrame: int)

  function NewTunnelingCard(): (c: TunnelingCard)
    ensures c.tunnelingProbability == 0.7 && c.effectFrame == 0
  {
    TunnelingCard(0.7, 0)
  }

  datatype TunnelPlay<C> = TunnelPlay(card: TunnelingCard, caster: Character<C>, result: Activation)

  /** `activate_card`: arms the caster (every time it is played) and returns
      the effect's animating flag paired with no companion card. */
  function Activate<C>(c: TunnelingCard, caster: Character<C>): (r: TunnelPlay<C>)
    ensures QuantumTunneling.Armed(r.caster)
    ensures QuantumTunneling.TunnelingProbability(r.caster) == c.tunnelingProbability
    ensures r.caster == caster.(tunnelingActive := Some(true), tunnelingProbability := Some(c.tunnelingProbability))
    ensures r.result == Pair(Spells.TunnelingEffectAnimate(c.effectFrame).animating, None)
    ensures r.card == c.(effectFrame := Spells.TunnelingEffectAnimate(c.effectFrame).next)
  {
    var f := Spells.TunnelingEffectAnimate(c.effectFrame);
    TunnelPlay(c.(effectFrame := f.next),
          caster.(tunnelingActive := Some(true), tunnelingProbability := Some(c.tunnelingProbability)),
          Pair(f.animating, None))
  }

  /** The answers of `n` successive plays of the same card. */
  function Plays<C>(c: TunnelingCard, caster: Character<C>, n: nat): (r: seq<Activation>)
    ensures |r| == n
    decreases n
  {
    if n == 0 then []
    else
      var p := Activate(c, caster);
      [p.result] + Plays(p.card, p.caster, n - 1)
  }

  /** The effect's counter is never reset: of `n` plays, those made while it
      is still below 8 answer (True, None) and every later one (False, None),
      so a fresh card animates on exactly its first 8 plays. */
  lemma {:induction false} PlaysCountDown<C>(c: TunnelingCard, caster: Character<C>, n: nat)
    ensures forall i :: 0 <= i < n ==>
      Plays(c, caster, n)[i] == Pair(c.effectFrame + i < Spells.TunnelingEffectFrames, None)
    decreases n
  {
    if n > 0 {
      var p := Activate(c, caster);
      PlaysCountDown(p.card, p.caster, n - 1);
      var r := Plays(c, caster, n);
      assert r == [p.result] + Plays(p.card, p.caster, n - 1);
      forall i | 0 <= i < n
        ensures r[i] == Pair(c.effectFrame + i < Spells.TunnelingEffectFrames, None)
      {
        if i > 0 {
          assert r[i] == Plays(p.card, p.caster, n - 1)[i - 1];
          if c.effectFrame < Spells.TunnelingEffectFrames {
            assert p.card.effectFrame == c.effectFrame + 1;
          } else {
            assert p.card.effectFrame == c.effectFrame;
          }
        }
      }
    }
  }

  /** Playing the card after the caster's tunnelling was consumed re-arms it
      at the card's probability. */
  lemma ReplayRearms<C>(c: TunnelingCard, caster: Character<C>)
    requires caster.tunnelingActive == Some(false)
    ensures !QuantumTunneling.Armed(caster)
    ensures QuantumTunneling.TunnelingProbability(Activate(c, caster).caster) == c.tunnelingProbability
  {
  }
}
