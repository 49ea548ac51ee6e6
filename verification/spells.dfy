/** The frame-counted spells (src/Spells/Heal.py, Barrier.py, Lightning.py,
    MagicMissile.py, BacklashSurge.py and QuantumTunnelingEffect.py). Each
    `animate_spell` call draws one frame and answers True; once the frame
    counter has passed the last frame, the call applies the spell's effect
    and answers False instead. The counter is never reset afterwards, so
    every further call applies the effect again. */
module Spells {
  import opened HealthBar
  import opened Characters
  import QuantumTunneling

  /** Number of animation frames of each spell (the length of its frame
      table, or BacklashSurge's `frame_count`). */
  const HealFrames: nat := 14
  const BarrierFrames: nat := 8
  const LightningFrames: nat := 9
  const MagicMissileFrames: nat := 9
  const BacklashSurgeFrames: nat := 30
  const TunnelingEffectFrames: nat := 8

  const HealAmount: int := 3
  const LightningDamage: int := 5
  const MagicMissileDamage: int := 10
  const VulnerableMultiplier: int := 3

  /** One call's effect on the frame counter: whether it still animates and
      the counter afterwards. */
  datatype Frame = Frame(next: int, animating: bool)

  function Advance(frame: int, frames: nat): (r: Frame)
    ensures r.animating <==> frame < frames
    ensures r.next == if r.animating then frame + 1 else frame
  {
    if frame > frames - 1 then Frame(frame, false) else Frame(frame + 1, true)
  }

  /** The answers of n successive calls starting at `frame`. */
  function Answers(frame: int, frames: nat, n: nat): (r: seq<bool>)
    ensures |r| == n
    decreases n
  {
    if n == 0 then []
    else
      var f := Advance(frame, frames);
      [f.animating] + Answers(f.next, frames, n - 1)
  }

  /** From frame `frame` the spell answers True exactly while fewer than
      `frames - frame` calls have been made, and False on every later call:
      from frame 0 that is exactly `frames` True answers. */
  lemma {:induction false} AnswersCountDown(frame: int, frames: nat, n: nat)
    ensures forall i :: 0 <= i < n ==> (Answers(frame, frames, n)[i] <==> frame + i < frames)
    decreases n
  {
    if n > 0 {
      var f := Advance(frame, frames);
      AnswersCountDown(f.next, frames, n - 1);
      var r := Answers(frame, frames, n);
      assert r == [f.animating] + Answers(f.next, frames, n - 1);
      forall i | 0 <= i < n
        ensures r[i] <==> frame + i < frames
      {
        if i > 0 {
          assert r[i] == Answers(f.next, frames, n - 1)[i - 1];
          if frame < frames {
            assert f.next == frame + 1;
          } else {
            assert f.next == frame;
          }
        }
      }
    }
  }

  /** A spell call on one character: the new frame counter, the character
      afterwards and the answer. */
  datatype Cast<C> = Cast(frame: int, subject: Character<C>, animating: bool)

  /** Heal: after 14 frames the caster (not the target) gains 3 health. */
  function HealAnimate<C>(frame: int, caster: Character<C>): (r: Cast<C>)
    ensures r.frame == Advance(frame, HealFrames).next
    ensures r.animating == Advance(frame, HealFrames).animating
    ensures r.animating ==> r.subject == caster
    ensures !r.animating ==> r.subject == caster.(health := IncreaseHealth(caster.health, HealAmount))
  {
    var f := Advance(frame, HealFrames);
    if f.animating then Cast(f.next, caster, true)
    else Cast(f.next, caster.(health := IncreaseHealth(caster.health, HealAmount)), false)
  }

  /** Barrier: after 8 frames the caster is shielded. */
  function BarrierAnimate<C>(frame: int, caster: Character<C>): (r: Cast<C>)
    ensures r.frame == Advance(frame, BarrierFrames).next
    ensures r.animating == Advance(frame, BarrierFrames).animating
    ensures r.animating ==> r.subject == caster
    ensures !r.animating ==> r.subject == caster.(shield := true)
  {
    var f := Advance(frame, BarrierFrames);
    if f.animating then Cast(f.next, caster, true) else Cast(f.next, caster.(shield := true), false)
  }

  /** MagicMissile: after 9 frames the target loses 10 health, whatever its
      shield, multiplier or the caster's tunnelling. */
  function MagicMissileAnimate<C>(frame: int, target: Character<C>): (r: Cast<C>)
    ensures r.frame == Advance(frame, MagicMissileFrames).next
    ensures r.animating == Advance(frame, MagicMissileFrames).animating
    ensures r.animating ==> r.subject == target
    ensures !r.animating ==> r.subject == target.(health := ReduceHealth(target.health, MagicMissileDamage))
  {
    var f := Advance(frame, MagicMissileFrames);
    if f.animating then Cast(f.next, target, true)
    else Cast(f.next, target.(health := ReduceHealth(target.health, MagicMissileDamage)), false)
  }

  /** BacklashSurge `start`: whatever the counter was, it goes back to 0. */
  function BacklashSurgeStart(frame: int): (r: int)
    ensures r == 0
    ensures Advance(r, BacklashSurgeFrames).animating
  {
    0
  }

  /** A started surge runs its whole animation again: of any n calls after
      `start`, exactly the first 30 answer True, even when the counter had
      long passed the end. */
  lemma {:induction false} StartedSurgeAnimatesAllFrames(frame: int, n: nat)
    ensures var r := Answers(BacklashSurgeStart(frame), BacklashSurgeFrames, n);
      forall i :: 0 <= i < n ==> (r[i] <==> i < BacklashSurgeFrames)
  {
    AnswersCountDown(BacklashSurgeStart(frame), BacklashSurgeFrames, n);
  }

  /** BacklashSurge: after 30 frames the caster argument becomes vulnerable
      (multiplier 3). */
  function BacklashSurgeAnimate<C>(frame: int, caster: Character<C>): (r: Cast<C>)
    ensures r.frame == Advance(frame, BacklashSurgeFrames).next
    ensures r.animating == Advance(frame, BacklashSurgeFrames).animating
    ensures r.animating ==> r.subject == caster
    ensures !r.animating ==> r.subject == caster.(multiplier := VulnerableMultiplier)
  {
    var f := Advance(frame, BacklashSurgeFrames);
    if f.animating then Cast(f.next, caster, true)
    else Cast(f.next, caster.(multiplier := VulnerableMultiplier), false)
  }

  /** The tunnelling aura: it draws 8 frames, and its completion changes
      no character (its `apply_affect` does nothing). */
  function TunnelingEffectAnimate(frame: int): (r: Frame)
    ensures r.animating <==> frame < TunnelingEffectFrames
    ensures r.next == if r.animating then frame + 1 else frame
  {
    Advance(frame, TunnelingEffectFrames)
  }

  datatype Bolt<C> = Bolt(frame: int, caster: Character<C>, target: Character<C>, animating: bool)

  /** Lightning: after 9 frames 5 damage is resolved from caster to target
      through shield-piercing damage (`tunnels` is that resolution's
      measurement). */
  function LightningAnimate<C>(frame: int, caster: Character<C>, target: Character<C>, tunnels: bool)
    : (r: Bolt<C>)
    ensures r.frame == Advance(frame, LightningFrames).next
    ensures r.animating == Advance(frame, LightningFrames).animating
    ensures r.animating ==> r.caster == caster && r.target == target
    ensures !r.animating ==>
      var s := QuantumTunneling.ApplyTunnelingDamage(caster, target, LightningDamage, tunnels);
      r.caster == s.caster && r.target == s.target
  {
    var f := Advance(frame, LightningFrames);
    if f.animating then Bolt(f.next, caster, target, true)
    else
      var s := QuantumTunneling.ApplyTunnelingDamage(caster, target, LightningDamage, tunnels);
      Bolt(f.next, s.caster, s.target, false)
  }

  /** Once finished, Heal heals on every further call. */
  lemma HealRepeatsOnceFinished<C>(frame: int, caster: Character<C>)
    requires frame >= HealFrames
    ensures var r := HealAnimate(frame, caster);
      && !r.animating && r.frame == frame
      && !HealAnimate(r.frame, r.subject).animating
      && HealAnimate(r.frame, r.subject).subject.health
         == IncreaseHealth(IncreaseHealth(caster.health, HealAmount), HealAmount)
  {
  }

  /** None of the frame counters is reset: once finished, Barrier,
      MagicMissile, BacklashSurge and Lightning answer False and apply their
      effect again on every further call, each on its own counter. */
  lemma FinishedSpellsApplyAgain<C>(barrier: int, missile: int, surge: int, bolt: int,
                                    caster: Character<C>, target: Character<C>, tunnels: bool)
    requires barrier >= BarrierFrames && missile >= MagicMissileFrames
    requires surge >= BacklashSurgeFrames && bolt >= LightningFrames
    ensures var b := BarrierAnimate(barrier, caster); !b.animating && b.frame == barrier && b.subject.shield
    ensures var m := MagicMissileAnimate(missile, target);
      !m.animating && m.frame == missile && m.subject.health == ReduceHealth(target.health, MagicMissileDamage)
    ensures var v := BacklashSurgeAnimate(surge, caster);
      !v.animating && v.frame == surge && v.subject.multiplier == VulnerableMultiplier
    ensures var l := LightningAnimate(bolt, caster, target, tunnels);
      && !l.animating && l.frame == bolt
      && l.target == QuantumTunneling.ApplyTunnelingDamage(caster, target, LightningDamage, tunnels).target
  {
  }
}
