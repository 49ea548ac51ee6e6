/** The MagicMissive card (src/Cards/MagicMissive.py): it answers with the
    MagicMissile spell's bare boolean, the only card whose answer is not a
    pair, a spell object or None. */
module MagicMissiveCard {
  import opened Characters
  import opened CardActivation
  import Spells

  datatype MissilePlay<C> = MissilePlay(frame: int, target: Character<C>, result: Activation)

  function Activate<C>(frame: int, target: Character<C>): (r: MissilePlay<C>)
    ensures r.result.Flag?
    ensures r.result == Flag(Spells.MagicMissileAnimate(frame, target).animating)
    ensures r.target == Spells.MagicMissileAnimate(frame, target).subject
  {
    var s := Spells.MagicMissileAnimate(frame, target);
    MissilePlay(s.frame, s.subject, Flag(s.animating))
  }
}
