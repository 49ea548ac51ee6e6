/** Winner determination and the game-over overlay
    (src/Effects/GameOver.py). The button hit tests are parameters, since
    the buttons' positions are set while rendering. */
module GameOver {
  import opened Wrappers
  import opened Characters

  const FadeSpeed: int := 5
  const FadeMax: int := 180

  datatype Side = MageSide | WizardSide

  datatype GameOver = GameOver(isGameOver: bool, winner: Option<Side>, reason: string, fadeAlpha: int)

  function NewGameOver(): (g: GameOver)
    ensures !g.isGameOver && g.winner == None && g.reason == "" && g.fadeAlpha == 0
  {
    GameOver(false, None, "", 0)
  }

  /** A duelist is out of cards when both its deck and its hand are empty. */
  predicate OutOfCards<C>(c: Character<C>)
  {
    |c.deck.cards| == 0 && |c.hand.cards| == 0
  }

  function Defeated(id: string): string { id + " has been defeated!" }
  function RanOut(id: string): string { id + " has run out of cards!" }

  /** `check_game_over`, rules tried in order: the Mage's health, the
      Wizard's health, the Mage's cards, the Wizard's cards. When no rule
      fires the state is left as it was (an earlier verdict stays). */
  function CheckGameOver<C>(g: GameOver, mage: Character<C>, wizard: Character<C>): (r: (GameOver, bool))
    ensures r.1 <==> mage.health.health <= 0 || wizard.health.health <= 0 || OutOfCards(mage) || OutOfCards(wizard)
    ensures !r.1 ==> r.0 == g
    ensures r.1 ==> r.0.isGameOver && r.0.fadeAlpha == g.fadeAlpha && r.0.winner.Some?
    ensures mage.health.health <= 0 ==> r.0.winner == Some(WizardSide) && r.0.reason == Defeated(mage.id)
    ensures mage.health.health > 0 && wizard.health.health <= 0 ==>
      r.0.winner == Some(MageSide) && r.0.reason == Defeated(wizard.id)
    ensures mage.health.health > 0 && wizard.health.health > 0 && OutOfCards(mage) ==>
      r.0.winner == Some(WizardSide) && r.0.reason == RanOut(mage.id)
    ensures mage.health.health > 0 && wizard.health.health > 0 && !OutOfCards(mage) && OutOfCards(wizard) ==>
      r.0.winner == Some(MageSide) && r.0.reason == RanOut(wizard.id)
  {
    if mage.health.health <= 0 then
      (g.(winner := Some(WizardSide), reason := Defeated(mage.id), isGameOver := true), true)
    else if wizard.health.health <= 0 then
      (g.(winner := Some(MageSide), reason := Defeated(wizard.id), isGameOver := true), true)
    else if OutOfCards(mage) then
      (g.(winner := Some(WizardSide), reason := RanOut(mage.id), isGameOver := true), true)
    else if OutOfCards(wizard) then
      (g.(winner := Some(MageSide), reason := RanOut(wizard.id), isGameOver := true), true)
    else (g, false)
  }

  /** Health decides before cards: a defeated duelist loses even when the
      other has run out of cards, and when both are defeated the Wizard wins. */
  lemma DefeatedDuelistNeverWins<C>(g: GameOver, mage: Character<C>, wizard: Character<C>)
    requires mage.health.health <= 0 || wizard.health.health <= 0
    ensures var r := CheckGameOver(g, mage, wizard).0;
      && (r.winner == Some(MageSide) <==> mage.health.health > 0)
      && (r.winner == Some(WizardSide) && wizard.health.health <= 0 ==> mage.health.health <= 0)
  {
  }

  /** `update`: one frame of the fade, only once the game is over. */
  function Update(g: GameOver): (r: GameOver)
    ensures !g.isGameOver || g.fadeAlpha >= FadeMax ==> r == g
    ensures g.isGameOver && g.fadeAlpha < FadeMax ==>
      r == g.(fadeAlpha := if g.fadeAlpha + FadeSpeed > FadeMax then FadeMax else g.fadeAlpha + FadeSpeed)
  {
    if g.isGameOver && g.fadeAlpha < FadeMax then
      var a := g.fadeAlpha + FadeSpeed;
      g.(fadeAlpha := if a > FadeMax then FadeMax else a)
    else g
  }

  function UpdateTimes(g: GameOver, k: nat): GameOver
    decreases k
  {
    if k == 0 then g else UpdateTimes(Update(g), k - 1)
  }

  /** From a fresh verdict the overlay brightens by 5 per frame and settles
      at 180, which it reaches after 36 frames. */
  lemma {:induction false} FadeReachesMax(g: GameOver, k: nat)
    requires g.isGameOver && 0 <= g.fadeAlpha <= FadeMax
    decreases k
    ensures 0 <= UpdateTimes(g, k).fadeAlpha <= FadeMax
    ensures UpdateTimes(g, k).fadeAlpha ==
      if g.fadeAlpha + FadeSpeed * k > FadeMax then FadeMax else g.fadeAlpha + FadeSpeed * k
    ensures UpdateTimes(g, k) == g.(fadeAlpha := UpdateTimes(g, k).fadeAlpha)
  {
    if k > 0 {
      FadeReachesMax(Update(g), k - 1);
    }
  }

  lemma ThirtySixFramesToFullFade(g: GameOver)
    requires g.isGameOver && g.fadeAlpha == 0
    ensures UpdateTimes(g, 35).fadeAlpha < FadeMax
    ensures UpdateTimes(g, 36).fadeAlpha == FadeMax
  {
    FadeReachesMax(g, 35);
    FadeReachesMax(g, 36);
  }

  datatype Action = Restart | Quit

  /** `handle_click`: the buttons answer only once the overlay is fully
      faded in; restart wins over quit if both are hit. */
  function HandleClick(g: GameOver, onRestart: bool, onQuit: bool): (r: Option<Action>)
    ensures r.Some? ==> g.isGameOver && g.fadeAlpha >= FadeMax
    ensures r == Some(Restart) <==> g.isGameOver && g.fadeAlpha >= FadeMax && onRestart
    ensures r == Some(Quit) <==> g.isGameOver && g.fadeAlpha >= FadeMax && !onRestart && onQuit
  {
    if !g.isGameOver || g.fadeAlpha < FadeMax then None
    else if onRestart then Some(Restart)
    else if onQuit then Some(Quit)
    else None
  }

  /** `reset`: back to the state of a new overlay. */
  function Reset(g: GameOver): (r: GameOver)
    ensures r == NewGameOver()
    ensures HandleClick(r, true, true) == None
  {
    g.(isGameOver := false, winner := None, reason := "", fadeAlpha := 0)
  }
}
