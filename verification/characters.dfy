/** The state of a duelist that the rules touch: health, shield,
    vulnerability multiplier, the tunnelling fields the QuantumTunneling card
    adds at run time, deck, hand and the queue of played cards. Generic in
    the card type. */
module Characters {
  import opened Wrappers
  import opened HealthBar
  import opened Decks
  import opened Hands

  /** `tunnelingActive` and `tunnelingProbability` are `None` until the
      QuantumTunneling card first sets them: the character classes never
      declare them, and the rules test for them with `hasattr`. */
  datatype Character<C> = Character(
    id: string,
    health: HealthBar,
    shield: bool,
    multiplier: int,
    tunnelingActive: Option<bool>,
    tunnelingProbability: Option<real>,
    deck: Deck<C>,
    hand: Hand<C>,
    played: seq<C>)
}
