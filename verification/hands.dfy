/** A player's hand (src/Cards/Hands.py): at most four cards, their drawn
    screen positions, and the deck the hand was dealt from. Hands.py builds
    that deck itself, so it is a deck of the hand's own. */
module Hands {
  import opened Decks

  const HandMaxCards: nat := 4

  datatype Hand<C> = Hand(cards: seq<C>, positions: seq<(int, int)>, deck: Deck<C>)

  /** A dealt hand, or the IndexError of dealing from a short deck. */
  datatype Dealt<C> = Dealt(hand: Hand<C>) | DealError

  /** `bootstrap_cards_from_deck`: the hand becomes the first four cards of
      its deck, which leave the deck. */
  method BootstrapCardsFromDeck<C>(h: Hand<C>) returns (r: Dealt<C>)
    ensures r.DealError? <==> |h.deck.cards| < HandMaxCards
    ensures r.Dealt? ==>
      && r.hand.cards == h.deck.cards[..HandMaxCards]
      && r.hand.deck == h.deck.(cards := h.deck.cards[HandMaxCards..])
      && r.hand.positions == h.positions
  {
    var d := DrawCardFromDeck(h.deck, HandMaxCards);
    if d.EmptyDeckError? {
      return DealError;
    }
    r := Dealt(h.(cards := d.drawn, deck := d.deck));
  }

  /** `Hand(screen)`: a new deck of its own (two random fillings, see
      `NewDeck`), then the first four cards are dealt into the hand. */
  method NewHand<C>(first: seq<CardKind>, second: seq<CardKind>, make: CardKind -> C)
    returns (h: Hand<C>)
    requires |first| == DeckMaxCards && |second| == DeckMaxCards
    requires forall i :: 0 <= i < |first| ==> first[i] in PossibleCards
    requires forall i :: 0 <= i < |second| ==> second[i] in PossibleCards
    ensures |h.cards| == HandMaxCards && h.positions == []
    ensures forall j :: 0 <= j < HandMaxCards ==> h.cards[j] == make(first[j])
    ensures |h.deck.cards| == DeckMaxCards - HandMaxCards
    ensures forall j :: 0 <= j < |h.deck.cards| ==> h.deck.cards[j] == make(first[j + HandMaxCards])
  {
    var deck := NewDeck(first, second, make);
    var dealt := BootstrapCardsFromDeck(Hand([], [], deck));
    h := dealt.hand;
  }

  /** `clear`: no cards and no positions. */
  function Clear<C>(h: Hand<C>): (r: Hand<C>)
    ensures r.cards == [] && r.positions == []
    ensures r.deck == h.deck
  {
    h.(cards := [], positions := [])
  }

  /** `add_card`: append only while the hand holds fewer than four cards. */
  function AddCard<C>(h: Hand<C>, card: C): (r: Hand<C>)
    ensures |h.cards| < HandMaxCards ==> r == h.(cards := h.cards + [card])
    ensures |h.cards| >= HandMaxCards ==> r == h
  {
    if |h.cards| < HandMaxCards then h.(cards := h.cards + [card]) else h
  }

  /** Through `add_card` the hand never grows beyond four cards. */
  lemma AddCardKeepsBound<C>(h: Hand<C>, card: C)
    requires |h.cards| <= HandMaxCards
    ensures |AddCard(h, card).cards| <= HandMaxCards
  {
  }

  function RemoveAt<T>(s: seq<T>, i: int): (r: seq<T>)
    requires 0 <= i < |s|
    ensures |r| == |s| - 1
    ensures forall j :: 0 <= j < i ==> r[j] == s[j]
    ensures forall j :: i <= j < |r| ==> r[j] == s[j + 1]
  {
    s[..i] + s[i + 1..]
  }

  /** `remove_card(i)`: an index inside the hand removes that card (and its
      position, when one was recorded) and reports True; any other index
      changes nothing and reports False. */
  function RemoveCard<C>(h: Hand<C>, i: int): (r: (Hand<C>, bool))
    ensures r.1 <==> 0 <= i < |h.cards|
    ensures r.1 ==> r.0.cards == RemoveAt(h.cards, i) && r.0.deck == h.deck
    ensures r.1 && i < |h.positions| ==> r.0.positions == RemoveAt(h.positions, i)
    ensures r.1 && i >= |h.positions| ==> r.0.positions == h.positions
    ensures !r.1 ==> r.0 == h
  {
    if 0 <= i < |h.cards| then
      var positions := if i < |h.positions| then RemoveAt(h.positions, i) else h.positions;
      (h.(cards := RemoveAt(h.cards, i), positions := positions), true)
    else (h, false)
  }

  /** `handle_click`: the lowest index whose card reports the click (`hit`
      stands for `card.is_clicked(mouse_pos)`), or -1 when none does. */
  method HandleClick<C>(h: Hand<C>, hit: C -> bool) returns (index: int)
    ensures -1 <= index < |h.cards|
    ensures index >= 0 ==> hit(h.cards[index])
    ensures index >= 0 ==> forall j :: 0 <= j < index ==> !hit(h.cards[j])
    ensures index == -1 <==> forall j :: 0 <= j < |h.cards| ==> !hit(h.cards[j])
  {
    var i := 0;
    while i < |h.cards|
      invariant 0 <= i <= |h.cards|
      invariant forall j :: 0 <= j < i ==> !hit(h.cards[j])
    {
      if hit(h.cards[i]) {
        return i;
      }
      i := i + 1;
    }
    return -1;
  }
}
