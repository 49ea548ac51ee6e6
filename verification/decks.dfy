/** Decks (src/Cards/AllDecks.py and src/Cards/Deck.py): a bounded list of
    cards, filled with random picks from a weighted pool and drawn from the
    front. The deck is generic in its card type; the random picks come in as
    a parameter. */
module Decks {

  /** The card classes the game knows. `ElementalWeather` is imported by
      Deck.py but is not in its pool. */
  datatype CardKind =
    | DuelistParadox | MagicMissive | ThanosSnapCard | CollapseBarrier
    | ElementalAfflication | PhaseBias | QuantumTunneling | ElementalWeather

  /** `POSSIBLE_CARDS`: the pool and its selection weights. */
  const PossibleCards: map<CardKind, real> := map[
    DuelistParadox := 0.35,
    MagicMissive := 0.25,
    ThanosSnapCard := 0.25,
    CollapseBarrier := 0.25,
    ElementalAfflication := 0.25,
    PhaseBias := 0.25,
    QuantumTunneling := 0.35]

  /** The capacity `Deck` passes to the base constructor. */
  const DeckMaxCards: nat := 20

  datatype Deck<C> = Deck(cards: seq<C>, maxCards: nat)

  /** `add_card`: append only while below capacity; report whether it did. */
  function AddCard<C>(d: Deck<C>, card: C): (r: (Deck<C>, bool))
    ensures r.0.maxCards == d.maxCards
    ensures r.1 <==> |d.cards| < d.maxCards
    ensures r.1 ==> r.0.cards == d.cards + [card]
    ensures !r.1 ==> r.0 == d
  {
    if |d.cards| < d.maxCards then (d.(cards := d.cards + [card]), true) else (d, false)
  }

  /** Through `add_card` a deck within capacity stays within capacity. */
  lemma AddCardKeepsBound<C>(d: Deck<C>, card: C)
    requires |d.cards| <= d.maxCards
    ensures |AddCard(d, card).0.cards| <= d.maxCards
  {
  }

  /** `_initialize_default_cards`: one `add_card` per unit of capacity, each
      with a card built from a random pool pick (`picks[i]` is the i-th pick;
      `make` builds a card of that class). Picks beyond the remaining room
      are built and dropped. */
  method InitializeDefaultCards<C>(d: Deck<C>, picks: seq<CardKind>, make: CardKind -> C)
    returns (r: Deck<C>)
    requires |picks| == d.maxCards
    requires forall i :: 0 <= i < |picks| ==> picks[i] in PossibleCards
    ensures r.maxCards == d.maxCards
    ensures |r.cards| == if |d.cards| < d.maxCards then d.maxCards else |d.cards|
    ensures r.cards[..|d.cards|] == d.cards
    ensures forall j :: |d.cards| <= j < |r.cards| ==>
      r.cards[j] == make(picks[j - |d.cards|]) && picks[j - |d.cards|] in PossibleCards
  {
    r := d;
    var i := 0;
    while i < d.maxCards
      invariant 0 <= i <= d.maxCards
      invariant r.maxCards == d.maxCards
      invariant |r.cards| == if |d.cards| + i < d.maxCards then |d.cards| + i
                             else if |d.cards| < d.maxCards then d.maxCards else |d.cards|
      invariant r.cards[..|d.cards|] == d.cards
      invariant forall j :: |d.cards| <= j < |r.cards| ==> r.cards[j] == make(picks[j - |d.cards|])
    {
      r := AddCard(r, make(picks[i])).0;
      i := i + 1;
    }
  }

  /** `Deck(screen)`: the base constructor fills an empty deck of capacity
      20, then `Deck.__init__` runs the filling a second time, which adds
      nothing because the deck is already full. */
  method NewDeck<C>(first: seq<CardKind>, second: seq<CardKind>, make: CardKind -> C)
    returns (d: Deck<C>)
    requires |first| == DeckMaxCards && |second| == DeckMaxCards
    requires forall i :: 0 <= i < |first| ==> first[i] in PossibleCards
    requires forall i :: 0 <= i < |second| ==> second[i] in PossibleCards
    ensures d.maxCards == DeckMaxCards
    ensures |d.cards| == DeckMaxCards
    ensures forall j :: 0 <= j < |d.cards| ==> d.cards[j] == make(first[j])
  {
    var empty: Deck<C> := Deck([], DeckMaxCards);
    var once := InitializeDefaultCards(empty, first, make);
    d := InitializeDefaultCards(once, second, make);
    assert d.cards[..|once.cards|] == once.cards;
  }

  /** The outcome of `draw_card_from_deck`: the drawn cards and the deck
      left, or the IndexError of popping an empty list. */
  datatype Draw<C> = Drawn(deck: Deck<C>, drawn: seq<C>) | EmptyDeckError

  /** `draw_card_from_deck(n)`: pop the front card n times. */
  method DrawCardFromDeck<C>(d: Deck<C>, n: int) returns (r: Draw<C>)
    ensures r.EmptyDeckError? <==> n > |d.cards|
    ensures r.Drawn? ==>
      var k := if n < 0 then 0 else n;
      && r.drawn == d.cards[..k]
      && r.deck == d.(cards := d.cards[k..])
  {
    var cards := d.cards;
    var drawn: seq<C> := [];
    var i := 0;
    while i < n
      invariant 0 <= i <= |d.cards|
      invariant i <= n || i == 0
      invariant drawn == d.cards[..i]
      invariant cards == d.cards[i..]
    {
      if |cards| == 0 {
        return EmptyDeckError;
      }
      drawn := drawn + [cards[0]];
      cards := cards[1..];
      i := i + 1;
    }
    r := Drawn(d.(cards := cards), drawn);
  }

  /** Deck.py's pool holds exactly seven classes, without ElementalWeather. */
  lemma PoolHasSevenKinds()
    ensures |PossibleCards| == 7
    ensures ElementalWeather !in PossibleCards
    ensures forall k :: k in PossibleCards <==> k != ElementalWeather
  {
    assert PossibleCards.Keys == {DuelistParadox, MagicMissive, ThanosSnapCard, CollapseBarrier,
                                  ElementalAfflication, PhaseBias, QuantumTunneling};
  }
}
