/** The Mage duelist's card rules (src/Characters/Mage.py): playing a card
    from the hand and running the queue of played cards each frame. */
module Mage {
  import opened Wrappers
  import opened HealthBar
  import opened Decks
  import opened Hands
  import opened Characters
  import opened CardActivation

  const MageHealth: int := 20

  /** A new Mage: 20 health, no shield, multiplier 1, no tunnelling
      attributes, a fresh deck and a fresh hand that deals from a deck of
      its own, and nothing played. */
  method NewMage<C>(deckFirst: seq<CardKind>, deckSecond: seq<CardKind>,
                    handFirst: seq<CardKind>, handSecond: seq<CardKind>, make: CardKind -> C)
    returns (m: Character<C>)
    requires |deckFirst| == DeckMaxCards && |deckSecond| == DeckMaxCards
    requires |handFirst| == DeckMaxCards && |handSecond| == DeckMaxCards
    requires forall i :: 0 <= i < DeckMaxCards ==> deckFirst[i] in PossibleCards && deckSecond[i] in PossibleCards
    requires forall i :: 0 <= i < DeckMaxCards ==> handFirst[i] in PossibleCards && handSecond[i] in PossibleCards
    ensures m.id == "Mage" && m.health == HealthBar(MageHealth)
    ensures !m.shield && m.multiplier == 1
    ensures m.tunnelingActive == None && m.tunnelingProbability == None
    ensures |m.deck.cards| == DeckMaxCards && |m.hand.cards| == HandMaxCards && m.played == []
  {
    var deck := NewDeck(deckFirst, deckSecond, make);
    var hand := NewHand(handFirst, handSecond, make);
    m := Character("Mage", NewHealthBar(MageHealth), false, 1, None, None, deck, hand, []);
  }

  /** Playing the card at `index` of the hand: it moves to the played queue
      and, while the Mage's deck has cards, the deck's front card refills the
      hand (`draw_card_from_deck(1)[0]`). */
  function PlayCard<C>(m: Character<C>, index: int): (r: Character<C>)
    requires 0 <= index < |m.hand.cards|
    ensures r.played == m.played + [m.hand.cards[index]]
    ensures r == m.(hand := r.hand, deck := r.deck, played := r.played)
    ensures r.hand.deck == m.hand.deck
    ensures |m.deck.cards| == 0 ==> r.deck == m.deck && r.hand == RemoveCard(m.hand, index).0
    ensures |m.deck.cards| > 0 ==>
      && r.deck == m.deck.(cards := m.deck.cards[1..])
      && r.hand == Hands.AddCard(RemoveCard(m.hand, index).0, m.deck.cards[0])
  {
    var hand := RemoveCard(m.hand, index).0;
    var played := m.played + [m.hand.cards[index]];
    if |m.deck.cards| > 0 then
      m.(hand := Hands.AddCard(hand, m.deck.cards[0]), deck := m.deck.(cards := m.deck.cards[1..]), played := played)
    else m.(hand := hand, played := played)
  }

  /** No card is lost or duplicated by playing one: hand, deck and played
      queue together hold the same cards, and the hand stays within four. */
  lemma {:induction false} PlayCardConservesCards<C>(m: Character<C>, index: int)
    requires 0 <= index < |m.hand.cards| <= HandMaxCards
    ensures |PlayCard(m, index).hand.cards| <= HandMaxCards
    ensures var r := PlayCard(m, index);
      multiset(r.hand.cards) + multiset(r.deck.cards) + multiset(r.played)
      == multiset(m.hand.cards) + multiset(m.deck.cards) + multiset(m.played)
  {
    var card := m.hand.cards[index];
    var hand := RemoveCard(m.hand, index).0;
    assert m.hand.cards == m.hand.cards[..index] + [card] + m.hand.cards[index + 1..];
    assert hand.cards == m.hand.cards[..index] + m.hand.cards[index + 1..];
    assert multiset(m.hand.cards) == multiset(hand.cards) + multiset{card};
    if |m.deck.cards| > 0 {
      assert m.deck.cards == [m.deck.cards[0]] + m.deck.cards[1..];
      assert multiset(m.deck.cards) == multiset{m.deck.cards[0]} + multiset(m.deck.cards[1..]);
    }
  }

  /** With cards left in the deck the hand keeps its size and the deck
      shrinks by one; with an empty deck the hand shrinks by one. */
  lemma PlayCardSizes<C>(m: Character<C>, index: int)
    requires 0 <= index < |m.hand.cards| <= HandMaxCards
    ensures var r := PlayCard(m, index);
      && |r.played| == |m.played| + 1
      && (|m.deck.cards| > 0 ==> |r.hand.cards| == |m.hand.cards| && |r.deck.cards| == |m.deck.cards| - 1)
      && (|m.deck.cards| == 0 ==> |r.hand.cards| == |m.hand.cards| - 1 && r.deck == m.deck)
  {
  }

  /** `handle_card_click`: the hand reports the lowest clicked index, and
      that card is played; a click on no card changes nothing. */
  method HandleCardClick<C>(m: Character<C>, hit: C -> bool) returns (r: Character<C>, index: int)
    ensures -1 <= index < |m.hand.cards|
    ensures index >= 0 ==> hit(m.hand.cards[index]) && forall j :: 0 <= j < index ==> !hit(m.hand.cards[j])
    ensures index == -1 <==> forall j :: 0 <= j < |m.hand.cards| ==> !hit(m.hand.cards[j])
    ensures index == -1 ==> r == m
    ensures index >= 0 ==> r == PlayCard(m, index)
  {
    index := Hands.HandleClick(m.hand, hit);
    r := if index >= 0 then PlayCard(m, index) else m;
  }

  /** Python's `answer == False`: only a bare False is equal to False; a
      tuple, None or a spell object never is. */
  /** Python's `answer == False`: only the bare boolean False (or 0, which
      no card answers) compares equal; a tuple never does. */
  function EqualsFalse(a: Activation): (b: bool)
    ensures b <==> a.Flag? && !a.b
    ensures a.Pair? ==> !b
  {
    a == Flag(false)
  }

  /** The first played card whose answer passes `done`. */
  function FirstDone(outcomes: seq<Activation>, done: Activation -> bool): (r: Option<nat>)
    ensures r.Some? ==>
      && r.value < |outcomes| && done(outcomes[r.value])
      && forall j :: 0 <= j < r.value ==> !done(outcomes[j])
    ensures r.None? ==> forall j :: 0 <= j < |outcomes| ==> !done(outcomes[j])
  {
    if outcomes == [] then None
    else if done(outcomes[0]) then Some(0)
    else
      var r := FirstDone(outcomes[1..], done);
      if r.Some? then Some(r.value + 1) else None
  }

  /** A frame of the played queue either answers (with the queue left and
      `animate`'s boolean) or is cut short by an exception from a card. */
  datatype Animated<C> =
    | Answered(played: seq<C>, activated: nat, result: bool)
    | FrameRaised(activated: nat)

  /** Activation stops at a card that is done or that raised. */
  predicate Stops(a: Activation, done: Activation -> bool)
  {
    done(a) || a.Raises?
  }

  /** One frame of the played queue under the rule `done`: cards are
      activated in order (`outcomes[i]` is what card i answers this frame)
      until one is done, which leaves the queue and makes the frame answer
      False, or one raises. Off turn nothing is activated. */
  function RunQueue<C>(played: seq<C>, turn: bool, outcomes: seq<Activation>, done: Activation -> bool)
    : (r: Animated<C>)
    requires |outcomes| == |played|
    ensures !turn ==> r == Answered(played, 0, true)
    ensures turn ==>
      (r == Answered(played, |played|, true) <==> forall j :: 0 <= j < |played| ==> !Stops(outcomes[j], done))
    ensures turn && r.Answered? && !r.result ==>
      && 1 <= r.activated <= |played|
      && done(outcomes[r.activated - 1])
      && (forall j :: 0 <= j < r.activated - 1 ==> !Stops(outcomes[j], done))
      && r.played == RemoveAt(played, r.activated - 1)
    ensures turn && r.FrameRaised? ==>
      && 1 <= r.activated <= |played|
      && outcomes[r.activated - 1] == Raises
      && (forall j :: 0 <= j < r.activated - 1 ==> !Stops(outcomes[j], done))
  {
    if !turn then Answered(played, 0, true)
    else
      var k := FirstDone(outcomes, a => Stops(a, done));
      if k.None? then Answered(played, |played|, true)
      else if done(outcomes[k.value]) then Answered(RemoveAt(played, k.value), k.value + 1, false)
      else FrameRaised(k.value + 1)
  }

  /** `animate` as written: a card leaves the queue only when its answer
      equals False. */
  function Animate<C>(played: seq<C>, turn: bool, outcomes: seq<Activation>): (r: Animated<C>)
    requires |outcomes| == |played|
    ensures r.Answered? && !r.result ==>
      1 <= r.activated <= |played| && EqualsFalse(outcomes[r.activated - 1]) && |r.played| == |played| - 1
    ensures r.Answered? && r.result ==> r.played == played
    ensures turn && (forall j :: 0 <= j < |played| ==> outcomes[j] != Flag(false) && outcomes[j] != Raises) ==>
      r == Answered(played, |played|, true)
    ensures !turn ==> r == Answered(played, 0, true)
  {
    RunQueue(played, turn, outcomes, EqualsFalse)
  }

  /** A finished card: its answer, or the first part of its answer pair, is
      False. */
  function Finished(a: Activation): (b: bool)
    ensures EqualsFalse(a) ==> b
    ensures b && !EqualsFalse(a) <==> a.Pair? && !a.first
  {
    a == Flag(false) || (a.Pair? && !a.first)
  }

  /** `animate` with the evident intent: a card leaves the queue once its
      spell has finished, whether it answers a bare flag or a pair. */
  function AnimateFinished<C>(played: seq<C>, turn: bool, outcomes: seq<Activation>): (r: Animated<C>)
    requires |outcomes| == |played|
    ensures r.Answered? && !r.result ==>
      1 <= r.activated <= |played| && Finished(outcomes[r.activated - 1]) && |r.played| == |played| - 1
    ensures r.Answered? && r.result ==> r.played == played
    ensures turn && (forall j :: 0 <= j < |played| ==> !Finished(outcomes[j]) && outcomes[j] != Raises) ==>
      r == Answered(played, |played|, true)
    ensures !turn ==> r == Answered(played, 0, true)
  {
    RunQueue(played, turn, outcomes, Finished)
  }

  /** As written, a card whose answer is the pair (False, None), the answer
      of every finished pair-answering card, stays queued and is activated
      again on every later frame; the corrected rule removes it. */
  lemma FinishedPairIsNeverRemoved<C>(card: C)
    ensures Animate([card], true, [Pair(false, None)]) == Answered([card], 1, true)
    ensures AnimateFinished([card], true, [Pair(false, None)]) == Answered([], 1, false)
  {
    assert !Stops(Pair(false, None), EqualsFalse);
    assert Finished(Pair(false, None));
  }

  /** The corrected rule removes exactly the cards the written one does when
      every answer is a bare flag (or no value), and differs only for pairs. */
  lemma RulesAgreeWithoutPairs<C>(played: seq<C>, turn: bool, outcomes: seq<Activation>)
    requires |outcomes| == |played|
    requires forall j :: 0 <= j < |outcomes| ==> !outcomes[j].Pair?
    ensures Animate(played, turn, outcomes) == AnimateFinished(played, turn, outcomes)
  {
    assert forall a: Activation :: !a.Pair? ==> (EqualsFalse(a) <==> Finished(a));
    FirstDoneAgrees(outcomes, a => Stops(a, EqualsFalse), a => Stops(a, Finished));
  }

  lemma {:induction false} FirstDoneAgrees(outcomes: seq<Activation>, p: Activation -> bool, q: Activation -> bool)
    requires forall j :: 0 <= j < |outcomes| ==> (p(outcomes[j]) <==> q(outcomes[j]))
    ensures FirstDone(outcomes, p) == FirstDone(outcomes, q)
  {
    if outcomes != [] && !p(outcomes[0]) {
      FirstDoneAgrees(outcomes[1..], p, q);
    }
  }
}
