/** The targeting dialog for the PhaseBias card
    (src/Utils/PhaseBiasManager.py): choose a superposition card from the
    hand, then one of its possible collapse states, and hand both to the
    PhaseBias card. Mouse hits on cards are a parameter; the state buttons'
    geometry is modelled exactly. */
module PhaseBiasManager {
  import opened Wrappers
  import opened PhaseBiasCard

  const MessageDuration: nat := 120
  const NoTargetsMessage: string := "No Superposition cards to target! Phase Bias discarded."

  /** Dialog and state-button geometry, in pixels. */
  const DialogWidth: int := 400
  const DialogHeight: int := 300
  const ButtonHeight: int := 40
  const ButtonMargin: int := 10

  datatype Manager<C> = Manager(
    isActive: bool,
    phaseBiasCard: Option<PhaseBias<C>>,
    targetCards: seq<C>,
    selectedTarget: Option<C>,
    possibleStates: seq<string>,
    selectedState: Option<string>,
    showMessage: bool,
    messageText: string,
    messageTimer: int)

  function NewManager<C>(): (m: Manager<C>)
    ensures !m.isActive && m.phaseBiasCard == None && m.targetCards == []
    ensures m.selectedTarget == None && m.selectedState == None && m.possibleStates == []
    ensures !m.showMessage && m.messageText == "" && m.messageTimer == 0
  {
    Manager(false, None, [], None, [], None, false, "", 0)
  }

  /** The states every reachable manager is in: an active dialog always has
      its PhaseBias card. */
  predicate Wf<C>(m: Manager<C>)
  {
    m.isActive ==> m.phaseBiasCard.Some?
  }

  /** The cards of `hand` that the PhaseBias card may aim at, in hand order. */
  function Eligible<C>(hand: seq<C>, view: C -> CardView): (r: seq<C>)
    ensures |r| <= |hand|
    ensures forall i :: 0 <= i < |r| ==> r[i] in hand && CanTargetCard(view(r[i]))
    ensures forall i :: 0 <= i < |hand| && CanTargetCard(view(hand[i])) ==> hand[i] in r
  {
    if hand == [] then []
    else
      var rest := Eligible(hand[1..], view);
      if CanTargetCard(view(hand[0])) then [hand[0]] + rest else rest
  }

  /** The scan keeps hand order: filtering a hand split in two is filtering
      each part and joining the results. Together with the one-card case
      this pins `Eligible` down to the targetable cards, in hand order. */
  lemma {:induction false} EligibleDistributes<C>(h1: seq<C>, h2: seq<C>, view: C -> CardView)
    ensures Eligible(h1 + h2, view) == Eligible(h1, view) + Eligible(h2, view)
    decreases |h1|
  {
    if h1 != [] {
      assert (h1 + h2)[1..] == h1[1..] + h2;
      EligibleDistributes(h1[1..], h2, view);
    } else {
      assert h1 + h2 == h2;
    }
  }

  lemma EligibleOfOneCard<C>(card: C, view: C -> CardView)
    ensures Eligible([card], view) == if CanTargetCard(view(card)) then [card] else []
  {
  }

  /** Every targetable card is kept as often as it occurs in the hand, and
      no other card is kept. */
  lemma {:induction false} EligibleCounts<C>(hand: seq<C>, view: C -> CardView, x: C)
    ensures multiset(Eligible(hand, view))[x] == if CanTargetCard(view(x)) then multiset(hand)[x] else 0
    decreases |hand|
  {
    if hand != [] {
      EligibleCounts(hand[1..], view, x);
      assert hand == [hand[0]] + hand[1..];
      assert multiset(hand) == multiset([hand[0]]) + multiset(hand[1..]);
    }
  }

  /** `show_error_message`. */
  function ShowErrorMessage<C>(m: Manager<C>, text: string): (r: Manager<C>)
    ensures r.showMessage && r.messageText == text && r.messageTimer == MessageDuration
    ensures r == m.(showMessage := r.showMessage, messageText := r.messageText, messageTimer := r.messageTimer)
  {
    m.(showMessage := true, messageText := text, messageTimer := MessageDuration)
  }

  /** `start_targeting`: answers whether the dialog opened. With no eligible
      card in the hand it closes at once and shows the error message. */
  function StartTargeting<C>(m: Manager<C>, card: PhaseBias<C>, hand: seq<C>, view: C -> CardView)
    : (r: (Manager<C>, bool))
    ensures r.0.phaseBiasCard == Some(card) && r.0.selectedTarget == None && r.0.selectedState == None
    ensures r.0.possibleStates == m.possibleStates
    ensures r.0.targetCards == Eligible(hand, view)
    ensures forall i :: 0 <= i < |r.0.targetCards| ==>
      r.0.targetCards[i] in hand && CanTargetCard(view(r.0.targetCards[i]))
    ensures forall i :: 0 <= i < |hand| && CanTargetCard(view(hand[i])) ==> hand[i] in r.0.targetCards
    ensures r.1 <==> exists i :: 0 <= i < |hand| && CanTargetCard(view(hand[i]))
    ensures r.0.isActive == r.1
    ensures !r.1 ==> r.0.showMessage && r.0.messageText == NoTargetsMessage && r.0.messageTimer == MessageDuration
    ensures r.1 ==> r.0.showMessage == m.showMessage && r.0.messageTimer == m.messageTimer
  {
    var targets := Eligible(hand, view);
    var started := m.(isActive := true, phaseBiasCard := Some(card), targetCards := targets,
                     selectedTarget := None, selectedState := None);
    if targets == [] then
      (ShowErrorMessage(started.(isActive := false), NoTargetsMessage), false)
    else
      assert targets[0] in targets;
      (started, true)
  }

  /** The first index of `s` whose element the click hits. */
  function FirstHit<C>(s: seq<C>, hit: C -> bool): (r: Option<nat>)
    ensures r.Some? ==> r.value < |s| && hit(s[r.value]) && forall j :: 0 <= j < r.value ==> !hit(s[j])
    ensures r.None? ==> forall j :: 0 <= j < |s| ==> !hit(s[j])
  {
    if s == [] then None
    else if hit(s[0]) then Some(0)
    else
      var r := FirstHit(s[1..], hit);
      if r.Some? then Some(r.value + 1) else None
  }

  /** Whether the mouse is on the button of the `i`th possible state. */
  function ButtonHit(i: int, screenWidth: int, screenHeight: int, mx: int, my: int): (b: bool)
    ensures b ==> var dialogX := (screenWidth - DialogWidth) / 2;
      dialogX < mx < dialogX + DialogWidth
    ensures b && i >= 0 ==> var dialogY := (screenHeight - DialogHeight) / 2;
      dialogY < my
  {
    var dialogX := (screenWidth - DialogWidth) / 2;
    var dialogY := (screenHeight - DialogHeight) / 2;
    var buttonY := dialogY + 80 + i * (ButtonHeight + ButtonMargin);
    && dialogX + 20 <= mx < dialogX + 20 + (DialogWidth - 40)
    && buttonY <= my < buttonY + ButtonHeight
  }

  /** The first state button from `i` on (below `n`) under the mouse. */
  function FirstButton(i: nat, n: nat, screenWidth: int, screenHeight: int, mx: int, my: int): (r: Option<nat>)
    decreases n - i
    ensures r.Some? ==> i <= r.value < n && ButtonHit(r.value, screenWidth, screenHeight, mx, my)
    ensures r.None? ==> forall j :: i <= j < n ==> !ButtonHit(j, screenWidth, screenHeight, mx, my)
  {
    if i >= n then None
    else if ButtonHit(i, screenWidth, screenHeight, mx, my) then Some(i)
    else FirstButton(i + 1, n, screenWidth, screenHeight, mx, my)
  }

  /** The buttons do not overlap: a click is on at most one of them. */
  lemma ButtonsAreDisjoint(i: int, j: int, screenWidth: int, screenHeight: int, mx: int, my: int)
    requires ButtonHit(i, screenWidth, screenHeight, mx, my) && ButtonHit(j, screenWidth, screenHeight, mx, my)
    ensures i == j
  {
  }

  datatype Click<C> =
    | Clicked(manager: Manager<C>, handled: bool, forwarded: Option<(string, real)>)
    | ClickRaised

  /** `apply_phase_bias`: only a chosen target together with a non-empty
      state reaches the card, and that closes the dialog. */
  function ApplyPhaseBias<C>(m: Manager<C>, view: C -> CardView): (r: Click<C>)
    ensures !(m.selectedTarget.Some? && Truthy(m.selectedState)) ==> r == Clicked(m, false, None)
    ensures m.selectedTarget.Some? && Truthy(m.selectedState) && m.phaseBiasCard.None? ==> r.ClickRaised?
    ensures m.selectedTarget.Some? && Truthy(m.selectedState) && m.phaseBiasCard.Some? ==>
      var aimed := SetTargetAndBias(m.phaseBiasCard.value, m.selectedTarget.value, view(m.selectedTarget.value), m.selectedState.value);
      r == Clicked(m.(isActive := false, phaseBiasCard := Some(aimed.0)), false, aimed.1)
  {
    if m.selectedTarget.Some? && Truthy(m.selectedState) then
      if m.phaseBiasCard.None? then ClickRaised
      else
        var aimed := SetTargetAndBias(m.phaseBiasCard.value, m.selectedTarget.value, view(m.selectedTarget.value), m.selectedState.value);
        Clicked(m.(isActive := false, phaseBiasCard := Some(aimed.0)), false, aimed.1)
    else Clicked(m, false, None)
  }

  /** `handle_click`: the first click picks a target card, the second a state
      button; every other click is ignored. */
  function HandleClick<C>(m: Manager<C>, hit: C -> bool, statesOf: C -> Option<seq<string>>, view: C -> CardView,
                          screenWidth: int, screenHeight: int, mx: int, my: int)
    : (r: Click<C>)
    ensures !m.isActive ==> r == Clicked(m, false, None)
    ensures Wf(m) ==> r.Clicked?
    ensures r.Clicked? && r.handled ==> m.isActive && (m.selectedTarget.None? || m.selectedState.None?)
    ensures m.isActive && m.selectedTarget.None? && r.Clicked? && r.handled ==>
      && r.manager.selectedTarget.Some? && r.manager.selectedTarget.value in m.targetCards
      && hit(r.manager.selectedTarget.value)
      && r.manager.isActive && r.forwarded == None
    ensures m.isActive && m.selectedTarget.None? && FirstHit(m.targetCards, hit).None? ==> r == Clicked(m, false, None)
    ensures m.isActive && m.selectedTarget.Some? && m.selectedState.None? && r.Clicked? && r.handled ==>
      && r.manager.selectedState.Some? && r.manager.selectedState.value in m.possibleStates
      && (r.manager.isActive <==> r.manager.selectedState == Some(""))
    ensures m.isActive && m.selectedTarget.Some? && m.selectedState.Some? ==> r == Clicked(m, false, None)
    // A card click selects the first target card under the mouse and takes
    // its possible states, when it offers them; nothing else changes.
    ensures m.isActive && m.selectedTarget.None? && FirstHit(m.targetCards, hit).Some? ==>
      var card := m.targetCards[FirstHit(m.targetCards, hit).value];
      r == Clicked(m.(selectedTarget := Some(card),
                      possibleStates := if statesOf(card).Some? then statesOf(card).value else m.possibleStates),
                   true, None)
    // Once a target is chosen it is kept: clicks only choose the state.
    ensures m.selectedTarget.Some? && r.Clicked? ==> r.manager.selectedTarget == m.selectedTarget
    // A state click that misses every button is ignored; one on button k
    // selects the k-th state and applies the bias with it.
    ensures m.isActive && m.selectedTarget.Some? && m.selectedState.None?
            && FirstButton(0, |m.possibleStates|, screenWidth, screenHeight, mx, my).None? ==>
      r == Clicked(m, false, None)
    ensures m.isActive && m.selectedTarget.Some? && m.selectedState.None?
            && FirstButton(0, |m.possibleStates|, screenWidth, screenHeight, mx, my).Some? ==>
      var k := FirstButton(0, |m.possibleStates|, screenWidth, screenHeight, mx, my).value;
      var applied := ApplyPhaseBias(m.(selectedState := Some(m.possibleStates[k])), view);
      && (applied.ClickRaised? <==> r.ClickRaised?)
      && (applied.Clicked? ==> r == applied.(handled := true))
  {
    if !m.isActive then Clicked(m, false, None)
    else if m.selectedTarget.None? then
      var k := FirstHit(m.targetCards, hit);
      if k.None? then Clicked(m, false, None)
      else
        var card := m.targetCards[k.value];
        var states := statesOf(card);
        Clicked(m.(selectedTarget := Some(card),
                   possibleStates := if states.Some? then states.value else m.possibleStates), true, None)
    else if m.selectedState.None? then
      var k := FirstButton(0, |m.possibleStates|, screenWidth, screenHeight, mx, my);
      if k.None? then Clicked(m, false, None)
      else
        var applied := ApplyPhaseBias(m.(selectedState := Some(m.possibleStates[k.value])), view);
        if applied.ClickRaised? then ClickRaised else applied.(handled := true)
    else Clicked(m, false, None)
  }

  /** The whole dialog in two clicks: on a fresh dialog, a click on a target
      card followed by a click on the button of one of its non-empty states
      aims the PhaseBias card at exactly that card and state, closes the
      dialog, and forwards (state, strength) iff the card has the hook. */
  lemma TwoClicksAimTheCard<C>(m: Manager<C>, hit: C -> bool, statesOf: C -> Option<seq<string>>,
                               view: C -> CardView, screenWidth: int, screenHeight: int, mx: int, my: int)
    requires Wf(m) && m.isActive && m.selectedTarget.None? && m.selectedState.None?
    requires FirstHit(m.targetCards, hit).Some?
    requires var card := m.targetCards[FirstHit(m.targetCards, hit).value];
      statesOf(card).Some? && FirstButton(0, |statesOf(card).value|, screenWidth, screenHeight, mx, my).Some?
    ensures var card := m.targetCards[FirstHit(m.targetCards, hit).value];
      var states := statesOf(card).value;
      var k := FirstButton(0, |states|, screenWidth, screenHeight, mx, my).value;
      var first := HandleClick(m, hit, statesOf, view, 0, 0, 0, 0);
      var second := HandleClick(first.manager, hit, statesOf, view, screenWidth, screenHeight, mx, my);
      && first.Clicked? && first.handled && first.manager.selectedTarget == Some(card)
      && second.Clicked? && second.handled
      && (states[k] != "" ==>
          && !second.manager.isActive
          && second.manager.phaseBiasCard.value.targetCard == Some(card)
          && second.manager.phaseBiasCard.value.favoredState == Some(states[k])
          && (second.forwarded.Some? <==> view(card).hasApplyPhaseBias)
          && (second.forwarded.Some? ==> second.forwarded.value == (states[k], m.phaseBiasCard.value.biasStrength)))
      && (states[k] == "" ==> second.manager.isActive && second.forwarded == None)
  {
  }

  /** `cancel`. */
  function Cancel<C>(m: Manager<C>): (r: Manager<C>)
    ensures !r.isActive && r.selectedTarget == None && r.selectedState == None
    ensures r == m.(isActive := false, selectedTarget := None, selectedState := None)
  {
    m.(isActive := false, selectedTarget := None, selectedState := None)
  }

  /** `update`: one frame of the error-message countdown. */
  function Update<C>(m: Manager<C>): (r: Manager<C>)
    ensures !(m.showMessage && m.messageTimer > 0) ==> r == m
    ensures m.showMessage && m.messageTimer > 0 ==>
      r == m.(messageTimer := m.messageTimer - 1, showMessage := m.messageTimer - 1 > 0)
  {
    if m.showMessage && m.messageTimer > 0 then
      var t := m.messageTimer - 1;
      m.(messageTimer := t, showMessage := if t <= 0 then false else m.showMessage)
    else m
  }

  function UpdateTimes<C>(m: Manager<C>, k: nat): Manager<C>
    decreases k
  {
    if k == 0 then m else UpdateTimes(Update(m), k - 1)
  }

  /** A message shown with a positive timer `t` stays up for exactly `t`
      frames, counting down one per frame. */
  lemma {:induction false} MessageLastsItsTimer<C>(m: Manager<C>, k: nat)
    requires m.showMessage && m.messageTimer > 0
    decreases k
    ensures k <= m.messageTimer ==> UpdateTimes(m, k).messageTimer == m.messageTimer - k
    ensures UpdateTimes(m, k).showMessage <==> k < m.messageTimer
    ensures UpdateTimes(m, k).messageText == m.messageText
  {
    if k == 0 {
    } else if m.messageTimer == 1 {
      HiddenStaysHidden(Update(m), k - 1);
    } else {
      MessageLastsItsTimer(Update(m), k - 1);
    }
  }

  lemma {:induction false} HiddenStaysHidden<C>(m: Manager<C>, k: nat)
    requires !m.showMessage
    decreases k
    ensures UpdateTimes(m, k) == m
  {
    if k > 0 {
      HiddenStaysHidden(Update(m), k - 1);
    }
  }

  /** Every operation keeps a manager well formed. */
  lemma OperationsKeepWf<C>(m: Manager<C>, card: PhaseBias<C>, hand: seq<C>, hit: C -> bool,
                            statesOf: C -> Option<seq<string>>, view: C -> CardView,
                            screenWidth: int, screenHeight: int, mx: int, my: int)
    requires Wf(m)
    ensures Wf(StartTargeting(m, card, hand, view).0)
    ensures Wf(HandleClick(m, hit, statesOf, view, screenWidth, screenHeight, mx, my).manager)
    ensures Wf(Cancel(m)) && Wf(Update(m))
  {
  }
}
