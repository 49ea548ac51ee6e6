/** The Thanos Snap spell (src/Spells/ThanosSnap.py): after its animation
    the target discards half of its deck, rounded down, one random card at a
    time. The random indices come in as the parameter `picks`. */
module ThanosSnap {
  import opened Decks
  import opened Characters
  import Hands

  /** The animation frame advances by 0.2 per call and ends at 7 (the length
      of the frame table); it is counted here in whole fifths. */
  const SnapSteps: nat := 35

  datatype Snap = Snap(active: bool, fifths: int)

  /** `picks[k]` is the index `random.randint(0, len - 1)` draws for the
      k-th removal, while the deck holds n - k cards. */
  predicate ValidPicks(n: nat, picks: seq<int>)
  {
    |picks| >= n / 2 && forall k :: 0 <= k < n / 2 ==> 0 <= picks[k] < n - k
  }

  /** Remove `count` cards, the k-th at index `picks[k]` of what is left. */
  function Discard<C>(cards: seq<C>, picks: seq<int>, count: nat): (r: seq<C>)
    requires count <= |picks| && count <= |cards|
    requires forall k :: 0 <= k < count ==> 0 <= picks[k] < |cards| - k
    ensures |r| == |cards| - count
    decreases count
  {
    if count == 0 then cards
    else Discard(Hands.RemoveAt(cards, picks[0]), picks[1..], count - 1)
  }

  /** `apply_affect`: the target's deck loses floor(n / 2) of its n cards;
      nothing else about the target changes, its hand included. */
  function ApplyAffect<C>(target: Character<C>, picks: seq<int>): (r: Character<C>)
    requires ValidPicks(|target.deck.cards|, picks)
    ensures |r.deck.cards| == |target.deck.cards| - |target.deck.cards| / 2
    ensures r == target.(deck := r.deck)
    ensures r.deck.maxCards == target.deck.maxCards
    ensures |target.deck.cards| <= 1 ==> r == target
  {
    var n := |target.deck.cards|;
    target.(deck := target.deck.(cards := Discard(target.deck.cards, picks, n / 2)))
  }

  datatype SnapCast<C> = SnapCast(snap: Snap, target: Character<C>, animating: bool)

  /** `animate_spell`: the first call starts the effect; each later call
      advances one step, and the step that reaches the end applies the
      discard to the target and answers False. */
  function SnapAnimate<C>(s: Snap, target: Character<C>, picks: seq<int>): (r: SnapCast<C>)
    requires ValidPicks(|target.deck.cards|, picks)
    ensures !s.active ==> r == SnapCast(Snap(true, 0), target, true)
    ensures s.active && s.fifths + 1 < SnapSteps ==> r == SnapCast(Snap(true, s.fifths + 1), target, true)
    ensures s.active && s.fifths + 1 >= SnapSteps ==>
      r == SnapCast(Snap(false, s.fifths + 1), ApplyAffect(target, picks), false)
  {
    if !s.active then SnapCast(Snap(true, 0), target, true)
    else if s.fifths + 1 >= SnapSteps then SnapCast(Snap(false, s.fifths + 1), ApplyAffect(target, picks), false)
    else SnapCast(Snap(true, s.fifths + 1), target, true)
  }

  /** `idx` lists, in increasing order, the positions in `b` that `a` keeps. */
  ghost predicate SubsequenceBy<T>(a: seq<T>, b: seq<T>, idx: seq<int>)
  {
    && |idx| == |a|
    && (forall j :: 0 <= j < |idx| ==> 0 <= idx[j] < |b| && a[j] == b[idx[j]])
    && (forall j, k :: 0 <= j < k < |idx| ==> idx[j] < idx[k])
  }

  /** A subsequence of what is left after removing index `p` is a
      subsequence of the whole, with the kept positions from `p` on shifted
      up by one. */
  lemma LiftPastRemoved<T>(a: seq<T>, cards: seq<T>, p: int, inner: seq<int>) returns (idx: seq<int>)
    requires 0 <= p < |cards|
    requires SubsequenceBy(a, Hands.RemoveAt(cards, p), inner)
    ensures SubsequenceBy(a, cards, idx)
  {
    var rest := Hands.RemoveAt(cards, p);
    idx := seq(|inner|, j requires 0 <= j < |inner| => if inner[j] < p then inner[j] else inner[j] + 1);
    forall j | 0 <= j < |idx|
      ensures 0 <= idx[j] < |cards| && a[j] == cards[idx[j]]
    {
      assert a[j] == rest[inner[j]];
    }
  }

  /** The cards left after a discard are the original cards in their
      original order, with some removed. */
  lemma {:induction false} DiscardKeepsOrder<C>(cards: seq<C>, picks: seq<int>, count: nat)
    returns (idx: seq<int>)
    requires count <= |picks| && count <= |cards|
    requires forall k :: 0 <= k < count ==> 0 <= picks[k] < |cards| - k
    ensures SubsequenceBy(Discard(cards, picks, count), cards, idx)
    decreases count
  {
    if count == 0 {
      idx := seq(|cards|, j requires 0 <= j < |cards| => j);
    } else {
      var rest := Hands.RemoveAt(cards, picks[0]);
      var inner := DiscardKeepsOrder(rest, picks[1..], count - 1);
      assert Discard(cards, picks, count) == Discard(rest, picks[1..], count - 1);
      idx := LiftPastRemoved(Discard(cards, picks, count), cards, picks[0], inner);
    }
  }

  /** The discard leaves the deck an order-preserving subsequence of size
      n - floor(n / 2). */
  lemma SnapLeavesSubsequence<C>(target: Character<C>, picks: seq<int>)
    requires ValidPicks(|target.deck.cards|, picks)
    ensures exists idx :: SubsequenceBy(ApplyAffect(target, picks).deck.cards, target.deck.cards, idx)
  {
    var n := |target.deck.cards|;
    var idx := DiscardKeepsOrder(target.deck.cards, picks, n / 2);
    assert ApplyAffect(target, picks).deck.cards == Discard(target.deck.cards, picks, n / 2);
  }
}
