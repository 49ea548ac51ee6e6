# DnDDuelist rules engine in Dafny

DnDDuelist is a pygame card duel between a Mage and a Wizard. Its cards are
backed by "quantum" outcomes: a card sits in superposition until it is
played, then collapses to a label that picks its spell and target. This
project models the deterministic rules underneath the rendering, as
immutable records and pure transition functions. Every random or simulated
outcome is a parameter:

- the qiskit measurement counts;
- the joint four-bit measurement;
- the tunnelling coin;
- the deck's weighted card picks;
- ThanosSnap's pop positions;
- mouse hits on cards.

The modules follow the program's files:

- `HealthBar`: clamped health.
- `DamageOverTurn`: elemental damage ticks, tripled by the matching weather.
- `WeatherManager`: the active weather and its expiry turn.
- `Entanglement`: the affliction/weather label tables and their collapse bookkeeping.
- `Superposition`: the single-qubit collapse.
- `QuantumTunneling`: shield-piercing damage resolution.
- `Decks`, `Hands`: bounded card containers.
- `Characters`: the duelist record.
- `Spells`: the "effect after N frames" spells.
- `ThanosSnap`: discarding half a deck.
- Card state machines:
  - `CardActivation`: the shared activation result and state tags.
  - `CollapseBarrierCard`, `ThanosSnapCardModel`, `ElementalWeatherCard`, `ElementalAfflicationCard`: the collapse-once cards.
  - `QuantumTunnelingCard`, `PhaseBiasCard`, `MagicMissiveCard`.
- `PhaseBiasManager`: the phase-bias targeting dialog.
- `Mage`: playing a card and running the played-card queue.
- `GameOver`: winner determination and the fade-in overlay.
- `Coherence`: facts that span several tables, and both halves of the findings below.

The Wizard class has no deck, hand, shield, multiplier or `character_id`. Both duelists
are therefore modelled by one abstract `Characters.Character` record,
generic in the card type. The Hand builds a deck of its own
(src/Cards/Hands.py:10), so a Character holds two decks: the Mage's, which
refills the hand after a play, and the hand's, which dealt the first four
cards.

## Model

| member | source | states |
|---|---|---|
| HealthBar.ReduceHealth | src/Utils/HealthBar.py:22-25 | Health drops by the amount and is raised to 0 if it went below. It is exact when the result is non-negative, and there is no upper clamp. |
| HealthBar.NewHealthBar | src/Utils/HealthBar.py:16-19 | The starting health is stored as given, so the bar lies in 0..100 exactly when the given health does. |
| HealthBar.IncreaseHealth | src/Utils/HealthBar.py:27-30 | Health rises by the amount and is cut to 100 if it went above. It is exact when the result is at most 100, and there is no lower clamp. |
| HealthBar.StepKeepsRange | src/Utils/HealthBar.py:22-30 | One damage or heal of a non-negative amount keeps health in 0..100. |
| HealthBar.ApplyAllKeepsRange | src/Utils/HealthBar.py:22-30 | Any sequence of non-negative damages and heals keeps health in 0..100. |
| HealthBar.ReduceAtZeroStaysZero | src/Utils/HealthBar.py:23-25 | Damage of a non-negative amount at 0 health leaves 0. |
| HealthBar.ClampsAreOneSided | src/Utils/HealthBar.py:22-30 | For every bar and every amount ≤ 0, neither clamp applies on its own side: reducing a non-negative health gives exactly health − amount, and increasing a health ≤ 100 gives exactly health + amount. So a negative amount takes a full bar above 100 or an empty bar below 0. |
| DamageOverTurn.Multiplier | src/Characters/DamageOverTurn.py:11-19 | The multiplier is 3 exactly for Fireball/HEAT, WaterGeyser/RAIN, WindSlash/WIND and EarthSpike/EARTH; otherwise it is 1. |
| DamageOverTurn.ApplyDamage | src/Characters/DamageOverTurn.py:9-24 | With turns left, it deals damage × multiplier, uses up exactly one turn and answers True. Otherwise it answers False and changes nothing. |
| DamageOverTurn.TicksExactlyForTurns | src/Characters/DamageOverTurn.py:9-24 | Starting from k ≥ 0 turns, exactly the first k ticks answer True. The remaining turns end at max(k − n, 0), never negative. |
| DamageOverTurn.ApplyEachTurn | src/Characters/DamageOverTurn.py:9-24 | One result per turn. Damage and spell type never change, and a non-negative damage on a non-negative health leaves it between 0 and where it started. |
| DamageOverTurn.SpentEffectIsInert | src/Characters/DamageOverTurn.py:22-24 | A spent effect answers False and leaves the target alone. |
| WeatherManager.SetActiveWeather | src/WeatherManager.py:16-31 | Records the spell, duration and start turn, and maps Rain/WindTornado/HeatWave/Earthquake to RAIN/WIND/HEAT/EARTH. An unrecognised spell keeps the previous weather type. |
| WeatherManager.StopWeather | src/WeatherManager.py:53-56 | Clears the spell but keeps the weather type. With no spell set it does nothing. |
| WeatherManager.NewManager | src/WeatherManager.py:9-14 | A fresh manager has no spell and no weather type, with 0 turns from turn 0, so animating it changes nothing on any turn. |
| WeatherManager.IsWeatherOver | src/WeatherManager.py:46-51 | The weather is over exactly when more turns than its duration have passed since it started. |
| WeatherManager.AnimateWeather | src/WeatherManager.py:39-44 | Clears an expired spell only. With no spell, or before expiry, it does nothing. |
| WeatherManager.WeatherLifetime | src/WeatherManager.py:46-51 | Weather started at turn t for d turns is over exactly when the current turn exceeds t + d, so it is still active at t + d. |
| WeatherManager.OverIsMonotone | src/WeatherManager.py:46-51 | Once over, weather stays over at every later turn. |
| Entanglement.TableDomains | src/QuantumMechanics/Entanglement.py:106-137 | Both label tables are defined exactly on the four 2-bit labels. |
| Entanglement.AfflictionUndoesWeather | src/QuantumMechanics/Entanglement.py:106-137 | Weather-to-affliction undoes affliction-to-weather. |
| Entanglement.WeatherUndoesAffliction | src/QuantumMechanics/Entanglement.py:106-137 | Affliction-to-weather undoes weather-to-affliction. |
| Entanglement.TablesAreBijections | src/QuantumMechanics/Entanglement.py:106-137 | Each table is one-to-one and onto the four labels. |
| Entanglement.WeatherFor | src/QuantumMechanics/Entanglement.py:106-114 | `handle_afflication_collapse`'s table from affliction label to weather label; every label it answers is one of the four two-bit labels. |
| Entanglement.AfflictionFor | src/QuantumMechanics/Entanglement.py:130-137 | `handle_weather_collapse`'s table from weather label to affliction label. Every label it answers is one of the four two-bit labels, and `handle_afflication_collapse`'s table maps it back to the given weather label. |
| Entanglement.WeatherSpellFor | src/QuantumMechanics/Entanglement.py:147-161 | `_activate_weather` finds a spell exactly for the four two-bit labels, and each spell it finds has an element. |
| Entanglement.ActivateWeather | src/QuantumMechanics/Entanglement.py:144-164 | A known label starts its weather spell for 3 turns on the manager, when a manager exists. An unknown label changes nothing. |
| Entanglement.NewEntanglement | src/QuantumMechanics/Entanglement.py:18-24 | Neither side of a fresh pair has collapsed or holds a label. |
| Entanglement.HandleAfflicationCollapse | src/QuantumMechanics/Entanglement.py:101-122 | A known label collapses both sides, stores both labels and starts the paired weather. The answer is the weather label that maps back to the given one. An unknown label raises. |
| Entanglement.HandleWeatherCollapse | src/QuantumMechanics/Entanglement.py:124-142 | A known label collapses both sides and answers the paired affliction label, starting no weather. An unknown label raises. |
| Entanglement.Reset | src/QuantumMechanics/Entanglement.py:166-171 | Clears both collapsed flags and both labels. |
| Entanglement.CollapseIsOrderIndependent | src/QuantumMechanics/Entanglement.py:101-142 | Collapsing from the affliction side, or from the paired weather label, records the same pair of labels. |
| Superposition.Count | src/QuantumMechanics/Superposition.py:23-27 | A label missing from the counts counts as 0. |
| Superposition.CollapseQubit | src/QuantumMechanics/Superposition.py:18-32 | The answer is 0 exactly when '0' was seen strictly more often than '1', else 1. |
| Superposition.TieCollapsesToOne | src/QuantumMechanics/Superposition.py:29-32 | Ties, including two missing counts, give 1. |
| Superposition.CollapsedValue | src/QuantumMechanics/Superposition.py:29-32 | The stored outcome is the integer 0 or 1, never the string '0' or '1'. |
| Superposition.TwoQubitCountsGiveOne | src/QuantumMechanics/Superposition.py:23-32 | Counts keyed by two-bit labels always give 1. |
| Superposition.CollapseLabel | src/QuantumMechanics/Superposition.py:18-32 | Corrected collapse: the answer is one of the possible labels and has the highest count among them. |
| Superposition.LabelMatchesQubit | src/QuantumMechanics/Superposition.py:18-32 | On one qubit the corrected collapse picks the same outcome as `collapse_qubit`, as a string. |
| QuantumTunneling.TunnelingProbability | src/QuantumMechanics/QuantumTunneling.py:19-37 | The probability is 0 when unarmed, else the caster's own probability, else 0.7. |
| QuantumTunneling.AttemptTunneling | src/QuantumMechanics/QuantumTunneling.py:40-67 | Unshielded target: (False, True). Shielded with probability ≤ 0: (False, False). Otherwise (coin, True). |
| QuantumTunneling.Disarm | src/QuantumMechanics/QuantumTunneling.py:153-156 | Disarms and zeroes the probability only on a caster that has the tunnelling attribute. |
| QuantumTunneling.ApplyTunnelingDamage | src/QuantumMechanics/QuantumTunneling.py:105-157 | Tunnelling damages through the shield and keeps it. Otherwise damage lands only on an unshielded target, and the shield ends down. The target's multiplier is reset to 1. The caster is disarmed iff the attempt consumes, and the answer is whether damage was applied. |
| QuantumTunneling.ShieldAbsorbsUnarmedAttack | src/QuantumMechanics/QuantumTunneling.py:139-147 | An unarmed attack on a shield deals no damage and removes the shield. |
| QuantumTunneling.UnshieldedTargetWastesTunnelling | src/QuantumMechanics/QuantumTunneling.py:105-157 | Against an unshielded target an armed caster's damage lands normally, and the tunnelling is used up (disarmed, probability 0). |
| Decks.AddCard | src/Cards/AllDecks.py:40-45 | Appends exactly when below capacity and answers whether it did. |
| Decks.AddCardKeepsBound | src/Cards/AllDecks.py:42 | A deck within capacity stays within it. |
| Decks.InitializeDefaultCards | src/Cards/AllDecks.py:31-38 | Fills an empty deck with exactly `max_cards` pool cards in pick order. It adds nothing to a full deck. |
| Decks.NewDeck | src/Cards/Deck.py:51-64 | A new deck holds exactly 20 cards from the first fill. The second fill adds nothing. |
| Decks.DrawCardFromDeck | src/Cards/AllDecks.py:76-81 | Drawing n returns the first n cards in order and leaves the rest. Drawing more than the deck holds raises. |
| Decks.PoolHasSevenKinds | src/Cards/Deck.py:16-24 | The pool has exactly seven kinds, and ElementalWeather is not among them. |
| Hands.BootstrapCardsFromDeck | src/Cards/Hands.py:13-15 | The hand becomes the deck's first four cards, which leave the deck. A deck of fewer than four raises. |
| Hands.NewHand | src/Cards/Hands.py:4-11 | A new hand holds four cards from its own deck of 20, leaving 16. |
| Hands.Clear | src/Cards/Hands.py:17-20 | Empties cards and positions and keeps the deck. |
| Hands.AddCard | src/Cards/Hands.py:22-25 | Appends only below four cards; otherwise nothing changes. |
| Hands.AddCardKeepsBound | src/Cards/Hands.py:24 | A hand of at most four stays at most four. |
| Hands.RemoveCard | src/Cards/Hands.py:28-35 | An index in range removes exactly that card (and its position when one exists), keeps the rest in order and answers True. Any other index answers False and changes nothing. |
| Hands.HandleClick | src/Cards/Hands.py:37-43 | The answer is the lowest index whose card is hit, or −1 iff none is. |
| Spells.Advance | src/Spells/Heal.py:41-75 | A frame counter animates while below its frame count, and advances only then. |
| Spells.AnswersCountDown | src/Spells/Heal.py:41-75 | From frame f, call i answers True exactly when f + i is below the frame count. |
| Spells.HealAnimate | src/Spells/Heal.py:41-81 | Animating calls change nothing. After 14 frames the caster is healed by 3. |
| Spells.BarrierAnimate | src/Spells/Barrier.py:35-65 | After 8 frames the caster's shield goes up; before that nothing changes. |
| Spells.MagicMissileAnimate | src/Spells/MagicMissile.py:60-124 | After 9 frames the target loses 10 health, ignoring shield, multiplier and tunnelling. |
| Spells.BacklashSurgeStart | src/Spells/BacklashSurge.py:29-32 | `start` sets the frame counter to 0 whatever it was, so the next call animates. |
| Spells.StartedSurgeAnimatesAllFrames | src/Spells/BacklashSurge.py:29-74 | After `start`, from any earlier counter, exactly the first 30 calls answer True and every later one False. |
| Spells.BacklashSurgeAnimate | src/Spells/BacklashSurge.py:49-74 | After 30 frames the caster argument gets multiplier 3. |
| Spells.TunnelingEffectAnimate | src/Spells/QuantumTunnelingEffect.py:47-88 | A call animates iff the counter is below 8. Only an animating call advances the counter, by one; a finished call changes nothing. |
| Spells.LightningAnimate | src/Spells/Lightning.py:37-78 | After 9 frames, 5 damage is resolved through tunnelling damage; before that nothing changes. |
| Spells.HealRepeatsOnceFinished | src/Spells/Heal.py:44-47 | A finished Heal heals again on every further call. |
| Spells.FinishedSpellsApplyAgain | src/Spells/Barrier.py:38-41 | Finished Barrier, MagicMissile, BacklashSurge and Lightning apply their effect again without resetting the frame. |
| ThanosSnap.ApplyAffect | src/Spells/ThanosSnap.py:188-202 | A deck of n cards keeps n − ⌊n/2⌋. Only the deck changes, and a deck of 0 or 1 is untouched. |
| ThanosSnap.Discard | src/Spells/ThanosSnap.py:197-202 | Removing `count` cards, each at a drawn index of what is left, leaves exactly |cards| − count cards. |
| ThanosSnap.DiscardKeepsOrder | src/Spells/ThanosSnap.py:197-202 | The cards left are an order-preserving subsequence of the original, witnessed by an increasing index map. |
| ThanosSnap.SnapLeavesSubsequence | src/Spells/ThanosSnap.py:188-202 | The snapped deck is a subsequence of the original. |
| ThanosSnap.SnapAnimate | src/Spells/ThanosSnap.py:56-102 | The first call starts the snap. It animates for 35 steps of 0.2 and then halves the target's deck. |
| CollapseBarrierCard.NewCollapseBarrier | src/Cards/CollapseBarrier.py:17-33 | Starts in superposition, with no bias and strength 0.5. |
| CollapseBarrierCard.Activate | src/Cards/CollapseBarrier.py:39-64 | Collapses only from superposition, through the biased sampler iff bias is on and a state is set. Then '0' runs Barrier and '1' BacklashSurge on the caster, each answering (flag, None). Any other outcome answers None. |
| CollapseBarrierCard.CollapsesOnce | src/Cards/CollapseBarrier.py:40-58 | A second activation keeps the first outcome, whatever it samples. |
| ThanosSnapCardModel.Activate | src/Cards/ThanosSnapCard.py:32-41 | Collapses once. '0' aims the snap at the caster and '1' at the opponent, each answering (flag, None). Any other outcome answers None and changes nothing. |
| ThanosSnapCardModel.NewThanosSnapCard | src/Cards/ThanosSnapCard.py:18-27 | A fresh card is in superposition, not collapsed, and its snap has not started. |
| ThanosSnapCardModel.SnapHitsOneSide | src/Cards/ThanosSnapCard.py:37-41 | Only the aimed-at side's deck can change. |
| ElementalWeatherCard.SpellForLabel | src/Cards/ElementalWeather.py:45-52 | Maps 00→Earthquake, 01→HeatWave, 11→WindTornado, 10→Rain; it is defined exactly on those four labels. |
| ElementalWeatherCard.NewElementalWeather | src/Cards/ElementalWeather.py:24-34 | A fresh card is in superposition, not collapsed, and holds no spell. |
| ElementalWeatherCard.Activate | src/Cards/ElementalWeather.py:40-55 | Collapses once and chooses the spell only then. It answers the spell object itself, or None when no spell was chosen. |
| ElementalWeatherCard.LabelTableIsInjective | src/Cards/ElementalWeather.py:45-52 | Distinct labels choose distinct spells. |
| ElementalWeatherCard.SpellIsFixedAtCollapse | src/Cards/ElementalWeather.py:41-55 | After the first activation the card and its answer never change. |
| ElementalAfflicationCard.InterpretAfflicationState | src/Cards/ElementalAfflication.py:65-73 | Maps 00→EarthSpike, 01→WaterGeyser, 11→Fireball, 10→WindSlash; it is defined exactly on those four labels. |
| ElementalAfflicationCard.InterpretWeatherState | src/Cards/ElementalAfflication.py:76-84 | Maps 00→RainWeather, 01→Nature, 11→HeatwaveWeather, 10→WindyWeather; it is defined exactly on those four labels. |
| ElementalAfflicationCard.SplitJointOutcome | src/QuantumMechanics/Entanglement.py:74-77 | A four-bit outcome splits into its first and last two bits; shorter strings are clipped as Python slices are. |
| ElementalAfflicationCard.NewElementalAfflication | src/Cards/ElementalAfflication.py:32-40 | A fresh card is entangled, not collapsed, and holds no spell. |
| ElementalAfflicationCard.Activate | src/Cards/ElementalAfflication.py:46-62 | The first activation fixes both labels from one joint outcome. The answer pairs the spell's flag with the companion weather card, or raises when no spell was chosen. |
| ElementalAfflicationCard.WellFormedOutcomeNeverRaises | src/Cards/ElementalAfflication.py:46-62 | Any four-bit measurement yields a spell and a companion card. |
| QuantumTunnelingCard.Activate | src/Cards/QuantumTunneling.py:26-38 | Arms the caster with the card's probability on every play and answers (effect flag, None). |
| QuantumTunnelingCard.NewTunnelingCard | src/Cards/QuantumTunneling.py:13-21 | A fresh card has probability 0.7 and its effect counter at 0. |
| QuantumTunnelingCard.ReplayRearms | src/Cards/QuantumTunneling.py:29-30 | A disarmed caster is re-armed at 0.7 by playing the card again. |
| QuantumTunnelingCard.PlaysCountDown | src/Cards/QuantumTunneling.py:26-38 | The effect counter is never reset between plays: play i answers (True, None) iff the counter plus i is below 8, otherwise (False, None). A fresh card animates on exactly its first 8 plays. |
| MagicMissiveCard.Activate | src/Cards/MagicMissive.py:23-29 | Answers the missile's bare flag. |
| Coherence.MissiveLeavesQueueWhenFinished | src/Characters/Mage.py:104-107 | Under the written removal rule, a queue holding only the MagicMissive card loses it exactly on the frame its missile finishes and keeps it while it flies. The corrected rule does the same. |
| Coherence.FinishedTunnelingCardStaysQueued | src/Characters/Mage.py:104-107 | A QuantumTunneling card whose effect has finished answers (False, None). As written it stays queued, and each frame it re-arms the caster. The corrected rule removes it. |
| PhaseBiasCard.NewPhaseBias | src/Cards/PhaseBias.py:12-20 | Starts collapsed, with no target and strength 0.7. |
| PhaseBiasCard.CanTargetCard | src/Cards/PhaseBias.py:39-44 | True iff the card is in superposition and offers `apply_phase_bias`. |
| PhaseBiasCard.SetTargetAndBias | src/Cards/PhaseBias.py:25-32 | Records target and state. (state, 0.7) is forwarded iff the target offers the hook. |
| PhaseBiasCard.Activate | src/Cards/PhaseBias.py:34-37 | Answers (False, None). |
| PhaseBiasCard.PhaseBiasIsNeverATarget | src/Cards/PhaseBias.py:17-20 | A PhaseBias card is collapsed, so no PhaseBias card can be aimed at another. |
| PhaseBiasManager.Eligible | src/Utils/PhaseBiasManager.py:39-43 | Every kept card is a targetable hand card, and every targetable hand card is kept. |
| PhaseBiasManager.EligibleDistributes | src/Utils/PhaseBiasManager.py:39-43 | The scan of a hand split in two is the scans of the parts, joined in order. |
| PhaseBiasManager.EligibleOfOneCard | src/Utils/PhaseBiasManager.py:39-43 | A one-card hand keeps its card iff the card is targetable. With the previous row this fixes the result as the targetable cards in hand order. |
| PhaseBiasManager.EligibleCounts | src/Utils/PhaseBiasManager.py:39-43 | A targetable card is kept as many times as it occurs in the hand, and any other card is kept zero times. |
| PhaseBiasManager.StartTargeting | src/Utils/PhaseBiasManager.py:30-51 | Resets target and state. The target list is the scan of the hand, which is the targetable cards in hand order. It answers True iff such a card exists. Otherwise the dialog closes and shows the error for 120 frames. |
| PhaseBiasManager.ShowErrorMessage | src/Utils/PhaseBiasManager.py:225-229 | Shows the text with the timer at 120 and touches nothing else. |
| PhaseBiasManager.NewManager | src/Utils/PhaseBiasManager.py:6-21 | A fresh manager is inactive, with no card, targets, target, state or states, and shows no message. |
| PhaseBiasManager.FirstHit | src/Utils/PhaseBiasManager.py:59-65 | The first target card under the mouse: that card is hit and none before it is. With no result, no target card is hit. |
| PhaseBiasManager.ButtonHit | src/Utils/PhaseBiasManager.py:70-86 | A click on a state button lies strictly inside the dialog's width and below its top. |
| PhaseBiasManager.FirstButton | src/Utils/PhaseBiasManager.py:68-89 | Finds a state button under the mouse, or reports that none is. |
| PhaseBiasManager.ButtonsAreDisjoint | src/Utils/PhaseBiasManager.py:74-84 | A click is on at most one state button. |
| PhaseBiasManager.ApplyPhaseBias | src/Utils/PhaseBiasManager.py:93-97 | Acts only with a target and a non-empty state: it forwards them to the card and closes the dialog. |
| PhaseBiasManager.HandleClick | src/Utils/PhaseBiasManager.py:53-91 | Inactive dialogs ignore clicks. Without a target, the first target card under the mouse becomes the target and its possible states are taken; a miss changes nothing. Once a target is set it is never replaced. With a target and no state, a click off every button is ignored, and a click on button k selects the k-th state and applies the bias with it. With both set, clicks are ignored. A well-formed dialog never raises. |
| PhaseBiasManager.TwoClicksAimTheCard | src/Utils/PhaseBiasManager.py:53-97 | On a fresh dialog, a card click and then a click on one of its non-empty state buttons aim PhaseBias at exactly that card and state and close the dialog. The (state, strength) pair is forwarded iff the card has the hook. An empty state leaves the dialog open. |
| PhaseBiasManager.Cancel | src/Utils/PhaseBiasManager.py:99-103 | Closes the dialog and clears target and state. |
| PhaseBiasManager.Update | src/Utils/PhaseBiasManager.py:105-111 | Counts a shown message's positive timer down by one and hides the message at 0. |
| PhaseBiasManager.MessageLastsItsTimer | src/Utils/PhaseBiasManager.py:105-111 | A message with timer t stays up for exactly t frames. |
| PhaseBiasManager.OperationsKeepWf | src/Utils/PhaseBiasManager.py:30-111 | An open dialog always has its PhaseBias card. |
| Mage.NewMage | src/Characters/Mage.py:40-57 | A new Mage has 20 health, no shield, multiplier 1, 20 deck cards, 4 hand cards and nothing played. |
| Mage.PlayCard | src/Characters/Mage.py:123-136 | The card moves to the end of the played queue, and the deck's front card refills the hand when the deck is non-empty. |
| Mage.PlayCardConservesCards | src/Characters/Mage.py:123-136 | Hand, deck and played queue together keep exactly the same cards, and the hand stays within four. |
| Mage.PlayCardSizes | src/Characters/Mage.py:133-136 | With a non-empty deck the hand keeps its size and the deck loses one card. With an empty deck the hand loses one card. |
| Mage.HandleCardClick | src/Characters/Mage.py:118-136 | Plays the lowest clicked card; a click on no card changes nothing. |
| Mage.RunQueue | src/Characters/Mage.py:100-108 | Given each played card's answer for the frame, walks the queue in order until a card is done or raises. A done card leaves the queue and the frame answers False. |
| Mage.Animate | src/Characters/Mage.py:100-108 | As written: a card leaves only when it answers exactly False. |
| Mage.AnimateFinished | src/Characters/Mage.py:100-108 | Corrected: a card leaves once its flag, or its pair's first part, is False. |
| Mage.FinishedPairIsNeverRemoved | src/Characters/Mage.py:104-107 | A finished card answering (False, None) stays queued as written, and leaves under the correction. |
| Mage.RulesAgreeWithoutPairs | src/Characters/Mage.py:104-107 | Without pair answers the two rules behave the same. |
| Mage.EqualsFalse | src/Characters/Mage.py:105-105 | `answer == False` holds exactly for the bare False; no pair answer ever equals False. |
| Mage.Finished | src/Characters/Mage.py:105-105 | The corrected test accepts everything `== False` does, and additionally exactly the pairs whose first part is False. |
| GameOver.CheckGameOver | src/Effects/GameOver.py:27-63 | Tries, in order: Mage defeated, Wizard defeated, Mage out of cards, Wizard out of cards. The winner and reason follow the first rule that fires; with none, nothing changes. |
| GameOver.NewGameOver | src/Effects/GameOver.py:6-21 | A fresh screen is not game over, with no winner, an empty reason and no fade. |
| GameOver.DefeatedDuelistNeverWins | src/Effects/GameOver.py:38-48 | Health decides before cards, and two defeated duelists give the Wizard the win. |
| GameOver.Update | src/Effects/GameOver.py:65-70 | Only while over, the fade rises by 5 up to 180. |
| GameOver.FadeReachesMax | src/Effects/GameOver.py:65-70 | After k frames the fade is min(a + 5k, 180), and nothing else changes. |
| GameOver.ThirtySixFramesToFullFade | src/Effects/GameOver.py:65-70 | From 0 the fade is complete after exactly 36 frames. |
| GameOver.HandleClick | src/Effects/GameOver.py:132-147 | Buttons answer only once over and fully faded; restart is checked before quit. |
| GameOver.Reset | src/Effects/GameOver.py:149-154 | Returns to a new overlay, which ignores clicks. |
| Coherence.IntegerCollapseNeverCastsBarrier | src/Cards/CollapseBarrier.py:53-64 | As written, CollapseBarrier never casts either spell. |
| Coherence.IntegerCollapseNeverSnaps | src/Cards/ThanosSnapCard.py:33-41 | As written, ThanosSnapCard never snaps. |
| Coherence.IntegerCollapseNeverChoosesWeather | src/Cards/ElementalWeather.py:41-56 | As written, ElementalWeather never chooses a spell. |
| Coherence.LabelCollapseAlwaysCastsBarrier | src/Cards/CollapseBarrier.py:60-64 | With the corrected collapse, CollapseBarrier always casts. |
| Coherence.LabelCollapseAlwaysSnaps | src/Cards/ThanosSnapCard.py:37-41 | With the corrected collapse, ThanosSnapCard always starts a snap. |
| Coherence.LabelCollapseAlwaysChoosesWeather | src/Cards/ElementalWeather.py:45-56 | With the corrected collapse, ElementalWeather answers the same spell `_activate_weather` would start. |
| Coherence.WeatherTablesAgree | src/Cards/ElementalWeather.py:45-52 | The card's label table equals `_activate_weather`'s. |
| Coherence.CompanionTableDisagrees | src/Cards/ElementalAfflication.py:76-84 | The affliction card's companion weather differs from `_activate_weather`'s on every label. |
| Coherence.EntangledWeatherAmplifiesAffliction | src/QuantumMechanics/Entanglement.py:106-114 | Each affliction's paired weather triples that affliction's damage over time. |
| Coherence.PoolView | src/Cards/PhaseBias.py:39-44 | No pool card class offers `apply_phase_bias`. |
| Coherence.PhaseBiasNeverFindsATarget | src/Utils/PhaseBiasManager.py:39-51 | On any hand of pool cards, targeting fails and PhaseBias is discarded with the error. |

## Left out

- Rendering is not modelled: sprites, particles, sound, fonts, the damage and tunnelling indicators, the card display and the phase-bias dialog's drawing. The dialog's click geometry is modelled.
- qiskit circuits and `random` are left out. The measured counts, the joint outcome, the tunnelling coin, the deck's weighted picks and ThanosSnap's pop positions are parameters.
- `_quantum_tunneling_simulation` is left out; its arcsin/sqrt probability is replaced by the coin parameter.
- The card constructors call `apply_superposition_to_qubit`, which src/QuantumMechanics/Superposition.py does not define. `collapse_qubit` is an instance method called on the class. Both would raise. The model assumes the collapse returns what its body computes.
- Mage.NewMage: the source calls `HealthBar(20, 20, screen)` and `Hand(screen, deck)`, but those constructors take `(health, screen)` and `(screen)`, so both calls would raise. The model builds the evidently intended Mage with 20 health.
- The Wizard has no deck, hand, shield, multiplier or `character_id` (src/Characters/Wizard.py). GameOver's card rule would raise on it. The model gives both duelists the same record.
- GameOver.CheckGameOver: on a real Wizard both Wizard rules raise AttributeError. The health rule raises after it has already written `winner`, when it reads `wizard.character_id`; the card rule raises when it reads the Wizard's deck. The model gives the Wizard an id and a deck, so where the source raises, these rules can answer a Mage win.
- Decks.DrawCardFromDeck: when more cards are asked for than the deck holds, the source pops every card before the IndexError. The model reports the whole call as raising and leaves the deck unchanged.
- Card and Mage records have no float fields. `self_damage_multiplier` (1.0 or 3.0) is the integer 1 or 3. Tunnelling probabilities are reals.
- ThanosSnap.SnapAnimate: the float frame that grows by 0.2 up to 7 is counted in integer fifths (35 steps). Floating-point rounding of that sum is not modelled.
- The elemental attack spells (Fireball, WaterGeyser, WindSlash, EarthSpike) are represented only by their animating flag, a parameter of ElementalAfflicationCard.Activate. Their float motion and the `DamageOverTurn(2, 3, name)` they attach are not modelled inside the card.
- The weather spells' animations (Rain, HeatWave, WindTornado, Earthquake) are left out. They are represented by the `WeatherSpell` kind.
- TurnIndicator is left out, and `get_total_turns` is not defined there. The current turn is a parameter of WeatherManager and Entanglement.
- Entanglement.HandleAfflicationCollapse and Entanglement.HandleWeatherCollapse do not model the writes that happen before the UnboundLocalError on an unknown label; the whole call is reported as raising.
- The card's own `activate_card` table and `interpret_afflication_state` are textually identical in the source (src/Cards/ElementalAfflication.py:50-57,65-73). The model defines that table once.
- BlastAllVsBlastMe, the PreProjectQuantumGame prototypes, GameManager's event loop and `setup_entanglement`'s circuit are not part of this model.
- `collapse_states` is dead code (src/QuantumMechanics/Entanglement.py:80-99) and is not modelled.
- DuelistParadox defines no `activate_card`, so playing it raises. The played-card queue models such a card by the `Raises` answer.
- Mage.RunQueue: what each played card answers in a frame is a parameter (`outcomes`), and the effects each `activate_card` call has on the Mage and its target are not threaded through the queue. The card modules model those effects one activation at a time.

## Findings

| source | as written | input that shows it | evidently intended | confidence | as-written member | corrected member |
|---|---|---|---|---|---|---|
| src/QuantumMechanics/Superposition.py:29-32 | `collapse_qubit` returns the integer 0 or 1. CollapseBarrier, ThanosSnapCard and ElementalWeather compare the stored outcome with the strings '0', '1', '00'…, so no branch ever matches and the card answers None. | counts {'0': 3, '1': 1}: the outcome 0 is not equal to '0', so CollapseBarrier casts nothing | the collapse yields the measured label string, so each card dispatches to one of its spells | not executed | Coherence.IntegerCollapseNeverCastsBarrier, Coherence.IntegerCollapseNeverSnaps, Coherence.IntegerCollapseNeverChoosesWeather | Superposition.CollapseLabel, Coherence.LabelCollapseAlwaysCastsBarrier, Coherence.LabelCollapseAlwaysSnaps, Coherence.LabelCollapseAlwaysChoosesWeather |
| src/Characters/Mage.py:104-107 | A played card is removed only when `activate_card(...) == False`. QuantumTunneling, PhaseBias and ElementalAfflication answer pairs such as (False, None), and a pair never equals False. So once finished these cards stay queued and are played again on every frame: a finished QuantumTunneling card re-arms the caster each time. | a QuantumTunneling card from its ninth play on answers (False, None); the queue [card] is unchanged and the caster is armed again | remove the card once its answer, or the first part of its answer pair, is False | not executed | Mage.Animate, Mage.FinishedPairIsNeverRemoved, Coherence.FinishedTunnelingCardStaysQueued | Mage.AnimateFinished, Mage.FinishedPairIsNeverRemoved, Coherence.FinishedTunnelingCardStaysQueued |
