# Forge: convoke/improvise payment, copy-spell AI, previous-location history

This project is a Dafny model of three small pieces of sequential logic in the Forge
card-game engine, with proofs about each.

- **Convoke / Improvise payment** (`Convoke.dfy`, module `Convoke`). This is the
  interactive input where a player taps untapped creatures (convoke) or artifacts
  (improvise) to pay part of a mana cost.
  - `ConvokeInput` keeps the map of chosen cards. Each entry holds the color mask the
    card used and the shard it paid.
  - `CostLedger` is the remaining cost: a multiset of shards (generic, one color, or
    colorless).
  - Each click is `ConvokeInput.OnCardSelected`, and it does one of three things:
    - it rejects a card that is not eligible;
    - it unselects a chosen card and refunds exactly the shard recorded for it;
    - otherwise it works out a mask and asks the ledger to pay one shard with it.
  - The pure function `Toggle` states what a click does. The method is proved equal
    to it. The lemmas are proved about `Toggle`.
  - The negotiation invariant `Inv` says two things. Every chosen card is eligible.
    What is still owed plus what the chosen cards paid equals the starting cost. From
    it follow the selection bound min(cost CMC, number of untapped cards) and the exact
    refund on deselect.
- **Copy-spell AI** (`CopySpellAi.dfy`, module `CopySpellAi`). `Decide` is the
  decision table of `canPlayAI`. Its input is a value snapshot: the stack top, the
  copying ability's parameters and costs, the AI properties, the per-turn memory and
  the random gate. Its output is the boolean returned, plus whether the top was made a
  target and the host remembered. `CopyContext.CanPlayAI` carries that commit out on
  the two pieces of state it changes.
- **Previous locations** (`PreviousLocation.dfy`, module `Adventure`). This is the
  adventure map's capacity-limited FIFO of positions. `Add` pops from the front until
  there is room, appends, and reports whether it evicted. Its result is specified by
  the function `AfterAdd`. The recursive `PopLoop` models the do-while loop as written,
  including its failure when the capacity is zero or less.

`Wrappers.dfy` holds the `Option` type, which stands for Java's nullable results.

Notes on the code's behaviour:

- Clicking an already chosen card unselects it and returns `true`
  (InputSelectCardsForConvokeOrImprovise.java:73-77 and 108-109).
- The shape guard at CopySpellAbilityAi.java:66 only rejects wrappers. The stack top is
  statically a `SpellAbility`, so the part of the test that asks whether it is not one
  can never hold. A top that is neither a `Spell` nor an `AbilityActivated` therefore passes the
  guard, gets `CantPlaySa`, and reaches the mandatory fallback
  (`OtherShapeReachesFallback`).
- `onCancel` does not clear the selection. It clicks every card the AI helper picked,
  in order. A card that was already chosen and is clicked once therefore ends up
  unselected (`AutoSelectUnselectsChosen`).
- The CMC comparison at CopySpellAbilityAi.java:34 adds two Java `int`s, so a very large
  `ALWAYS_COPY_SPELL_IF_CMC_DIFF` wraps around and forces the chance to 100
  (`CmcDiffOverflowForcesOverride`).
- Which shard `ManaCostBeingPaid.payManaViaConvoke` pays for a mask is outside this
  model and is the oracle `Pick`.

## Model

| member | source | states |
|---|---|---|
| `Convoke.MaskRule` | forge-gui/src/main/java/forge/gamemodes/match/input/InputSelectCardsForConvokeOrImprovise.java:80-96 | Improvise always uses the colorless mask. Convoke uses a mono-colored or colorless card's own colors as they are. A multicolor card is cut to the unpaid colors. The player is prompted iff two or more colors are left, and is offered exactly those colors. |
| `Convoke.Toggle` | forge-gui/src/main/java/forge/gamemodes/match/input/InputSelectCardsForConvokeOrImprovise.java:67-110 | An ineligible card gives `false` and changes nothing. Any `false` leaves the state unchanged. No other card's entry changes. A chosen card is removed and its recorded shard refunded. Otherwise the result is `true` iff the ledger pays, and the card is then recorded with the (mask, shard) pair. |
| `Convoke.SelectThenDeselect` | forge-gui/src/main/java/forge/gamemodes/match/input/InputSelectCardsForConvokeOrImprovise.java:73-100 | Selecting a card and clicking it again restores the chosen map and the remaining cost exactly. |
| `Convoke.UnselectKeepsInv` | forge-gui/src/main/java/forge/gamemodes/match/input/InputSelectCardsForConvokeOrImprovise.java:73-77 | Unselecting a chosen card and refunding its recorded shard keeps the invariant. |
| `Convoke.SelectKeepsInv` | forge-gui/src/main/java/forge/gamemodes/match/input/InputSelectCardsForConvokeOrImprovise.java:97-100 | Recording an eligible card with a shard that is still owed, and paying that shard, keeps the invariant. |
| `Convoke.ToggleKeepsInv` | forge-gui/src/main/java/forge/gamemodes/match/input/InputSelectCardsForConvokeOrImprovise.java:67-110 | Every click keeps the invariant: chosen cards are eligible, and remaining cost plus paid shards equals the starting cost. |
| `Convoke.PaidShardsRemove` | forge-gui/src/main/java/forge/gamemodes/match/input/InputSelectCardsForConvokeOrImprovise.java:75-76 | Removing a chosen card takes exactly its recorded shard out of the shards paid. |
| `Convoke.SelectionBound` | forge-gui/src/main/java/forge/gamemodes/match/input/InputSelectCardsForConvokeOrImprovise.java:40 | Under the invariant, the number of chosen cards is at most min(cost CMC, number of untapped cards). |
| `Convoke.ImproviseRecordsColorless` | forge-gui/src/main/java/forge/gamemodes/match/input/InputSelectCardsForConvokeOrImprovise.java:81-99 | In improvise mode a successful click records the colorless mask. |
| `Convoke.FixedMaskIgnoresPrompt` | forge-gui/src/main/java/forge/gamemodes/match/input/InputSelectCardsForConvokeOrImprovise.java:80-96 | When the rule fixes the mask (always so in improvise mode), the click's outcome does not depend on the color prompt. |
| `Convoke.ToggleAllKeepsInv` | forge-gui/src/main/java/forge/gamemodes/match/input/InputSelectCardsForConvokeOrImprovise.java:146-166 | The automatic selection, a sequence of clicks, keeps the invariant. |
| `Convoke.AutoSelectUnselectsChosen` | forge-gui/src/main/java/forge/gamemodes/match/input/InputSelectCardsForConvokeOrImprovise.java:157-161 | An automatic selection list that contains an already chosen, eligible card exactly once leaves that card unselected, wherever it is in the list. |
| `Convoke.CostLedger.PayViaConvoke` | forge-gui/src/main/java/forge/gamemodes/match/input/InputSelectCardsForConvokeOrImprovise.java:97 | Pays the shard its rule picks, which is one still owed, and removes exactly that shard. If the rule picks none, nothing changes. |
| `Convoke.CostLedger.IncreaseShard` | forge-gui/src/main/java/forge/gamemodes/match/input/InputSelectCardsForConvokeOrImprovise.java:76 | Owes `count` more of the shard. With count 1 this is the exact inverse of paying that shard. |
| `Convoke.UnpaidColors` | forge-gui/src/main/java/forge/gamemodes/match/input/InputSelectCardsForConvokeOrImprovise.java:87 | A color is unpaid iff a shard of that color is still owed. `CostLedger.GetUnpaidColors` returns it for the ledger's current cost. |
| `Convoke.ToggleAll` | forge-gui/src/main/java/forge/gamemodes/match/input/InputSelectCardsForConvokeOrImprovise.java:157-161 | Clicking the cards in order leaves every card that is not in the list exactly as it was: still chosen with the same entry, or still unchosen. |
| `Convoke.ConvokeInput.constructor` | forge-gui/src/main/java/forge/gamemodes/match/input/InputSelectCardsForConvokeOrImprovise.java:39-47 | The selection bounds are 0 and min(cost CMC, number of untapped cards). Nothing is chosen, the ledger holds the whole cost, and the invariant holds. |
| `Convoke.ConvokeInput.ChosenColor` | forge-gui/src/main/java/forge/gamemodes/match/input/InputSelectCardsForConvokeOrImprovise.java:80-96 | The mask computed for a click is the one the mask rule gives for the card's colors and the colors still unpaid. The prompt is asked only when that rule leaves a choice. |
| `Convoke.ConvokeInput.OnCardSelected` | forge-gui/src/main/java/forge/gamemodes/match/input/InputSelectCardsForConvokeOrImprovise.java:67-110 | The result and the new state (chosen map and ledger) are exactly those of `Toggle` on the old state, and the invariant is kept. |
| `Convoke.ConvokeInput.GetConvokeMap` | forge-gui/src/main/java/forge/gamemodes/match/input/InputSelectCardsForConvokeOrImprovise.java:124-132 | Empty when cancelled. Otherwise it has the chosen cards as keys, each mapped to the shard it paid. |
| `Convoke.ConvokeInput.GetSelected` | forge-gui/src/main/java/forge/gamemodes/match/input/InputSelectCardsForConvokeOrImprovise.java:141-143 | The chosen cards. All of them are eligible, and there are at most `maxSelection` of them. |
| `Convoke.ConvokeInput.OnCancel` | forge-gui/src/main/java/forge/gamemodes/match/input/InputSelectCardsForConvokeOrImprovise.java:146-166 | The new state is the given cards clicked one after another, in order, and the invariant is kept. |
| `CopySpellAi.AddInt32` | forge-ai/src/main/java/forge/ai/ability/CopySpellAbilityAi.java:34 | The sum is in the 32-bit range. It equals the exact sum when that fits, and otherwise differs from it by a multiple of 2^32. |
| `CopySpellAi.CmcDiffOverflowForcesOverride` | forge-ai/src/main/java/forge/ai/ability/CopySpellAbilityAi.java:31-37 | When own CMC + diff overflows, any top CMC at or above the wrapped sum triggers the override, and the chance becomes 100. |
| `CopySpellAi.EffectiveChance` | forge-ai/src/main/java/forge/ai/ability/CopySpellAbilityAi.java:22-41 | The chance is 100 when both mana costs exist and the top's CMC is at least own CMC + diff. It is also 100 when the top's activator is an opponent. Otherwise it is the AI property. |
| `CopySpellAi.Verdict` | forge-ai/src/main/java/forge/ai/ability/CopySpellAbilityAi.java:84-91 | A spell gets the evaluator's verdict. An activated ability gets WillPlay iff the AI activated it and the logic contains "CopyActivatedAbilities". Any other shape gets CantPlaySa. |
| `CopySpellAi.Decide` | forge-ai/src/main/java/forge/ai/ability/CopySpellAbilityAi.java:20-102 | With an empty stack the answer is `isMandatory`. A commit implies `true`. A commit happens iff the stack is non-empty, the gate passes or is overridden, OnceIfViable has not yet fired for the host, targets exist, no filter applies, the top is targetable and the verdict is WillPlay. |
| `CopySpellAi.EmptyStackIsMandatory` | forge-ai/src/main/java/forge/ai/ability/CopySpellAbilityAi.java:26-28 | With an empty stack the result is exactly `sa.isMandatory()`, with no commit. |
| `CopySpellAi.FailedGateRejects` | forge-ai/src/main/java/forge/ai/ability/CopySpellAbilityAi.java:43-48 | A failed gate without AlwaysIfViable, OnceIfViable or AlwaysCopyActivatedAbilities gives `false`, even for a mandatory ability. |
| `CopySpellAi.OpponentTopPassesGate` | forge-ai/src/main/java/forge/ai/ability/CopySpellAbilityAi.java:39-48 | For an opponent's top, a gate that passes at 100 gives the same decision as a gate that always passes. |
| `CopySpellAi.OnceIfViableRemembered` | forge-ai/src/main/java/forge/ai/ability/CopySpellAbilityAi.java:50-54 | OnceIfViable with the host already remembered this turn gives `false` and no commit. |
| `CopySpellAi.FiltersBypassFallback` | forge-ai/src/main/java/forge/ai/ability/CopySpellAbilityAi.java:56-78 | When targets exist, each of these gives `false` directly, without the mandatory fallback: OnlyOwned with a foreign activator, a wrapper, the CopySpellAbility API, ConditionManaSpent, and a RemAIDeck host. |
| `CopySpellAi.FallbackIsTriggerRule` | forge-ai/src/main/java/forge/ai/ability/CopySpellAbilityAi.java:100-108 | Past the gate, memory and filter checks, an answer without a commit is "mandatory or AILogic is Always", which is the `doTriggerAINoCost` rule. |
| `CopySpellAi.OtherShapeReachesFallback` | forge-ai/src/main/java/forge/ai/ability/CopySpellAbilityAi.java:66-91 | A non-wrapper top that is neither a Spell nor an AbilityActivated passes the shape guard and ends at the fallback. |
| `CopySpellAi.DoTriggerAINoCost` | forge-ai/src/main/java/forge/ai/ability/CopySpellAbilityAi.java:105-108 | True iff mandatory or AILogic is "Always". |
| `CopySpellAi.ChkAIDrawback` | forge-ai/src/main/java/forge/ai/ability/CopySpellAbilityAi.java:111-119 | ChainOfSmog and ChainOfAcid defer to their heuristics. Otherwise the result is canPlayAI or (mandatory and the inherited check), with canPlayAI's commit. |
| `CopySpellAi.ChooseSingleSpellAbility` | forge-ai/src/main/java/forge/ai/ability/CopySpellAbilityAi.java:122-125 | The first candidate. None exactly when the list is empty, where `get(0)` throws. |
| `CopySpellAi.ConfirmAction` | forge-ai/src/main/java/forge/ai/ability/CopySpellAbilityAi.java:128-136 | Always confirms, except that ChainOfAcid gives its heuristic's verdict. |
| `CopySpellAi.CopyContext.CanPlayAI` | forge-ai/src/main/java/forge/ai/ability/CopySpellAbilityAi.java:84-96 | Returns the decision's boolean. On a commit, the top is appended to sa's targets and the host added to the memory. Otherwise neither changes. |
| `Adventure.AfterAdd` | forge-gui-mobile/src/forge/adventure/PreviousLocation.java:16-26 | The new location is last. Size is at most the capacity, and exactly the capacity after an eviction. Without eviction the old contents are kept and the size grows by one. The survivors are the newest elements, in their old order. |
| `Adventure.PopLoop` | forge-gui-mobile/src/forge/adventure/PreviousLocation.java:18-22 | When the do-while ends without an empty pop, it has popped at least once, left fewer than the capacity, and kept the newest elements in order. |
| `Adventure.PopLoopEvicts` | forge-gui-mobile/src/forge/adventure/PreviousLocation.java:18-22 | With capacity at least 1 and the deque full, the do-while pops the oldest elements until capacity - 1 are left. |
| `Adventure.PopLoopUnderflows` | forge-gui-mobile/src/forge/adventure/PreviousLocation.java:11-21 | With capacity 0 or less the do-while always pops from an empty deque. |
| `Adventure.AfterAddIsPopThenAppend` | forge-gui-mobile/src/forge/adventure/PreviousLocation.java:17-23 | An evicting `add` is the pop loop followed by the append. |
| `Adventure.PreviousLocation.constructor` | forge-gui-mobile/src/forge/adventure/PreviousLocation.java:11-13 | Stores the capacity and starts empty. |
| `Adventure.PreviousLocation.Add` | forge-gui-mobile/src/forge/adventure/PreviousLocation.java:16-26 | Returns true iff the size before the call was at least the capacity. The new contents are `AfterAdd` of the old ones, and the capacity bound holds afterwards. |
| `Adventure.PreviousLocation.Peek` | forge-gui-mobile/src/forge/adventure/PreviousLocation.java:30-32 | The oldest retained location, or None exactly when the deque is empty. |
| `Adventure.PreviousLocation.Size` | forge-gui-mobile/src/forge/adventure/PreviousLocation.java:34-36 | The element count, never above a positive capacity. |

## Left out

- Display code is not modelled: `updateButtons`, `getMessage`, `showMessage`, `getActivateAction`, `onSelectStateChanged`, `refresh`, `Localizer` and `FModel` preferences.
- Convoke.CostLedger.PayViaConvoke: does not state which shard a mask pays (the resolution order of `ManaCostBeingPaid.payManaViaConvoke`). That class is not part of this model. Its rule is the oracle `Pick`, and the only thing assumed of it is that it pays a shard still owed.
- Convoke.UnpaidColors: is the model's reading of `getUnpaidColors`, namely the colors of the owed colored shards. Hybrid, Phyrexian and X shards are not modelled, and the CMC of a cost is its shard count.
- The colorless shard's mask is modelled as the empty mask, i.e. no colored bit.
- The color prompt `chooseColorAllowColorless` is an oracle, and its answer is not constrained.
- In `onCancel`, `sortByEvaluateCreature` reorders the untapped cards in place. This is not modelled, because the core only asks whether a card is in that list. The result of `Lists.reverse` is discarded by the source, so no reversal is modelled either.
- `getConvokeOrImproviseFromList` is an AI service. Its answer, a key set, is a parameter of `OnCancel`, given as a sequence in iteration order.
- The `hasCancelled` flag is set by `InputSelectManyBase`, which is not part of this model. `ConvokeInput.cancelled` stands for it, and nothing in the model sets it.
- `InputSelectManyBase` enforcing the min/max bounds is not modelled. The bounds are stored, and the invariant proves the selection stays within the maximum anyway.
- `MyRandom.percentTrue` is the oracle `percentTrue`, applied to the effective chance.
- These AI services are inputs of the snapshot: `canPlayFromEffectAI`, `isCardRemAIDeck`, `isOpponentOf`, `canBeTargetedBy` and the activating player.
- `top.copy` / `resetTargets` are not modelled. The evaluator verdict stands for the verdict on the copy. The snapshot is a value, so the decision cannot change the real stack top.
- `AiCardMemory` is modelled as the AI player's set of host ids remembered as ACTIVATED_THIS_TURN. Clearing it at the end of a turn happens elsewhere.
- A null `peekAbility()` on a non-empty stack is not modelled: the top is present iff the stack is non-empty. The source would throw at line 39 in that case.
- The `SpecialCardAi.ChainOfSmog` / `ChainOfAcid` heuristics and the inherited `chkAIDrawback` are not shown. They are boolean inputs.
- The libgdx `Vector2` element type is the type parameter `T` of `PreviousLocation`.
- Adventure.PreviousLocation.Add: `T` has no null. `ArrayDeque.add(null)` throws a NullPointerException (PreviousLocation.java:23) after the pop loop has already evicted elements. The model has no such failure and no partial eviction.
- Adventure.PreviousLocation.Add: requires a capacity of at least 1. With a smaller capacity the source pops from an empty deque and throws; `PopLoopUnderflows` proves this always happens.
