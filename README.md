# e-minigames core in Dafny

This project models the sequential logic under the React interface of the
e-minigames repository and proves its properties:

- **The rarity registries of the luck minigame.** The current registry
  (`src/luck/rarity.tsx`) has 29 tiers with display data. The older one
  (`src/luck/rarity.ts`) is a list of 44 names.
  - For both, the model covers the lookup from a tier index to its data or
    name. This includes the Roman numeral extension past the end and the
    `"(???)"` fallback.
  - For the current registry only, it also covers the lookup from a name
    back to its index (first match, with a fallback to tier 0) and the tier
    a random roll lands on.
  - The older registry has no name lookup, and its constructor is random;
    only `getRarityName` is modelled for it.
- **The luck minigame's inventory ledger** (`src/luck/luckMinigame.ts`).
  It is a map from rarity name to item. It is seeded with one zero-amount
  entry per tier. `updateInventory` adds rolled amounts to it, inserts
  unknown names, and pays coins when an item's reward is positive.
- **The RPG player** (`src/rpg/player.ts`). A player has append-only card,
  action and outgoing-attack lists, a strength boost and an hp boost, and an
  hp setter that caps the value at the max hp. Its battle reset runs in a
  fixed order.
- **The RPG battle** (`src/rpg/battle.ts`). `sequencePromises` is an
  order-preserving fold. `advanceToNextTurn` runs every attack the current
  side has queued. If all of them succeed, it empties those queues and passes
  the turn to the next side.

Modules follow the source files:

| module | file | models |
|---|---|---|
| `Wrappers` | `wrappers.dfy` | `Option` |
| `Roman` | `roman.dfy` | the numeric library's `toRoman` |
| `TierExtension` | `tier_extension.dfy` | the Roman suffix rule both registries share |
| `RarityRegistry` | `rarity_registry.dfy` | `src/luck/rarity.tsx` |
| `LegacyRarity` | `legacy_rarity.dfy` | `src/luck/rarity.ts` |
| `LuckMinigame` | `luck_minigame.dfy` | `src/luck/luckMinigame.ts` |
| `Boosts` | `boosts.dfy` | the interface of the numeric library's `Boost` |
| `Players` | `players.dfy` | `src/rpg/player.ts`, plus the first boss of `src/rpg/enemies/listOfEnemies.tsx` |
| `Battles` | `battles.dfy` | `src/rpg/battle.ts` |

Modelling choices:

- **Numbers.** `Decimal` tier indices, item amounts, hp values and boost
  values are `int`. The rarity value and the coin rewards are `real`,
  because `getValue` is a fractional power curve.
- **Registry layout.** The current registry is kept as two parallel columns,
  `Names` and `Styles`, joined into `Rarities`. The name lookups search the
  name column. Rendered React nodes are reduced to a `Markup` description.
- **Closures become descriptors.** A card's effect closure becomes a list of
  `CardEffect` steps: set a boost entry on one stat, or grant an action. A
  boost's value closure becomes a `Transform`: a constant, which is what
  every modelled card sets, or a multiplication of the running value. No
  modelled card multiplies. `Multiply` stands for the closures that
  combine with the running value, such as the left-out "Black Hole" card's.
  With constants alone, the contribution with the highest order (the last
  one in the stable ascending sort) wins.
- **Player state.** `Player` and `Battle` are classes whose methods update
  their fields. A player's arrays are `seq` fields that the methods
  reassign.
- **Battle execution.** `advanceToNextTurn` starts every attack's promise at
  once (`.map(async …)`). So every queued attack runs exactly once, even if
  an earlier one fails. The method takes the settled outcome of each attack
  as an input (`outcomes`): either the random hp draw the attack assigns to
  its target, or a rejection. A rejection makes the outer `await` throw, so
  the queues are not cleared and the turn does not advance.
- **Where the code departs from its evident intent,** the model follows the
  code:
  - A card that raises max hp should leave the unit at full hp when a battle
    starts. The reset sets hp before the card effects run, so the unit
    starts at the max hp of its cleared boosts instead (see Findings).
  - The doc comment of `sequencePromises` (src/rpg/battle.ts:7-8) says each
    promise waits for the previous one. The promises it receives are already
    running, so the turn step runs every queued attack even when one fails,
    and does not stop at the first failure.
- **Getters.** `getStrength` and `getMaxHp` are the functions
  `Player.Strength` and `Player.MaxHp`. Each is the `Calculate` of its boost.

## Model

| member | source | states |
|---|---|---|
| `Roman.ToRoman` | src/luck/rarity.tsx:192-193 | the numeral exists exactly for 1..3999; it is non-empty and made only of numeral letters |
| `Roman.GreedyValue` | src/luck/rarity.tsx:192 | the greedy subtractive encoding reads back, letter by letter, as the number it encodes |
| `Roman.ToRomanReadsBack` | src/luck/rarity.tsx:192 | decoding the numeral of any n in 1..3999 gives n |
| `Roman.ToRomanInjective` | src/luck/rarity.tsx:192-193 | different numbers in range never share a numeral |
| `Roman.ToRomanOneTwo` | src/luck/rarity.tsx:192-193 | the numerals of 1 and 2 are "I" and "II" |
| `TierExtension.ExtendedName` | src/luck/rarity.tsx:197 | an extended name starts with the last registry name and is at least four characters longer |
| `TierExtension.SuffixFirstTwo` | src/luck/rarity.tsx:192-193 | the first two suffixes are "(I)" and "(II)" |
| `TierExtension.SuffixFallback` | src/luck/rarity.tsx:193 | the suffix is "(???)" exactly when the offset has no numeral |
| `TierExtension.ExtendedNameReadsBack` | src/luck/rarity.tsx:192-197 | the numeral between " (" and ")" of an extended name reads back as the distance past the end, counting from one |
| `TierExtension.ExtendedNameFallback` | src/luck/rarity.tsx:192-197 | an extended name is the last name plus " (???)" exactly when the offset has no numeral |
| `TierExtension.ExtendedNameInjective` | src/luck/rarity.tsx:192-197 | two indices past the end with a numeral and the same extended name are equal |
| `TierExtension.SuffixInjective` | src/luck/rarity.tsx:192-193 | different offsets in the numeral range get different suffixes |
| `RarityRegistry.GetRarityData` | src/luck/rarity.tsx:186-202 | nothing before the start; the registry entry itself inside the list; past the end, the last entry's styling with the extended name |
| `RarityRegistry.FindIndexFrom` | src/luck/rarity.tsx:263 | the result is -1 exactly when no name from `start` on matches; otherwise it is the first matching position |
| `RarityRegistry.SelectorNames` | src/luck/rarity.tsx:216-221 | the selector's names are the registry names, in registry order |
| `RarityRegistry.Rarity.Data` | src/luck/rarity.tsx:254-256 | the `rarityData` getter: nothing for a negative tier; the registry entry inside the list; past the end, the extended name with the last entry's class name and markup |
| `RarityRegistry.Rarity.constructor` | src/luck/rarity.tsx:262-273 | a linear search stores the first index whose name matches, or 0; it warns exactly when there is no match |
| `RarityRegistry.GetRandomRarity` | src/luck/rarity.tsx:228-230 | the rolled rarity is always a tier inside the registry, that of the selected name or of the first tier |
| `RarityRegistry.RegistryShape` | src/luck/rarity.tsx:77-157 | the registry has 29 tiers with pairwise distinct names; the last is "placeholder " with a trailing space |
| `RarityRegistry.RegistryNamesShort` | src/luck/rarity.tsx:77-157 | every registry name has at most 12 characters |
| `RarityRegistry.NameIndexRoundTrip` | src/luck/rarity.tsx:262-273 | for every tier of the registry, looking up the name of its data gives back its index |
| `RarityRegistry.KnownNameLookup` | src/luck/rarity.tsx:263-272 | a registered name maps to a tier that bears that name, and that tier's data is its registry entry |
| `RarityRegistry.ExtendedNameUnknown` | src/luck/rarity.tsx:266-269 | an extended name is never a registry name, so looking it up gives tier 0 |
| `RarityRegistry.ExtendedFirstTwo` | src/luck/rarity.tsx:190-198 | the first two tiers past the end are "placeholder  (I)" and "placeholder  (II)", with two spaces |
| `RarityRegistry.ExtendedFallback` | src/luck/rarity.tsx:192-197 | an extended tier's name ends in " (???)" exactly when it lies beyond the numeral range |
| `RarityRegistry.ExtendedTierReadsBack` | src/luck/rarity.tsx:190-198 | the tier of an extended name can be recovered from its numeral while the numeral exists |
| `RarityRegistry.ExtendedNamesDistinct` | src/luck/rarity.tsx:190-198 | tiers past the end with a numeral have pairwise different names |
| `RarityRegistry.RandomRarityInRegistry` | src/luck/rarity.tsx:229 | the fallback-or-selected name is a registry name, and its index lies in the registry |
| `LegacyRarity.GetRarityName` | src/luck/rarity.ts:91-100 | nothing before the start; the listed name inside the list; past the end, a longer name starting with the last name |
| `LegacyRarity.RegistryShape` | src/luck/rarity.ts:12-57 | the list has 44 names and ends with "Singularity" |
| `LegacyRarity.ExtendedName` | src/luck/rarity.ts:93-97 | past the end the name is "Singularity " followed by the suffix of the offset plus one |
| `LegacyRarity.ExtendedFirstTwo` | src/luck/rarity.ts:93-97 | index 44 is "Singularity (I)" and index 45 is "Singularity (II)" |
| `LegacyRarity.ExtendedFallback` | src/luck/rarity.ts:95-97 | the name is "Singularity (???)" exactly when the offset is beyond the numeral range |
| `LegacyRarity.ExtendedNamesDistinct` | src/luck/rarity.ts:93-97 | indices past the end with a numeral have pairwise different names |
| `LegacyRarity.ExtendedNameNotRegistered` | src/luck/rarity.ts:91-100 | no extended name equals a listed name |
| `LegacyRarity.DuplicateNames` | src/luck/rarity.ts:12-57 | the lookup is not injective: indices 9 and 25 are both "Transcendent", 23 and 26 both "Ultimate" |
| `LuckMinigame.SeedEntries` | src/luck/luckMinigame.ts:31-38 | one entry per registry tier, in order, keyed by its name, with that name, the tier index and amount 0 |
| `LuckMinigame.FromEntriesKeys` | src/luck/luckMinigame.ts:30-39 | the keys of the built record are exactly the entries' keys |
| `LuckMinigame.FromEntriesDistinct` | src/luck/luckMinigame.ts:30-39 | when no key repeats, every entry survives into the record |
| `LuckMinigame.InitialInventorySeed` | src/luck/luckMinigame.ts:28-40 | the initial inventory has exactly the registry names as keys, and tier i's entry is (its name, i, 0) |
| `LuckMinigame.CoinsFor` | src/luck/luckMinigame.ts:63 | the coins are the amount times the (real) value of the tier a `Rarity` built from the name stores, times 1000 |
| `LuckMinigame.LuckGame.constructor` | src/luck/luckMinigame.ts:28-40 | a new game holds the seeded inventory, no coins and no saves |
| `LuckMinigame.LuckGame.UpdateInventory` | src/luck/luckMinigame.ts:46-78 | the ledger is every item credited in order; coins grow by the positive rewards only and never decrease; the ledger is saved once, at the end |
| `LuckMinigame.ApplyUntouched` | src/luck/luckMinigame.ts:49-61 | a name the list does not mention keeps its entry, or stays absent |
| `LuckMinigame.ApplyExisting` | src/luck/luckMinigame.ts:50-53 | an existing entry keeps its name and index, and its amount grows by the list's total for that name |
| `LuckMinigame.ApplyInserted` | src/luck/luckMinigame.ts:54-61 | a missing name is inserted with the index of its first item, and it collects the list's total for that name |
| `LuckMinigame.ApplyKeys` | src/luck/luckMinigame.ts:49-61 | after the update the keys are the old keys plus the listed names, and no others |
| `LuckMinigame.ApplyConcat` | src/luck/luckMinigame.ts:49-75 | two updates in a row leave the same ledger as one update with both lists |
| `LuckMinigame.SumForPermutation` | src/luck/luckMinigame.ts:49-75 | a name's total over the list does not depend on the list's order |
| `LuckMinigame.AmountsIndependentOfOrder` | src/luck/luckMinigame.ts:49-75 | any reordering of the list leaves the same names in the ledger with the same amounts |
| `LuckMinigame.GainNonNegative` | src/luck/luckMinigame.ts:65-72 | the coins paid over any list are at least zero |
| `LuckMinigame.GainSkipsNonPositive` | src/luck/luckMinigame.ts:65 | a list with no positive reward pays nothing |
| `LuckMinigame.GainSkipsItem` | src/luck/luckMinigame.ts:65-70 | one more item whose reward is not positive leaves the coins gained unchanged, and one whose reward is positive adds exactly that reward |
| `LuckMinigame.UnknownNameValuedAtTierZero` | src/luck/luckMinigame.ts:63 | an item whose name is not in the registry is paid at the value of tier 0 |
| `Boosts.SetBoost` | src/rpg/enemies/listOfEnemies.tsx:17-28 | `setBoost` keeps the base, holds the new contribution, adds no other, and appends it when no contribution has its id |
| `Boosts.ClearBoosts` | src/rpg/player.ts:231-232 | `clearBoosts` keeps the base value, and `calculate` then gives it |
| `Boosts.Calculate` | src/rpg/player.ts:176-185 | with no contribution `calculate` is the base value; a single contribution is applied once to the base |
| `Boosts.SortByOrderSortedPermutation` | src/rpg/player.ts:176-185 | `calculate` folds the contributions in ascending order, and it uses exactly the contributions set |
| `Boosts.SortByOrderStable` | src/rpg/player.ts:176-185 | the ordering is stable: for every order, the contributions with that order are folded in insertion order |
| `Boosts.SortByOrderKeepsSorted` | src/rpg/player.ts:176-185 | contributions already in ascending order are folded exactly as inserted |
| `Boosts.SetBoostReplaces` | src/rpg/enemies/listOfEnemies.tsx:17-28 | `setBoost` keeps ids unique, holds the new contribution, and keeps every contribution with another id |
| `Boosts.SetBoostTwiceSameId` | src/rpg/enemies/listOfEnemies.tsx:17-21 | setting the same id twice leaves only the second contribution: it replaces, it does not stack |
| `Boosts.ConstantAloneCalculates` | src/rpg/enemies/listOfEnemies.tsx:17-21 | a lone constant contribution makes `calculate` give that constant, whatever the base |
| `Boosts.FoldEndsInConstant` | src/rpg/player.ts:176-185 | a fold whose last contribution is a constant gives that constant, whatever the earlier contributions and the starting value |
| `Boosts.HighestConstantWins` | src/rpg/player.ts:176-185 | a constant contribution whose order is above every other's decides `calculate`, whatever the other contributions are and in whatever order they were set |
| `Players.ClampHp` | src/rpg/player.ts:156-158 | the stored hp is at most the max hp and at most the value; it is one of the two; there is no lower bound |
| `Players.Player.Strength` | src/rpg/player.ts:176-178 | `getStrength` is the strength boost's value: the base strength while the boost has no contribution |
| `Players.Player.MaxHp` | src/rpg/player.ts:183-185 | `getMaxHp` is the hp boost's value: the base hp while the boost has no contribution |
| `Players.Player.constructor` | src/rpg/player.ts:98-171 | a new player has its name, no cards, actions or queued attacks, strength 1, max hp 10 and hp 10 |
| `Players.Player.SetHp` | src/rpg/player.ts:156-158 | the hp setter stores the value capped at the current max hp |
| `Players.Player.AddCard` | src/rpg/player.ts:192-194 | appends one card after the existing ones |
| `Players.Player.AddCards` | src/rpg/player.ts:200-202 | appends all the given cards, in order, after the existing ones |
| `Players.Player.AddAction` | src/rpg/player.ts:208-210 | appends one action after the existing ones |
| `Players.Player.AddOutgoingAttack` | src/rpg/player.ts:243-245 | queues an attack behind those already queued |
| `Players.Player.RunCardEffect` | src/rpg/player.ts:218 | one card's effect steps are applied to the player's boosts and actions, in order |
| `Players.Player.RunCardEffects` | src/rpg/player.ts:215-220 | every owned card's effect is applied, in card order |
| `Players.Player.ResetPlayerBeforeBattle` | src/rpg/player.ts:225-237 | empties actions and queue, clears both boosts, sets hp to the cleared max hp (the base), then applies every card; name and cards are unchanged |
| `Players.Player.ResetPlayerBeforeBattleFullHp` | src/rpg/player.ts:225-237 | the same reset with hp set after the card effects, so hp equals the recomputed max hp |
| `Players.CruelerKing` | src/rpg/enemies/listOfEnemies.tsx:9-50 | the first boss is named "crueler king", holds its two cards in order, and otherwise is a new player: base boosts, hp 10, no actions, nothing queued |
| `Players.CruelerKingFirstReset` | src/rpg/player.ts:225-237 | after the reset as written, the boss has max hp 30, strength 5 and the ice dagger action, but hp 10 |
| `Players.CruelerKingFirstResetFullHp` | src/rpg/player.ts:225-237 | after the corrected reset, the boss has hp 30, max hp 30, strength 5 and the ice dagger action |
| `Players.ApplyCardActions` | src/rpg/player.ts:208-210 | a card's effect only adds actions: afterwards the actions are the old ones and then each granted one, in order |
| `Players.ApplyCardsActions` | src/rpg/player.ts:215-220 | running all cards appends the actions every card grants, card by card |
| `Players.ResetActions` | src/rpg/player.ts:225-237 | after a reset the actions are exactly those the cards grant, in card order |
| `Players.CruelerKingReset` | src/rpg/player.ts:231-236 | the boss's cards, run over its cleared boosts, give max hp 30, strength 5 and the single ice dagger action; the cleared hp boost, which line 233 reads, has base 10 |
| `Battles.SequencePromises` | src/rpg/battle.ts:13-19 | resolves exactly when every promise resolves, to as many values as promises, in input order |
| `Battles.SequencePromisesFirstRejection` | src/rpg/battle.ts:13-19 | a rejected sequence carries the reason of its first rejected promise, and every earlier promise resolved |
| `Battles.ClearQueues` | src/rpg/battle.ts:70-73 | every player of the side has an empty attack queue |
| `Battles.NextTurn` | src/rpg/battle.ts:76 | the next side, wrapping round to side 0 after the last |
| `Battles.TurnAfterRound` | src/rpg/battle.ts:76 | after `k` successful turns from side `turn`, with `k` at most the number of sides, the turn sits `k` sides on, wrapping past the last side back to side 0 at most once |
| `Battles.TurnsCycle` | src/rpg/battle.ts:76 | a full round of successful turns, one per side, brings the turn back to the side it started from |
| `Battles.TurnsVisitEverySide` | src/rpg/battle.ts:76 | every side becomes the current side within one round of successful turns, from any starting side |
| `Battles.Battle.constructor` | src/rpg/battle.ts:30-43 | a battle holds its sides, starts at side 0 and has executed nothing |
| `Battles.Battle.Execute` | src/rpg/battle.ts:61-65 | one attack: a completed one assigns its draw, capped, to the target's hp; a rejected one changes nothing; the side's running totals move past it |
| `Battles.Battle.RunQueue` | src/rpg/battle.ts:60-66 | one player's queue runs in order, every attack whatever the others do |
| `Battles.Battle.ExecuteSide` | src/rpg/battle.ts:57-68 | every queued attack of the side runs exactly once, in side order and then queue order; the result says whether any was rejected; each target ends at its hp after those attacks |
| `Battles.Battle.AdvanceToNextTurn` | src/rpg/battle.ts:55-77 | succeeds exactly when there is a side and every attack resolves; all of the side's attacks run; on success the side's queues are empty and the turn passes to the next side; on failure turn and queues are unchanged |

## Left out

- React rendering, timers and DOM access are not modelled: the square effects, the display components, the open animation, the game screens and the debug `Object.assign(window, …)` globals. They contain no game logic.
- `rarityFn` and `getValue` are not modelled: they are real-valued power curves with library rounding. The ledger takes the value as a parameter `value` from tier index to a real reward per item.
- `Roman.ToRoman`: the numeric library's `toRoman` is not part of this model. It is assumed to give the standard subtractive numeral for 1..3999 and no string otherwise.
- Randomness is not modelled: the `RandomSelector` sampling, the old registry's random constructor and the ice dagger's damage draw. The selector's pick is an input to `GetRandomRarity`, and each attack's draw is an input to `AdvanceToNextTurn`.
- `LuckMinigame.LuckGame.UpdateInventory`: the currency and the persisted entry are ghost fields. `gain` adds to `coins`, and `setValue` appends to `saves`. The host game's save scheduling is not modelled.
- `LuckMinigame.LuckGame.UpdateInventory`: names inherited from `Object.prototype` are not modelled. These include "toString", "constructor", "valueOf" and "hasOwnProperty". The ledger is a plain object, so the code finds such a name truthy and throws on `existingItem.amount.add`, leaving the earlier items credited and paid and the ledger unsaved. The model treats such a name as absent: it inserts the item, pays for it and saves the ledger.
- `LuckMinigame.LuckGame.UpdateInventory`: `existingItem.amount = …` mutates an object that the stored inventory shares. The model replaces the map entry instead, so aliasing of that object elsewhere is not captured.
- The luck minigame imports `./rarity`, which both `rarity.ts` and `rarity.tsx` could satisfy. The model uses the `rarity.tsx` registry, the only one whose API the file calls (`rarities[i].name`).
- `Battles.Battle.AdvanceToNextTurn`: the promise plumbing is reduced to its settled outcomes. Interleaving of asynchronous actions is not captured; the only action in the code is synchronous.
- `Battles.Battle.AdvanceToNextTurn`: with no sides, the code reads `undefined.map` and the call rejects. The model returns `false` with nothing changed.
- `Battles.Battle.CurrentSide`: with no sides, `getCurrentSide()` returns `undefined`. The model returns an empty side instead. Its only reader, `AdvanceToNextTurn`, fails before using it.
- `currentBattle` on the player is not modelled, because nothing in the core reads or writes it.
- The "Black Hole" card is not modelled, because it sets `player.attackBoost`, which `Player` does not have. The `Boost` library's internals are not part of this model either; only its interface (`setBoost`, `clearBoosts`, `calculate`) is.
- `Rarity.fromString`, `.modifier`, `rarityChance`, `getLuckInventory` and the modifier list are not modelled, because they are referenced but not defined in the code.
- Fractional indices are not modelled, because every index in the model is an integer. `getRarityData` floors a fractional index below the end (`Math.floor`).

## Findings

| source | as written | input that shows it | evidently intended | confidence | as-written member | corrected member |
|---|---|---|---|---|---|---|
| src/rpg/player.ts:233-236 | hp is set to the max hp of the cleared boosts before the card effects re-register the boosts | the "crueler king" boss, whose card sets base hp 30: after the reset its hp is 10 while its max hp is 30 | a player starts each battle at the max hp its cards give | medium; not executed | `Players.CruelerKingFirstReset` | `Players.Player.ResetPlayerBeforeBattleFullHp` |
