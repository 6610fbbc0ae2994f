# Dead of Winter game engine, modelled in Dafny

This project models the game engine of a cooperative zombie-survival board game, `useGameStore` in `src/store.ts`.

The engine is one store holding the whole game state:

- morale, day, phase and status;
- the survivors, the locations and the crisis deck;
- the colony stock, waste and the action dice pool.

Its actions update that state in place:

- `setupGame`;
- `spendDice`;
- `nextPhase`, which runs the four-phase day Crisis → Player → Colony → End;
- `selectSurvivor`;
- `moveSurvivor`, `attack`, `search`, `buildBarricade`, `cleanWaste` and `depositItems`.

## Modules

| Module | File | What it holds |
|---|---|---|
| `Types` | `Types.dfy` | The records of `src/types.ts`. Item types are the six-valued `Category`. |
| `Dice` | `Dice.dfy` | The dice pool as `seq<int>`. `RemoveFirst` is the first-occurrence removal `spendDice` performs; `IndexOf` and `TakeDie` compute it with a loop, as `indexOf` and `splice` do. |
| `Rules` | `Rules.dfy` | The fixed rules: hit points by skill, the 100-roll exposure table, rat count, morale loss of a failed crisis, the double kill of S001, flooring of zombies and waste, and the end-of-day verdict. |
| `Board` | `Board.dfy` | Lookups by id (`find`), the map-by-id updates the actions make, and the search deck popped from its end. |
| `CrisisResolution` | `CrisisResolution.dfy` | The pool a crisis may draw on, the success predicate and the deduction. The deduction takes colony stock first, then walks the roster for Abstract crises. It removes by id. |
| `Game` | `Game.dfy` | The whole state as a value `GameState`, with one step function per action and the invariant `Consistent`: the pool holds pips, at most one die per survivor plus one, and every held item is the catalog's item for its id. |
| `Store` | `Store.dfy` | The class `GameStore`, with the store's fields and one method per action. Each action method, and each of the step methods it is split into, is proved to leave `State()` equal to the matching `Game` step function of the old state. The public actions also preserve `Valid()`. The helpers `DrawCrisis`, `LayOutBoard`, `ResetCounters`, `DealSurvivors`, `DrawCards`, `PopCard` and the module-level `ResolveCrisis` state their own results instead. |

## Random draws

Every random draw of the engine is a parameter of the action that makes it:

- the objective index;
- the two shuffles, as sequences with the same multiset as their catalog;
- the dice of the Crisis phase, as a random source `pip: nat -> int` whose `i`-th draw is die `i`. The phase itself rolls one die per survivor plus one from it, and a source whose every draw is 1..6 gives a pool of pips;
- the exposure roll, 1..100, as a precondition of `MoveSurvivor`;
- S002's extra-draw coin, a `bool`.

The JSON catalogs are constant fields of the store, set by its constructor.

## Action log

The action log records each line as a structured `LogEntry` instead of its Thai text.

## Model

| member | source | states |
|---|---|---|
| Types.CategoryNameInjective | src/types.ts:27 | Two item categories have the same tag exactly when they are the same category. |
| CrisisResolution.IsKindIsTagMatch | src/store.ts:118 | An item matches a requirement kind exactly when the kind is the item's type tag. |
| Board.FindItem | src/store.ts:10 | Item lookup by id finds nothing exactly when no catalog item has the id. Otherwise it finds the first catalog item with that id. |
| Board.ResolveId | src/store.ts:273-276 | A card yields no item when its id is empty or unknown, and otherwise exactly the catalog's item for it. |
| Board.ResolveIdsFromCards | src/store.ts:270-285 | Every item found from a list of cards carries the id of one of those cards and is the catalog's item for it. |
| Board.ResolveIdsFromCatalog | src/store.ts:270-285 | Items found by search are catalog items. |
| Board.SurvivorIndex | src/store.ts:207 | Survivor lookup finds nothing exactly when no survivor has the id, and otherwise the first survivor with it. |
| Board.LocationIndex | src/store.ts:241 | Location lookup finds nothing exactly when no location has the id, and otherwise the first location with it. |
| Rules.HpForSkill | src/store.ts:50 | Starting hit points are 4 exactly for skill "Frank", 2 exactly for "Arthur" or "Chloe", and 3 otherwise. |
| Game.StartingRosterRecruits | src/store.ts:49-50 | The opening party has min(3, roster size) survivors. Each one is the shuffled survivor at that place, with every field kept except three: hit points come from that survivor's skill name, the location is the compound, and the hand is empty. |
| Game.ShufflePrefix | src/store.ts:49 | A prefix of a shuffle draws each catalog survivor at most as often as the catalog holds it. |
| Game.SetupConsistent | src/store.ts:47-66 | A new game is in the invariant, whatever state came before. |
| Store.GameStore.constructor | src/store.ts:41-45 | The store starts at morale 0, day 0, the Crisis phase, Playing, with everything empty. |
| Store.GameStore.SetupGame | src/store.ts:47-66 | Sets morale 5, day 1, the Crisis phase, the opening party, cleared locations, the shuffled crisis deck, an empty pool and an empty colony. The party is at most three catalog survivors and the deck is a permutation of the crisis catalog. |
| Dice.RemoveFirst | src/store.ts:68-76 | Spending a value not in the pool leaves it unchanged. Spending one in the pool shortens it by exactly one. |
| Dice.RemoveFirstAt | src/store.ts:70-73 | When the value first occurs at index i, spending it removes exactly the element at i. |
| Dice.RemoveFirstMultiset | src/store.ts:68-76 | Spending takes one copy of the value out of the pool's multiset when present, and nothing otherwise. |
| Dice.RemoveFirstKeepsPips | src/store.ts:68-76 | Spending keeps the pool at most one die per survivor plus one, each a pip. |
| Dice.IndexOf | src/store.ts:70 | Returns -1 exactly when the value is absent, and otherwise the index of its first occurrence. |
| Dice.TakeDie | src/store.ts:68-76 | The loop-and-splice computation yields the first-occurrence removal. |
| Dice.Roll | src/store.ts:92-93 | A roll for n dice has exactly n dice, die i showing the random source's i-th draw. It is a pool of n pips whenever every draw is one. |
| Store.GameStore.SpendDice | src/store.ts:68-76 | The pool loses the first die of that value, nothing else changes, and the invariant is kept. |
| Store.GameStore.SelectSurvivor | src/store.ts:203 | Only the selected survivor id changes. |
| Game.GameOverIsFinal | src/store.ts:80 | Once the game is won or lost, advancing changes nothing. |
| Game.DayCycle | src/store.ts:78-201 | From the Crisis phase of a game in play, four advances give Player, Colony, End and then the verdict. The day stays fixed until End. The game is still on exactly when it is back in the Crisis phase of the next day, and the status is the end-of-day verdict on the morale the Colony phase left. A game that ends stays on that day in the End phase. |
| Game.AdvanceConsistent | src/store.ts:78-201 | Advancing keeps the invariant, given a random source that only shows pips when the Crisis phase runs. |
| Store.GameStore.NextPhase | src/store.ts:78-201 | Advances exactly as the `Game` step of the current phase, or not at all once the game is over, and keeps the invariant. |
| Game.CrisisDrawsAndSpawns | src/store.ts:84-94 | The Crisis phase rolls exactly one die per survivor plus one, die `i` showing the source's `i`-th draw. That is a pool of pips whenever the source shows pips. It then moves to the Player phase. The crisis shown is the deck's last card, the deck keeps the rest, and a spent deck shows none. Exactly the occupied locations outside the compound gain one zombie. No other field of any location changes. |
| Board.SpawnZombies | src/store.ts:86-91 | Only zombie counts change. A location's count goes up by one exactly when it is not the compound and a survivor stands there; every other count stays. |
| Store.GameStore.DrawCrisis | src/store.ts:84 | Pops the last crisis card off the deck, or none from an empty deck, and shows it. |
| Store.GameStore.RunCrisisPhase | src/store.ts:83-95 | Runs the Crisis phase step and keeps the invariant. |
| Store.GameStore.OpenCrisisPhase | src/store.ts:84-94 | Draws, spawns, rolls and logs exactly as the Crisis phase step says. |
| Store.GameStore.RunPlayerPhase | src/store.ts:98-100 | Moves to the Colony phase and only logs. |
| CrisisResolution.CheckRequirements | src/store.ts:117-122 | The loop result is true exactly when every requirement line is covered by the pool. When false, a line short of items exists. |
| CrisisResolution.SatisfiedMonotone | src/store.ts:117-122 | A pool with at least as many items of every kind covers every requirement list the smaller pool covers. |
| CrisisResolution.SatisfiedExtend | src/store.ts:109-122 | Adding items to the pool, on either side, never turns success into failure. |
| CrisisResolution.PhysicalSuccessImpliesAbstract | src/store.ts:111-115 | A crisis that colony stock alone would avert is also averted when personal stock counts. |
| CrisisResolution.TakeKind | src/store.ts:134-135 | The items picked for a line number min(amount, number of that kind held). |
| CrisisResolution.PayCount | src/store.ts:134-137 | Paying a line removes at least min(amount, held) items of that kind. |
| CrisisResolution.PayTakesEveryCopy | src/store.ts:136 | Removal by id makes that bound strict: paying one food out of two copies of one food item leaves none. |
| CrisisResolution.PayKeepsOtherKinds | src/store.ts:134-136 | When equal ids mean equal categories, paying a line leaves every other kind exactly as it was. |
| CrisisResolution.PayPersonalCount | src/store.ts:141-147 | Walking the roster removes at least min(owed, held by all) items of the kind from the personal stocks. |
| CrisisResolution.PayPersonalRosterOrder | src/store.ts:141-147 | When the first j survivors hold what is owed, no survivor after them is touched. |
| CrisisResolution.PayPersonalKeepsOtherKinds | src/store.ts:141-147 | When held ids fix their category, as the invariant guarantees, the roster walk leaves every other kind in every hand as it was. |
| CrisisResolution.PayPersonalShrinks | src/store.ts:141-147 | The roster walk changes only personal inventories, and only by removing items: each new hand is a sub-multiset of the old one. |
| CrisisResolution.WalkStep | src/store.ts:142-146 | One survivor of the walk pays what is still owed, or all they have of the kind, and the walk so far agrees with the roster-walk function. |
| CrisisResolution.PayFromSurvivors | src/store.ts:140-147 | The loop over the roster, stopping once nothing is owed, computes the roster-walk function. |
| CrisisResolution.PayRequirementColonyFirst | src/store.ts:133-140 | When the crisis is Physical, or the colony stock covers the line, no personal inventory is touched. |
| CrisisResolution.PayAllPhysical | src/store.ts:139-140 | A Physical crisis never touches personal inventories. |
| CrisisResolution.PayRequirementRosterOrder | src/store.ts:139-147 | When colony stock plus the first j survivors cover the line, survivors after them keep their hands. |
| CrisisResolution.PayRequirementCount | src/store.ts:130-148 | Paying one line removes at least min(amount, available) items of that kind from the crisis's pool. |
| CrisisResolution.PayRequirementKeepsOtherKinds | src/store.ts:130-148 | When held ids fix their category, as the invariant guarantees, paying one line leaves every other kind as it was, in the colony stock and in every hand. |
| CrisisResolution.PayAllShrinks | src/store.ts:130-149 | Paying all lines leaves the colony stock a sub-multiset of what it was. Survivors change only in their hands, and each new hand is a sub-multiset of the old one. |
| CrisisResolution.PayAllKeepsOtherKinds | src/store.ts:130-149 | Kinds no requirement line names are untouched, in the colony stock and in every hand. |
| CrisisResolution.Deduct | src/store.ts:127-149 | The nested loops over requirement lines and the roster compute the deduction function. |
| Store.ResolveCrisis | src/store.ts:106-150 | Success is exactly the coverage of every line by the crisis's pool. On success the deduction is made. On failure nothing is taken. |
| Game.ColonyPaysOnlyWhatIsAsked | src/store.ts:103-185 | The Colony phase only removes items: the colony stock and every hand become sub-multisets of what they were. It keeps every unnamed kind everywhere, and after a failure it takes nothing. |
| Game.ColonyMorale | src/store.ts:155-183 | With non-negative penalties the Colony phase never raises morale. It lowers morale exactly when a LOSE_MORALE crisis fails or the rats outnumber the survivors. |
| Board.SurvivorsAt | src/store.ts:166-168 | The count of survivors at a location is at most the roster size, and it is zero exactly when no survivor stands there. |
| Game.MoraleOnlyInColony | src/store.ts:78-201 | No phase other than Colony changes morale. |
| Rules.MoraleLoss | src/store.ts:157 | A failed LOSE_MORALE crisis costs its penalty value, or 1 when the value is absent or zero. |
| Rules.RatCount | src/store.ts:179 | The rat count is waste divided by three, rounded down. |
| Store.GameStore.RunColonyPhase | src/store.ts:103-185 | Runs the Colony phase step and keeps the invariant. |
| Store.GameStore.Settle | src/store.ts:150-184 | Installs the holdings after payment, takes the crisis penalty and the rat penalty off morale, and logs the report. The report's food check uses the stock held when the phase began. Moves to the End phase. |
| Rules.EndStatus | src/store.ts:190-192 | The verdict is Won exactly when a SURVIVE_DAYS objective's day is reached. It is Lost exactly when morale is at most 0 and the objective is not reached. It is Playing otherwise. |
| Store.GameStore.RunEndPhase | src/store.ts:188-200 | Records a Won or Lost verdict with the day unchanged, or moves to the next day's Crisis phase. |
| Rules.CountRollsUniform | src/store.ts:213-228 | A run of rolls that all give one outcome counts its width for that outcome and 0 for the others. |
| Rules.CountRollsSplit | src/store.ts:213-228 | Counting over a range is counting over its two halves. |
| Rules.CountRollsBands | src/store.ts:213-228 | Over four consecutive single-outcome bands, each outcome counts its band's width. |
| Rules.ExposureWeights | src/store.ts:213-228 | Of the rolls 1..100, 60 are safe, 20 bring litter, 15 bring a zombie and 5 an ambush. |
| Game.TravelMovesTraveller | src/store.ts:205-234 | A journey moves exactly the survivors with that id, wounding them only on an ambush. It adds waste only for litter and a zombie at the destination only for noise. |
| Game.ActionsSpendDie | src/store.ts:205-317 | Moving, attacking, searching and cleaning spend the die, even when the rest of the action does nothing. Depositing spends none. |
| Store.GameStore.MoveSurvivor | src/store.ts:205-234 | Given an exposure roll in 1..100, spends the die, then makes the journey step, and keeps the invariant. |
| Store.GameStore.Journey | src/store.ts:207-233 | The journey once the die is spent: nothing for an unknown survivor, otherwise the road's effect and the arrival. |
| Store.GameStore.Befall | src/store.ts:213-228 | Applies exactly the road's effect for the exposure outcome. |
| Store.GameStore.Arrive | src/store.ts:230-233 | Relocates the traveller and logs the trip. |
| Rules.ZombiesKilled | src/store.ts:244-248 | An attack kills 2 exactly for S001 on a 5 or 6, and 1 otherwise. |
| Rules.AfterAttack | src/store.ts:252 | The zombie count after an attack never increases, reaches 0 exactly when the kills cover it, and otherwise drops by the kills. |
| Game.FightThins | src/store.ts:236-256 | An attack changes only zombie counts and never raises one. It touches only the attacker's location, and no location at all when the attacker is unknown. There it leaves the floored difference when zombies were present. |
| Store.GameStore.Attack | src/store.ts:236-256 | Spends the die, then makes the attack step, and keeps the invariant. |
| Store.GameStore.Strike | src/store.ts:238-255 | The attack once the die is spent. |
| Board.DrawCount | src/store.ts:271-284 | A search pops two cards exactly for S002 on a lucky coin with a second card left, and one card otherwise. |
| Board.PopOrder | src/store.ts:271-280 | The popped cards are the deck's last cards, taken from its end. |
| Board.PopOrderReversed | src/store.ts:270-285 | What is left of the deck, followed by the popped cards in deck order, is the original deck. |
| Game.DrawByPops | src/store.ts:270-285 | The draw is the top card's item, then the next card's when a second card is popped. The deck keeps the rest. |
| Game.ScavengeDrawsFromTop | src/store.ts:258-303 | A search at a location with cards leaves that deck minus its last one or two cards, and adds one waste. The searcher's hand becomes the old hand followed by the items those cards name, in pop order. That is at most two items, each the catalog's item for one of the cards. |
| Game.ScavengeConsistent | src/store.ts:258-303 | A search keeps the invariant: found items are catalog items. |
| Store.GameStore.Search | src/store.ts:258-303 | Spends the die, then makes the search step, and keeps the invariant. |
| Store.GameStore.Rummage | src/store.ts:260-302 | An unknown survivor changes nothing. A missing location or an empty deck only logs. Otherwise the cards are drawn and the loot is taken. |
| Store.GameStore.DrawCards | src/store.ts:270-285 | Pops one card, and a second for S002 on a lucky coin, yielding the draw function's items and remaining deck. |
| Store.GameStore.PopCard | src/store.ts:271-276 | Pops the top card and yields the catalog item it names, if any. |
| Store.GameStore.Loot | src/store.ts:287-302 | The finds go to the searcher, the location keeps the rest of its deck, waste grows by one, and the find is logged. |
| Store.GameStore.BuildBarricade | src/store.ts:305-308 | Only spends the die. |
| Rules.CleanedWaste | src/store.ts:312 | Cleaning removes three waste, floored at zero. |
| Store.GameStore.CleanWaste | src/store.ts:310-313 | Spends the die, lowers waste by three floored at zero, and keeps the invariant. |
| Game.DepositMovesPack | src/store.ts:315-327 | When the first survivor with the id is in the compound with a non-empty hand, that hand goes onto the end of the colony stock. Every survivor sharing the id is left empty-handed, and survivors with other ids are unchanged. Otherwise nothing changes. |
| Game.DepositConservesItems | src/store.ts:315-327 | With unique survivor ids, a deposit loses and creates no item across colony and hands. |
| Board.DepositConserves | src/store.ts:319-324 | When survivor ids are unique, emptying one hand onto the colony keeps the multiset of all items. |
| Store.GameStore.DepositItems | src/store.ts:315-327 | Makes the deposit step and keeps the invariant. |
| Store.GameStore.Unload | src/store.ts:316-326 | Moves the hand to the colony exactly as the deposit step says. |

## Left out

- The React interface, zustand's `create`/`set`/`get` and the styling tooling. `set` becomes field assignment.
- `Math.random` and the `sort(() => 0.5 - Math.random())` shuffles. They are parameters, with a multiset-equality precondition standing for "some permutation". The model says nothing about how likely each order is.
- The Thai text of the log. Each line is a `LogEntry` carrying the values the text shows.
- The JSON catalogs' contents. They are arbitrary sequences given to the constructor.
- The in-place write to `survivor.personalInventory` at `src/store.ts:145`. It mutates survivor records shared with the previous state, and the model computes the new roster as a value instead. The field values agree. The sharing of objects does not exist in the model.
- Negative or fractional requirement amounts and non-numeric penalty values. Amounts are `nat`, penalty values `Option<int>`. Hit points are an `int` that an ambush lowers with no floor, as in the code.
- Penalty kinds other than LOSE_MORALE, starvation wounds, food consumption, the rats' food loss, reroll, crossroads and debuffs. The code does not implement them: food is only reported and never removed, and the rat plague costs morale only.
- CrisisResolution.PayCount, PayPersonalCount, PayRequirementCount: these state "at least" the amount required, not exactly, because removal by id takes every copy of a picked id (`PayTakesEveryCopy` exhibits this).
- CrisisResolution.PayKeepsOtherKinds, PayPersonalKeepsOtherKinds, PayRequirementKeepsOtherKinds, PayAllKeepsOtherKinds, Game.ColonyPaysOnlyWhatIsAsked: they need ids to fix categories. `Consistent` supplies this, because every held item is the catalog's first item for its id.
- Game.DepositConservesItems: it holds under unique survivor ids. With duplicate ids the code empties every survivor with that id but adds only the first one's items.
- Game.ColonyMorale: it assumes non-negative penalty values. A negative value would raise morale.

Where the documented rules and the code differ, the model follows the code:

- The exposure outcomes are safe, litter (one more waste), a zombie at the destination, and a wound, with 60/20/15/5 rolls out of 100. There is no infection outcome.
- A search by an unknown survivor does nothing after spending the die. A search at a location that cannot be found, or with an empty deck, only logs "found nothing" and adds no waste.
- The Colony phase's food check counts the colony stock as it was before the crisis deduction. It counts survivors at the compound, and it removes nothing.
- Setting up a game does not clear the crisis on display.
- The end-of-day check computes Lost on morale first and the SURVIVE_DAYS win last, so a reached objective wins even at non-positive morale.
