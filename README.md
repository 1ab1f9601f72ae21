# VillagePillage selection engine in Dafny

This project models the per-player card-selection engine of the three-player card
game VillagePillage, and the static card catalog that the engine deals hands from.

- **`options.dfy`**, module `Options`: an `Option` datatype. It stands for a C# reference that may be null.
- **`cards.dfy`**, module `Cards` (`Assets/Scripts/CardData.cs`):
  - the card types and the per-opponent `CardEffect` records;
  - cards as values, and the catalog that maps ids 1 to 4 to the basic Farmer, Wall, Raider and Merchant cards;
  - the `CardData` component, a class whose `allCards` map is filled by `InitializeCards`;
  - the lookup `GetCard` and the copy `CreateCardCopy`.
- **`hand.dfy`**, module `Hand`: the pure pieces of `Assets/Scripts/GameManager.cs`:
  - hand cards with an object identity (`uid`);
  - the (type, id) order kept by `SortHand`, proved by a sorting method;
  - the sub-list of cards that are not exhausted;
  - the highlight each hand card is drawn with;
  - the seat arithmetic: neighbours in the circle, and which seats are bots.
- **`game.dfy`**, module `Game`: the class `GameManager`. It holds:
  - the two neighbour slots `selectedLeft` and `selectedRight`;
  - the hand `playerHand`, the phase and the countdown;
  - the bot flags `isBot`, a three-element array.

  The operations on it are:
  - `SelectCardForLeft` and `SelectCardForRight`, which toggle, swap or assign a card;
  - `DeselectCard`;
  - `ReturnCardToHand`, which ends by re-sorting the hand;
  - `SortHand`, `StartPlanningPhase`, `SelectRandomCards` and `SubmitCards`;
  - the `PlanningTimer` loop, which ends with the time-out step `TimeUp`;
  - `UpdateHandDisplay`;
  - `InitializeGame` and `InitializeGameWithBots`.

Slots hold card objects, not indices. The source compares them by reference, so sorting the
hand never disturbs a selection. The model gives each card object dealt into a hand a
`uid` from a counter (`nextUid`). "Same object" means "same uid" (`Hand.Holds`). Because the
counter only grows, a hand dealt again never aliases a card left in a slot. The class invariant
(`GameManager.Valid`) also says that a slot holding the object of a hand card holds that very
card, as a slot and a hand entry are one object in the source.
`HasSelectedBothCards` is the predicate `GameManager.HasSelectedBothCards`. `SubmitCards`,
`TimeUp` and `PlanningTimer` state their results in terms of it.

The invariant the selection operations are built around is that the two slots never hold the same
card (`GameManager.SlotsDistinct`):
- any select of a playable card establishes it;
- `DeselectCard` establishes it;
- `ReturnCardToHand` preserves it.

The forced random fill at the end of the countdown does not keep it. Each empty slot draws
independently from the playable cards, so both slots may receive the same card. The source
draws each empty slot independently, and the model keeps that (`Hand.ForcedFillMayRepeat`).

The select operations also paint hand cards directly, instead of redrawing the hand. Their
contracts state the look that the `UpdateHandDisplay` derivation (`Hand.HighlightOf`) gives the
cards they paint, and the painted colours agree with it in two cases only:
- when the slots were distinct beforehand, in the toggle and assign branches;
- for the chosen card, in the swap branch, if it was painted dimmed when it entered the other
  slot. A forced fill paints nothing, so a card it put in a slot may still be painted normal.

There are two cases where the painted colour and the derivation disagree:
- **The swap branch.** It repaints no hand card. The card it drops from the target slot keeps its
  dimmed paint until the next `UpdateHandDisplay`, although it is then in neither slot.
- **After a forced fill** has put one card in both slots, taking it off one side paints it normal,
  although the other side still holds it. The next `UpdateHandDisplay` dims it again.
- **A card placed by a forced fill** keeps its normal paint when the swap branch moves it to the
  other slot, although the derivation gives it dimmed. The next `UpdateHandDisplay` dims it.

The randomness of `Random.Range` is modelled as an unconstrained choice (`:|`). Any
playable card may be drawn for a slot, and any id from 1 to 4 for a bot. The countdown is in
integer ticks, one tick per frame.

Some behaviour of the code is worth stating plainly:
- **Phase guard.** `GameManager` does not check the phase in `SelectCardForLeft`,
  `SelectCardForRight`, `DeselectCard` or `ReturnCardToHand`. The input handlers that call them
  make the Planning check (`Assets/Scripts/CardInteractionHandler.cs:34` and `:80`,
  `Assets/Scripts/PlayedCardHandler.cs:10`).
- **Highlights.** A hand card has three looks: grey (exhausted), dimmed (in either slot) and normal.
- **Bot moves.** Bots pick ids from the fixed range 1 to 4, not from a hand.
- **Phase changes.** No modelled operation moves the phase out of Planning. The timer loop
  therefore ends only when the time runs out, or at once if it is started outside Planning.
  In both cases the forced fill and the submission follow.

## Model

| member | source | states |
|---|---|---|
| `Cards.NewCard` | Assets/Scripts/CardData.cs:16-23 | a new card carries the given name, type and id, is not exhausted and has an empty effect table |
| `Cards.FreshEffectIsEmpty` | Assets/Scripts/CardData.cs:35-46 | a freshly built effect has every amount 0 and every flag off, and is the only such effect |
| `Cards.Catalog` | Assets/Scripts/CardData.cs:67-102 | the catalog holds exactly ids 1 to 4; each card is stored under its own id, is not exhausted and has an effect entry for all four types; the types are Green, Blue, Red, Yellow in id order |
| `Cards.CatalogEntries` | Assets/Scripts/CardData.cs:71-93 | the names are Farmer, Wall, Raider, Merchant; Farmer gains 3 against every type; Raider steals 4 against Green and Yellow and has an empty effect against Blue and Red |
| `Cards.WallAndMerchantTables` | Assets/Scripts/CardData.cs:79-101 | Wall gains 1 and banks 1 against every type and also steals 1 against Red only; Merchant buys a relic and a card against every type |
| `Cards.CardData.constructor` | Assets/Scripts/CardData.cs:61-65 | once the component exists, its table is the catalog |
| `Cards.CardData.InitializeCards` | Assets/Scripts/CardData.cs:67-102 | filling the table entry by entry yields exactly the catalog |
| `Cards.CardData.GetCard` | Assets/Scripts/CardData.cs:104-107 | nothing for an id not in the table, the stored card otherwise |
| `Cards.CatalogLookup` | Assets/Scripts/CardData.cs:104-107 | with the catalog built, a lookup succeeds exactly for ids 1 to 4, and the found card has that id and a complete effect table |
| `Cards.CardData.CreateCardCopy` | Assets/Scripts/CardData.cs:109-117 | nothing for an unknown id; otherwise a card with the original's name, type, id and effect entries that is not exhausted |
| `Cards.CopyOfStoredCard` | Assets/Scripts/CardData.cs:109-117 | a copy of a stored card that is not exhausted equals it as a value, so only its identity is new |
| `Hand.SortCards` | Assets/Scripts/GameManager.cs:391-402 | the result is a permutation of the hand ordered ascending by (type, id); when the hand holds no card object twice, neither does the result |
| `Hand.SortedPermutationUnique` | Assets/Scripts/GameManager.cs:391-402 | when no two cards share a (type, id) key, the sorted permutation of a sorted hand is the hand itself |
| `Hand.Available` | Assets/Scripts/GameManager.cs:191-195 | the cards that may still be played are exactly the hand cards that are not exhausted |
| `Hand.CollectAvailable` | Assets/Scripts/GameManager.cs:191-195 | the collecting loop yields exactly the playable cards, in hand order |
| `Hand.ForcedFillMayRepeat` | Assets/Scripts/GameManager.cs:197-201 | with a single playable card and both slots empty, the forced fill puts that card in both slots |
| `Hand.ForcedFillCompletes` | Assets/Scripts/GameManager.cs:197-201 | when the hand has a playable card, the forced fill leaves neither slot empty |
| `Hand.KeyLe` | Assets/Scripts/GameManager.cs:393-401 | the `SortHand` comparator, by type first and then by id, is total: a card may come before another exactly when the other need not come first |
| `Hand.ForcedFill` | Assets/Scripts/GameManager.cs:197-201 | a slot that was set keeps its card; an empty slot ends holding a playable card of the hand, or stays empty exactly when no hand card is playable |
| `Hand.HighlightOf` | Assets/Scripts/GameManager.cs:121-132 | grey exactly for an exhausted card; dimmed exactly for a playable card held by either slot; normal otherwise |
| `Hand.LeftNeighbour` | Assets/Scripts/GameManager.cs:101 | the left neighbour is a seat 0 to 2, and not the player's own seat |
| `Hand.RightNeighbour` | Assets/Scripts/GameManager.cs:102 | the right neighbour is a seat 0 to 2, distinct from the player's seat and from the left neighbour |
| `Hand.SeatsCoverTable` | Assets/Scripts/GameManager.cs:101-102 | a player and its two neighbours are seats 0, 1 and 2, and each neighbour's neighbour on the other side is the player |
| `Hand.BotSeatCount` | Assets/Scripts/GameManager.cs:356-360 | under the bot-seat rule `IsBotSeat` (seat i is a bot when i >= 3 - bots), 0 to 3 bots give exactly that many bot seats; they are the last seats, and seat 0 stays human unless all three are bots |
| `Game.StartingHand` | Assets/Scripts/GameManager.cs:79-83 | the dealt hand has four distinct card objects, the catalog cards 1 to 4, with pairwise different keys in ascending (type, id) order |
| `Game.DealStartingHand` | Assets/Scripts/GameManager.cs:79-83 | the four copies added to the hand are catalog cards 1 to 4, in that order, as new objects |
| `Game.SortingKeepsStartingHand` | Assets/Scripts/GameManager.cs:79-86 | sorting the dealt hand leaves it in id order 1, 2, 3, 4 |
| `Game.BotActors` | Assets/Scripts/GameManager.cs:368-375 | the actor numbers of the bot seats are exactly seat + 1 of each flagged seat, in increasing order |
| `Game.GameManager.constructor` | Assets/Scripts/GameManager.cs:13-51 | a new manager is waiting, with a 60-tick budget, no bots, an empty hand and empty slots |
| `Game.GameManager.SelectCardForLeft` | Assets/Scripts/GameManager.cs:216-267 | a bad index or an exhausted card changes nothing; the card already on the left is taken back and the right slot is kept; the card on the right moves to the left and the right empties; any other card replaces the left choice and the right is kept; afterwards the slots never share a card and the card's look matches the display derivation |
| `Game.GameManager.SelectCardForRight` | Assets/Scripts/GameManager.cs:269-320 | the mirror image of the left rules: a no-op for a bad index or exhausted card, otherwise toggle, swap from the left, or assign, after which the slots never share a card |
| `Game.GameManager.DeselectCard` | Assets/Scripts/GameManager.cs:404-444 | only the named slot is emptied, so an empty slot stays as it was; the other slot and the hand are unchanged; the slots are then distinct, and `HasSelectedBothCards` no longer holds |
| `Game.GameManager.SortHand` | Assets/Scripts/GameManager.cs:391-402 | the hand becomes a permutation of itself in ascending (type, id) order; both slots still hold the same objects |
| `Game.GameManager.ReturnCardToHand` | Assets/Scripts/GameManager.cs:446-479 | a bad index changes nothing; otherwise the card leaves the left slot if it is there, else the right slot, never both; the hand is re-sorted; distinct slots stay distinct |
| `Game.GameManager.StartPlanningPhase` | Assets/Scripts/GameManager.cs:152-165 | the phase becomes Planning, the countdown the full budget, and both slots empty; the hand is kept |
| `Game.GameManager.SelectRandomCards` | Assets/Scripts/GameManager.cs:189-202 | only empty slots are filled, each with some playable hand card; a hand with nothing playable changes nothing |
| `Game.GameManager.SubmitCards` | Assets/Scripts/GameManager.cs:204-214 | a submission is sent exactly when both slots are set, carrying the player's actor number and the ids of the two chosen cards |
| `Game.GameManager.SimulateBotMoves` | Assets/Scripts/GameManager.cs:365-378 | one move per bot seat in seat order, sent under actor number seat + 1, each naming two ids from 1 to 4 |
| `Game.GameManager.TimeUp` | Assets/Scripts/GameManager.cs:180-186 | only empty slots get a forced fill; a submission is sent exactly when both slots are then set, with the actor number and both card ids; when the hand has a playable card, both slots end set and a submission is always sent |
| `Game.GameManager.PlanningTimer` | Assets/Scripts/GameManager.cs:167-187 | while planning, the countdown runs down to 0; the master plays for the bots on each of the last min(budget, 26) frames; then empty slots get a forced fill, and a submission is sent exactly when both slots are set (`HasSelectedBothCards`); when the hand has a playable card, both slots end set and a submission is always sent |
| `Game.GameManager.UpdateHandDisplay` | Assets/Scripts/GameManager.cs:108-139 | each display slot shows the highlight of the hand card at its position, and slots past the hand are hidden |
| `Game.GameManager.DealHand` | Assets/Scripts/GameManager.cs:78-83 | the hand is replaced by the dealt hand of four new objects, none of them in a slot; the slots and settings are untouched |
| `Game.GameManager.SetUpHand` | Assets/Scripts/GameManager.cs:78-86 | the new hand is the dealt hand of fresh objects, still in id order 1, 2, 3, 4 after sorting; the slots are untouched |
| `Game.GameManager.InitializeGame` | Assets/Scripts/GameManager.cs:73-97 | the seat is the actor number minus one; the hand is fresh copies of cards 1 to 4 in that order, none of them in a slot; on the master client a planning phase starts |
| `Game.GameManager.MarkBotSeats` | Assets/Scripts/GameManager.cs:355-360 | the loop flags seat i as a bot exactly when the bot-seat rule `IsBotSeat` holds for it, i.e. i >= 3 - bots |
| `Game.GameManager.InitializeGameWithBots` | Assets/Scripts/GameManager.cs:351-363 | records the bot count and flags the last seats as bots; then, as `InitializeGame`, the seat and actor number, a fresh starting hand that no slot holds, planning on the master client, and phase, countdown and slots unchanged on the others |
| `Game.SelectionScenario` | Assets/Scripts/GameManager.cs:216-320 | on a fresh hand: left 2 then right 2 moves Raider to the right; then left 1 puts Wall on the left and Raider stays on the right |

## Left out

- Networking is not modelled:
  - the Photon RPC calls, and the delivery of `StartPlanningPhase` to the other clients;
  - `ReceiveCardSelection`, which only logs in the source;
  - room handling in `Assets/Scripts/NetworkManager.cs`.
  - `SubmitCards` and `SimulateBotMoves` return what they would broadcast.
- Round aggregation and effect resolution are not modelled. The source has none: it never reads
  the submissions, and it never changes turnips, bank, relics or exhaustion. The resource fields
  are only displayed, so they are left out too.
- Rendering is not modelled: sprites, text, colours, sibling indices, `UpdateUI`, and the
  phase text set in `Update`, `DeselectCard` and `ReturnCardToHand`.
  - `UpdateHandDisplay` returns the highlight per display slot instead of painting it.
  - The colours the select operations paint directly are stated as highlights of the card.
- Input handling is not modelled: dragging, clicking, raycasts, the Space key in `Update`, and
  the bot toggles of the menu. `Assets/Scripts/PlayedCardHandler.cs` only forwards to `DeselectCard`.
- Time is floating point in the source (`Time.deltaTime`, `Mathf.Ceil`). The model counts
  integer ticks, one per frame, against the 25-tick bot threshold.
- The coroutine started by `StartPlanningPhase` is not modelled as a coroutine. The countdown is
  the separate method `PlanningTimer`. Two overlapping countdowns, from a second
  `StartPlanningPhase` during a running one, are therefore not modelled.
- Cards are values, so two kinds of aliasing are not captured:
  - the `CardEffect` objects that a copy's new dictionary shares with the catalog card;
  - the sprites.
  Nothing in the source mutates either after start-up.
- `playerHand` is null until `InitializeGame` runs. The model starts with an empty hand instead.
- The source never checks for negative card indices, which would throw. The index parameters are
  natural numbers.
- Game.GameManager.SortHand: `List.Sort` is an unstable introsort. The model sorts by insertion and
  promises only what `List.Sort` promises: a permutation in (type, id) order. Cards with equal
  keys may end in either order.
- Game.GameManager.SelectCardForLeft: claims that the painted colours match the display derivation only when the slots were distinct before the call. Otherwise the source paints a card normal while the other slot still holds it. In the swap branch the source repaints nothing. The card dropped from the left slot stays dimmed on screen, although the derivation now gives it normal, and the contract states only the chosen card's look. That look is the derivation's. The screen shows it only if the card was painted dimmed when it entered the right slot; a forced fill paints nothing.
- Game.GameManager.SelectCardForRight: the colour claim has the same condition and the same swap-branch gap, for the same reasons.
- Game.GameManager.ReturnCardToHand: the source ends by calling `UpdateHandDisplay`, so the screen always matches the display derivation afterwards. The contract claims that the returned card looks normal only when the slots were distinct before the call. A card held by both slots, which only a forced fill produces, stays dimmed after leaving one of them.
