# Inventory tracker rules, modelled in Dafny

This project models the rules engine of an inventory tracker for tabletop role-playing characters. The tracker runs as an extension of the Owlbear Rodeo virtual tabletop. The engine covers:

- A character's **inventory**: items carried in a pack, equipment slots, a purse of four coin denominations, remote vaults, and external storages. Each storage owns a whole nested inventory.
- The **calculation library**: stack weight, coin count and coin-weight penalty, currency value, derived slot counts, slot eligibility, and the attunement count.
- The **rule tables**: item categories and their default weights, the ten built-in packs and the ten built-in storage types, and the numeric constants.
- The **inventory transformations** inside the UI handlers:
  - item add, update, delete, sell and use;
  - equipping by padding a slot array and then writing one index;
  - the cross-location search and moving a hit into the pack;
  - transfers between pack and storage with forced de-attunement;
  - purse edits and nearby-wealth totals;
  - add/update/delete on the id-keyed lists of vaults, storages and custom types;
  - the item, vault, storage and type dialogs with their validation.
- The **application shell**: the merged pack and storage tables, which inventory the tabs display, how an edit made while a storage is viewed is written back, and the load and save of a token's inventory.
- The **configurator screen**: custom pack and storage types, coin names, and assembling the saved configuration.

Module layout follows the source: one module per source file, plus three helper modules.

| Module | Contents |
|---|---|
| `Types` | Data model and built-in tables |
| `Calculations` | Calculation library |
| `Storage` | Default inventory and configuration, favourites |
| `GlobalSearch` | Search tab |
| `Transfer` | Transfer tab |
| `Pack` | Pack tab |
| `Body` | Body tab |
| `QuickSlots` | Quick-slots tab |
| `Coins` | Coins tab |
| `ExternalStorages` | External storage tab |
| `App` | Application shell |
| `DMScreen` | Configurator |
| `Text` (helper) | ASCII lowercasing, substring search and JavaScript's `trim` blank test |
| `IdLists` (helper) | `find`, `map` and `filter` by id, defined once over a key function and shared by every id-keyed list |
| `Filters`, `ItemSearch` (helpers) | Order-preserving filter; the shared name-or-category search test |

Most handlers are pure and are modelled as functions. The following are modelled imperatively, as the source writes them:

- The search pushes into a result array inside nested loops: `GlobalSearch.PushHits`, `GlobalSearch.SearchAllLocations`.
- Equipping pads a copy of a slot array in a `while` loop: `Body.PadAndWrite`.
- The shell updates its state step by step: class `App.AppState`.
- A stored player record has its favourites changed in place: class `Storage.PlayerData`.

Each of these methods is proved against a specification function, and the properties the source promises are proved about those functions.

## Model

| member | source | states |
|---|---|---|
| Types.CategoryWeight | src/types/index.ts:23-43 | Every category's default unit weight is positive, at least 0.05 |
| Types.CategoryLabelRoundTrip | src/types/index.ts:1-21 | Parsing a category's string value gives the category back |
| Types.CategoryLabelsDistinct | src/types/index.ts:1-21 | Distinct categories have distinct string values |
| Types.WithSlotArray | src/components/BodyTab.tsx:17-26 | Replacing one slot array of the equipment record leaves the other four unchanged |
| Types.ConstantsAgree | src/types/index.ts:357-369 | Carry cap 40 > weight threshold 30 > 0; attunement cap 3; camp uses 15; base slots 4 each, utility 0 |
| Types.DefaultPackTypes | src/types/index.ts:86-197 | Ten packs. Index 2 is `standard-pack`; index 9 is `utility-pack` with no rules. Every capacity and utility count is non-negative and every modifier is at least -3 |
| Types.DefaultPackIdsDistinct | src/types/index.ts:86-197 | The built-in pack ids are pairwise distinct |
| Types.DefaultStorageTypes | src/types/index.ts:232-313 | Ten storage types. Each coin capacity is -1 (unlimited) or positive; capacities are positive and slot counts non-negative |
| Types.DefaultStorageIdsDistinct | src/types/index.ts:232-313 | The built-in storage type ids are pairwise distinct |
| Calculations.UnitWeight | src/utils/calculations.ts:12-15 | The unit weight is the item's weight when positive, else the category default; always positive |
| Calculations.ItemWeight | src/utils/calculations.ts:12-15 | A stack weighs at least one unit when its quantity is at least 1; never negative for a non-negative quantity |
| Calculations.ItemWeightExamples | src/utils/calculations.ts:12-15 | Three two-handed weapons weigh 12 by default, 4.5 with a 1.5 override |
| Calculations.AmmunitionStacks | src/utils/calculations.ts:12-15 | 20 light ammunition or 10 ammunition weigh one unit |
| Calculations.TotalWeightAppend | src/utils/calculations.ts:17-19 | The total of an empty list is 0; the total over a concatenation is the sum of the totals |
| Calculations.TotalWeightNonNegative | src/utils/calculations.ts:17-19 | With no negative quantity the total weight is never negative |
| Calculations.CoinPenalty | src/utils/calculations.ts:25-32 | 0 exactly up to 30 coins; above that, the number of started groups of 10 coins over 30 |
| Calculations.CoinWeight | src/utils/calculations.ts:25-32 | The coin weight is never negative, and is 0 exactly when the purse holds at most 30 coins |
| Calculations.CoinPenaltyExamples | src/utils/calculations.ts:25-32 | 30 coins weigh 0, 31 and 40 weigh 1, 41 weighs 2 |
| Calculations.CoinPenaltyMonotone | src/utils/calculations.ts:25-32 | More coins never weigh less |
| Calculations.CurrencyValueBounds | src/utils/calculations.ts:34-40 | A purse without negative counts is worth at least its coin count, and is worth 0 exactly when it is empty |
| Calculations.CurrencyValueExample | src/utils/calculations.ts:34-40 | 5 copper, 2 silver and 1 gold are worth 125 copper |
| Calculations.AtLeastZero | src/utils/calculations.ts:42-50 | `Math.max(0, x)` is x when x is non-negative and 0 otherwise |
| Calculations.GetEquipmentSlots | src/utils/calculations.ts:42-50 | Each body slot count is 4 plus the pack's modifier, or 0 if that is negative; the utility count is the pack's own |
| Calculations.BuiltInSlotsUnclamped | src/types/index.ts:86-197 | For every built-in pack the clamp never applies: each body slot count is 4 plus the modifier and at least 1 |
| Calculations.UtilityEligibilityIgnoresQuantity | src/utils/calculations.ts:52-63 | Utility eligibility does not depend on the stack size |
| Calculations.UtilityPackThreshold | src/utils/calculations.ts:52-63 | Under the utility pack an `other` item of 1.9 per unit passes, one of 2.0 fails, and one without an override (default 1) passes |
| Calculations.BodySlotOf | src/utils/calculations.ts:65-91 | An independent table of each category's body slot type; never the utility slot |
| Calculations.CanEquipItemIsBodySlotOf | src/utils/calculations.ts:65-91 | A body slot type admits an item exactly when it is the item category's slot type; the utility type admits everything |
| Calculations.AtMostOneBodySlot | src/utils/calculations.ts:65-91 | No item fits two different body slot types |
| Calculations.CountAttuned | src/utils/calculations.ts:93-95 | The attuned count lies between 0 and the list length. It is 0 exactly when nothing is attuned, and the full length exactly when everything is |
| Calculations.CountAttunedAppend | src/utils/calculations.ts:93-95 | Counting distributes over concatenation |
| Calculations.AttunedCountNotCapped | src/utils/calculations.ts:93-95 | Five attuned items count as 5, above the cap of 3 |
| Storage.CreateDefaultInventory | src/utils/storage.ts:122-142 | No items, vaults or storages; every slot array empty; no coins; the standard pack |
| Storage.DefaultInventoryWeighsNothing | src/utils/storage.ts:122-142 | A fresh inventory weighs 0 and has no coin penalty |
| Storage.DefaultInventoryHoldsNothing | src/utils/storage.ts:122-142 | A fresh inventory is worth 0 and has nothing attuned |
| Storage.DefaultDMConfig | src/utils/storage.ts:87-96 | Empty custom lists, the default coin names, no favourites, an empty note |
| Storage.LoadedDMConfig | src/utils/storage.ts:82-110 | The saved configuration when there is one, else the default |
| Storage.WithFavorite | src/utils/storage.ts:160-163 | The id is appended only when absent: the list then contains it and keeps its other members, and gains no duplicate |
| Storage.WithoutFavorite | src/utils/storage.ts:175 | Every occurrence of the id goes and every other member stays; no duplicate appears |
| Storage.AddThenRemoveFavorite | src/utils/storage.ts:155-181 | Adding an absent favourite and removing it restores the list |
| Storage.Dedup | src/utils/storage.ts:148 | `new Set` keeps each id once, with the same members |
| Storage.DedupPrefix | src/utils/storage.ts:148 | Insertion order: ids that come later are kept after every id already kept |
| Storage.DedupOfUnique | src/utils/storage.ts:148 | A list without repeats comes back unchanged, in its order |
| Storage.Flatten | src/utils/storage.ts:147 | The flattened list holds exactly the ids of some player's list |
| Storage.MergedFavorites | src/utils/storage.ts:144-153 | The merged favourites have no duplicates and hold exactly the ids some player favours |
| Storage.PlayerData.constructor | src/types/index.ts:341-346 | A stored record holds the given token, inventory, favourites and access time |
| Storage.PlayerData.Fresh | src/utils/storage.ts:158 | A record for a player without one: default inventory, no favourites |
| Storage.PlayerData.AddToFavorites | src/utils/storage.ts:155-167 | The favourites become `WithFavorite` of the old ones; the record is saved exactly when the id was absent |
| Storage.PlayerData.RemoveFromFavorites | src/utils/storage.ts:169-181 | The favourites become `WithoutFavorite` of the old ones |
| ItemSearch.CategoryLabelLowercase | src/types/index.ts:1-21 | Every category string value is already lower case |
| ItemSearch.MatchesCaseInsensitively | src/components/GlobalSearchTab.tsx:26-27 | The search test is exactly: the lowercased term occurs in the lowercased name or the lowercased category |
| ItemSearch.MatchesIgnoresTermCase | src/components/GlobalSearchTab.tsx:39-40 | Lowercasing the term first finds the same items |
| ItemSearch.EmptyTermMatchesAll | src/components/PackTab.tsx:28-31 | An empty term matches every item |
| GlobalSearch.Hits | src/components/GlobalSearchTab.tsx:25-34 | No more hits than items |
| GlobalSearch.HitsIff | src/components/GlobalSearchTab.tsx:25-34 | A result is a hit exactly when it wraps a matching item of the list with the given location data |
| GlobalSearch.HitsAppend | src/components/GlobalSearchTab.tsx:25-34 | The hits of a concatenation are the first part's hits followed by the second's |
| GlobalSearch.StorageHitSource | src/components/GlobalSearchTab.tsx:37-49 | Every storage hit is a matching item of some storage, carrying that storage's name, id and nearby flag |
| GlobalSearch.StorageHitComplete | src/components/GlobalSearchTab.tsx:37-49 | Every matching item of every storage is found with its storage's data |
| GlobalSearch.StorageHitsAppend | src/components/GlobalSearchTab.tsx:37-49 | The next storage's hits follow those of the storages before it |
| GlobalSearch.StorageHitsStep | src/components/GlobalSearchTab.tsx:37-49 | One more storage extends the searched storage prefix by one |
| GlobalSearch.PushHits | src/components/GlobalSearchTab.tsx:25-34 | The loop leaves the old results followed by the list's hits, in item order |
| GlobalSearch.SearchAllLocations | src/components/GlobalSearchTab.tsx:21-52 | The results are the pack's hits followed by each storage's hits, in storage order |
| GlobalSearch.SearchResults | src/components/GlobalSearchTab.tsx:88 | A term shorter than 2 characters gives no results; otherwise all hits |
| GlobalSearch.PackHitIff | src/components/GlobalSearchTab.tsx:25-34 | A pack hit (location "Player Pack", no storage id, not transferable) is found exactly for a matching pack item |
| GlobalSearch.StorageHitIff | src/components/GlobalSearchTab.tsx:37-49 | A result with a storage id is found exactly for a matching item of a storage with that name, id and nearby flag |
| GlobalSearch.PackHitsFirst | src/components/GlobalSearchTab.tsx:21-52 | A result lacks a storage id exactly when it lies in the leading pack part; such results are not transferable |
| GlobalSearch.TransferToPack | src/components/GlobalSearchTab.tsx:54-86 | Nothing changes without a storage id, when the hit is not transferable, or when the storage is gone |
| GlobalSearch.TransferToPackEffect | src/components/GlobalSearchTab.tsx:61-85 | The pack gains the de-attuned item at its end. Every storage with the storage id is given the first such storage's items without the item's id. Other storages and other inventory fields are kept |
| GlobalSearch.TransferredItemKeepsFields | src/components/GlobalSearchTab.tsx:61-66 | The moved item keeps every field, its whole quantity included, except attunement, which is cleared |
| Transfer.TransferToStorage | src/components/TransferTab.tsx:12-29 | A no-op exactly when the pack lacks the item or the storage is not nearby. Otherwise the pack loses every entry with the id and the storage gains the de-attuned first one at its end; nothing else changes |
| Transfer.TransferToPlayer | src/components/TransferTab.tsx:31-48 | The symmetric move from the storage to the pack |
| Transfer.TransferToStorageConserves | src/components/TransferTab.tsx:20-23 | With unique ids exactly one entry moves, and the combined item count is conserved |
| Transfer.TransferToPlayerConserves | src/components/TransferTab.tsx:39-42 | With unique ids exactly one entry moves, and the combined item count is conserved |
| Transfer.StorageRoundTrip | src/components/TransferTab.tsx:12-48 | Pack to storage and back restores the storage. The pack holds the same items, with the moved one now last and de-attuned |
| Pack.CurrentPack | src/components/PackTab.tsx:19 | The first pack with the inventory's pack id, or the first table entry when none has it |
| Pack.FilterItems | src/components/PackTab.tsx:28-31 | The filtered list holds exactly the items matching the term, and is no longer than the list |
| Pack.EmptyFilterKeepsAll | src/components/PackTab.tsx:28-31 | An empty search box shows every item in order |
| Pack.FilterItemsAppend | src/components/PackTab.tsx:28-31 | The filter keeps the order: filtering a concatenation filters each part |
| Pack.ApplyItemPatch | src/components/PackTab.tsx:39-44 | Spreading a patch never changes the id |
| Pack.NoChangesIsIdentity | src/components/PackTab.tsx:39-44 | The empty patch changes nothing |
| Pack.FullPatchReplaces | src/components/PackTab.tsx:39-44 | Saving the edit dialog replaces every field but the id |
| Pack.AddItem | src/components/PackTab.tsx:33-37 | Exactly one item, under the fresh id, is appended; nothing else changes |
| Pack.AddItemFresh | src/components/PackTab.tsx:33-51 | Adding keeps ids unique, and deleting the new item gives the inventory back |
| Pack.UpdateItem | src/components/PackTab.tsx:39-44 | The items with the id are patched; all others and all other fields are kept |
| Pack.DeleteItem | src/components/PackTab.tsx:46-51 | No item with the id is left; the kept items are exactly the others |
| Pack.DeleteUnique | src/components/PackTab.tsx:46-51 | With unique ids, deleting item k removes it alone and keeps the order |
| Pack.UpdateUnique | src/components/PackTab.tsx:39-44 | With unique ids, updating item k patches it alone |
| Pack.SellItem | src/components/PackTab.tsx:53-65 | A no-op unless 0 < qty ≤ quantity; selling all deletes the item, selling part lowers the quantity |
| Pack.SellEffect | src/components/PackTab.tsx:53-65 | With unique ids, the stack shrinks by exactly qty, or the item goes when all of it is sold |
| Pack.CampUses | src/components/PackTab.tsx:75 | Unset or zero uses read as 15; any other count as itself |
| Pack.UseItem | src/components/PackTab.tsx:67-82 | Ammunition, light ammunition and consumables lose one unit, or go at the last one. A camp item loses one use, or goes at the last. Anything else is unchanged |
| Pack.UseEffect | src/components/PackTab.tsx:67-82 | With unique ids, the quantity or the uses of item k drop by exactly one, or it is removed |
| Pack.FreshCampItemUse | src/components/PackTab.tsx:74-80 | Using a camp item with unset or zero uses leaves 14 |
| Pack.ChangeCategory | src/components/PackTab.tsx:166-172 | The item with the id takes the new category and that category's default weight; others are kept |
| Pack.ChangeCategoryWeight | src/components/PackTab.tsx:166-172 | After a category change the item weighs the new default per unit, whatever its override was |
| Pack.SetQuantity | src/components/PackTab.tsx:185 | The quantity is set to the parsed number, or 1 when unparsable or zero |
| Pack.SetAttuned | src/components/PackTab.tsx:196 | Only the attunement flag of the items with the id changes |
| Pack.InitItemForm | src/components/PackTab.tsx:268-275 | A blank dialog for a new item. Otherwise the item's fields, with a zero quantity read as 1 and a zero weight read as the category default |
| Pack.SelectFormCategory | src/components/PackTab.tsx:313-318 | Choosing a category sets the weight to its default and nothing else |
| Pack.SubmitItemForm | src/components/PackTab.tsx:277-294 | A blank name is refused. Attunement is cleared unless required. Uses are set only for camp items: the existing count, or 15 |
| Pack.EditWithoutChangesIff | src/components/PackTab.tsx:268-294 | Saving an item's dialog unchanged gives the item back exactly when it is already normalised |
| Pack.SubmittedItemIsNormalised | src/components/PackTab.tsx:277-294 | Given a name and a non-zero quantity and weight, the dialog saves a normalised item |
| Pack.ZeroWeightIsSaved | src/components/PackTab.tsx:277-294 | A weight box cleared to 0 (`parseFloat(...) || 0` at line 343) is saved as 0: the item is not normalised and weighs its category's default per unit |
| Body.Holes | src/components/BodyTab.tsx:21-23 | n empty slots |
| Body.Padded | src/components/BodyTab.tsx:21-23 | Padding reaches the slot count, never shrinks a longer array, keeps the old entries and adds only empty ones |
| Body.WriteSlot | src/components/BodyTab.tsx:25 | A write sets the index and keeps every other old entry; a write past the end leaves empty holes |
| Body.Equipped | src/components/BodyTab.tsx:17-26 | The result covers the slot count, the old array and the index. The index holds the entry, every other old entry is kept, and new entries are empty |
| Body.PadAndWrite | src/components/BodyTab.tsx:18-25 | The padding loop and the write compute exactly `Equipped` |
| Body.Equip | src/components/BodyTab.tsx:16-29 | Only the chosen body slot array changes; it is padded to the current pack's count and the index holds the id or nothing |
| Body.Choice | src/components/BodyTab.tsx:73 | The empty option unequips; any other value is that id |
| Body.EquipThenUnequip | src/components/BodyTab.tsx:16-29 | Equipping then unequipping a slot leaves it empty and every other slot as equipping left it |
| Body.EquippableItems | src/components/BodyTab.tsx:31-33 | The choices are exactly the items `canEquipItem` admits to the slot type |
| Body.OfferedToOneBodySlot | src/components/BodyTab.tsx:31-33 | No item is offered to two different body slot types |
| Body.SlotItem | src/components/BodyTab.tsx:39-41 | A missing index, an empty slot or a dangling id shows nothing; otherwise the first item with the stored id |
| Body.RenderedSlots | src/components/BodyTab.tsx:35-41 | One shown entry per slot, as many as the slot count (none for a negative count) |
| Body.EquippedItemShows | src/components/BodyTab.tsx:16-41 | After equipping a pack item, its slot shows an item with that id |
| Body.OverAttunedExamples | src/components/BodyTab.tsx:95-103 | Four attuned items raise the warning, three do not |
| QuickSlots.EquipUtility | src/components/QuickSlotsTab.tsx:15-28 | Only the utility array changes. It is padded to at least the pack's utility count, and the index holds the id or nothing |
| QuickSlots.UtilityChoices | src/components/QuickSlotsTab.tsx:30-32 | The choices are exactly the items eligible for the current pack's utility slots |
| QuickSlots.UtilityPackChoices | src/components/QuickSlotsTab.tsx:30-32 | Under the utility pack, exactly the items lighter than 2 per unit are offered |
| QuickSlots.UtilitySlotCount | src/components/QuickSlotsTab.tsx:12-13 | The number of utility slots shown is the current pack's utility count |
| QuickSlots.RenderedUtilitySlots | src/components/QuickSlotsTab.tsx:34-40 | One shown entry per utility slot |
| Coins.WithCoin | src/components/CoinsTab.tsx:29 | One denomination is replaced and the other three kept |
| Coins.SetCoin | src/components/CoinsTab.tsx:28-31 | The count stored is max(0, value); the other denominations and the rest of the inventory are kept |
| Coins.SetCoinKeepsNonNegative | src/components/CoinsTab.tsx:28-31 | A purse without negative counts stays so |
| Coins.NearbyVaultTotalIsNearbyValue | src/components/CoinsTab.tsx:21-24 | The filtered vault sum equals the sum in which vaults that are not nearby count 0 |
| Coins.VaultValueAppend | src/components/CoinsTab.tsx:24 | The vault sum distributes over concatenation |
| Coins.StorageValueAppend | src/components/CoinsTab.tsx:25 | The storage sum distributes over concatenation |
| Coins.NearbyStorageTotalIsNearbyValue | src/components/CoinsTab.tsx:22-25 | The filtered storage sum equals the sum in which storages that are not nearby count 0 |
| Coins.NearbyVaultValueNonNegative | src/components/CoinsTab.tsx:24 | Vaults without negative counts add a non-negative amount |
| Coins.NearbyStorageValueNonNegative | src/components/CoinsTab.tsx:25 | Storages without negative counts add a non-negative amount |
| Coins.GrandTotalAtLeastPurse | src/components/CoinsTab.tsx:26 | Without negative counts the grand total is at least the purse's value |
| Coins.NothingNearby | src/components/CoinsTab.tsx:21-26 | With nothing nearby the grand total is the purse's value |
| Coins.NoNearbyVaults | src/components/CoinsTab.tsx:21 | No nearby vault adds nothing |
| Coins.NoNearbyStorages | src/components/CoinsTab.tsx:22 | No nearby storage adds nothing |
| Coins.Status | src/components/CoinsTab.tsx:63 | Error exactly above 40 coins, warning exactly above 30 up to 40, normal otherwise |
| Coins.StatusMatchesCoinWeight | src/components/CoinsTab.tsx:63 | The count is normal exactly when the coins weigh nothing; an error always means a penalty |
| Coins.VaultWithId | src/components/CoinsTab.tsx:33-37 | The vault takes the given id |
| Coins.ApplyVaultPatch | src/components/CoinsTab.tsx:39-44 | Spreading a patch never changes the id |
| Coins.FullVaultPatchReplaces | src/components/CoinsTab.tsx:39-44 | Saving the vault dialog replaces every field but the id |
| Coins.AddVault | src/components/CoinsTab.tsx:33-37 | One vault, under the fresh id, is appended; nothing else changes |
| Coins.UpdateVault | src/components/CoinsTab.tsx:39-44 | Only the vaults with the id are patched |
| Coins.DeleteVault | src/components/CoinsTab.tsx:46-51 | No vault with the id is left; every other vault is kept |
| Coins.AddVaultThenDelete | src/components/CoinsTab.tsx:33-51 | Adding then deleting restores the inventory; ids stay unique |
| Coins.DeleteVaultUnique | src/components/CoinsTab.tsx:46-51 | With unique ids, deleting vault k removes it alone and keeps the order |
| Coins.InitVaultForm | src/components/CoinsTab.tsx:215-219 | A blank dialog for a new vault, otherwise the vault's fields (absent notes read as "") |
| Coins.SetFormCoin | src/components/CoinsTab.tsx:277 | The dialog's coin box stores the parsed number or 0, with no lower bound |
| Coins.SubmitVaultForm | src/components/CoinsTab.tsx:221-232 | A blank name is refused first, then a blank location; otherwise the fields are saved |
| Coins.EditVaultWithoutChanges | src/components/CoinsTab.tsx:215-232 | Saving a vault's dialog unchanged keeps the vault |
| ExternalStorages.StorageWithId | src/components/ExternalStorageTab.tsx:22-26 | The storage takes the given id and the dialog's inventory |
| ExternalStorages.ApplyStoragePatch | src/components/ExternalStorageTab.tsx:28-33 | The id never changes; a patch without an inventory keeps the nested inventory |
| ExternalStorages.AddStorage | src/components/ExternalStorageTab.tsx:22-26 | One storage, under the fresh id, is appended; existing storages are kept |
| ExternalStorages.UpdateStorage | src/components/ExternalStorageTab.tsx:28-33 | Only the storages with the id are patched |
| ExternalStorages.DeleteStorage | src/components/ExternalStorageTab.tsx:35-40 | No storage with the id is left, nested inventory and all; every other storage is kept |
| ExternalStorages.DeleteStorageUnique | src/components/ExternalStorageTab.tsx:35-40 | With unique ids, deleting storage k removes it alone and keeps the order |
| ExternalStorages.AddStorageThenDelete | src/components/ExternalStorageTab.tsx:22-40 | Adding then deleting restores the inventory; ids stay unique |
| ExternalStorages.StorageTypeName | src/components/ExternalStorageTab.tsx:69-73 | The type's name, or "Unknown" for a missing type or an empty name; never empty |
| ExternalStorages.DefaultTypeId | src/components/ExternalStorageTab.tsx:152 | The first type's id, or "" for an empty table |
| ExternalStorages.InitStorageForm | src/components/ExternalStorageTab.tsx:150-153 | A blank dialog for a new storage. Otherwise the storage's fields and inventory, with an empty type id falling back to the default |
| ExternalStorages.SubmitStorageForm | src/components/ExternalStorageTab.tsx:155-172 | A blank name is refused first, then a blank description. An edit keeps the nested inventory; a new storage gets the default one |
| ExternalStorages.NewStorageStartsEmpty | src/components/ExternalStorageTab.tsx:170 | A storage created through the dialog holds no items, coins or storages |
| ExternalStorages.EditKeepsNestedInventory | src/components/ExternalStorageTab.tsx:155-172 | Saving a storage's dialog writes the same nested inventory back |
| App.MergePackTypes | src/App.tsx:54 | The built-in packs form a prefix, followed by the customs |
| App.MergeStorageTypes | src/App.tsx:58 | The built-in storage types form a prefix, followed by the customs |
| App.BuiltInPackWins | src/App.tsx:54 | A custom pack cannot shadow a built-in one: a built-in id always resolves to the built-in pack |
| App.BuiltInStorageTypeWins | src/App.tsx:58 | A built-in storage type id always finds the built-in entry |
| App.DefaultInventoryUsesStandardPack | src/App.tsx:89-93 | A fresh inventory is carried in the built-in standard pack, whatever the customs |
| App.ViewedStorage | src/App.tsx:145-147 | No storage unless a non-empty id is viewed; then the first storage with that id |
| App.DisplayInventory | src/App.tsx:149 | The viewed storage's nested inventory when found, else the character's own |
| App.WriteBack | src/App.tsx:227-235 | While a storage is viewed only the nested inventories of the storages with its id change; otherwise the edit replaces the inventory |
| App.DisplayAfterWriteBack | src/App.tsx:244-253 | After a write-back the tabs display exactly the inventory they handed over |
| App.WriteBackOfDisplayIsIdentity | src/App.tsx:260-269 | With unique storage ids, writing back what is displayed changes nothing |
| App.LoadedInventory | src/App.tsx:89-93 | The stored inventory, or a fresh one when the token has none |
| App.AppState.constructor | src/App.tsx:32-41 | No token, no configuration, the fresh inventory and the built-in tables |
| App.AppState.ApplyConfig | src/App.tsx:50-59 | The tables become the merged tables of the configuration; the inventory and token are kept |
| App.AppState.LoadInventory | src/App.tsx:78-97 | Opens the token, reading its inventory or storing a fresh one, and stops viewing any storage |
| App.AppState.SaveInventory | src/App.tsx:99-104 | Keeps the new inventory; stores it on the token only when one is open. As the `onUpdate` of the coins, external-storage and search tabs (App.tsx:272-291), their edit replaces the root inventory, the viewed storage is kept, and the display becomes that storage in the new inventory. Nothing else changes |
| App.AppState.SetViewing | src/App.tsx:106-108 | Sets or clears the viewed storage |
| App.AppState.OnDisplayUpdate | src/App.tsx:227-236 | The inventory becomes the write-back of the edit and is stored on the open token; afterwards the tabs display the edit; the viewed id, token and tables are kept |
| App.AppState.BodyTabEquip | src/App.tsx:244-253 | The inventory becomes the write-back of the displayed inventory with one slot array padded and written; it is stored on the open token; the equip shows in the displayed slot; the viewed id, token and tables are kept |
| App.AppState.QuickSlotEquip | src/App.tsx:260-269 | The inventory becomes the write-back of the displayed inventory with its utility array padded and written; it is stored on the open token; the equip shows in the displayed slot; the viewed id, token and tables are kept |
| DMScreen.Open | src/components/DMScreen.tsx:14-18 | The drafts start from the configuration, with no editor open |
| DMScreen.SaveConfig | src/components/DMScreen.tsx:20-28 | The drafts replace the custom tables and coin names; categories, favourites and notes carry over unchanged |
| DMScreen.SaveUnchanged | src/components/DMScreen.tsx:14-28 | Opening the screen and saving at once writes back the same configuration |
| DMScreen.NewPackType | src/components/DMScreen.tsx:36-47 | A new pack: "New Pack", capacity 50, 5 utility slots, all modifiers 0, no rules |
| DMScreen.NewPackSlots | src/components/DMScreen.tsx:36-47 | A new pack grants 4 slots of each body type and 5 utility slots, and its empty rules admit no item |
| DMScreen.AddPack | src/components/DMScreen.tsx:35-50 | Exactly one new pack is appended under the fresh id and opened in the editor |
| DMScreen.AddedPackResolves | src/components/DMScreen.tsx:35-50 | Once merged, an added pack under an unused id is the pack its id resolves to |
| DMScreen.ApplyPackFields | src/components/DMScreen.tsx:52-56 | The editor's fields replace the pack's; the id and the utility rules are kept |
| DMScreen.UpdatePack | src/components/DMScreen.tsx:52-56 | Only the packs with the id change |
| DMScreen.UpdatePackUnique | src/components/DMScreen.tsx:52-56 | With unique ids, updating pack k changes it alone and keeps ids unique |
| DMScreen.DeletePack | src/components/DMScreen.tsx:58-62 | No pack with the id is left; every other pack is kept and nothing new appears |
| DMScreen.PackAddDelete | src/components/DMScreen.tsx:35-62 | Adding then deleting restores the list; with unique ids, deleting pack k removes it alone |
| DMScreen.InitPackForm | src/components/DMScreen.tsx:292-299 | The editor starts from the pack's fields, an absent description read as "" |
| DMScreen.SubmitPackForm | src/components/DMScreen.tsx:301-317 | A blank name is refused; otherwise the fields are saved as entered |
| DMScreen.SavePackEditor | src/components/DMScreen.tsx:183-190 | A refused save changes nothing; an accepted one updates the edited pack and closes the editor |
| DMScreen.EditPackWithoutChanges | src/components/DMScreen.tsx:291-317 | Saving a pack's editor unchanged keeps the pack |
| DMScreen.NewStorageType | src/components/DMScreen.tsx:65-73 | A new storage type: capacity 100, no weapon or armor slots, coin capacity 100 |
| DMScreen.AddStorageType | src/components/DMScreen.tsx:64-76 | Exactly one new storage type is appended under the fresh id and opened in the editor |
| DMScreen.ApplyStorageTypeFields | src/components/DMScreen.tsx:78-82 | The editor's fields replace the type's; the id is kept |
| DMScreen.UpdateStorageType | src/components/DMScreen.tsx:78-82 | Only the storage types with the id change |
| DMScreen.DeleteStorageType | src/components/DMScreen.tsx:84-88 | No storage type with the id is left; every other one is kept and nothing new appears |
| DMScreen.StorageTypeAddDelete | src/components/DMScreen.tsx:64-88 | Adding then deleting restores the list; with unique ids, deleting entry k removes it alone |
| DMScreen.InitStorageTypeForm | src/components/DMScreen.tsx:418-423 | The editor starts from the type's fields, an absent description read as "" |
| DMScreen.SubmitStorageTypeForm | src/components/DMScreen.tsx:425-439 | A blank name is refused; otherwise the fields are saved as entered |
| DMScreen.SaveStorageTypeEditor | src/components/DMScreen.tsx:248-255 | A refused save changes nothing; an accepted one updates the edited type and closes the editor |
| DMScreen.EditStorageTypeWithoutChanges | src/components/DMScreen.tsx:417-439 | Saving a storage type's editor unchanged keeps the type |
| DMScreen.SetCoinName | src/components/DMScreen.tsx:273 | One coin name is replaced and the other three kept |

## Left out

- Owlbear Rodeo calls are not modelled: token and room metadata, player metadata, the sticky token, the role check and the token's display name. Stored inventories are a map from token id to inventory. A saved configuration and a stored player record are values passed in.
- The configurator's password check, its `prompt`, and every `alert` are left out. A form refusal is returned as a `FormError` instead of an alert.
- The `confirm` before a delete is not modelled: deletes are modelled on the confirmed path.
- `generateId` is not modelled, because it uses the clock and randomness. Each add takes the new id as a parameter, with a precondition that no entry already has it.
- `parseInt`, `parseFloat` and `toFixed` are not modelled. A parsed number is an `Option<int>`, where `None` means the input did not parse. The configurator's number fields are plain integers.
- Weights are exact `real`s, not IEEE floats. Lowercasing is ASCII only.
- React state, rendering and tab navigation are left out. So are the info tab and the pack tab's asynchronous favourites load and star toggle.
- Persisting a player record is left out; only the in-place change to its favourites is modelled.
- JavaScript's `undefined` for a missing equipment array cannot be represented: every inventory has all five arrays. The `|| []` fallback of the slot views and quick-slot equip therefore does not arise.
- `null` slots and the holes an out-of-range write leaves are both modelled as `None`.
- Pack.CurrentPack: requires a non-empty pack table. The source would read `undefined` there; the shell's tables always start with the ten built-ins.
- The search result's `vaultId` field is never set by the source and is omitted.
- The transfer tab's handlers are modelled although the shell never mounts the tab.
- The vault dialog's coin boxes store a negative number as typed, unlike the purse's `Math.max(0, …)`. `Coins.SetFormCoin` models that as written.
- ItemSearch.Matches: tests the category's string value without lowercasing it first. `ItemSearch.CategoryLabelLowercase` proves every value is already lower case, so `ItemSearch.MatchesCaseInsensitively` shows this is the source's test.
- DMScreen.ApplyPackFields: models `handleUpdatePack`'s `Partial<PackType>` at the one shape its only caller, the editor, passes (every field but the id and the rules). The same holds for `DMScreen.ApplyStorageTypeFields`.
- App.AppState.BodyTabEquip and App.AppState.QuickSlotEquip: the new inventory, the stored token data and the kept fields are stated outright; the displayed slot is stated only when the viewed storage exists or none is viewed. The shell never views a missing storage through its own buttons.
- GlobalSearch.SearchResults: the two-character minimum counts a string's characters (Unicode code points). JavaScript's `length` counts UTF-16 units, so a term of one character outside the Basic Multilingual Plane, such as an emoji, is searched by the source but gives no results here.
- The body tab renders only the armor, clothing and jewelry slots. Its equip handler, modelled by `Body.Equip`, also accepts the weapon array, but the tab never passes it.
