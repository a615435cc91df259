/**
 * The application shell: the pack and storage tables (built-ins followed by
 * the configurator's customs), which inventory the tabs show while a
 * storage is being viewed, how their edits are written back into the
 * character's inventory, and the load/save state the shell keeps.
 */
module App {
  import opened Wrappers
  import opened Types
  import IdLists
  import Storage
  import Calculations
  import Pack
  import Body
  import QuickSlots

  /** `[...DEFAULT_PACK_TYPES, ...customPackTypes]`. */
  function MergePackTypes(custom: seq<PackType>): (r: seq<PackType>)
    ensures |r| == |DefaultPackTypes()| + |custom|
    ensures r[..|DefaultPackTypes()|] == DefaultPackTypes() && r[|DefaultPackTypes()|..] == custom
  {
    DefaultPackTypes() + custom
  }

  /** `[...DEFAULT_EXTERNAL_STORAGE_TYPES, ...customExternalStorageTypes]`. */
  function MergeStorageTypes(custom: seq<StorageType>): (r: seq<StorageType>)
    ensures |r| == |DefaultStorageTypes()| + |custom|
    ensures r[..|DefaultStorageTypes()|] == DefaultStorageTypes() && r[|DefaultStorageTypes()|..] == custom
  {
    DefaultStorageTypes() + custom
  }

  /** A built-in pack cannot be shadowed: its id finds the built-in entry, whatever customs follow. */
  lemma BuiltInPackWins(custom: seq<PackType>, k: int)
    requires 0 <= k < |DefaultPackTypes()|
    ensures IdLists.Find(MergePackTypes(custom), PackKey, DefaultPackTypes()[k].id) == Some(DefaultPackTypes()[k])
    ensures Pack.CurrentPack(MergePackTypes(custom), DefaultPackTypes()[k].id) == DefaultPackTypes()[k]
  {
    var defaults := DefaultPackTypes();
    DefaultPackIdsDistinct();
    assert PackKey(defaults[k]) == defaults[k].id;
    IdLists.FindUnique(defaults, PackKey, k);
    IdLists.FindAppendLeft(defaults, custom, PackKey, defaults[k].id);
  }

  /** A built-in storage type cannot be shadowed either. */
  lemma BuiltInStorageTypeWins(custom: seq<StorageType>, k: int)
    requires 0 <= k < |DefaultStorageTypes()|
    ensures IdLists.Find(MergeStorageTypes(custom), StorageTypeKey, DefaultStorageTypes()[k].id) == Some(DefaultStorageTypes()[k])
  {
    var defaults := DefaultStorageTypes();
    DefaultStorageIdsDistinct();
    assert StorageTypeKey(defaults[k]) == defaults[k].id;
    IdLists.FindUnique(defaults, StorageTypeKey, k);
    IdLists.FindAppendLeft(defaults, custom, StorageTypeKey, defaults[k].id);
  }

  /** A fresh inventory is carried in the built-in standard pack, whatever the configuration adds. */
  lemma DefaultInventoryUsesStandardPack(custom: seq<PackType>)
    ensures Pack.CurrentPack(MergePackTypes(custom), Storage.CreateDefaultInventory().packTypeId) == DefaultPackTypes()[2]
  {
    BuiltInPackWins(custom, 2);
  }

  /** `viewingExternalStorage` is set and not empty. */
  predicate IsViewing(viewing: Option<string>) {
    viewing.Some? && viewing.value != ""
  }

  /** `currentStorage`: the first storage with the viewed id, when a storage is being viewed. */
  function ViewedStorage(root: Inventory, viewing: Option<string>): (r: Option<ExternalStorage>)
    ensures !IsViewing(viewing) ==> r.None?
    ensures IsViewing(viewing) ==> r == IdLists.Find(root.externalStorages, StorageKey, viewing.value)
  {
    if IsViewing(viewing) then IdLists.Find(root.externalStorages, StorageKey, viewing.value) else None
  }

  /** `displayInventory`: the viewed storage's nested inventory, or the character's own. */
  function DisplayInventory(root: Inventory, viewing: Option<string>): (r: Inventory)
    ensures ViewedStorage(root, viewing).None? ==> r == root
    ensures ViewedStorage(root, viewing).Some? ==> r == ViewedStorage(root, viewing).value.inventory
  {
    match ViewedStorage(root, viewing)
    case Some(s) => s.inventory
    case None => root
  }

  /**
   * The pack, body and quick-slot `onUpdate` callbacks: while a storage is viewed the edit replaces the
   * nested inventory of every storage with that id; otherwise it replaces the character's inventory.
   */
  function WriteBack(root: Inventory, viewing: Option<string>, inv: Inventory): (r: Inventory)
    ensures ViewedStorage(root, viewing).None? ==> r == inv
    ensures ViewedStorage(root, viewing).Some? ==>
              && r == root.(externalStorages := r.externalStorages)
              && |r.externalStorages| == |root.externalStorages|
              && forall k :: 0 <= k < |root.externalStorages| ==>
                   r.externalStorages[k] == if root.externalStorages[k].id == viewing.value
                                            then root.externalStorages[k].(inventory := inv)
                                            else root.externalStorages[k]
  {
    if ViewedStorage(root, viewing).Some? then
      root.(externalStorages := IdLists.Update(root.externalStorages, StorageKey, viewing.value,
                                               (s: ExternalStorage) => s.(inventory := inv)))
    else inv
  }

  /** After a write-back the tabs show exactly the inventory they handed over. */
  lemma DisplayAfterWriteBack(root: Inventory, viewing: Option<string>, inv: Inventory)
    requires ViewedStorage(root, viewing).Some? || !IsViewing(viewing)
    ensures DisplayInventory(WriteBack(root, viewing, inv), viewing) == inv
  {
    if ViewedStorage(root, viewing).Some? {
      var f := (s: ExternalStorage) => s.(inventory := inv);
      IdLists.FindUpdate(root.externalStorages, StorageKey, viewing.value, f);
    }
  }

  /** With unique storage ids, writing back what is displayed changes nothing. */
  lemma WriteBackOfDisplayIsIdentity(root: Inventory, viewing: Option<string>)
    requires IdLists.UniqueKeys(root.externalStorages, StorageKey)
    ensures WriteBack(root, viewing, DisplayInventory(root, viewing)) == root
  {
    if ViewedStorage(root, viewing).Some? {
      var ss := root.externalStorages;
      var r := WriteBack(root, viewing, DisplayInventory(root, viewing));
      var found := ViewedStorage(root, viewing).value;
      var m :| 0 <= m < |ss| && ss[m] == found && StorageKey(ss[m]) == viewing.value;
      forall k | 0 <= k < |ss| ensures r.externalStorages[k] == ss[k] {
        if ss[k].id == viewing.value {
          assert StorageKey(ss[k]) == StorageKey(ss[m]);
          assert k == m;
        }
      }
    }
  }

  /** `if (currentTokenId)`: a token is open and its id is not empty. */
  predicate HasToken(tokenId: Option<string>) {
    tokenId.Some? && tokenId.value != ""
  }

  /** `getTokenMetadata(tokenId) || createDefaultInventory()`: a token without an inventory gets a fresh one. */
  function LoadedInventory(saved: Option<Inventory>): (inv: Inventory)
    ensures saved.Some? ==> inv == saved.value
    ensures saved.None? ==> inv == Storage.CreateDefaultInventory()
  {
    saved.GetOr(Storage.CreateDefaultInventory())
  }

  /** The shell's state; `metadata` stands for the inventories stored on the scene's tokens. */
  class AppState {
    var currentTokenId: Option<string>
    var inventory: Inventory
    var packTypes: seq<PackType>
    var storageTypes: seq<StorageType>
    var dmConfig: Option<DMConfig>
    var viewing: Option<string>
    var metadata: map<string, Inventory>

    /** The tables always begin with the built-ins. */
    predicate Valid()
      reads this
    {
      && |packTypes| >= |DefaultPackTypes()| && packTypes[..|DefaultPackTypes()|] == DefaultPackTypes()
      && |storageTypes| >= |DefaultStorageTypes()| && storageTypes[..|DefaultStorageTypes()|] == DefaultStorageTypes()
    }

    /** The initial state, before any token is opened. */
    constructor (metadata: map<string, Inventory>)
      ensures Valid()
      ensures currentTokenId.None? && viewing.None? && dmConfig.None?
      ensures inventory == Storage.CreateDefaultInventory()
      ensures packTypes == DefaultPackTypes() && storageTypes == DefaultStorageTypes()
      ensures this.metadata == metadata
    {
      currentTokenId := None;
      inventory := Storage.CreateDefaultInventory();
      packTypes := DefaultPackTypes();
      storageTypes := DefaultStorageTypes();
      dmConfig := None;
      viewing := None;
      this.metadata := metadata;
    }

    /** What the pack, body and quick-slot tabs show. */
    function Displayed(): Inventory
      reads this
    {
      DisplayInventory(inventory, viewing)
    }

    /** Install a configuration (on start-up and when the configurator saves): the tables are rebuilt from it. */
    method ApplyConfig(config: DMConfig)
      requires Valid()
      modifies this
      ensures Valid()
      ensures dmConfig == Some(config)
      ensures packTypes == MergePackTypes(config.customPackTypes)
      ensures storageTypes == MergeStorageTypes(config.customExternalStorageTypes)
      ensures currentTokenId == old(currentTokenId) && inventory == old(inventory)
      ensures viewing == old(viewing) && metadata == old(metadata)
    {
      dmConfig := Some(config);
      packTypes := MergePackTypes(config.customPackTypes);
      storageTypes := MergeStorageTypes(config.customExternalStorageTypes);
    }

    /** `loadInventory`: open a token's inventory, storing a fresh one on a token that has none, and stop viewing any storage. */
    method LoadInventory(tokenId: string)
      requires Valid()
      modifies this
      ensures Valid()
      ensures currentTokenId == Some(tokenId) && viewing.None?
      ensures tokenId in old(metadata) ==> inventory == old(metadata)[tokenId] && metadata == old(metadata)
      ensures tokenId !in old(metadata) ==>
                inventory == Storage.CreateDefaultInventory() && metadata == old(metadata)[tokenId := inventory]
      ensures packTypes == old(packTypes) && storageTypes == old(storageTypes) && dmConfig == old(dmConfig)
    {
      currentTokenId := Some(tokenId);
      var inv: Inventory;
      if tokenId in metadata {
        inv := metadata[tokenId];
      } else {
        inv := Storage.CreateDefaultInventory();
        metadata := metadata[tokenId := inv];
      }
      inventory := inv;
      viewing := None;
    }

    /**
     * `saveInventory`: keep the new inventory and store it on the open token, if there is one.
     * It is also the `onUpdate` of the coins, external-storage and search tabs, which are handed the
     * character's own inventory even while a storage is viewed: their edit replaces the root inventory,
     * and the other tabs go on showing the viewed storage of that new inventory.
     */
    method SaveInventory(newInventory: Inventory)
      requires Valid()
      modifies this
      ensures Valid()
      ensures inventory == newInventory
      ensures Displayed() == DisplayInventory(newInventory, old(viewing))
      ensures HasToken(old(currentTokenId)) ==> metadata == old(metadata)[old(currentTokenId).value := newInventory]
      ensures !HasToken(old(currentTokenId)) ==> metadata == old(metadata)
      ensures currentTokenId == old(currentTokenId) && viewing == old(viewing)
      ensures packTypes == old(packTypes) && storageTypes == old(storageTypes) && dmConfig == old(dmConfig)
    {
      inventory := newInventory;
      if HasToken(currentTokenId) {
        metadata := metadata[currentTokenId.value := newInventory];
      }
    }

    /** `loadExternalStorage` (the View button) and the Back button. */
    method SetViewing(storageId: Option<string>)
      requires Valid()
      modifies this`viewing
      ensures Valid()
      ensures viewing == storageId
    {
      viewing := storageId;
    }

    /** The `onUpdate` of the pack, body and quick-slot tabs: write the edit back and save. */
    method OnDisplayUpdate(inv: Inventory)
      requires Valid()
      modifies this
      ensures Valid()
      ensures inventory == WriteBack(old(inventory), old(viewing), inv)
      ensures old(ViewedStorage(inventory, viewing)).Some? || !IsViewing(viewing) ==> Displayed() == inv
      ensures HasToken(old(currentTokenId)) ==> metadata == old(metadata)[old(currentTokenId).value := inventory]
      ensures !HasToken(old(currentTokenId)) ==> metadata == old(metadata)
      ensures viewing == old(viewing) && currentTokenId == old(currentTokenId)
      ensures packTypes == old(packTypes) && storageTypes == old(storageTypes) && dmConfig == old(dmConfig)
    {
      if ViewedStorage(inventory, viewing).Some? || !IsViewing(viewing) {
        DisplayAfterWriteBack(inventory, viewing, inv);
      }
      SaveInventory(WriteBack(inventory, viewing, inv));
    }

    /** Equipping from the body tab: the tab edits what is displayed, and the shell writes it back. */
    method BodyTabEquip(t: SlotType, slotIndex: nat, itemId: SlotEntry)
      requires Valid() && Body.IsBodySlot(t)
      modifies this
      ensures Valid()
      ensures var d := old(Displayed());
              var slots := Calculations.GetEquipmentSlots(Pack.CurrentPack(old(packTypes), d.packTypeId));
              var edited := d.(equipped := WithSlotArray(d.equipped, t,
                                Body.Equipped(SlotArray(d.equipped, t), SlotCount(slots, t), slotIndex, itemId)));
              inventory == WriteBack(old(inventory), old(viewing), edited)
      ensures HasToken(old(currentTokenId)) ==> metadata == old(metadata)[old(currentTokenId).value := inventory]
      ensures !HasToken(old(currentTokenId)) ==> metadata == old(metadata)
      ensures viewing == old(viewing) && currentTokenId == old(currentTokenId)
      ensures packTypes == old(packTypes) && storageTypes == old(storageTypes) && dmConfig == old(dmConfig)
      ensures old(ViewedStorage(inventory, viewing)).Some? || !IsViewing(viewing) ==>
                slotIndex < |SlotArray(Displayed().equipped, t)| && SlotArray(Displayed().equipped, t)[slotIndex] == itemId
    {
      var updated := Body.Equip(Displayed(), packTypes, t, slotIndex, itemId);
      OnDisplayUpdate(updated);
    }

    /** Equipping from the quick-slots tab, written back the same way. */
    method QuickSlotEquip(slotIndex: nat, itemId: SlotEntry)
      requires Valid()
      modifies this
      ensures Valid()
      ensures var d := old(Displayed());
              var slots := Calculations.GetEquipmentSlots(Pack.CurrentPack(old(packTypes), d.packTypeId));
              var edited := d.(equipped := d.equipped.(utility := Body.Equipped(d.equipped.utility, slots.utility, slotIndex, itemId)));
              inventory == WriteBack(old(inventory), old(viewing), edited)
      ensures HasToken(old(currentTokenId)) ==> metadata == old(metadata)[old(currentTokenId).value := inventory]
      ensures !HasToken(old(currentTokenId)) ==> metadata == old(metadata)
      ensures viewing == old(viewing) && currentTokenId == old(currentTokenId)
      ensures packTypes == old(packTypes) && storageTypes == old(storageTypes) && dmConfig == old(dmConfig)
      ensures old(ViewedStorage(inventory, viewing)).Some? || !IsViewing(viewing) ==>
                slotIndex < |Displayed().equipped.utility| && Displayed().equipped.utility[slotIndex] == itemId
    {
      var updated := QuickSlots.EquipUtility(Displayed(), packTypes, slotIndex, itemId);
      OnDisplayUpdate(updated);
    }
  }
}
