/**
 * The external-storage tab: the list of mounts, carts and houses an
 * inventory owns (each with a whole nested inventory), its dialog, and the
 * storage-type name shown for each entry.
 */
module ExternalStorages {
  import opened Wrappers
  import opened Types
  import Text
  import IdLists
  import Storage

  /** `Omit<ExternalStorage, 'id'>`: what the dialog produces. */
  datatype StorageFields = StorageFields(name: string, description: string, storageTypeId: string, nearby: bool, inventory: Inventory)

  function StorageWithId(f: StorageFields, id: string): (s: ExternalStorage)
    ensures s.id == id && s.inventory == f.inventory
  {
    ExternalStorage(id, f.name, f.description, f.storageTypeId, f.inventory, f.nearby)
  }

  /** `Partial<ExternalStorage>` as spread by `{ ...s, ...updates }`. */
  datatype StoragePatch = StoragePatch(
    name: Option<string>,
    description: Option<string>,
    storageTypeId: Option<string>,
    inventory: Option<Inventory>,
    nearby: Option<bool>)

  function FullStoragePatch(f: StorageFields): StoragePatch {
    StoragePatch(Some(f.name), Some(f.description), Some(f.storageTypeId), Some(f.inventory), Some(f.nearby))
  }

  /** The nearby tick box of a row. */
  function NearbyPatch(b: bool): StoragePatch {
    StoragePatch(None, None, None, None, Some(b))
  }

  function ApplyStoragePatch(s: ExternalStorage, p: StoragePatch): (r: ExternalStorage)
    ensures r.id == s.id
    ensures p.inventory.None? ==> r.inventory == s.inventory
  {
    ExternalStorage(s.id, p.name.GetOr(s.name), p.description.GetOr(s.description), p.storageTypeId.GetOr(s.storageTypeId),
                    p.inventory.GetOr(s.inventory), p.nearby.GetOr(s.nearby))
  }

  /** `handleAdd`: append the dialog's storage under a fresh id; the existing storages are kept as they are. */
  function AddStorage(inv: Inventory, f: StorageFields, newId: string): (r: Inventory)
    requires !IdLists.HasKey(inv.externalStorages, StorageKey, newId)
    ensures r.externalStorages == inv.externalStorages + [StorageWithId(f, newId)]
    ensures r == inv.(externalStorages := r.externalStorages)
  {
    inv.(externalStorages := inv.externalStorages + [StorageWithId(f, newId)])
  }

  /** `handleUpdate`: spread the patch over the storages with this id. */
  function UpdateStorage(inv: Inventory, storageId: string, p: StoragePatch): (r: Inventory)
    ensures |r.externalStorages| == |inv.externalStorages|
    ensures forall k :: 0 <= k < |inv.externalStorages| ==>
              r.externalStorages[k] == if inv.externalStorages[k].id == storageId
                                       then ApplyStoragePatch(inv.externalStorages[k], p) else inv.externalStorages[k]
    ensures r == inv.(externalStorages := r.externalStorages)
  {
    inv.(externalStorages := IdLists.Update(inv.externalStorages, StorageKey, storageId, (s: ExternalStorage) => ApplyStoragePatch(s, p)))
  }

  /** `handleDelete` (once confirmed): drop the storages with this id, nested inventory and all. */
  function DeleteStorage(inv: Inventory, storageId: string): (r: Inventory)
    ensures !IdLists.HasKey(r.externalStorages, StorageKey, storageId)
    ensures forall k :: 0 <= k < |inv.externalStorages| && inv.externalStorages[k].id != storageId ==>
              inv.externalStorages[k] in r.externalStorages
    ensures r == inv.(externalStorages := r.externalStorages)
  {
    inv.(externalStorages := IdLists.Remove(inv.externalStorages, StorageKey, storageId))
  }

  /** With unique ids, deleting storage `k` removes it alone and keeps the others in order. */
  lemma DeleteStorageUnique(inv: Inventory, k: int)
    requires IdLists.UniqueKeys(inv.externalStorages, StorageKey) && 0 <= k < |inv.externalStorages|
    ensures DeleteStorage(inv, inv.externalStorages[k].id).externalStorages ==
            inv.externalStorages[..k] + inv.externalStorages[k + 1..]
  {
    assert StorageKey(inv.externalStorages[k]) == inv.externalStorages[k].id;
    IdLists.RemoveUnique(inv.externalStorages, StorageKey, k);
  }

  /** Adding a storage under a fresh id and deleting it again gives the inventory back; ids stay unique. */
  lemma AddStorageThenDelete(inv: Inventory, f: StorageFields, newId: string)
    requires !IdLists.HasKey(inv.externalStorages, StorageKey, newId)
    ensures DeleteStorage(AddStorage(inv, f, newId), newId) == inv
    ensures IdLists.UniqueKeys(inv.externalStorages, StorageKey) ==>
              IdLists.UniqueKeys(AddStorage(inv, f, newId).externalStorages, StorageKey)
  {
    var s := StorageWithId(f, newId);
    assert StorageKey(s) == newId;
    IdLists.AppendThenRemove(inv.externalStorages, s, StorageKey);
    if IdLists.UniqueKeys(inv.externalStorages, StorageKey) {
      IdLists.AppendFreshUnique(inv.externalStorages, s, StorageKey);
    }
  }

  /** `storageType?.name || 'Unknown'`: the type's name, or "Unknown" for a missing type or an empty name. */
  function StorageTypeName(types: seq<StorageType>, storageTypeId: string): (name: string)
    ensures !IdLists.HasKey(types, StorageTypeKey, storageTypeId) ==> name == "Unknown"
    ensures IdLists.HasKey(types, StorageTypeKey, storageTypeId) ==>
              var t := IdLists.Find(types, StorageTypeKey, storageTypeId).value;
              name == if t.name == "" then "Unknown" else t.name
    ensures name != ""
  {
    match IdLists.Find(types, StorageTypeKey, storageTypeId)
    case Some(t) => if t.name == "" then "Unknown" else t.name
    case None => "Unknown"
  }

  /** The dialog's fields, plus the edited storage's nested inventory (`storage?.inventory`). */
  datatype StorageForm = StorageForm(name: string, description: string, storageTypeId: string, nearby: bool,
                                     existingInventory: Option<Inventory>)

  /** The type preselected for a new storage: the first type's id, or "" for an empty table. */
  function DefaultTypeId(types: seq<StorageType>): (id: string)
    ensures |types| == 0 ==> id == ""
    ensures |types| > 0 ==> id == types[0].id
  {
    if |types| > 0 && types[0].id != "" then types[0].id else ""
  }

  /** The dialog's initial state: blank for a new storage, otherwise the storage's fields and inventory. */
  function InitStorageForm(storage: Option<ExternalStorage>, types: seq<StorageType>): (f: StorageForm)
    ensures storage.None? ==> f == StorageForm("", "", DefaultTypeId(types), false, None)
    ensures storage.Some? ==>
              && f.name == storage.value.name && f.description == storage.value.description
              && f.nearby == storage.value.nearby && f.existingInventory == Some(storage.value.inventory)
              && f.storageTypeId == if storage.value.storageTypeId != "" then storage.value.storageTypeId else DefaultTypeId(types)
  {
    match storage
    case None => StorageForm("", "", DefaultTypeId(types), false, None)
    case Some(s) =>
      StorageForm(s.name, s.description,
                  if s.storageTypeId != "" then s.storageTypeId else DefaultTypeId(types),
                  s.nearby, Some(s.inventory))
  }

  /** `handleSubmit`: refuse a blank name, then a blank description; a new storage starts with the default inventory. */
  function SubmitStorageForm(f: StorageForm): (r: Result<StorageFields, FormError>)
    ensures r == Err(BlankName) <==> Text.IsBlank(f.name)
    ensures r == Err(BlankDescription) <==> !Text.IsBlank(f.name) && Text.IsBlank(f.description)
    ensures r.Ok? <==> !Text.IsBlank(f.name) && !Text.IsBlank(f.description)
    ensures r.Ok? ==> r.value.name == f.name && r.value.description == f.description &&
                      r.value.storageTypeId == f.storageTypeId && r.value.nearby == f.nearby
    ensures r.Ok? && f.existingInventory.Some? ==> r.value.inventory == f.existingInventory.value
    ensures r.Ok? && f.existingInventory.None? ==> r.value.inventory == Storage.CreateDefaultInventory()
  {
    if Text.IsBlank(f.name) then Err(BlankName)
    else if Text.IsBlank(f.description) then Err(BlankDescription)
    else Ok(StorageFields(f.name, f.description, f.storageTypeId, f.nearby,
                          f.existingInventory.GetOr(Storage.CreateDefaultInventory())))
  }

  /** A storage created through the dialog starts empty: no items, no coins, no storages of its own. */
  lemma NewStorageStartsEmpty(name: string, description: string, types: seq<StorageType>)
    requires !Text.IsBlank(name) && !Text.IsBlank(description)
    ensures var r := SubmitStorageForm(InitStorageForm(None, types).(name := name, description := description));
      && r.Ok?
      && r.value.inventory.items == [] && r.value.inventory.currency == NO_COINS
      && r.value.inventory.externalStorages == [] && r.value.inventory.vaults == []
  {
  }

  /** Editing a storage never touches what it holds: saving the dialog writes the same nested inventory back. */
  lemma EditKeepsNestedInventory(inv: Inventory, k: int, f: StorageForm)
    requires 0 <= k < |inv.externalStorages|
    requires f.existingInventory == Some(inv.externalStorages[k].inventory)
    requires SubmitStorageForm(f).Ok?
    ensures var s := inv.externalStorages[k];
      UpdateStorage(inv, s.id, FullStoragePatch(SubmitStorageForm(f).value)).externalStorages[k].inventory == s.inventory
  {
  }
}
