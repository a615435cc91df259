/**
 * The configurator screen: a draft of the custom pack types, custom storage
 * types and coin names, edited in place and handed back as a new
 * configuration on save. Built-in tables are not editable here; the shell
 * merges the customs after them.
 */
module DMScreen {
  import opened Wrappers
  import opened Types
  import Text
  import IdLists
  import Calculations
  import Pack
  import App
  import Coins

  /** The screen's state: the three drafts and the entry open in an editor, if any. */
  datatype Screen = Screen(
    customPackTypes: seq<PackType>,
    customStorageTypes: seq<StorageType>,
    coinNames: CoinNames,
    editingPack: Option<PackType>,
    editingStorage: Option<StorageType>)

  /** Opening the screen: the drafts start from the current configuration, no editor open. */
  function Open(config: DMConfig): (s: Screen)
    ensures s.customPackTypes == config.customPackTypes
    ensures s.customStorageTypes == config.customExternalStorageTypes
    ensures s.coinNames == config.coinNames
    ensures s.editingPack.None? && s.editingStorage.None?
  {
    Screen(config.customPackTypes, config.customExternalStorageTypes, config.coinNames, None, None)
  }

  /** `handleSave`: the drafts replace the custom tables and coin names; everything else comes from the old configuration. */
  function SaveConfig(config: DMConfig, s: Screen): (r: DMConfig)
    ensures r.customPackTypes == s.customPackTypes
    ensures r.customExternalStorageTypes == s.customStorageTypes
    ensures r.coinNames == s.coinNames
    ensures r.customCategories == config.customCategories
    ensures r.favorites == config.favorites && r.notes == config.notes
  {
    DMConfig(s.customPackTypes, s.customStorageTypes, config.customCategories, s.coinNames,
             config.favorites, config.notes)
  }

  /** Opening the screen and saving at once writes back the configuration unchanged. */
  lemma SaveUnchanged(config: DMConfig)
    ensures SaveConfig(config, Open(config)) == config
  {
  }

  /** The pack a new custom entry starts as. */
  function NewPackType(id: string): (p: PackType)
    ensures p.id == id && p.name == "New Pack" && p.description == Some("")
    ensures p.capacity == 50 && p.utilitySlots == 5 && p.utilityEquipRules == []
    ensures p.weaponModifier == 0 && p.armorModifier == 0 && p.clothingModifier == 0 && p.jewelryModifier == 0
  {
    PackType(id, "New Pack", 50, 5, 0, 0, 0, 0, [], Some(""))
  }

  /** A new pack gives the base four slots of each body type and five utility slots, none of which its rules fill. */
  lemma NewPackSlots(id: string, item: Item)
    requires id != UTILITY_PACK_ID
    ensures Calculations.GetEquipmentSlots(NewPackType(id)) == EquipmentSlots(4, 4, 4, 4, 5)
    ensures !Calculations.CanEquipToUtilitySlot(item, NewPackType(id))
  {
  }

  /** `handleAddPack`: append a new pack under a fresh id and open it in the editor. */
  function AddPack(s: Screen, newId: string): (r: Screen)
    requires !IdLists.HasKey(s.customPackTypes, PackKey, newId)
    ensures r.customPackTypes == s.customPackTypes + [NewPackType(newId)]
    ensures r.editingPack == Some(NewPackType(newId))
    ensures r == s.(customPackTypes := r.customPackTypes, editingPack := r.editingPack)
  {
    s.(customPackTypes := s.customPackTypes + [NewPackType(newId)], editingPack := Some(NewPackType(newId)))
  }

  /** Once saved, a pack added under an id no pack uses yet is the one the shell resolves that id to. */
  lemma AddedPackResolves(s: Screen, newId: string)
    requires !IdLists.HasKey(DefaultPackTypes(), PackKey, newId)
    requires !IdLists.HasKey(s.customPackTypes, PackKey, newId)
    ensures Pack.CurrentPack(App.MergePackTypes(AddPack(s, newId).customPackTypes), newId) == NewPackType(newId)
  {
    var before := DefaultPackTypes() + s.customPackTypes;
    var d := |DefaultPackTypes()|;
    forall k | 0 <= k < |before| ensures PackKey(before[k]) != newId {
      if k < d {
        assert before[k] == DefaultPackTypes()[k];
      } else {
        assert before[k] == s.customPackTypes[k - d];
      }
    }
    var p := NewPackType(newId);
    assert PackKey(p) == newId;
    assert App.MergePackTypes(AddPack(s, newId).customPackTypes) == before + [p];
    IdLists.FindLast(before, p, PackKey);
  }

  /** What the pack editor saves: every field but the id and the utility rules. */
  datatype PackTypeFields = PackTypeFields(
    name: string,
    capacity: int,
    utilitySlots: int,
    weaponModifier: int,
    armorModifier: int,
    clothingModifier: int,
    jewelryModifier: int,
    description: string)

  /** `{ ...p, ...updates }` with the editor's fields. */
  function ApplyPackFields(p: PackType, f: PackTypeFields): (r: PackType)
    ensures r.id == p.id && r.utilityEquipRules == p.utilityEquipRules
    ensures r.name == f.name && r.capacity == f.capacity && r.utilitySlots == f.utilitySlots
    ensures r.weaponModifier == f.weaponModifier && r.armorModifier == f.armorModifier
    ensures r.clothingModifier == f.clothingModifier && r.jewelryModifier == f.jewelryModifier
    ensures r.description == Some(f.description)
  {
    p.(name := f.name, capacity := f.capacity, utilitySlots := f.utilitySlots,
       weaponModifier := f.weaponModifier, armorModifier := f.armorModifier,
       clothingModifier := f.clothingModifier, jewelryModifier := f.jewelryModifier,
       description := Some(f.description))
  }

  /** `handleUpdatePack`: the packs with this id take the fields; the others are kept. */
  function UpdatePack(s: Screen, packId: string, f: PackTypeFields): (r: Screen)
    ensures |r.customPackTypes| == |s.customPackTypes|
    ensures forall k :: 0 <= k < |s.customPackTypes| ==>
              r.customPackTypes[k] == if s.customPackTypes[k].id == packId
                                      then ApplyPackFields(s.customPackTypes[k], f)
                                      else s.customPackTypes[k]
    ensures r == s.(customPackTypes := r.customPackTypes)
  {
    s.(customPackTypes := IdLists.Update(s.customPackTypes, PackKey, packId, (p: PackType) => ApplyPackFields(p, f)))
  }

  /** With unique ids, updating pack `k` rewrites it alone, so ids stay unique. */
  lemma UpdatePackUnique(s: Screen, k: int, f: PackTypeFields)
    requires IdLists.UniqueKeys(s.customPackTypes, PackKey) && 0 <= k < |s.customPackTypes|
    ensures UpdatePack(s, s.customPackTypes[k].id, f).customPackTypes ==
            s.customPackTypes[k := ApplyPackFields(s.customPackTypes[k], f)]
    ensures IdLists.UniqueKeys(UpdatePack(s, s.customPackTypes[k].id, f).customPackTypes, PackKey)
  {
    var ps := s.customPackTypes;
    assert PackKey(ps[k]) == ps[k].id;
    IdLists.UpdateUnique(ps, PackKey, k, (p: PackType) => ApplyPackFields(p, f));
    var r := UpdatePack(s, ps[k].id, f).customPackTypes;
    forall i, j | 0 <= i < j < |r| ensures PackKey(r[i]) != PackKey(r[j]) {
      assert PackKey(r[i]) == PackKey(ps[i]) && PackKey(r[j]) == PackKey(ps[j]);
    }
  }

  /** `handleDeletePack` (once confirmed): drop the packs with this id. */
  function DeletePack(s: Screen, packId: string): (r: Screen)
    ensures !IdLists.HasKey(r.customPackTypes, PackKey, packId)
    ensures forall k :: 0 <= k < |s.customPackTypes| && s.customPackTypes[k].id != packId ==>
              s.customPackTypes[k] in r.customPackTypes
    ensures forall p :: p in r.customPackTypes ==> p in s.customPackTypes
    ensures r == s.(customPackTypes := r.customPackTypes)
  {
    s.(customPackTypes := IdLists.Remove(s.customPackTypes, PackKey, packId))
  }

  /** Adding a pack and deleting it again restores the pack list; with unique ids, deleting pack `k` removes it alone. */
  lemma PackAddDelete(s: Screen, newId: string, k: int)
    requires !IdLists.HasKey(s.customPackTypes, PackKey, newId)
    ensures DeletePack(AddPack(s, newId), newId).customPackTypes == s.customPackTypes
    ensures IdLists.UniqueKeys(s.customPackTypes, PackKey) && 0 <= k < |s.customPackTypes| ==>
              DeletePack(s, s.customPackTypes[k].id).customPackTypes == s.customPackTypes[..k] + s.customPackTypes[k + 1..]
  {
    var p := NewPackType(newId);
    assert PackKey(p) == newId;
    IdLists.AppendThenRemove(s.customPackTypes, p, PackKey);
    if IdLists.UniqueKeys(s.customPackTypes, PackKey) && 0 <= k < |s.customPackTypes| {
      assert PackKey(s.customPackTypes[k]) == s.customPackTypes[k].id;
      IdLists.RemoveUnique(s.customPackTypes, PackKey, k);
    }
  }

  /** The pack editor's initial fields: the pack's own, an absent description read as "". */
  function InitPackForm(p: PackType): (f: PackTypeFields)
    ensures f.name == p.name && f.capacity == p.capacity && f.utilitySlots == p.utilitySlots
    ensures f.weaponModifier == p.weaponModifier && f.armorModifier == p.armorModifier
    ensures f.clothingModifier == p.clothingModifier && f.jewelryModifier == p.jewelryModifier
    ensures f.description == p.description.GetOr("")
  {
    PackTypeFields(p.name, p.capacity, p.utilitySlots, p.weaponModifier, p.armorModifier,
                   p.clothingModifier, p.jewelryModifier, p.description.GetOr(""))
  }

  /** The pack editor's `handleSubmit`: a blank name is refused, anything else is saved as entered. */
  function SubmitPackForm(f: PackTypeFields): (r: Result<PackTypeFields, FormError>)
    ensures r.Err? <==> Text.IsBlank(f.name)
    ensures r.Err? ==> r.error == BlankName
    ensures r.Ok? ==> r.value == f
  {
    if Text.IsBlank(f.name) then Err(BlankName) else Ok(f)
  }

  /** The editor's `onSave`: apply the submitted fields to the pack being edited and close the editor. */
  function SavePackEditor(s: Screen, f: PackTypeFields): (r: Screen)
    requires s.editingPack.Some?
    ensures Text.IsBlank(f.name) ==> r == s
    ensures !Text.IsBlank(f.name) ==> r == UpdatePack(s, s.editingPack.value.id, f).(editingPack := None)
  {
    match SubmitPackForm(f)
    case Err(_) => s
    case Ok(fields) => UpdatePack(s, s.editingPack.value.id, fields).(editingPack := None)
  }

  /** Saving the editor unchanged keeps a named pack with a description as it was. */
  lemma EditPackWithoutChanges(p: PackType)
    requires !Text.IsBlank(p.name) && p.description.Some?
    ensures SubmitPackForm(InitPackForm(p)) == Ok(InitPackForm(p))
    ensures ApplyPackFields(p, InitPackForm(p)) == p
  {
  }

  /** The storage type a new custom entry starts as. */
  function NewStorageType(id: string): (t: StorageType)
    ensures t.id == id && t.name == "New Storage Type" && t.description == Some("")
    ensures t.capacity == 100 && t.weaponSlots == 0 && t.armorSlots == 0 && t.coinCapacity == 100
  {
    StorageType(id, "New Storage Type", 100, 0, 0, 100, Some(""))
  }

  /** `handleAddStorage`: append a new storage type under a fresh id and open it in the editor. */
  function AddStorageType(s: Screen, newId: string): (r: Screen)
    requires !IdLists.HasKey(s.customStorageTypes, StorageTypeKey, newId)
    ensures r.customStorageTypes == s.customStorageTypes + [NewStorageType(newId)]
    ensures r.editingStorage == Some(NewStorageType(newId))
    ensures r == s.(customStorageTypes := r.customStorageTypes, editingStorage := r.editingStorage)
  {
    s.(customStorageTypes := s.customStorageTypes + [NewStorageType(newId)], editingStorage := Some(NewStorageType(newId)))
  }

  /** What the storage-type editor saves: every field but the id. */
  datatype StorageTypeFields = StorageTypeFields(
    name: string,
    capacity: int,
    weaponSlots: int,
    armorSlots: int,
    coinCapacity: int,
    description: string)

  /** `{ ...t, ...updates }` with the editor's fields. */
  function ApplyStorageTypeFields(t: StorageType, f: StorageTypeFields): (r: StorageType)
    ensures r.id == t.id
    ensures r.name == f.name && r.capacity == f.capacity && r.weaponSlots == f.weaponSlots
    ensures r.armorSlots == f.armorSlots && r.coinCapacity == f.coinCapacity
    ensures r.description == Some(f.description)
  {
    StorageType(t.id, f.name, f.capacity, f.weaponSlots, f.armorSlots, f.coinCapacity, Some(f.description))
  }

  /** `handleUpdateStorage`: the storage types with this id take the fields; the others are kept. */
  function UpdateStorageType(s: Screen, typeId: string, f: StorageTypeFields): (r: Screen)
    ensures |r.customStorageTypes| == |s.customStorageTypes|
    ensures forall k :: 0 <= k < |s.customStorageTypes| ==>
              r.customStorageTypes[k] == if s.customStorageTypes[k].id == typeId
                                         then ApplyStorageTypeFields(s.customStorageTypes[k], f)
                                         else s.customStorageTypes[k]
    ensures r == s.(customStorageTypes := r.customStorageTypes)
  {
    s.(customStorageTypes := IdLists.Update(s.customStorageTypes, StorageTypeKey, typeId,
                                            (t: StorageType) => ApplyStorageTypeFields(t, f)))
  }

  /** `handleDeleteStorage` (once confirmed): drop the storage types with this id. */
  function DeleteStorageType(s: Screen, typeId: string): (r: Screen)
    ensures !IdLists.HasKey(r.customStorageTypes, StorageTypeKey, typeId)
    ensures forall k :: 0 <= k < |s.customStorageTypes| && s.customStorageTypes[k].id != typeId ==>
              s.customStorageTypes[k] in r.customStorageTypes
    ensures forall t :: t in r.customStorageTypes ==> t in s.customStorageTypes
    ensures r == s.(customStorageTypes := r.customStorageTypes)
  {
    s.(customStorageTypes := IdLists.Remove(s.customStorageTypes, StorageTypeKey, typeId))
  }

  /** Adding a storage type and deleting it again restores the list; with unique ids, deleting entry `k` removes it alone. */
  lemma StorageTypeAddDelete(s: Screen, newId: string, k: int)
    requires !IdLists.HasKey(s.customStorageTypes, StorageTypeKey, newId)
    ensures DeleteStorageType(AddStorageType(s, newId), newId).customStorageTypes == s.customStorageTypes
    ensures IdLists.UniqueKeys(s.customStorageTypes, StorageTypeKey) && 0 <= k < |s.customStorageTypes| ==>
              DeleteStorageType(s, s.customStorageTypes[k].id).customStorageTypes ==
              s.customStorageTypes[..k] + s.customStorageTypes[k + 1..]
  {
    var t := NewStorageType(newId);
    assert StorageTypeKey(t) == newId;
    IdLists.AppendThenRemove(s.customStorageTypes, t, StorageTypeKey);
    if IdLists.UniqueKeys(s.customStorageTypes, StorageTypeKey) && 0 <= k < |s.customStorageTypes| {
      assert StorageTypeKey(s.customStorageTypes[k]) == s.customStorageTypes[k].id;
      IdLists.RemoveUnique(s.customStorageTypes, StorageTypeKey, k);
    }
  }

  /** The storage-type editor's initial fields: the type's own, an absent description read as "". */
  function InitStorageTypeForm(t: StorageType): (f: StorageTypeFields)
    ensures f.name == t.name && f.capacity == t.capacity && f.weaponSlots == t.weaponSlots
    ensures f.armorSlots == t.armorSlots && f.coinCapacity == t.coinCapacity
    ensures f.description == t.description.GetOr("")
  {
    StorageTypeFields(t.name, t.capacity, t.weaponSlots, t.armorSlots, t.coinCapacity, t.description.GetOr(""))
  }

  /** The storage-type editor's `handleSubmit`: a blank name is refused, anything else is saved as entered. */
  function SubmitStorageTypeForm(f: StorageTypeFields): (r: Result<StorageTypeFields, FormError>)
    ensures r.Err? <==> Text.IsBlank(f.name)
    ensures r.Err? ==> r.error == BlankName
    ensures r.Ok? ==> r.value == f
  {
    if Text.IsBlank(f.name) then Err(BlankName) else Ok(f)
  }

  /** The editor's `onSave`: apply the submitted fields to the storage type being edited and close the editor. */
  function SaveStorageTypeEditor(s: Screen, f: StorageTypeFields): (r: Screen)
    requires s.editingStorage.Some?
    ensures Text.IsBlank(f.name) ==> r == s
    ensures !Text.IsBlank(f.name) ==> r == UpdateStorageType(s, s.editingStorage.value.id, f).(editingStorage := None)
  {
    match SubmitStorageTypeForm(f)
    case Err(_) => s
    case Ok(fields) => UpdateStorageType(s, s.editingStorage.value.id, fields).(editingStorage := None)
  }

  /** Saving the editor unchanged keeps a named storage type with a description as it was. */
  lemma EditStorageTypeWithoutChanges(t: StorageType)
    requires !Text.IsBlank(t.name) && t.description.Some?
    ensures SubmitStorageTypeForm(InitStorageTypeForm(t)) == Ok(InitStorageTypeForm(t))
    ensures ApplyStorageTypeFields(t, InitStorageTypeForm(t)) == t
  {
  }

  /** `coinNames[coin]`. */
  function CoinName(names: CoinNames, d: Coins.Denomination): string {
    match d
    case Copper => names.copper
    case Silver => names.silver
    case Gold => names.gold
    case Platinum => names.platinum
  }

  /** `setCoinNames({ ...coinNames, [coin]: value })`: one name replaced, the others kept. */
  function SetCoinName(s: Screen, d: Coins.Denomination, value: string): (r: Screen)
    ensures CoinName(r.coinNames, d) == value
    ensures forall e :: e != d ==> CoinName(r.coinNames, e) == CoinName(s.coinNames, e)
    ensures r == s.(coinNames := r.coinNames)
  {
    var n := s.coinNames;
    s.(coinNames := match d
                    case Copper => n.(copper := value)
                    case Silver => n.(silver := value)
                    case Gold => n.(gold := value)
                    case Platinum => n.(platinum := value))
  }
}
