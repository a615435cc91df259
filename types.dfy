/**
 * The domain data: item categories and their default unit weights, the
 * records an inventory is built from, the built-in pack and storage
 * archetypes, and the rule constants.
 */
module Types {
  import opened Wrappers

  /** The closed set of item categories. */
  datatype Category =
    | Other | Large | Massive | ToolKit | LightArmor | MediumArmor | HeavyArmor
    | Consumable | Instrument | OneHandedWeapon | TwoHandedWeapon | Clothing
    | LightAmmunition | Ammunition | Jewelry | Shield | MagicItem | Literature | Camp

  /** The category's string value, as stored and as searched. */
  function CategoryLabel(c: Category): string {
    match c
    case Other => "other"
    case Large => "large"
    case Massive => "massive"
    case ToolKit => "tool/kit"
    case LightArmor => "light-armor"
    case MediumArmor => "medium-armor"
    case HeavyArmor => "heavy-armor"
    case Consumable => "consumable"
    case Instrument => "instrument"
    case OneHandedWeapon => "one-handed-weapon"
    case TwoHandedWeapon => "two-handed-weapon"
    case Clothing => "clothing"
    case LightAmmunition => "light-ammunition"
    case Ammunition => "ammunition"
    case Jewelry => "jewelry"
    case Shield => "shield"
    case MagicItem => "magic-item"
    case Literature => "literature"
    case Camp => "camp"
  }

  /** `ITEM_CATEGORY_WEIGHTS`: the default weight of one unit, in load units; never zero or negative. */
  function CategoryWeight(c: Category): (w: real)
    ensures w > 0.0
    ensures w >= 0.05
  {
    match c
    case Other => 1.0
    case Large => 10.0
    case Massive => 50.0
    case ToolKit => 2.0
    case LightArmor => 5.0
    case MediumArmor => 8.0
    case HeavyArmor => 12.0
    case Consumable => 1.0
    case Instrument => 2.0
    case OneHandedWeapon => 2.0
    case TwoHandedWeapon => 4.0
    case Clothing => 3.0
    case LightAmmunition => 0.05
    case Ammunition => 0.1
    case Jewelry => 1.0
    case Shield => 3.0
    case MagicItem => 2.0
    case Literature => 1.0
    case Camp => 3.0
  }

  /** The category a stored or selected label names (`value as ItemCategory`), if any. */
  function ParseCategory(s: string): Option<Category> {
    if s == "other" then Some(Other)
    else if s == "large" then Some(Large)
    else if s == "massive" then Some(Massive)
    else if s == "tool/kit" then Some(ToolKit)
    else if s == "light-armor" then Some(LightArmor)
    else if s == "medium-armor" then Some(MediumArmor)
    else if s == "heavy-armor" then Some(HeavyArmor)
    else if s == "consumable" then Some(Consumable)
    else if s == "instrument" then Some(Instrument)
    else if s == "one-handed-weapon" then Some(OneHandedWeapon)
    else if s == "two-handed-weapon" then Some(TwoHandedWeapon)
    else if s == "clothing" then Some(Clothing)
    else if s == "light-ammunition" then Some(LightAmmunition)
    else if s == "ammunition" then Some(Ammunition)
    else if s == "jewelry" then Some(Jewelry)
    else if s == "shield" then Some(Shield)
    else if s == "magic-item" then Some(MagicItem)
    else if s == "literature" then Some(Literature)
    else if s == "camp" then Some(Camp)
    else None
  }

  /** Parsing a category's label gives the category back, so distinct categories have distinct labels. */
  lemma CategoryLabelRoundTrip(c: Category)
    ensures ParseCategory(CategoryLabel(c)) == Some(c)
  {
  }

  lemma CategoryLabelsDistinct(c: Category, d: Category)
    ensures c != d ==> CategoryLabel(c) != CategoryLabel(d)
  {
    CategoryLabelRoundTrip(c);
    CategoryLabelRoundTrip(d);
  }

  /** A carried item (a stack of `quantity` units). `weight <= 0` means "use the category default". */
  datatype Item = Item(
    id: string,
    name: string,
    category: Category,
    quantity: int,
    weight: real,
    requiresAttunement: bool,
    isAttuned: bool,
    description: Option<string>,
    value: Option<int>,
    uses: Option<int>)

  function ItemKey(i: Item): string { i.id }

  datatype SlotType = WeaponSlot | ArmorSlot | ClothingSlot | JewelrySlot | UtilitySlot

  /** The number of slots of each type a pack grants. */
  datatype EquipmentSlots = EquipmentSlots(weapon: int, armor: int, clothing: int, jewelry: int, utility: int)

  function SlotCount(slots: EquipmentSlots, t: SlotType): int {
    match t
    case WeaponSlot => slots.weapon
    case ArmorSlot => slots.armor
    case ClothingSlot => slots.clothing
    case JewelrySlot => slots.jewelry
    case UtilitySlot => slots.utility
  }

  datatype PackType = PackType(
    id: string,
    name: string,
    capacity: int,
    utilitySlots: int,
    weaponModifier: int,
    armorModifier: int,
    clothingModifier: int,
    jewelryModifier: int,
    utilityEquipRules: seq<Category>,
    description: Option<string>)

  function PackKey(p: PackType): string { p.id }

  datatype Currency = Currency(copper: int, silver: int, gold: int, platinum: int)

  const NO_COINS := Currency(0, 0, 0, 0)

  datatype CoinNames = CoinNames(copper: string, silver: string, gold: string, platinum: string)

  const COIN_NAMES_DEFAULT := CoinNames("Copper", "Silver", "Gold", "Platinum")

  /** A currency-only remote store (a bank, say). */
  datatype Vault = Vault(id: string, name: string, location: string, currency: Currency, notes: Option<string>, nearby: bool)

  function VaultKey(v: Vault): string { v.id }

  /** `coinCapacity == -1` means unlimited. */
  datatype StorageType = StorageType(
    id: string,
    name: string,
    capacity: int,
    weaponSlots: int,
    armorSlots: int,
    coinCapacity: int,
    description: Option<string>)

  function StorageTypeKey(t: StorageType): string { t.id }

  /** One slot holds an item id (`Some`) or nothing (`null`, `None`). */
  type SlotEntry = Option<string>

  datatype EquippedItems = EquippedItems(
    weapon: seq<SlotEntry>,
    armor: seq<SlotEntry>,
    clothing: seq<SlotEntry>,
    jewelry: seq<SlotEntry>,
    utility: seq<SlotEntry>)

  /** `equipped[slotType]`. */
  function SlotArray(e: EquippedItems, t: SlotType): seq<SlotEntry> {
    match t
    case WeaponSlot => e.weapon
    case ArmorSlot => e.armor
    case ClothingSlot => e.clothing
    case JewelrySlot => e.jewelry
    case UtilitySlot => e.utility
  }

  /** `{ ...equipped, [slotType]: arr }`: only that slot array is replaced. */
  function WithSlotArray(e: EquippedItems, t: SlotType, arr: seq<SlotEntry>): (r: EquippedItems)
    ensures SlotArray(r, t) == arr
    ensures forall u :: u != t ==> SlotArray(r, u) == SlotArray(e, u)
  {
    match t
    case WeaponSlot => e.(weapon := arr)
    case ArmorSlot => e.(armor := arr)
    case ClothingSlot => e.(clothing := arr)
    case JewelrySlot => e.(jewelry := arr)
    case UtilitySlot => e.(utility := arr)
  }

  /** A character's (or a storage's) inventory. An external storage owns a whole nested inventory. */
  datatype Inventory = Inventory(
    items: seq<Item>,
    equipped: EquippedItems,
    currency: Currency,
    packTypeId: string,
    vaults: seq<Vault>,
    externalStorages: seq<ExternalStorage>)

  datatype ExternalStorage = ExternalStorage(
    id: string,
    name: string,
    description: string,
    storageTypeId: string,
    inventory: Inventory,
    nearby: bool)

  function StorageKey(s: ExternalStorage): string { s.id }

  datatype CustomCategory = CustomCategory(category: Category, weight: real)

  /** The configurator's customisations, shared by every character in a session. */
  datatype DMConfig = DMConfig(
    customPackTypes: seq<PackType>,
    customExternalStorageTypes: seq<StorageType>,
    customCategories: seq<CustomCategory>,
    coinNames: CoinNames,
    favorites: seq<string>,
    notes: string)

  /** Why a form refused to save: the `alert` it raises instead. */
  datatype FormError = BlankName | BlankLocation | BlankDescription

  const BASE_EQUIPMENT_SLOTS := EquipmentSlots(4, 4, 4, 4, 0)
  const MAX_ATTUNED_ITEMS := 3
  const COIN_CARRY_CAP := 40
  const COIN_WEIGHT_THRESHOLD := 30
  const COIN_WEIGHT_PENALTY_PER_10 := 1
  const CAMP_ITEM_MAX_USES := 15
  const UTILITY_PACK_ID := "utility-pack"
  const STANDARD_PACK_ID := "standard-pack"

  /** The rule constants relate as the rules need: the carry cap lies above the weight threshold. */
  lemma ConstantsAgree()
    ensures COIN_CARRY_CAP > COIN_WEIGHT_THRESHOLD > 0
    ensures MAX_ATTUNED_ITEMS == 3 && CAMP_ITEM_MAX_USES == 15
    ensures BASE_EQUIPMENT_SLOTS.utility == 0
    ensures BASE_EQUIPMENT_SLOTS.weapon == BASE_EQUIPMENT_SLOTS.armor == BASE_EQUIPMENT_SLOTS.clothing == BASE_EQUIPMENT_SLOTS.jewelry == 4
  {
  }

  function Pack(id: string, name: string, capacity: int, utilitySlots: int, weapon: int, armor: int, clothing: int, rules: seq<Category>): PackType {
    PackType(id, name, capacity, utilitySlots, weapon, armor, clothing, 0, rules, None)
  }

  /** Every entry's modifiers are at least -3, so 4 plus a modifier is at least 1. */
  predicate ModifiersAboveMinusFour(p: PackType) {
    p.weaponModifier >= -3 && p.armorModifier >= -3 && p.clothingModifier >= -3 && p.jewelryModifier >= -3
  }

  /** `DEFAULT_PACK_TYPES`, in their order. */
  function DefaultPackTypes(): (r: seq<PackType>)
    ensures |r| == 10
    ensures r[2].id == STANDARD_PACK_ID
    ensures r[9].id == UTILITY_PACK_ID && r[9].utilityEquipRules == []
    ensures forall k :: 0 <= k < |r| ==> r[k].capacity >= 0 && r[k].utilitySlots >= 0 && ModifiersAboveMinusFour(r[k])
  {
    [ Pack("npc-pack", "NPC Pack", 100, 0, 0, 0, 0, []),
      Pack("simple-pack", "Simple Pack", 25, 3, 0, 0, 0, []),
      Pack(STANDARD_PACK_ID, "Standard Pack", 55, 4, 0, 0, 0, []),
      Pack("warrior-pack", "Warrior Pack", 30, 6, 0, 1, 0, [OneHandedWeapon]),
      Pack("explorer-pack", "Explorer Pack", 30, 6, 0, 0, 1, [ToolKit]),
      Pack("tinkerer-pack", "Tinkerer's Pack", 20, 10, 0, 0, 0, [ToolKit]),
      Pack("travel-pack", "Travel Pack", 35, 8, -2, 0, 0, [Camp]),
      Pack("shadow-pack", "Shadow Pack", 15, 10, 0, -2, 0, [ToolKit, OneHandedWeapon]),
      Pack("mule-pack", "Mule's Pack", 150, 1, -3, -3, 0, []),
      Pack(UTILITY_PACK_ID, "Utility Pack", 10, 14, 0, 0, 0, []) ]
  }

  /** The built-in pack ids are pairwise distinct. */
  lemma DefaultPackIdsDistinct()
    ensures UniqueIds(DefaultPackTypes())
  {
    var r := DefaultPackTypes();
    // The ids differ at their first character, or else at the second.
    forall i, j | 0 <= i < j < |r| ensures r[i].id != r[j].id {
      assert r[i].id[0] != r[j].id[0] || r[i].id[1] != r[j].id[1];
    }
  }

  predicate UniqueIds(ps: seq<PackType>) {
    forall i, j :: 0 <= i < j < |ps| ==> ps[i].id != ps[j].id
  }

  function Storage(id: string, name: string, capacity: int, weaponSlots: int, armorSlots: int, coinCapacity: int): StorageType {
    StorageType(id, name, capacity, weaponSlots, armorSlots, coinCapacity, None)
  }

  /** `DEFAULT_EXTERNAL_STORAGE_TYPES`, in their order. */
  function DefaultStorageTypes(): (r: seq<StorageType>)
    ensures |r| == 10
    ensures forall k :: 0 <= k < |r| ==> r[k].coinCapacity == -1 || r[k].coinCapacity > 0
    ensures forall k :: 0 <= k < |r| ==> r[k].capacity > 0 && r[k].weaponSlots >= 0 && r[k].armorSlots >= 0
  {
    [ Storage("small-pet", "Small Pet", 20, 2, 2, 20),
      Storage("large-pet", "Large Pet", 100, 2, 4, 100),
      Storage("standard-mount", "Standard Mount", 150, 0, 2, 200),
      Storage("large-mount", "Large Mount", 250, 0, 4, 500),
      Storage("small-cart", "Small Cart", 300, 0, 0, 1000),
      Storage("large-cart", "Large Cart", 500, 0, 0, 2000),
      Storage("boat", "Boat", 500, 0, 0, 2000),
      Storage("ship", "Ship", 2000, 0, 0, -1),
      Storage("house", "House", 1000, 0, 0, -1),
      Storage("warehouse", "Warehouse", 2000, 0, 0, -1) ]
  }

  /** The built-in storage type ids are pairwise distinct. */
  lemma DefaultStorageIdsDistinct()
    ensures forall i, j :: 0 <= i < j < |DefaultStorageTypes()| ==> DefaultStorageTypes()[i].id != DefaultStorageTypes()[j].id
  {
    var r := DefaultStorageTypes();
    forall i, j | 0 <= i < j < |r| ensures r[i].id != r[j].id {
      assert |r[i].id| != |r[j].id| || r[i].id[0] != r[j].id[0] || r[i].id[1] != r[j].id[1] || r[i].id[6] != r[j].id[6];
    }
  }
}
