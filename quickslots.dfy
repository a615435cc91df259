/**
 * The quick-slots tab: equipping the pack's utility slots, the items a
 * utility slot accepts, and how many utility slots are offered.
 */
module QuickSlots {
  import opened Types
  import Filters
  import Calculations
  import Pack
  import Body

  /** `handleEquip(slotIndex, itemId)` on the utility array: only `equipped.utility` changes. */
  method EquipUtility(inv: Inventory, packTypes: seq<PackType>, slotIndex: nat, itemId: SlotEntry)
    returns (r: Inventory)
    requires |packTypes| > 0
    ensures var slots := Calculations.GetEquipmentSlots(Pack.CurrentPack(packTypes, inv.packTypeId));
      r == inv.(equipped := inv.equipped.(utility := Body.Equipped(inv.equipped.utility, slots.utility, slotIndex, itemId)))
    ensures |r.equipped.utility| >= Pack.CurrentPack(packTypes, inv.packTypeId).utilitySlots
    ensures r.equipped.utility[slotIndex] == itemId
    ensures forall t :: t != UtilitySlot ==> SlotArray(r.equipped, t) == SlotArray(inv.equipped, t)
  {
    var currentPack := Pack.CurrentPack(packTypes, inv.packTypeId);
    var slots := Calculations.GetEquipmentSlots(currentPack);
    var slotArray := Body.PadAndWrite(inv.equipped.utility, slots.utility, slotIndex, itemId);
    r := inv.(equipped := inv.equipped.(utility := slotArray));
  }

  /** `getEquippableItems()`: the items the current pack lets into a utility slot, in order. */
  function UtilityChoices(items: seq<Item>, p: PackType): (r: seq<Item>)
    ensures forall x :: x in r <==> x in items && Calculations.CanEquipToUtilitySlot(x, p)
  {
    Filters.Filter(items, (x: Item) => Calculations.CanEquipToUtilitySlot(x, p))
  }

  /** In the utility pack, exactly the items lighter than 2 per unit are offered. */
  lemma UtilityPackChoices(items: seq<Item>, p: PackType, x: Item)
    requires p.id == UTILITY_PACK_ID
    ensures x in UtilityChoices(items, p) <==> x in items && Calculations.UnitWeight(x) < 2.0
  {
  }

  /** The number of utility slots shown: the pack's `utilitySlots`, with no clamping (a negative count shows none). */
  function UtilitySlotCount(packTypes: seq<PackType>, packTypeId: string): (n: int)
    requires |packTypes| > 0
    ensures n == Pack.CurrentPack(packTypes, packTypeId).utilitySlots
  {
    Calculations.GetEquipmentSlots(Pack.CurrentPack(packTypes, packTypeId)).utility
  }

  /** The utility slots shown, one entry per slot. */
  function RenderedUtilitySlots(inv: Inventory, packTypes: seq<PackType>): (r: seq<Wrappers.Option<Item>>)
    requires |packTypes| > 0
    ensures |r| == if UtilitySlotCount(packTypes, inv.packTypeId) < 0 then 0 else UtilitySlotCount(packTypes, inv.packTypeId)
  {
    Body.RenderedSlots(inv.items, inv.equipped.utility, UtilitySlotCount(packTypes, inv.packTypeId))
  }
}
