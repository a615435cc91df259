/**
 * The body tab: equipping and unequipping the body slots, the items offered
 * for each slot, what each slot shows, and the over-attunement warning.
 * The tab renders only the armor, clothing and jewelry slots; its equip
 * handler also accepts the weapon array, but nothing on the tab calls it so.
 */
module Body {
  import opened Wrappers
  import opened Types
  import IdLists
  import Filters
  import Calculations
  import Pack

  /** `n` empty slots (`null`, or the holes an out-of-range write leaves). */
  function Holes(n: nat): (r: seq<SlotEntry>)
    ensures |r| == n && forall i :: 0 <= i < n ==> r[i].None?
  {
    seq(n, _ => None)
  }

  /** A slot array grown with empty slots up to `count` entries; a longer array is kept as it is. */
  function Padded(arr: seq<SlotEntry>, count: int): (r: seq<SlotEntry>)
    ensures |r| == if |arr| >= count then |arr| else count
    ensures r[..|arr|] == arr
    ensures forall i :: |arr| <= i < |r| ==> r[i].None?
  {
    if |arr| >= count then arr else arr + Holes(count - |arr|)
  }

  /**
   * `arr[index] = entry` on a JavaScript array: inside the array it overwrites one entry;
   * past the end it grows the array, leaving empty holes before the new entry.
   */
  function WriteSlot(arr: seq<SlotEntry>, index: nat, entry: SlotEntry): (r: seq<SlotEntry>)
    ensures |r| == if index < |arr| then |arr| else index + 1
    ensures r[index] == entry
    ensures forall i :: 0 <= i < |arr| && i != index ==> r[i] == arr[i]
    ensures forall i :: |arr| <= i < |r| && i != index ==> r[i].None?
  {
    if index < |arr| then arr[index := entry] else arr + Holes(index - |arr|) + [entry]
  }

  /** The slot array after `handleEquip`: padded to the slot count, then written at one index. */
  function Equipped(arr: seq<SlotEntry>, count: int, index: nat, entry: SlotEntry): (r: seq<SlotEntry>)
    ensures |r| >= |arr| && |r| >= count && |r| > index
    ensures r[index] == entry
    ensures forall i :: 0 <= i < |arr| && i != index ==> r[i] == arr[i]
    ensures forall i :: |arr| <= i < |r| && i != index ==> r[i].None?
  {
    WriteSlot(Padded(arr, count), index, entry)
  }

  /** The padding loop and the write of `handleEquip`, on a copy of one slot array. */
  method PadAndWrite(arr: seq<SlotEntry>, count: int, index: nat, entry: SlotEntry) returns (slotArray: seq<SlotEntry>)
    ensures slotArray == Equipped(arr, count, index, entry)
  {
    slotArray := arr;
    while |slotArray| < count
      invariant |arr| <= |slotArray|
      invariant slotArray == arr + Holes(|slotArray| - |arr|)
      invariant |arr| < count ==> |slotArray| <= count
      invariant |arr| >= count ==> slotArray == arr
      decreases count - |slotArray|
    {
      assert Holes(|slotArray| - |arr|) + [None] == Holes(|slotArray| + 1 - |arr|);
      slotArray := slotArray + [None];
    }
    assert slotArray == Padded(arr, count);
    if index < |slotArray| {
      slotArray := slotArray[index := entry];
    } else {
      slotArray := slotArray + Holes(index - |slotArray|) + [entry];
    }
  }

  /** The slot types this tab manages; the utility slots have their own tab. */
  predicate IsBodySlot(t: SlotType) {
    t != UtilitySlot
  }

  /** `handleEquip(slotType, slotIndex, itemId)`: only `equipped[slotType]` changes. */
  method Equip(inv: Inventory, packTypes: seq<PackType>, t: SlotType, slotIndex: nat, itemId: SlotEntry)
    returns (r: Inventory)
    requires |packTypes| > 0 && IsBodySlot(t)
    ensures var slots := Calculations.GetEquipmentSlots(Pack.CurrentPack(packTypes, inv.packTypeId));
      r == inv.(equipped := WithSlotArray(inv.equipped, t,
                               Equipped(SlotArray(inv.equipped, t), SlotCount(slots, t), slotIndex, itemId)))
    ensures SlotArray(r.equipped, t)[slotIndex] == itemId
    ensures forall u :: u != t ==> SlotArray(r.equipped, u) == SlotArray(inv.equipped, u)
  {
    var currentPack := Pack.CurrentPack(packTypes, inv.packTypeId);
    var slots := Calculations.GetEquipmentSlots(currentPack);
    var slotArray := PadAndWrite(SlotArray(inv.equipped, t), SlotCount(slots, t), slotIndex, itemId);
    r := inv.(equipped := WithSlotArray(inv.equipped, t, slotArray));
  }

  /** The selector's value: the empty option (`""`) unequips. */
  function Choice(value: string): (e: SlotEntry)
    ensures e.None? <==> value == ""
    ensures e.Some? ==> e.value == value
  {
    if value == "" then None else Some(value)
  }

  /** Equipping then unequipping the same slot leaves that slot empty and every other slot as equipping left it. */
  lemma EquipThenUnequip(arr: seq<SlotEntry>, count: int, index: nat, id: string)
    ensures var once := Equipped(arr, count, index, Some(id));
      Equipped(once, count, index, None) == once[index := None]
  {
  }

  /** `getEquippableItems(slotType)`: the items `canEquipItem` admits to that slot type, in order. */
  function EquippableItems(items: seq<Item>, t: SlotType): (r: seq<Item>)
    ensures forall x :: x in r <==> x in items && Calculations.CanEquipItem(x, t)
  {
    Filters.Filter(items, (x: Item) => Calculations.CanEquipItem(x, t))
  }

  /** No item is offered to two different body slot types. */
  lemma OfferedToOneBodySlot(items: seq<Item>, x: Item, t: SlotType, u: SlotType)
    requires IsBodySlot(t) && IsBodySlot(u) && t != u
    ensures !(x in EquippableItems(items, t) && x in EquippableItems(items, u))
  {
    Calculations.AtMostOneBodySlot(x, t, u);
  }

  /** What slot `i` shows: the first item with the stored id, or nothing for a missing index, `null`, `""` or a dangling id. */
  function SlotItem(items: seq<Item>, arr: seq<SlotEntry>, i: int): (r: Option<Item>)
    ensures (i < 0 || i >= |arr| || arr[i].None?) ==> r.None?
    ensures 0 <= i < |arr| && arr[i].Some? ==>
              r == (if arr[i].value == "" then None else IdLists.Find(items, ItemKey, arr[i].value))
    ensures r.Some? ==> r.value in items && r.value.id == arr[i].value
  {
    if 0 <= i < |arr| && arr[i].Some? && arr[i].value != "" then
      var found := IdLists.Find(items, ItemKey, arr[i].value);
      if found.Some? then
        assert found.value in items && ItemKey(found.value) == arr[i].value;
        found
      else None
    else None
  }

  /** `renderSlots`: one shown entry per slot, `count` of them (none for a negative count). */
  function RenderedSlots(items: seq<Item>, arr: seq<SlotEntry>, count: int): (r: seq<Option<Item>>)
    ensures |r| == if count < 0 then 0 else count
    ensures forall i :: 0 <= i < |r| ==> r[i] == SlotItem(items, arr, i)
  {
    seq(if count < 0 then 0 else count, i => SlotItem(items, arr, i))
  }

  /** After equipping an item that is in the pack, its slot shows an item with that id. */
  lemma EquippedItemShows(items: seq<Item>, arr: seq<SlotEntry>, count: int, index: nat, k: int)
    requires 0 <= k < |items| && items[k].id != ""
    ensures var shown := SlotItem(items, Equipped(arr, count, index, Some(items[k].id)), index);
      shown.Some? && shown.value.id == items[k].id
  {
    assert ItemKey(items[k]) == items[k].id;
  }

  /** The warning shown when more items are attuned than allowed; nothing stops it from happening. */
  predicate OverAttuned(items: seq<Item>) {
    Calculations.CountAttuned(items) > MAX_ATTUNED_ITEMS
  }

  /** Four attuned items raise the warning; three do not. */
  lemma OverAttunedExamples(items: seq<Item>)
    requires |items| == 4 && forall k :: 0 <= k < 4 ==> items[k].isAttuned
    ensures OverAttuned(items)
    ensures !OverAttuned(items[..3])
  {
  }
}
