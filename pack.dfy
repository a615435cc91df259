/**
 * The pack tab: which pack the character carries, the item filter, and the
 * item handlers (add, update, delete, sell, use, category change) together
 * with the item form's initial state and its normalisation on save.
 */
module Pack {
  import opened Wrappers
  import opened Types
  import Text
  import IdLists
  import ItemSearch
  import Calculations
  import Filters

  /** `packTypes.find(p => p.id === id) || packTypes[0]`. */
  function CurrentPack(packTypes: seq<PackType>, id: string): (p: PackType)
    requires |packTypes| > 0
    ensures IdLists.HasKey(packTypes, PackKey, id) ==> p == IdLists.Find(packTypes, PackKey, id).value && p.id == id
    ensures !IdLists.HasKey(packTypes, PackKey, id) ==> p == packTypes[0]
    ensures p in packTypes
  {
    match IdLists.Find(packTypes, PackKey, id)
    case Some(found) => found
    case None => packTypes[0]
  }

  /** `filteredItems`: the items matching the search box, in their order. */
  function FilterItems(items: seq<Item>, term: string): (r: seq<Item>)
    ensures |r| <= |items|
    ensures forall x :: x in r <==> x in items && ItemSearch.Matches(x, term)
  {
    Filters.Filter(items, ItemSearch.Matcher(term))
  }

  /** An empty search box shows every item, in order. */
  lemma EmptyFilterKeepsAll(items: seq<Item>)
    ensures FilterItems(items, "") == items
  {
    forall k | 0 <= k < |items| ensures ItemSearch.Matcher("")(items[k]) {
      ItemSearch.EmptyTermMatchesAll(items[k]);
    }
    Filters.FilterAll(items, ItemSearch.Matcher(""));
  }

  /** The filter keeps the order: filtering a concatenation filters each part. */
  lemma FilterItemsAppend(a: seq<Item>, b: seq<Item>, term: string)
    ensures FilterItems(a + b, term) == FilterItems(a, term) + FilterItems(b, term)
  {
    Filters.FilterAppend(a, b, ItemSearch.Matcher(term));
  }

  /** `Omit<Item, 'id'>`: what a form produces. */
  datatype ItemFields = ItemFields(
    name: string,
    category: Category,
    quantity: int,
    weight: real,
    requiresAttunement: bool,
    isAttuned: bool,
    description: Option<string>,
    value: Option<int>,
    uses: Option<int>)

  function WithId(f: ItemFields, id: string): (item: Item)
    ensures item.id == id
  {
    Item(id, f.name, f.category, f.quantity, f.weight, f.requiresAttunement, f.isAttuned, f.description, f.value, f.uses)
  }

  /**
   * `Partial<Item>` as spread by `{ ...item, ...updates }`: `None` leaves a field, `Some(v)` sets it.
   * The three optional fields take `Some(None)` to overwrite them with `undefined`.
   */
  datatype ItemPatch = ItemPatch(
    name: Option<string>,
    category: Option<Category>,
    quantity: Option<int>,
    weight: Option<real>,
    requiresAttunement: Option<bool>,
    isAttuned: Option<bool>,
    description: Option<Option<string>>,
    value: Option<Option<int>>,
    uses: Option<Option<int>>)

  const NO_CHANGES := ItemPatch(None, None, None, None, None, None, None, None, None)

  function QuantityPatch(q: int): ItemPatch { NO_CHANGES.(quantity := Some(q)) }
  function UsesPatch(u: int): ItemPatch { NO_CHANGES.(uses := Some(Some(u))) }
  function AttunedPatch(b: bool): ItemPatch { NO_CHANGES.(isAttuned := Some(b)) }

  /** Every field of the form's output, as the edit dialog hands it to `handleUpdateItem`. */
  function FullPatch(f: ItemFields): ItemPatch {
    ItemPatch(Some(f.name), Some(f.category), Some(f.quantity), Some(f.weight), Some(f.requiresAttunement),
              Some(f.isAttuned), Some(f.description), Some(f.value), Some(f.uses))
  }

  /** `{ ...item, ...patch }`: the id is never touched. */
  function ApplyItemPatch(item: Item, p: ItemPatch): (r: Item)
    ensures r.id == item.id
  {
    Item(item.id,
         p.name.GetOr(item.name),
         p.category.GetOr(item.category),
         p.quantity.GetOr(item.quantity),
         p.weight.GetOr(item.weight),
         p.requiresAttunement.GetOr(item.requiresAttunement),
         p.isAttuned.GetOr(item.isAttuned),
         p.description.GetOr(item.description),
         p.value.GetOr(item.value),
         p.uses.GetOr(item.uses))
  }

  /** The empty patch changes nothing. */
  lemma NoChangesIsIdentity(item: Item)
    ensures ApplyItemPatch(item, NO_CHANGES) == item
  {
  }

  /** Saving the edit dialog replaces every field but the id with the form's output. */
  lemma FullPatchReplaces(item: Item, f: ItemFields)
    ensures ApplyItemPatch(item, FullPatch(f)) == WithId(f, item.id)
  {
  }

  /** `handleAddItem`: append the form's item under a fresh id. */
  function AddItem(inv: Inventory, f: ItemFields, newId: string): (r: Inventory)
    requires !IdLists.HasKey(inv.items, ItemKey, newId)
    ensures r.items == inv.items + [WithId(f, newId)]
    ensures r == inv.(items := r.items)
  {
    inv.(items := inv.items + [WithId(f, newId)])
  }

  /** A fresh id keeps the item ids unique, and deleting the new item gives the old inventory back. */
  lemma AddItemFresh(inv: Inventory, f: ItemFields, newId: string)
    requires !IdLists.HasKey(inv.items, ItemKey, newId)
    ensures IdLists.UniqueKeys(inv.items, ItemKey) ==> IdLists.UniqueKeys(AddItem(inv, f, newId).items, ItemKey)
    ensures DeleteItem(AddItem(inv, f, newId), newId) == inv
  {
    var item := WithId(f, newId);
    assert ItemKey(item) == newId;
    if IdLists.UniqueKeys(inv.items, ItemKey) {
      IdLists.AppendFreshUnique(inv.items, item, ItemKey);
    }
    IdLists.AppendThenRemove(inv.items, item, ItemKey);
  }

  /** `handleUpdateItem`: spread the patch over every item with this id. */
  function UpdateItem(inv: Inventory, itemId: string, p: ItemPatch): (r: Inventory)
    ensures |r.items| == |inv.items|
    ensures forall k :: 0 <= k < |inv.items| ==>
              r.items[k] == if inv.items[k].id == itemId then ApplyItemPatch(inv.items[k], p) else inv.items[k]
    ensures r == inv.(items := r.items)
  {
    inv.(items := IdLists.Update(inv.items, ItemKey, itemId, (it: Item) => ApplyItemPatch(it, p)))
  }

  /** `handleDeleteItem` (once confirmed): drop every item with this id. */
  function DeleteItem(inv: Inventory, itemId: string): (r: Inventory)
    ensures !IdLists.HasKey(r.items, ItemKey, itemId)
    ensures forall x :: x in r.items <==> x in inv.items && x.id != itemId
    ensures r == inv.(items := r.items)
  {
    var items := IdLists.Remove(inv.items, ItemKey, itemId);
    assert forall x :: x in items ==> x.id != itemId by {
      forall x | x in items ensures x.id != itemId {
        var k :| 0 <= k < |items| && items[k] == x;
        assert ItemKey(items[k]) != itemId;
      }
    }
    assert forall x :: x in inv.items && x.id != itemId ==> x in items by {
      forall x | x in inv.items && x.id != itemId ensures x in items {
        var k :| 0 <= k < |inv.items| && inv.items[k] == x;
        assert ItemKey(inv.items[k]) != itemId;
      }
    }
    inv.(items := items)
  }

  /** With unique ids, deleting item `k` removes that entry alone and keeps the others in order. */
  lemma DeleteUnique(inv: Inventory, k: int)
    requires IdLists.UniqueKeys(inv.items, ItemKey) && 0 <= k < |inv.items|
    ensures DeleteItem(inv, inv.items[k].id).items == inv.items[..k] + inv.items[k + 1..]
  {
    assert ItemKey(inv.items[k]) == inv.items[k].id;
    IdLists.RemoveUnique(inv.items, ItemKey, k);
  }

  /** With unique ids, updating item `k` patches that entry alone. */
  lemma UpdateUnique(inv: Inventory, k: int, p: ItemPatch)
    requires IdLists.UniqueKeys(inv.items, ItemKey) && 0 <= k < |inv.items|
    ensures UpdateItem(inv, inv.items[k].id, p).items == inv.items[k := ApplyItemPatch(inv.items[k], p)]
  {
    assert ItemKey(inv.items[k]) == inv.items[k].id;
    IdLists.UpdateUnique(inv.items, ItemKey, k, (it: Item) => ApplyItemPatch(it, p));
  }

  /** `handleSellItem` with the number typed into the prompt: sell part of the stack, or all of it. */
  function SellItem(inv: Inventory, item: Item, qty: int): (r: Inventory)
    ensures (qty <= 0 || qty > item.quantity) ==> r == inv
    ensures 0 < qty == item.quantity ==> r == DeleteItem(inv, item.id)
    ensures 0 < qty < item.quantity ==> r == UpdateItem(inv, item.id, QuantityPatch(item.quantity - qty))
  {
    if qty > 0 && qty <= item.quantity then
      if item.quantity == qty then DeleteItem(inv, item.id)
      else UpdateItem(inv, item.id, QuantityPatch(item.quantity - qty))
    else inv
  }

  /** Selling from item `k` (unique ids): the stack shrinks by exactly `qty`, or goes when all of it is sold. */
  lemma SellEffect(inv: Inventory, k: int, qty: int)
    requires IdLists.UniqueKeys(inv.items, ItemKey) && 0 <= k < |inv.items|
    ensures var item := inv.items[k];
      var r := SellItem(inv, item, qty);
      && ((qty <= 0 || qty > item.quantity) ==> r == inv)
      && (0 < qty == item.quantity ==> r.items == inv.items[..k] + inv.items[k + 1..])
      && (0 < qty < item.quantity ==> r.items == inv.items[k := item.(quantity := item.quantity - qty)])
  {
    var item := inv.items[k];
    if 0 < qty == item.quantity {
      DeleteUnique(inv, k);
    } else if 0 < qty < item.quantity {
      UpdateUnique(inv, k, QuantityPatch(item.quantity - qty));
    }
  }

  /** Categories the Use button counts down by quantity. */
  predicate IsStackConsumable(c: Category) {
    c == Ammunition || c == LightAmmunition || c == Consumable
  }

  /** `item.uses || CAMP_ITEM_MAX_USES`: an unset or zero count reads as a full one. */
  function CampUses(uses: Option<int>): (n: int)
    ensures n != 0
    ensures uses.None? || uses == Some(0) ==> n == CAMP_ITEM_MAX_USES
    ensures uses.Some? && uses.value != 0 ==> n == uses.value
  {
    if uses.None? || uses.value == 0 then CAMP_ITEM_MAX_USES else uses.value
  }

  /** `handleUseItem`: spend one unit of a consumable stack, or one use of a camp item. */
  function UseItem(inv: Inventory, item: Item): (r: Inventory)
    ensures !IsStackConsumable(item.category) && item.category != Camp ==> r == inv
    ensures IsStackConsumable(item.category) ==>
              r == if item.quantity > 1 then UpdateItem(inv, item.id, QuantityPatch(item.quantity - 1))
                   else DeleteItem(inv, item.id)
    ensures item.category == Camp ==>
              r == if CampUses(item.uses) > 1 then UpdateItem(inv, item.id, UsesPatch(CampUses(item.uses) - 1))
                   else DeleteItem(inv, item.id)
  {
    if IsStackConsumable(item.category) then
      if item.quantity > 1 then UpdateItem(inv, item.id, QuantityPatch(item.quantity - 1))
      else DeleteItem(inv, item.id)
    else if item.category == Camp then
      var current := CampUses(item.uses);
      if current > 1 then UpdateItem(inv, item.id, UsesPatch(current - 1))
      else DeleteItem(inv, item.id)
    else inv
  }

  /** Using item `k` (unique ids): its quantity or its uses drop by one, or it is removed at the last one. */
  lemma UseEffect(inv: Inventory, k: int)
    requires IdLists.UniqueKeys(inv.items, ItemKey) && 0 <= k < |inv.items|
    ensures var item := inv.items[k];
      var r := UseItem(inv, item);
      && (IsStackConsumable(item.category) && item.quantity > 1 ==>
            r.items == inv.items[k := item.(quantity := item.quantity - 1)])
      && (IsStackConsumable(item.category) && item.quantity <= 1 ==>
            r.items == inv.items[..k] + inv.items[k + 1..])
      && (item.category == Camp && CampUses(item.uses) > 1 ==>
            r.items == inv.items[k := item.(uses := Some(CampUses(item.uses) - 1))])
      && (item.category == Camp && CampUses(item.uses) <= 1 ==>
            r.items == inv.items[..k] + inv.items[k + 1..])
  {
    var item := inv.items[k];
    if IsStackConsumable(item.category) {
      if item.quantity > 1 {
        UpdateUnique(inv, k, QuantityPatch(item.quantity - 1));
      } else {
        DeleteUnique(inv, k);
      }
    } else if item.category == Camp {
      if CampUses(item.uses) > 1 {
        UpdateUnique(inv, k, UsesPatch(CampUses(item.uses) - 1));
      } else {
        DeleteUnique(inv, k);
      }
    }
  }

  /** A fresh camp item (uses unset or 0) counts as full: using it leaves 14 uses. */
  lemma FreshCampItemUse(inv: Inventory, k: int)
    requires IdLists.UniqueKeys(inv.items, ItemKey) && 0 <= k < |inv.items|
    requires inv.items[k].category == Camp && (inv.items[k].uses.None? || inv.items[k].uses == Some(0))
    ensures UseItem(inv, inv.items[k]).items[k].uses == Some(CAMP_ITEM_MAX_USES - 1)
  {
    UseEffect(inv, k);
  }

  /** The category selector on a row: a new category also resets the unit weight to its default. */
  function ChangeCategory(inv: Inventory, itemId: string, c: Category): (r: Inventory)
    ensures |r.items| == |inv.items|
    ensures forall k :: 0 <= k < |inv.items| ==>
              r.items[k] == if inv.items[k].id == itemId then inv.items[k].(category := c, weight := CategoryWeight(c))
                            else inv.items[k]
  {
    UpdateItem(inv, itemId, NO_CHANGES.(category := Some(c), weight := Some(CategoryWeight(c))))
  }

  /** After a category change the item weighs the new category's default per unit, whatever override it had. */
  lemma ChangeCategoryWeight(inv: Inventory, itemId: string, c: Category, k: int)
    requires 0 <= k < |inv.items| && inv.items[k].id == itemId
    ensures var changed := ChangeCategory(inv, itemId, c).items[k];
      && Calculations.UnitWeight(changed) == CategoryWeight(c)
      && Calculations.ItemWeight(changed) == inv.items[k].quantity as real * CategoryWeight(c)
  {
    var w := CategoryWeight(c);
    var changed := ChangeCategory(inv, itemId, c).items[k];
    assert changed == inv.items[k].(category := c, weight := w);
    assert Calculations.UnitWeight(changed) == w;
  }

  /** The quantity box on a row: `parseInt(value) || 1`, so an unparsable or zero entry stores 1. */
  function SetQuantity(inv: Inventory, itemId: string, parsed: Option<int>): (r: Inventory)
    ensures |r.items| == |inv.items|
    ensures forall k :: 0 <= k < |inv.items| && inv.items[k].id == itemId ==>
              r.items[k].quantity != 0 &&
              r.items[k].quantity == (if parsed.Some? && parsed.value != 0 then parsed.value else 1)
  {
    var q := if parsed.None? || parsed.value == 0 then 1 else parsed.value;
    UpdateItem(inv, itemId, QuantityPatch(q))
  }

  /** The attunement tick box on a row. */
  function SetAttuned(inv: Inventory, itemId: string, checked: bool): (r: Inventory)
    ensures |r.items| == |inv.items|
    ensures forall k :: 0 <= k < |inv.items| ==>
              r.items[k].isAttuned == (if inv.items[k].id == itemId then checked else inv.items[k].isAttuned)
  {
    UpdateItem(inv, itemId, AttunedPatch(checked))
  }

  /** The item dialog's fields, plus the edited item's uses (`item?.uses`). */
  datatype ItemForm = ItemForm(
    name: string,
    category: Category,
    quantity: int,
    weight: real,
    requiresAttunement: bool,
    isAttuned: bool,
    description: string,
    value: int,
    existingUses: Option<int>)

  /** The dialog's initial state: blank for a new item, otherwise the item with its falsy fields replaced. */
  function InitItemForm(item: Option<Item>): (f: ItemForm)
    ensures item.None? ==> f == ItemForm("", Other, 1, CategoryWeight(Other), false, false, "", 0, None)
    ensures item.Some? ==> f.quantity != 0 && f.weight != 0.0 && f.existingUses == item.value.uses
  {
    match item
    case None =>
      ItemForm("", Other, 1, CategoryWeight(Other), false, false, "", 0, None)
    case Some(it) =>
      ItemForm(it.name, it.category,
               if it.quantity == 0 then 1 else it.quantity,
               if it.weight == 0.0 then CategoryWeight(it.category) else it.weight,
               it.requiresAttunement, it.isAttuned,
               it.description.GetOr(""), it.value.GetOr(0), it.uses)
  }

  /** The dialog's category selector: the unit weight follows the new category's default. */
  function SelectFormCategory(f: ItemForm, c: Category): (r: ItemForm)
    ensures r.category == c && r.weight == CategoryWeight(c)
    ensures r.(category := f.category, weight := f.weight) == f
  {
    f.(category := c, weight := CategoryWeight(c))
  }

  /** `handleSubmit`: refuse a blank name, clear attunement the item does not need, and set uses for camp items only. */
  function SubmitItemForm(f: ItemForm): (r: Result<ItemFields, FormError>)
    ensures r.Err? <==> Text.IsBlank(f.name)
    ensures r.Err? ==> r.error == BlankName
    ensures r.Ok? ==> var o := r.value;
      && o.name == f.name && o.category == f.category && o.quantity == f.quantity && o.weight == f.weight
      && o.requiresAttunement == f.requiresAttunement
      && o.isAttuned == (f.requiresAttunement && f.isAttuned)
      && o.description == Some(f.description) && o.value == Some(f.value)
      && (o.uses.Some? <==> f.category == Camp)
      && (f.category == Camp ==> o.uses == Some(CampUses(f.existingUses)))
  {
    if Text.IsBlank(f.name) then Err(BlankName)
    else
      Ok(ItemFields(f.name, f.category, f.quantity, f.weight, f.requiresAttunement,
                    if f.requiresAttunement then f.isAttuned else false,
                    Some(f.description), Some(f.value),
                    if f.category == Camp then Some(CampUses(f.existingUses)) else None))
  }

  /** An item already in the form's normal shape. */
  predicate Normalised(item: Item) {
    && !Text.IsBlank(item.name) && item.quantity != 0 && item.weight != 0.0
    && (item.isAttuned ==> item.requiresAttunement)
    && item.description.Some? && item.value.Some?
    && (item.uses.Some? <==> item.category == Camp)
    && (item.uses.Some? ==> item.uses.value != 0)
  }

  /** Opening an item in the edit dialog and saving it unchanged gives the item back exactly when it is normalised. */
  lemma EditWithoutChangesIff(item: Item)
    ensures SubmitItemForm(InitItemForm(Some(item))).Ok? &&
            WithId(SubmitItemForm(InitItemForm(Some(item))).value, item.id) == item
            <==> Normalised(item)
  {
  }

  /** Given a non-zero quantity and weight and a name, the dialog saves a normalised item. */
  lemma SubmittedItemIsNormalised(f: ItemForm, id: string)
    requires f.quantity != 0 && f.weight != 0.0
    requires SubmitItemForm(f).Ok?
    ensures Normalised(WithId(SubmitItemForm(f).value, id))
  {
  }

  /**
   * The weight box falls back to 0 when cleared, and the dialog saves that 0 as it is: the saved item is
   * not normalised, and it weighs its category's default per unit.
   */
  lemma ZeroWeightIsSaved(f: ItemForm, id: string)
    requires f.weight == 0.0 && !Text.IsBlank(f.name)
    ensures SubmitItemForm(f).Ok?
    ensures WithId(SubmitItemForm(f).value, id).weight == 0.0
    ensures !Normalised(WithId(SubmitItemForm(f).value, id))
    ensures Calculations.UnitWeight(WithId(SubmitItemForm(f).value, id)) == CategoryWeight(f.category)
  {
  }
}
