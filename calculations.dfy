/**
 * The calculation library: weights, coin counts and coin-weight penalty,
 * currency value, derived equipment slots, equip eligibility and the
 * attunement count. Pure functions over the domain data.
 */
module Calculations {
  import opened Types

  /** The weight of one unit: the item's own `weight` when positive, else the category default. */
  function UnitWeight(item: Item): (w: real)
    ensures w > 0.0
    ensures item.weight > 0.0 ==> w == item.weight
    ensures item.weight <= 0.0 ==> w == CategoryWeight(item.category)
  {
    if item.weight > 0.0 then item.weight else CategoryWeight(item.category)
  }

  /** `calculateItemWeight`: the weight of the whole stack. */
  function ItemWeight(item: Item): (w: real)
    ensures item.quantity >= 0 ==> w >= 0.0
    ensures item.quantity >= 1 ==> w >= UnitWeight(item)
  {
    ScaleBounds(UnitWeight(item), item.quantity);
    UnitWeight(item) * item.quantity as real
  }

  /** Scaling a positive weight by a count: never negative for a non-negative count, at least the weight for a count of 1 or more. */
  lemma ScaleBounds(u: real, n: int)
    requires u > 0.0
    ensures n >= 0 ==> u * n as real >= 0.0
    ensures n >= 1 ==> u * n as real >= u
  {
    if n >= 1 {
      assert u * n as real == u + u * (n - 1) as real;
    }
  }

  /** A two-handed weapon without an override weighs 4 per unit; an override of 1.5 wins. */
  lemma ItemWeightExamples(item: Item)
    requires item.category == TwoHandedWeapon && item.quantity == 3
    ensures item.weight == 0.0 ==> ItemWeight(item) == 12.0
    ensures item.weight == 1.5 ==> ItemWeight(item) == 4.5
  {
  }

  /** Stacks of light ammunition weigh one unit per 20, ammunition one unit per 10. */
  lemma AmmunitionStacks(item: Item)
    requires item.weight <= 0.0
    ensures item.category == LightAmmunition && item.quantity == 20 ==> ItemWeight(item) == 1.0
    ensures item.category == Ammunition && item.quantity == 10 ==> ItemWeight(item) == 1.0
  {
  }

  /** `calculateTotalWeight`: the sum of the stack weights (a left fold from 0). */
  function TotalWeight(items: seq<Item>): (w: real)
  {
    if items == [] then 0.0 else TotalWeight(items[..|items| - 1]) + ItemWeight(items[|items| - 1])
  }

  predicate NonNegativeQuantities(items: seq<Item>) {
    forall k :: 0 <= k < |items| ==> items[k].quantity >= 0
  }

  /** The total over a concatenation is the sum of the totals; the empty list weighs nothing. */
  lemma {:induction false} TotalWeightAppend(a: seq<Item>, b: seq<Item>)
    ensures TotalWeight([]) == 0.0
    ensures TotalWeight(a + b) == TotalWeight(a) + TotalWeight(b)
    decreases |b|
  {
    if b != [] {
      assert (a + b)[..|a + b| - 1] == a + b[..|b| - 1];
      TotalWeightAppend(a, b[..|b| - 1]);
    } else {
      assert a + b == a;
    }
  }

  /** With no negative quantity, the total weight is never negative. */
  lemma {:induction false} TotalWeightNonNegative(items: seq<Item>)
    requires NonNegativeQuantities(items)
    ensures TotalWeight(items) >= 0.0
    decreases |items|
  {
    if items != [] {
      TotalWeightNonNegative(items[..|items| - 1]);
    }
  }

  /** `getTotalCoins`: the number of coins of all four denominations. */
  function TotalCoins(c: Currency): int {
    c.copper + c.silver + c.gold + c.platinum
  }

  /** The penalty for carrying `total` coins: none up to the threshold, then one unit per started 10 coins. */
  function CoinPenalty(total: int): (w: int)
    ensures w >= 0
    ensures w == 0 <==> total <= COIN_WEIGHT_THRESHOLD
    ensures w > 0 ==> (w - 1) * 10 < total - COIN_WEIGHT_THRESHOLD <= w * 10
  {
    if total <= COIN_WEIGHT_THRESHOLD then 0
    else ((total - COIN_WEIGHT_THRESHOLD + 9) / 10) * COIN_WEIGHT_PENALTY_PER_10
  }

  /** `calculateCoinWeight`: the penalty for the coins in a purse. */
  function CoinWeight(c: Currency): (w: int)
    ensures w >= 0
    ensures w == 0 <==> TotalCoins(c) <= COIN_WEIGHT_THRESHOLD
  {
    CoinPenalty(TotalCoins(c))
  }

  /** 31 and 40 coins cost one unit, 41 coins two. */
  lemma CoinPenaltyExamples()
    ensures CoinPenalty(30) == 0 && CoinPenalty(31) == 1 && CoinPenalty(40) == 1 && CoinPenalty(41) == 2
  {
  }

  /** More coins never weigh less. */
  lemma CoinPenaltyMonotone(a: int, b: int)
    requires a <= b
    ensures CoinPenalty(a) <= CoinPenalty(b)
  {
  }

  /** `calculateCurrencyValue`: the worth of a purse in copper pieces. */
  function CurrencyValue(c: Currency): int {
    c.copper + c.silver * 10 + c.gold * 100 + c.platinum * 1000
  }

  predicate NonNegativeCoins(c: Currency) {
    c.copper >= 0 && c.silver >= 0 && c.gold >= 0 && c.platinum >= 0
  }

  /** Each coin is worth at least one copper piece, so a purse is worth at least its coin count. */
  lemma CurrencyValueBounds(c: Currency)
    requires NonNegativeCoins(c)
    ensures CurrencyValue(c) >= TotalCoins(c) >= 0
    ensures CurrencyValue(c) == 0 <==> TotalCoins(c) == 0
  {
  }

  /** Five copper, two silver and one gold are worth 125 copper. */
  lemma CurrencyValueExample()
    ensures CurrencyValue(Currency(5, 2, 1, 0)) == 125
  {
  }

  /** `Math.max(0, x)`. */
  function AtLeastZero(x: int): (r: int)
    ensures r >= 0 && r >= x
    ensures r == x || r == 0
  {
    if x < 0 then 0 else x
  }

  /** `getEquipmentSlots`: 4 plus the pack's modifier for each body slot type, never negative; utility slots come from the pack. */
  function GetEquipmentSlots(p: PackType): (s: EquipmentSlots)
    ensures s.weapon >= 0 && s.armor >= 0 && s.clothing >= 0 && s.jewelry >= 0
    ensures s.weapon == 4 + p.weaponModifier || (s.weapon == 0 && 4 + p.weaponModifier < 0)
    ensures s.armor == 4 + p.armorModifier || (s.armor == 0 && 4 + p.armorModifier < 0)
    ensures s.clothing == 4 + p.clothingModifier || (s.clothing == 0 && 4 + p.clothingModifier < 0)
    ensures s.jewelry == 4 + p.jewelryModifier || (s.jewelry == 0 && 4 + p.jewelryModifier < 0)
    ensures s.utility == p.utilitySlots
  {
    EquipmentSlots(
      AtLeastZero(BASE_EQUIPMENT_SLOTS.weapon + p.weaponModifier),
      AtLeastZero(BASE_EQUIPMENT_SLOTS.armor + p.armorModifier),
      AtLeastZero(BASE_EQUIPMENT_SLOTS.clothing + p.clothingModifier),
      AtLeastZero(BASE_EQUIPMENT_SLOTS.jewelry + p.jewelryModifier),
      p.utilitySlots)
  }

  /** For every built-in pack the clamp never triggers: each body slot count is 4 plus its modifier, at least 1. */
  lemma BuiltInSlotsUnclamped(k: int)
    requires 0 <= k < |DefaultPackTypes()|
    ensures var p, s := DefaultPackTypes()[k], GetEquipmentSlots(DefaultPackTypes()[k]);
      && s.weapon == 4 + p.weaponModifier >= 1 && s.armor == 4 + p.armorModifier >= 1
      && s.clothing == 4 + p.clothingModifier >= 1 && s.jewelry == 4 + p.jewelryModifier >= 1
  {
  }

  /** `canEquipToUtilitySlot`: the utility pack takes anything lighter than 2 per unit; other packs go by their rule list. */
  function CanEquipToUtilitySlot(item: Item, p: PackType): bool {
    if p.id == UTILITY_PACK_ID then UnitWeight(item) < 2.0
    else item.category in p.utilityEquipRules
  }

  /** Eligibility never depends on the stack size. */
  lemma UtilityEligibilityIgnoresQuantity(item: Item, p: PackType, n: int)
    ensures CanEquipToUtilitySlot(item.(quantity := n), p) == CanEquipToUtilitySlot(item, p)
  {
  }

  /** Under the utility pack 1.9 per unit passes and 2.0 does not; whole-list packs ignore weight. */
  lemma UtilityPackThreshold(item: Item, p: PackType)
    requires p.id == UTILITY_PACK_ID && item.category == Other
    ensures item.weight == 1.9 ==> CanEquipToUtilitySlot(item, p)
    ensures item.weight == 2.0 ==> !CanEquipToUtilitySlot(item, p)
    ensures item.weight <= 0.0 ==> CanEquipToUtilitySlot(item, p)
  {
  }

  /** The body slot type a category belongs to, if any: an independent statement of the slot rules. */
  function BodySlotOf(c: Category): (t: Wrappers.Option<SlotType>)
    ensures t.Some? ==> t.value != UtilitySlot
  {
    match c
    case OneHandedWeapon | TwoHandedWeapon | Shield | Instrument => Wrappers.Some(WeaponSlot)
    case LightArmor | MediumArmor | HeavyArmor => Wrappers.Some(ArmorSlot)
    case Clothing => Wrappers.Some(ClothingSlot)
    case Jewelry => Wrappers.Some(JewelrySlot)
    case _ => Wrappers.None
  }

  /** `canEquipItem`: the category test for a slot type; `utility` always answers yes. */
  function CanEquipItem(item: Item, t: SlotType): bool {
    var c := item.category;
    match t
    case WeaponSlot => c == OneHandedWeapon || c == TwoHandedWeapon || c == Shield || c == Instrument
    case ArmorSlot => c == LightArmor || c == MediumArmor || c == HeavyArmor
    case ClothingSlot => c == Clothing
    case JewelrySlot => c == Jewelry
    case UtilitySlot => true
  }

  /** A body slot type admits an item exactly when it is the item category's one body slot type. */
  lemma CanEquipItemIsBodySlotOf(item: Item, t: SlotType)
    ensures t != UtilitySlot ==> (CanEquipItem(item, t) <==> BodySlotOf(item.category) == Wrappers.Some(t))
    ensures t == UtilitySlot ==> CanEquipItem(item, t)
  {
  }

  /** No item fits two different body slot types. */
  lemma AtMostOneBodySlot(item: Item, t: SlotType, u: SlotType)
    requires t != u && t != UtilitySlot && u != UtilitySlot
    ensures !(CanEquipItem(item, t) && CanEquipItem(item, u))
  {
    CanEquipItemIsBodySlotOf(item, t);
    CanEquipItemIsBodySlotOf(item, u);
  }

  /** `countAttunedItems`: how many items are attuned; never capped. */
  function CountAttuned(items: seq<Item>): (n: int)
    ensures 0 <= n <= |items|
    ensures n == 0 <==> forall k :: 0 <= k < |items| ==> !items[k].isAttuned
    ensures n == |items| <==> forall k :: 0 <= k < |items| ==> items[k].isAttuned
  {
    if items == [] then 0
    else
      var rest := CountAttuned(items[1..]);
      assert forall k :: 1 <= k < |items| ==> items[k] == items[1..][k - 1];
      (if items[0].isAttuned then 1 else 0) + rest
  }

  /** Counting distributes over concatenation. */
  lemma {:induction false} CountAttunedAppend(a: seq<Item>, b: seq<Item>)
    ensures CountAttuned(a + b) == CountAttuned(a) + CountAttuned(b)
    decreases |a|
  {
    if a == [] {
      assert a + b == b;
    } else {
      assert (a + b)[1..] == a[1..] + b;
      CountAttunedAppend(a[1..], b);
    }
  }

  /** Five attuned items count as five: the cap of 3 is reported against, not enforced. */
  lemma AttunedCountNotCapped(items: seq<Item>)
    requires |items| == 5 && forall k :: 0 <= k < 5 ==> items[k].isAttuned
    ensures CountAttuned(items) == 5 > MAX_ATTUNED_ITEMS
  {
  }
}
