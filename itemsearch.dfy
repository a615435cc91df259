/**
 * The case-insensitive item test shared by the pack's filter box and the
 * global search: the lowercased term occurs in the lowercased item name or
 * in the lowercased category label.
 */
module ItemSearch {
  import opened Types
  import Text

  /**
   * The item test in its working form. Category labels are already lower case,
   * so the label is searched as it is (`MatchesCaseInsensitively` shows this is
   * the same test as lowercasing both sides).
   */
  predicate Matches(item: Item, term: string) {
    Text.Includes(Text.LowerStr(item.name), Text.LowerStr(term)) ||
    Text.Includes(CategoryLabel(item.category), Text.LowerStr(term))
  }

  /** The search term as a test on items, for `filter`. */
  function Matcher(term: string): (m: Item -> bool)
    ensures forall item :: m(item) == Matches(item, term)
  {
    item => Matches(item, term)
  }

  /** Every category label is its own lowercase form. */
  lemma CategoryLabelLowercase(c: Category)
    ensures Text.LowerStr(CategoryLabel(c)) == CategoryLabel(c)
  {
    if c == Other || c == Large || c == Massive || c == ToolKit || c == Consumable || c == Camp || c == Literature {
      CarriedLabelsLowercase(c);
    } else if c == LightArmor || c == MediumArmor || c == HeavyArmor || c == Clothing || c == Jewelry || c == Shield {
      ArmorLabelsLowercase(c);
    } else if c == Instrument || c == OneHandedWeapon || c == TwoHandedWeapon || c == LightAmmunition || c == Ammunition || c == MagicItem {
      WeaponLabelsLowercase(c);
    }
  }

  lemma CarriedLabelsLowercase(c: Category)
    requires c == Other || c == Large || c == Massive || c == ToolKit || c == Consumable || c == Camp || c == Literature
    ensures Text.LowerStr(CategoryLabel(c)) == CategoryLabel(c)
  {
    match c
    case Other => Text.LowerStrNoUpper("other");
    case Large => Text.LowerStrNoUpper("large");
    case Massive => Text.LowerStrNoUpper("massive");
    case ToolKit => Text.LowerStrNoUpper("tool/kit");
    case Consumable => Text.LowerStrNoUpper("consumable");
    case Camp => Text.LowerStrNoUpper("camp");
    case Literature => Text.LowerStrNoUpper("literature");
  }

  lemma ArmorLabelsLowercase(c: Category)
    requires c == LightArmor || c == MediumArmor || c == HeavyArmor || c == Clothing || c == Jewelry || c == Shield
    ensures Text.LowerStr(CategoryLabel(c)) == CategoryLabel(c)
  {
    match c
    case LightArmor => Text.LowerStrNoUpper("light-armor");
    case MediumArmor => Text.LowerStrNoUpper("medium-armor");
    case HeavyArmor => Text.LowerStrNoUpper("heavy-armor");
    case Clothing => Text.LowerStrNoUpper("clothing");
    case Jewelry => Text.LowerStrNoUpper("jewelry");
    case Shield => Text.LowerStrNoUpper("shield");
  }

  lemma WeaponLabelsLowercase(c: Category)
    requires c == Instrument || c == OneHandedWeapon || c == TwoHandedWeapon || c == LightAmmunition || c == Ammunition || c == MagicItem
    ensures Text.LowerStr(CategoryLabel(c)) == CategoryLabel(c)
  {
    match c
    case Instrument => Text.LowerStrNoUpper("instrument");
    case OneHandedWeapon => Text.LowerStrNoUpper("one-handed-weapon");
    case TwoHandedWeapon => Text.LowerStrNoUpper("two-handed-weapon");
    case LightAmmunition => Text.LowerStrNoUpper("light-ammunition");
    case Ammunition => Text.LowerStrNoUpper("ammunition");
    case MagicItem => Text.LowerStrNoUpper("magic-item");
  }

  /** `Matches` is exactly the test on the lowercased name and the lowercased category. */
  lemma MatchesCaseInsensitively(item: Item, term: string)
    ensures Matches(item, term) <==> Text.MatchesTerm(item.name, CategoryLabel(item.category), term)
  {
    CategoryLabelLowercase(item.category);
  }

  /** Case does not matter: lowercasing the term first finds the same items. */
  lemma MatchesIgnoresTermCase(item: Item, term: string)
    ensures Matches(item, Text.LowerStr(term)) <==> Matches(item, term)
  {
    Text.LowerStrIdempotent(term);
  }

  /** An empty term matches every item. */
  lemma EmptyTermMatchesAll(item: Item)
    ensures Matches(item, "")
  {
    Text.IncludesEmpty(Text.LowerStr(item.name));
  }
}
