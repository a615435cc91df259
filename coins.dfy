/**
 * The coins tab: editing the purse, the value of nearby vaults and
 * storages, the coin-count status, and the vault list with its dialog.
 */
module Coins {
  import opened Wrappers
  import opened Types
  import Text
  import IdLists
  import Filters
  import Calculations

  datatype Denomination = Copper | Silver | Gold | Platinum

  /** `currency[coin]`. */
  function Coin(c: Currency, d: Denomination): int {
    match d
    case Copper => c.copper
    case Silver => c.silver
    case Gold => c.gold
    case Platinum => c.platinum
  }

  /** `{ ...currency, [coin]: n }`: one denomination replaced, the others kept. */
  function WithCoin(c: Currency, d: Denomination, n: int): (r: Currency)
    ensures Coin(r, d) == n
    ensures forall e :: e != d ==> Coin(r, e) == Coin(c, e)
  {
    match d
    case Copper => c.(copper := n)
    case Silver => c.(silver := n)
    case Gold => c.(gold := n)
    case Platinum => c.(platinum := n)
  }

  /** `handleCurrencyChange(coin, value)`: store the count, raised to 0 when negative. */
  function SetCoin(inv: Inventory, d: Denomination, value: int): (r: Inventory)
    ensures Coin(r.currency, d) == if value < 0 then 0 else value
    ensures forall e :: e != d ==> Coin(r.currency, e) == Coin(inv.currency, e)
    ensures r == inv.(currency := r.currency)
  {
    inv.(currency := WithCoin(inv.currency, d, if value < 0 then 0 else value))
  }

  /** Editing the purse never makes a count negative: a purse without debts stays without debts. */
  lemma SetCoinKeepsNonNegative(inv: Inventory, d: Denomination, value: int)
    requires Calculations.NonNegativeCoins(inv.currency)
    ensures Calculations.NonNegativeCoins(SetCoin(inv, d, value).currency)
  {
    var c := SetCoin(inv, d, value).currency;
    assert Coin(c, Copper) >= 0 && Coin(c, Silver) >= 0 && Coin(c, Gold) >= 0 && Coin(c, Platinum) >= 0;
  }

  /** The summed value of the vaults listed, as the `reduce` adds them up. */
  function VaultValue(vaults: seq<Vault>): int {
    if vaults == [] then 0 else Calculations.CurrencyValue(vaults[0].currency) + VaultValue(vaults[1..])
  }

  /** `vaultTotal`: the value held in the vaults marked nearby. */
  function NearbyVaultTotal(vaults: seq<Vault>): int {
    VaultValue(Filters.Filter(vaults, (v: Vault) => v.nearby))
  }

  /** Reference definition: each vault contributes its value when nearby and nothing otherwise. */
  function NearbyVaultValue(vaults: seq<Vault>): int {
    if vaults == [] then 0
    else (if vaults[0].nearby then Calculations.CurrencyValue(vaults[0].currency) else 0) + NearbyVaultValue(vaults[1..])
  }

  /** The filtered sum is the sum over nearby vaults only: vaults that are not nearby add nothing. */
  lemma {:induction false} NearbyVaultTotalIsNearbyValue(vaults: seq<Vault>)
    ensures NearbyVaultTotal(vaults) == NearbyVaultValue(vaults)
  {
    if vaults != [] {
      var near := (v: Vault) => v.nearby;
      assert vaults == [vaults[0]] + vaults[1..];
      Filters.FilterAppend([vaults[0]], vaults[1..], near);
      VaultValueAppend(Filters.Filter([vaults[0]], near), Filters.Filter(vaults[1..], near));
      NearbyVaultTotalIsNearbyValue(vaults[1..]);
    }
  }

  lemma {:induction false} VaultValueAppend(a: seq<Vault>, b: seq<Vault>)
    ensures VaultValue(a + b) == VaultValue(a) + VaultValue(b)
  {
    if a != [] {
      assert (a + b)[1..] == a[1..] + b;
      VaultValueAppend(a[1..], b);
    } else {
      assert a + b == b;
    }
  }

  /** The summed value of the storages' nested purses. */
  function StorageValue(storages: seq<ExternalStorage>): int {
    if storages == [] then 0
    else Calculations.CurrencyValue(storages[0].inventory.currency) + StorageValue(storages[1..])
  }

  /** `storageTotal`: the value held in the purses of the storages marked nearby. */
  function NearbyStorageTotal(storages: seq<ExternalStorage>): int {
    StorageValue(Filters.Filter(storages, (s: ExternalStorage) => s.nearby))
  }

  /** Reference definition: each storage contributes its purse's value when nearby and nothing otherwise. */
  function NearbyStorageValue(storages: seq<ExternalStorage>): int {
    if storages == [] then 0
    else (if storages[0].nearby then Calculations.CurrencyValue(storages[0].inventory.currency) else 0)
         + NearbyStorageValue(storages[1..])
  }

  lemma {:induction false} StorageValueAppend(a: seq<ExternalStorage>, b: seq<ExternalStorage>)
    ensures StorageValue(a + b) == StorageValue(a) + StorageValue(b)
  {
    if a != [] {
      assert (a + b)[1..] == a[1..] + b;
      StorageValueAppend(a[1..], b);
    } else {
      assert a + b == b;
    }
  }

  /** The filtered sum is the sum over nearby storages only. */
  lemma {:induction false} NearbyStorageTotalIsNearbyValue(storages: seq<ExternalStorage>)
    ensures NearbyStorageTotal(storages) == NearbyStorageValue(storages)
  {
    if storages != [] {
      var near := (s: ExternalStorage) => s.nearby;
      assert storages == [storages[0]] + storages[1..];
      Filters.FilterAppend([storages[0]], storages[1..], near);
      StorageValueAppend(Filters.Filter([storages[0]], near), Filters.Filter(storages[1..], near));
      NearbyStorageTotalIsNearbyValue(storages[1..]);
    }
  }

  /** `grandTotal`: the purse plus whatever nearby vaults and storages hold. */
  function GrandTotal(inv: Inventory): int {
    Calculations.CurrencyValue(inv.currency) + NearbyVaultTotal(inv.vaults) + NearbyStorageTotal(inv.externalStorages)
  }

  predicate VaultsSolvent(vaults: seq<Vault>) {
    forall k :: 0 <= k < |vaults| ==> Calculations.NonNegativeCoins(vaults[k].currency)
  }

  predicate StoragesSolvent(storages: seq<ExternalStorage>) {
    forall k :: 0 <= k < |storages| ==> Calculations.NonNegativeCoins(storages[k].inventory.currency)
  }

  lemma {:induction false} NearbyVaultValueNonNegative(vaults: seq<Vault>)
    requires VaultsSolvent(vaults)
    ensures NearbyVaultValue(vaults) >= 0
  {
    if vaults != [] {
      Calculations.CurrencyValueBounds(vaults[0].currency);
      NearbyVaultValueNonNegative(vaults[1..]);
    }
  }

  lemma {:induction false} NearbyStorageValueNonNegative(storages: seq<ExternalStorage>)
    requires StoragesSolvent(storages)
    ensures NearbyStorageValue(storages) >= 0
  {
    if storages != [] {
      Calculations.CurrencyValueBounds(storages[0].inventory.currency);
      NearbyStorageValueNonNegative(storages[1..]);
    }
  }

  /** Without negative coin counts, nearby wealth only adds: the grand total is at least the purse's value. */
  lemma GrandTotalAtLeastPurse(inv: Inventory)
    requires VaultsSolvent(inv.vaults) && StoragesSolvent(inv.externalStorages)
    ensures GrandTotal(inv) >= Calculations.CurrencyValue(inv.currency)
  {
    NearbyVaultTotalIsNearbyValue(inv.vaults);
    NearbyStorageTotalIsNearbyValue(inv.externalStorages);
    NearbyVaultValueNonNegative(inv.vaults);
    NearbyStorageValueNonNegative(inv.externalStorages);
  }

  /** With nothing nearby, the grand total is the purse's value. */
  lemma NothingNearby(inv: Inventory)
    requires forall k :: 0 <= k < |inv.vaults| ==> !inv.vaults[k].nearby
    requires forall k :: 0 <= k < |inv.externalStorages| ==> !inv.externalStorages[k].nearby
    ensures GrandTotal(inv) == Calculations.CurrencyValue(inv.currency)
  {
    NearbyVaultTotalIsNearbyValue(inv.vaults);
    NearbyStorageTotalIsNearbyValue(inv.externalStorages);
    NoNearbyVaults(inv.vaults);
    NoNearbyStorages(inv.externalStorages);
  }

  lemma {:induction false} NoNearbyVaults(vaults: seq<Vault>)
    requires forall k :: 0 <= k < |vaults| ==> !vaults[k].nearby
    ensures NearbyVaultValue(vaults) == 0
  {
    if vaults != [] {
      NoNearbyVaults(vaults[1..]);
    }
  }

  lemma {:induction false} NoNearbyStorages(storages: seq<ExternalStorage>)
    requires forall k :: 0 <= k < |storages| ==> !storages[k].nearby
    ensures NearbyStorageValue(storages) == 0
  {
    if storages != [] {
      NoNearbyStorages(storages[1..]);
    }
  }

  /** The colour of the coin count. */
  datatype CoinStatus = Normal | Warning | Error

  /** Over the carry cap is an error, over the weight threshold a warning. */
  function Status(totalCoins: int): (s: CoinStatus)
    ensures s == Error <==> totalCoins > COIN_CARRY_CAP
    ensures s == Warning <==> COIN_WEIGHT_THRESHOLD < totalCoins <= COIN_CARRY_CAP
    ensures s == Normal <==> totalCoins <= COIN_WEIGHT_THRESHOLD
  {
    if totalCoins > COIN_CARRY_CAP then Error
    else if totalCoins > 30 then Warning
    else Normal
  }

  /** The count is shown as normal exactly when the coins weigh nothing. */
  lemma StatusMatchesCoinWeight(c: Currency)
    ensures Status(Calculations.TotalCoins(c)) == Normal <==> Calculations.CoinWeight(c) == 0
    ensures Status(Calculations.TotalCoins(c)) == Error ==> Calculations.CoinWeight(c) >= 1
  {
  }

  /** `Omit<Vault, 'id'>`: what the vault dialog produces. */
  datatype VaultFields = VaultFields(name: string, location: string, currency: Currency, notes: Option<string>, nearby: bool)

  function VaultWithId(f: VaultFields, id: string): (v: Vault)
    ensures v.id == id
  {
    Vault(id, f.name, f.location, f.currency, f.notes, f.nearby)
  }

  /** `Partial<Vault>` as spread by `{ ...v, ...updates }`. */
  datatype VaultPatch = VaultPatch(
    name: Option<string>,
    location: Option<string>,
    currency: Option<Currency>,
    notes: Option<Option<string>>,
    nearby: Option<bool>)

  function FullVaultPatch(f: VaultFields): VaultPatch {
    VaultPatch(Some(f.name), Some(f.location), Some(f.currency), Some(f.notes), Some(f.nearby))
  }

  function NearbyPatch(b: bool): VaultPatch {
    VaultPatch(None, None, None, None, Some(b))
  }

  function ApplyVaultPatch(v: Vault, p: VaultPatch): (r: Vault)
    ensures r.id == v.id
  {
    Vault(v.id, p.name.GetOr(v.name), p.location.GetOr(v.location), p.currency.GetOr(v.currency),
          p.notes.GetOr(v.notes), p.nearby.GetOr(v.nearby))
  }

  /** Saving the edit dialog replaces every field but the id. */
  lemma FullVaultPatchReplaces(v: Vault, f: VaultFields)
    ensures ApplyVaultPatch(v, FullVaultPatch(f)) == VaultWithId(f, v.id)
  {
  }

  /** `handleAddVault`: append the dialog's vault under a fresh id. */
  function AddVault(inv: Inventory, f: VaultFields, newId: string): (r: Inventory)
    requires !IdLists.HasKey(inv.vaults, VaultKey, newId)
    ensures r.vaults == inv.vaults + [VaultWithId(f, newId)]
    ensures r == inv.(vaults := r.vaults)
  {
    inv.(vaults := inv.vaults + [VaultWithId(f, newId)])
  }

  /** `handleUpdateVault`: spread the patch over the vaults with this id. */
  function UpdateVault(inv: Inventory, vaultId: string, p: VaultPatch): (r: Inventory)
    ensures |r.vaults| == |inv.vaults|
    ensures forall k :: 0 <= k < |inv.vaults| ==>
              r.vaults[k] == if inv.vaults[k].id == vaultId then ApplyVaultPatch(inv.vaults[k], p) else inv.vaults[k]
    ensures r == inv.(vaults := r.vaults)
  {
    inv.(vaults := IdLists.Update(inv.vaults, VaultKey, vaultId, (v: Vault) => ApplyVaultPatch(v, p)))
  }

  /** `handleDeleteVault` (once confirmed): drop the vaults with this id. */
  function DeleteVault(inv: Inventory, vaultId: string): (r: Inventory)
    ensures !IdLists.HasKey(r.vaults, VaultKey, vaultId)
    ensures forall k :: 0 <= k < |inv.vaults| && inv.vaults[k].id != vaultId ==> inv.vaults[k] in r.vaults
    ensures r == inv.(vaults := r.vaults)
  {
    inv.(vaults := IdLists.Remove(inv.vaults, VaultKey, vaultId))
  }

  /** Adding a vault under a fresh id and deleting it again gives the inventory back; ids stay unique. */
  lemma AddVaultThenDelete(inv: Inventory, f: VaultFields, newId: string)
    requires !IdLists.HasKey(inv.vaults, VaultKey, newId)
    ensures DeleteVault(AddVault(inv, f, newId), newId) == inv
    ensures IdLists.UniqueKeys(inv.vaults, VaultKey) ==> IdLists.UniqueKeys(AddVault(inv, f, newId).vaults, VaultKey)
  {
    var v := VaultWithId(f, newId);
    assert VaultKey(v) == newId;
    IdLists.AppendThenRemove(inv.vaults, v, VaultKey);
    if IdLists.UniqueKeys(inv.vaults, VaultKey) {
      IdLists.AppendFreshUnique(inv.vaults, v, VaultKey);
    }
  }

  /** With unique ids, deleting vault `k` removes it alone and keeps the others in order. */
  lemma DeleteVaultUnique(inv: Inventory, k: int)
    requires IdLists.UniqueKeys(inv.vaults, VaultKey) && 0 <= k < |inv.vaults|
    ensures DeleteVault(inv, inv.vaults[k].id).vaults == inv.vaults[..k] + inv.vaults[k + 1..]
  {
    assert VaultKey(inv.vaults[k]) == inv.vaults[k].id;
    IdLists.RemoveUnique(inv.vaults, VaultKey, k);
  }

  /** The vault dialog's fields. */
  datatype VaultForm = VaultForm(name: string, location: string, notes: string, nearby: bool, currency: Currency)

  /** The dialog's initial state: blank for a new vault, otherwise the vault's fields (absent notes read as ""). */
  function InitVaultForm(vault: Option<Vault>): (f: VaultForm)
    ensures vault.None? ==> f == VaultForm("", "", "", false, NO_COINS)
    ensures vault.Some? ==> f.name == vault.value.name && f.location == vault.value.location &&
                            f.notes == vault.value.notes.GetOr("") && f.nearby == vault.value.nearby &&
                            f.currency == vault.value.currency
  {
    match vault
    case None => VaultForm("", "", "", false, NO_COINS)
    case Some(v) => VaultForm(v.name, v.location, v.notes.GetOr(""), v.nearby, v.currency)
  }

  /** A coin box in the dialog: `parseInt(value) || 0`, with no lower bound. */
  function SetFormCoin(f: VaultForm, d: Denomination, parsed: Option<int>): (r: VaultForm)
    ensures Coin(r.currency, d) == parsed.GetOr(0)
    ensures forall e :: e != d ==> Coin(r.currency, e) == Coin(f.currency, e)
  {
    f.(currency := WithCoin(f.currency, d, parsed.GetOr(0)))
  }

  /** `handleSubmit`: a blank name is refused first, then a blank location. */
  function SubmitVaultForm(f: VaultForm): (r: Result<VaultFields, FormError>)
    ensures r == Err(BlankName) <==> Text.IsBlank(f.name)
    ensures r == Err(BlankLocation) <==> !Text.IsBlank(f.name) && Text.IsBlank(f.location)
    ensures r.Ok? <==> !Text.IsBlank(f.name) && !Text.IsBlank(f.location)
    ensures r.Ok? ==> r.value == VaultFields(f.name, f.location, f.currency, Some(f.notes), f.nearby)
  {
    if Text.IsBlank(f.name) then Err(BlankName)
    else if Text.IsBlank(f.location) then Err(BlankLocation)
    else Ok(VaultFields(f.name, f.location, f.currency, Some(f.notes), f.nearby))
  }

  /** Opening a vault in the dialog and saving it unchanged keeps it, once its notes are set. */
  lemma EditVaultWithoutChanges(v: Vault)
    requires !Text.IsBlank(v.name) && !Text.IsBlank(v.location) && v.notes.Some?
    ensures SubmitVaultForm(InitVaultForm(Some(v))) == Ok(VaultFields(v.name, v.location, v.currency, v.notes, v.nearby))
    ensures ApplyVaultPatch(v, FullVaultPatch(SubmitVaultForm(InitVaultForm(Some(v))).value)) == v
  {
  }
}
