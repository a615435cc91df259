/**
 * The value-level part of the persistence helpers: the default inventory,
 * the default configurator settings and the favourites lists. The metadata
 * reads and writes themselves are I/O and are not modelled; their results
 * are parameters here.
 */
module Storage {
  import opened Wrappers
  import opened Types
  import Calculations

  const NO_SLOTS := EquippedItems([], [], [], [], [])

  /** `createDefaultInventory`: an empty inventory carried in the standard pack. */
  function CreateDefaultInventory(): (inv: Inventory)
    ensures inv.items == [] && inv.vaults == [] && inv.externalStorages == []
    ensures forall t :: Types.SlotArray(inv.equipped, t) == []
    ensures inv.currency == NO_COINS
    ensures inv.packTypeId == DefaultPackTypes()[2].id == STANDARD_PACK_ID
  {
    Inventory([], NO_SLOTS, NO_COINS, STANDARD_PACK_ID, [], [])
  }

  /** A fresh inventory weighs nothing and carries no coin penalty. */
  lemma DefaultInventoryWeighsNothing()
    ensures Calculations.TotalWeight(CreateDefaultInventory().items) == 0.0
    ensures Calculations.CoinWeight(CreateDefaultInventory().currency) == 0
  {
  }

  /** A fresh inventory is worth nothing and has no attuned item. */
  lemma DefaultInventoryHoldsNothing()
    ensures Calculations.CurrencyValue(CreateDefaultInventory().currency) == 0
    ensures Calculations.CountAttuned(CreateDefaultInventory().items) == 0
  {
  }

  /** The configuration used when none has been saved (or it cannot be read). */
  function DefaultDMConfig(): (c: DMConfig)
    ensures c.customPackTypes == [] && c.customExternalStorageTypes == [] && c.customCategories == []
    ensures c.coinNames == COIN_NAMES_DEFAULT && c.favorites == [] && c.notes == ""
  {
    DMConfig([], [], [], COIN_NAMES_DEFAULT, [], "")
  }

  /** `getDMConfig` once the room metadata has been read: the saved config, or the default. */
  function LoadedDMConfig(saved: Option<DMConfig>): (c: DMConfig)
    ensures saved.Some? ==> c == saved.value
    ensures saved.None? ==> c == DefaultDMConfig()
  {
    saved.GetOr(DefaultDMConfig())
  }

  predicate NoDuplicates(xs: seq<string>) {
    forall i, j :: 0 <= i < j < |xs| ==> xs[i] != xs[j]
  }

  /** The favourites after `addToFavorites`: appended only when absent. */
  function WithFavorite(favorites: seq<string>, itemId: string): (r: seq<string>)
    ensures itemId in r
    ensures forall x :: x in r <==> x in favorites || x == itemId
    ensures NoDuplicates(favorites) ==> NoDuplicates(r)
    ensures itemId in favorites ==> r == favorites
  {
    if itemId in favorites then favorites else favorites + [itemId]
  }

  /** The favourites after `removeFromFavorites`: every occurrence of the id is gone, the rest kept in order. */
  function WithoutFavorite(favorites: seq<string>, itemId: string): (r: seq<string>)
    ensures itemId !in r
    ensures forall x :: x in r <==> x in favorites && x != itemId
    ensures NoDuplicates(favorites) ==> NoDuplicates(r)
  {
    if favorites == [] then []
    else
      var rest := WithoutFavorite(favorites[1..], itemId);
      NoDuplicatesTail(favorites);
      if favorites[0] == itemId then rest else [favorites[0]] + rest
  }

  lemma NoDuplicatesTail(xs: seq<string>)
    requires xs != []
    ensures NoDuplicates(xs) ==> NoDuplicates(xs[1..]) && xs[0] !in xs[1..]
  {
    if NoDuplicates(xs) {
      forall i, j | 0 <= i < j < |xs[1..]| ensures xs[1..][i] != xs[1..][j] {
        assert xs[1..][i] == xs[i + 1] && xs[1..][j] == xs[j + 1];
      }
      forall k | 0 <= k < |xs[1..]| ensures xs[1..][k] != xs[0] {
        assert xs[1..][k] == xs[k + 1];
      }
    }
  }

  /** Adding a favourite that was absent and then removing it restores the list. */
  lemma {:induction false} AddThenRemoveFavorite(favorites: seq<string>, itemId: string)
    requires itemId !in favorites
    ensures WithoutFavorite(WithFavorite(favorites, itemId), itemId) == favorites
    decreases |favorites|
  {
    if favorites != [] {
      assert (favorites + [itemId])[1..] == favorites[1..] + [itemId];
      AddThenRemoveFavorite(favorites[1..], itemId);
    } else {
      assert WithFavorite(favorites, itemId) == [itemId];
    }
  }

  /** `[...new Set(xs)]`: the first occurrence of each id, in order of first appearance. */
  function Dedup(xs: seq<string>): (r: seq<string>)
    ensures NoDuplicates(r)
    ensures forall x :: x in r <==> x in xs
    ensures |r| <= |xs|
  {
    if xs == [] then []
    else
      var init := Dedup(xs[..|xs| - 1]);
      var last := xs[|xs| - 1];
      assert forall x :: x in xs <==> x in xs[..|xs| - 1] || x == last by {
        assert xs == xs[..|xs| - 1] + [last];
      }
      if last in init then init else init + [last]
  }

  /** Order of first appearance: what later ids add comes after everything already kept. */
  lemma {:induction false} DedupPrefix(xs: seq<string>, ys: seq<string>)
    ensures Dedup(xs) <= Dedup(xs + ys)
    decreases |ys|
  {
    if ys == [] {
      assert xs + ys == xs;
    } else {
      var init := ys[..|ys| - 1];
      assert (xs + ys)[..|xs + ys| - 1] == xs + init;
      DedupPrefix(xs, init);
    }
  }

  /** A list without repeats comes back unchanged, order included. */
  lemma {:induction false} DedupOfUnique(xs: seq<string>)
    requires NoDuplicates(xs)
    ensures Dedup(xs) == xs
    decreases |xs|
  {
    if xs != [] {
      var init := xs[..|xs| - 1];
      assert NoDuplicates(init) by {
        forall i, j | 0 <= i < j < |init| ensures init[i] != init[j] {
          assert init[i] == xs[i] && init[j] == xs[j];
        }
      }
      DedupOfUnique(init);
      assert xs[|xs| - 1] !in init by {
        forall k | 0 <= k < |init| ensures init[k] != xs[|xs| - 1] {
          assert init[k] == xs[k];
        }
      }
      assert xs == init + [xs[|xs| - 1]];
    }
  }

  /** `flatMap(data => data.favorites)`. */
  function Flatten(lists: seq<seq<string>>): (r: seq<string>)
    ensures forall x :: x in r <==> exists k :: 0 <= k < |lists| && x in lists[k]
  {
    if lists == [] then []
    else
      var rest := Flatten(lists[1..]);
      assert forall k :: 1 <= k < |lists| ==> lists[k] == lists[1..][k - 1];
      assert forall x :: (exists k :: 1 <= k < |lists| && x in lists[k]) ==> x in rest by {
        forall x | exists k :: 1 <= k < |lists| && x in lists[k] ensures x in rest {
          var k :| 1 <= k < |lists| && x in lists[k];
          assert x in lists[1..][k - 1];
        }
      }
      lists[0] + rest
  }

  /** `getFavorites`: every player's favourites merged, each id once. */
  function MergedFavorites(playerFavorites: seq<seq<string>>): (r: seq<string>)
    ensures NoDuplicates(r)
    ensures forall x :: x in r <==> exists k :: 0 <= k < |playerFavorites| && x in playerFavorites[k]
  {
    Dedup(Flatten(playerFavorites))
  }

  /** A player's stored record; `addToFavorites` and `removeFromFavorites` change its favourites in place. */
  class PlayerData {
    var tokenId: string
    var inventory: Inventory
    var favorites: seq<string>
    var lastAccessed: int

    /** A stored record as read back. */
    constructor (tokenId: string, inventory: Inventory, favorites: seq<string>, lastAccessed: int)
      ensures this.tokenId == tokenId && this.inventory == inventory
      ensures this.favorites == favorites && this.lastAccessed == lastAccessed
    {
      this.tokenId := tokenId;
      this.inventory := inventory;
      this.favorites := favorites;
      this.lastAccessed := lastAccessed;
    }

    /** The record `addToFavorites` starts from when the player has none; `now` stands for `Date.now()`. */
    constructor Fresh(tokenId: string, now: int)
      ensures this.tokenId == tokenId && this.inventory == CreateDefaultInventory()
      ensures this.favorites == [] && this.lastAccessed == now
    {
      this.tokenId := tokenId;
      this.inventory := CreateDefaultInventory();
      this.favorites := [];
      this.lastAccessed := now;
    }

    /** `addToFavorites`: push the id unless present; `saved` tells whether the record is written back. */
    method AddToFavorites(itemId: string) returns (saved: bool)
      modifies this`favorites
      ensures saved == (itemId !in old(favorites))
      ensures favorites == WithFavorite(old(favorites), itemId)
    {
      saved := itemId !in favorites;
      if saved {
        favorites := favorites + [itemId];
      }
    }

    /** `removeFromFavorites`: drop every occurrence of the id. */
    method RemoveFromFavorites(itemId: string)
      modifies this`favorites
      ensures favorites == WithoutFavorite(old(favorites), itemId)
    {
      favorites := WithoutFavorite(favorites, itemId);
    }
  }
}
