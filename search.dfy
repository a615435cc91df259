/**
 * Global search across the player's pack and every external storage, and
 * the transfer of a search hit from a nearby storage into the pack.
 */
module GlobalSearch {
  import opened Wrappers
  import opened Types
  import IdLists
  import opened ItemSearch

  /** One hit: the item, where it is, the storage id (absent for the pack), and whether it may be moved to the pack. */
  datatype SearchResult = SearchResult(item: Item, location: string, storageId: Option<string>, canTransfer: bool)

  const PLAYER_PACK_LOCATION := "Player Pack"
  const MIN_QUERY_LENGTH := 2

  /** The hits among `items` under the test `matches`, in order, each annotated with the same location data. */
  function Hits(items: seq<Item>, matches: Item -> bool, location: string, storageId: Option<string>, canTransfer: bool): (r: seq<SearchResult>)
    ensures |r| <= |items|
  {
    if items == [] then []
    else
      var init := Hits(items[..|items| - 1], matches, location, storageId, canTransfer);
      var last := items[|items| - 1];
      if matches(last) then init + [SearchResult(last, location, storageId, canTransfer)] else init
  }

  /** A result is among the hits exactly when it is a matching item of the list, annotated with the given location data. */
  lemma {:induction false} HitsIff(items: seq<Item>, matches: Item -> bool, location: string, storageId: Option<string>, canTransfer: bool, h: SearchResult)
    ensures h in Hits(items, matches, location, storageId, canTransfer) <==>
            h.item in items && matches(h.item) &&
            h.location == location && h.storageId == storageId && h.canTransfer == canTransfer
    decreases |items|
  {
    if items != [] {
      var init := items[..|items| - 1];
      HitsIff(init, matches, location, storageId, canTransfer, h);
      assert items == init + [items[|items| - 1]];
      assert h.item in items <==> h.item in init || h.item == items[|items| - 1];
    }
  }

  /** Searching a concatenation gives the hits of the first part followed by those of the second. */
  lemma {:induction false} HitsAppend(a: seq<Item>, b: seq<Item>, matches: Item -> bool, location: string, storageId: Option<string>, canTransfer: bool)
    ensures Hits(a + b, matches, location, storageId, canTransfer) ==
            Hits(a, matches, location, storageId, canTransfer) + Hits(b, matches, location, storageId, canTransfer)
    decreases |b|
  {
    if b == [] {
      assert a + b == a;
    } else {
      assert (a + b)[..|a + b| - 1] == a + b[..|b| - 1];
      HitsAppend(a, b[..|b| - 1], matches, location, storageId, canTransfer);
    }
  }

  /** The pack's hits: located in the pack, no storage id, never transferable. */
  function PackHits(items: seq<Item>, term: string): seq<SearchResult> {
    Hits(items, Matcher(term), PLAYER_PACK_LOCATION, None, false)
  }

  /** One storage's hits: located by its name and id, transferable exactly when it is nearby. */
  function StorageHitsOf(s: ExternalStorage, term: string): seq<SearchResult> {
    Hits(s.inventory.items, Matcher(term), s.name, Some(s.id), s.nearby)
  }

  /** The storages' hits, storage after storage. */
  function StorageHits(storages: seq<ExternalStorage>, term: string): seq<SearchResult> {
    if storages == [] then []
    else StorageHits(storages[..|storages| - 1], term) + StorageHitsOf(storages[|storages| - 1], term)
  }

  /** A storage holding a matching item, annotated as in `h`. */
  predicate FoundIn(s: ExternalStorage, term: string, h: SearchResult) {
    h.item in s.inventory.items && Matches(h.item, term) &&
    h.location == s.name && h.storageId == Some(s.id) && h.canTransfer == s.nearby
  }

  /** Every storage hit is a matching item of some storage, carrying that storage's name, id and nearby flag. */
  lemma {:induction false} StorageHitSource(storages: seq<ExternalStorage>, term: string, h: SearchResult)
    requires h in StorageHits(storages, term)
    ensures exists j :: 0 <= j < |storages| && FoundIn(storages[j], term, h)
    decreases |storages|
  {
    var n := |storages|;
    var init := storages[..n - 1];
    if h in StorageHits(init, term) {
      StorageHitSource(init, term, h);
      var j :| 0 <= j < |init| && FoundIn(init[j], term, h);
      assert init[j] == storages[j];
    } else {
      var s := storages[n - 1];
      HitsIff(s.inventory.items, Matcher(term), s.name, Some(s.id), s.nearby, h);
      assert FoundIn(storages[n - 1], term, h);
    }
  }

  /** Every matching item of every storage is found, annotated with its storage. */
  lemma {:induction false} StorageHitComplete(storages: seq<ExternalStorage>, term: string, j: int, h: SearchResult)
    requires 0 <= j < |storages| && FoundIn(storages[j], term, h)
    ensures h in StorageHits(storages, term)
    decreases |storages|
  {
    var n := |storages|;
    var init := storages[..n - 1];
    if j < n - 1 {
      assert init[j] == storages[j];
      StorageHitComplete(init, term, j, h);
    } else {
      var s := storages[j];
      HitsIff(s.inventory.items, Matcher(term), s.name, Some(s.id), s.nearby, h);
    }
  }

  lemma StorageHitsAppend(a: seq<ExternalStorage>, s: ExternalStorage, term: string)
    ensures StorageHits(a + [s], term) == StorageHits(a, term) + StorageHitsOf(s, term)
  {
    assert (a + [s])[..|a + [s]| - 1] == a;
  }

  /** Appending the next storage's hits extends the storage prefix by one. */
  lemma StorageHitsStep(pack: seq<SearchResult>, storages: seq<ExternalStorage>, j: int, term: string)
    requires 0 <= j < |storages|
    ensures pack + StorageHits(storages[..j], term) + StorageHitsOf(storages[j], term) ==
            pack + StorageHits(storages[..j + 1], term)
  {
    assert storages[..j + 1] == storages[..j] + [storages[j]];
    StorageHitsAppend(storages[..j], storages[j], term);
  }

  /** What the search finds, in order: the pack's hits, then each storage's hits in storage order. */
  function AllHits(inv: Inventory, term: string): seq<SearchResult> {
    PackHits(inv.items, term) + StorageHits(inv.externalStorages, term)
  }

  /** Push every item of `items` that passes `matches` onto `results`, annotated with the given location data. */
  method PushHits(results: seq<SearchResult>, items: seq<Item>, matches: Item -> bool,
                  location: string, storageId: Option<string>, canTransfer: bool)
    returns (out: seq<SearchResult>)
    ensures out == results + Hits(items, matches, location, storageId, canTransfer)
  {
    out := results;
    var k := 0;
    while k < |items|
      invariant 0 <= k <= |items|
      invariant out == results + Hits(items[..k], matches, location, storageId, canTransfer)
    {
      var item := items[k];
      if matches(item) {
        out := out + [SearchResult(item, location, storageId, canTransfer)];
      }
      assert items[..k + 1] == items[..k] + [item];
      HitsAppend(items[..k], [item], matches, location, storageId, canTransfer);
      k := k + 1;
    }
    assert items[..k] == items;
  }

  /** `searchAllLocations`: push every hit of the pack, then of each storage in turn. */
  method SearchAllLocations(inv: Inventory, term: string) returns (results: seq<SearchResult>)
    ensures results == AllHits(inv, term)
  {
    var matches := Matcher(term);
    results := PushHits([], inv.items, matches, PLAYER_PACK_LOCATION, None, false);
    var storages := inv.externalStorages;
    var j := 0;
    assert StorageHits(storages[..0], term) == [];
    while j < |storages|
      invariant 0 <= j <= |storages|
      invariant results == PackHits(inv.items, term) + StorageHits(storages[..j], term)
    {
      var storage := storages[j];
      results := PushHits(results, storage.inventory.items, matches, storage.name, Some(storage.id), storage.nearby);
      StorageHitsStep(PackHits(inv.items, term), storages, j, term);
      j := j + 1;
    }
    assert storages[..j] == storages;
  }

  /** The results the tab shows: nothing until the term has at least two characters. */
  method SearchResults(inv: Inventory, term: string) returns (results: seq<SearchResult>)
    ensures |term| < MIN_QUERY_LENGTH ==> results == []
    ensures |term| >= MIN_QUERY_LENGTH ==> results == AllHits(inv, term)
  {
    if |term| >= MIN_QUERY_LENGTH {
      results := SearchAllLocations(inv, term);
    } else {
      results := [];
    }
  }

  /** A pack hit is found exactly for a matching pack item. */
  lemma PackHitIff(inv: Inventory, term: string, item: Item)
    ensures SearchResult(item, PLAYER_PACK_LOCATION, None, false) in AllHits(inv, term)
            <==> item in inv.items && Matches(item, term)
  {
    var h := SearchResult(item, PLAYER_PACK_LOCATION, None, false);
    HitsIff(inv.items, Matcher(term), PLAYER_PACK_LOCATION, None, false, h);
    if h in StorageHits(inv.externalStorages, term) {
      StorageHitSource(inv.externalStorages, term, h);
    }
  }

  /** A storage hit is found exactly for a matching item of a storage with that name, id and nearby flag. */
  lemma StorageHitIff(inv: Inventory, term: string, h: SearchResult)
    requires h.storageId.Some?
    ensures h in AllHits(inv, term) <==>
            exists j :: 0 <= j < |inv.externalStorages| && FoundIn(inv.externalStorages[j], term, h)
  {
    var ss := inv.externalStorages;
    HitsIff(inv.items, Matcher(term), PLAYER_PACK_LOCATION, None, false, h);
    if h in StorageHits(ss, term) {
      StorageHitSource(ss, term, h);
    }
    if exists j :: 0 <= j < |ss| && FoundIn(ss[j], term, h) {
      var j :| 0 <= j < |ss| && FoundIn(ss[j], term, h);
      StorageHitComplete(ss, term, j, h);
    }
  }

  /** The pack's hits come first: a result has no storage id exactly when it lies in the leading pack part. */
  lemma PackHitsFirst(inv: Inventory, term: string, k: int)
    requires 0 <= k < |AllHits(inv, term)|
    ensures AllHits(inv, term)[k].storageId.None? <==> k < |PackHits(inv.items, term)|
    ensures AllHits(inv, term)[k].storageId.None? ==>
              AllHits(inv, term)[k].location == PLAYER_PACK_LOCATION && !AllHits(inv, term)[k].canTransfer
  {
    var all, pack, rest := AllHits(inv, term), PackHits(inv.items, term), StorageHits(inv.externalStorages, term);
    var h := all[k];
    if k < |pack| {
      assert h == pack[k] && h in pack;
      HitsIff(inv.items, Matcher(term), PLAYER_PACK_LOCATION, None, false, h);
    } else {
      assert h == rest[k - |pack|] && h in rest;
      StorageHitSource(inv.externalStorages, term, h);
    }
  }

  /** `handleTransferToPack`: move a transferable hit from its storage into the pack, de-attuned. */
  function TransferToPack(inv: Inventory, result: SearchResult): (r: Inventory)
    ensures (result.storageId.None? || result.storageId == Some("") || !result.canTransfer ||
             !IdLists.HasKey(inv.externalStorages, StorageKey, result.storageId.value)) ==> r == inv
  {
    if result.storageId.None? || result.storageId.value == "" || !result.canTransfer then inv
    else
      var sid := result.storageId.value;
      match IdLists.Find(inv.externalStorages, StorageKey, sid)
      case None => inv
      case Some(storage) =>
        var moved := result.item.(isAttuned := false);
        var newStorageItems := IdLists.Remove(storage.inventory.items, ItemKey, result.item.id);
        var newStorages := IdLists.Update(inv.externalStorages, StorageKey, sid,
          (s: ExternalStorage) => s.(inventory := s.inventory.(items := newStorageItems)));
        inv.(items := inv.items + [moved], externalStorages := newStorages)
  }

  /**
   * After a transfer the pack ends with the de-attuned item, every storage with that id holds
   * the found storage's items minus every entry with the item's id, and nothing else changes.
   */
  lemma TransferToPackEffect(inv: Inventory, result: SearchResult, k: int)
    requires result.storageId.Some? && result.storageId.value != "" && result.canTransfer
    requires 0 <= k < |inv.externalStorages| && inv.externalStorages[k].id == result.storageId.value
    ensures var r := TransferToPack(inv, result);
      var found := IdLists.Find(inv.externalStorages, StorageKey, result.storageId.value).value;
      && r.items == inv.items + [result.item.(isAttuned := false)]
      && r.equipped == inv.equipped && r.currency == inv.currency && r.packTypeId == inv.packTypeId && r.vaults == inv.vaults
      && |r.externalStorages| == |inv.externalStorages|
      && (forall m :: 0 <= m < |inv.externalStorages| && inv.externalStorages[m].id != result.storageId.value ==>
            r.externalStorages[m] == inv.externalStorages[m])
      && (forall m :: 0 <= m < |inv.externalStorages| && inv.externalStorages[m].id == result.storageId.value ==>
            var s := inv.externalStorages[m];
            r.externalStorages[m] == s.(inventory := s.inventory.(items := IdLists.Remove(found.inventory.items, ItemKey, result.item.id))))
  {
    assert IdLists.HasKey(inv.externalStorages, StorageKey, result.storageId.value) by {
      assert StorageKey(inv.externalStorages[k]) == result.storageId.value;
    }
  }

  /** The moved item keeps its whole stack and every field but attunement, which is cleared. */
  lemma TransferredItemKeepsFields(inv: Inventory, result: SearchResult)
    ensures var r := TransferToPack(inv, result);
      r != inv ==>
        (|r.items| == |inv.items| + 1 && r.items[..|inv.items|] == inv.items &&
         var moved := r.items[|inv.items|];
         !moved.isAttuned && moved.(isAttuned := result.item.isAttuned) == result.item)
  {
    var r := TransferToPack(inv, result);
    if r != inv {
      assert r.items == inv.items + [result.item.(isAttuned := false)];
    }
  }
}
