/**
 * The transfer tab of an external storage: moving one item between the
 * player's pack and the storage. A transfer always de-attunes the item and
 * is refused while the storage is not nearby.
 */
module Transfer {
  import opened Wrappers
  import opened Types
  import IdLists

  /** The new (player, storage) inventories of a transfer, or `None` when the tab does nothing. */
  type Outcome = Option<(Inventory, Inventory)>

  /** `handleTransferToStorage`: the pack's first item with this id goes, de-attuned, to the end of the storage. */
  function TransferToStorage(player: Inventory, storage: ExternalStorage, itemId: string): (r: Outcome)
    ensures r.None? <==> !IdLists.HasKey(player.items, ItemKey, itemId) || !storage.nearby
    ensures r.Some? ==>
      var (p, s) := r.value;
      var item := IdLists.Find(player.items, ItemKey, itemId).value;
      && p == player.(items := IdLists.Remove(player.items, ItemKey, itemId))
      && s == storage.inventory.(items := storage.inventory.items + [item.(isAttuned := false)])
  {
    match IdLists.Find(player.items, ItemKey, itemId)
    case None => None
    case Some(item) =>
      if !storage.nearby then None
      else
        var moved := item.(isAttuned := false);
        Some((player.(items := IdLists.Remove(player.items, ItemKey, itemId)),
              storage.inventory.(items := storage.inventory.items + [moved])))
  }

  /** `handleTransferToPlayer`: the storage's first item with this id goes, de-attuned, to the end of the pack. */
  function TransferToPlayer(player: Inventory, storage: ExternalStorage, itemId: string): (r: Outcome)
    ensures r.None? <==> !IdLists.HasKey(storage.inventory.items, ItemKey, itemId) || !storage.nearby
    ensures r.Some? ==>
      var (p, s) := r.value;
      var item := IdLists.Find(storage.inventory.items, ItemKey, itemId).value;
      && p == player.(items := player.items + [item.(isAttuned := false)])
      && s == storage.inventory.(items := IdLists.Remove(storage.inventory.items, ItemKey, itemId))
  {
    match IdLists.Find(storage.inventory.items, ItemKey, itemId)
    case None => None
    case Some(item) =>
      if !storage.nearby then None
      else
        var moved := item.(isAttuned := false);
        Some((player.(items := player.items + [moved]),
              storage.inventory.(items := IdLists.Remove(storage.inventory.items, ItemKey, itemId))))
  }

  /** With unique item ids, a transfer to the storage moves exactly one entry: the item count is conserved. */
  lemma TransferToStorageConserves(player: Inventory, storage: ExternalStorage, k: int)
    requires IdLists.UniqueKeys(player.items, ItemKey) && 0 <= k < |player.items| && storage.nearby
    ensures var r := TransferToStorage(player, storage, player.items[k].id);
      && r.Some?
      && r.value.0.items == player.items[..k] + player.items[k + 1..]
      && r.value.1.items == storage.inventory.items + [player.items[k].(isAttuned := false)]
      && |r.value.0.items| + |r.value.1.items| == |player.items| + |storage.inventory.items|
  {
    assert ItemKey(player.items[k]) == player.items[k].id;
    IdLists.RemoveUnique(player.items, ItemKey, k);
    IdLists.FindUnique(player.items, ItemKey, k);
  }

  /** With unique item ids, a transfer to the player moves exactly one entry: the item count is conserved. */
  lemma TransferToPlayerConserves(player: Inventory, storage: ExternalStorage, k: int)
    requires IdLists.UniqueKeys(storage.inventory.items, ItemKey) && 0 <= k < |storage.inventory.items| && storage.nearby
    ensures var r := TransferToPlayer(player, storage, storage.inventory.items[k].id);
      && r.Some?
      && r.value.0.items == player.items + [storage.inventory.items[k].(isAttuned := false)]
      && r.value.1.items == storage.inventory.items[..k] + storage.inventory.items[k + 1..]
      && |r.value.0.items| + |r.value.1.items| == |player.items| + |storage.inventory.items|
  {
    var items := storage.inventory.items;
    assert ItemKey(items[k]) == items[k].id;
    IdLists.RemoveUnique(items, ItemKey, k);
    IdLists.FindUnique(items, ItemKey, k);
  }

  /**
   * Sending an item to the storage and fetching it back restores the storage and leaves
   * the pack with the item, de-attuned, moved to its end.
   */
  lemma StorageRoundTrip(player: Inventory, storage: ExternalStorage, k: int)
    requires IdLists.UniqueKeys(player.items, ItemKey) && 0 <= k < |player.items| && storage.nearby
    requires !IdLists.HasKey(storage.inventory.items, ItemKey, player.items[k].id)
    ensures var id := player.items[k].id;
      var there := TransferToStorage(player, storage, id).value;
      var back := TransferToPlayer(there.0, storage.(inventory := there.1), id);
      && back.Some?
      && back.value.1 == storage.inventory
      && back.value.0 == player.(items := player.items[..k] + player.items[k + 1..] + [player.items[k].(isAttuned := false)])
  {
    var id := player.items[k].id;
    var moved := player.items[k].(isAttuned := false);
    TransferToStorageConserves(player, storage, k);
    var there := TransferToStorage(player, storage, id).value;
    var stored := storage.inventory.items + [moved];
    assert there.1.items == stored;
    assert ItemKey(moved) == id;
    IdLists.AppendThenRemove(storage.inventory.items, moved, ItemKey);
    assert IdLists.Find(stored, ItemKey, id) == Some(moved) by {
      IdLists.FindLast(storage.inventory.items, moved, ItemKey);
    }
  }
}
