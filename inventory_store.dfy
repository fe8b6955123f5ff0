/** The in-memory inventory list and its four update actions. */
module InventoryStore {
  import opened Wrappers
  import opened Types

  /** A partial item, as passed to `updateItem`: `None` means the key is
      absent; for the optional fields `Some(None)` means the key is present
      with the value `undefined`. */
  datatype ItemPatch = ItemPatch(
    id: Option<string>,
    name: Option<string>,
    itemType: Option<ItemType>,
    expirationDate: Option<string>,
    barcode: Option<Option<string>>,
    imageUri: Option<Option<string>>,
    status: Option<ItemStatus>,
    notificationId: Option<Option<string>>,
    createdAt: Option<string>)

  const NoChanges := ItemPatch(None, None, None, None, None, None, None, None, None)

  /** The patch that sets only the reminder handle. */
  function NotificationPatch(id: string): ItemPatch {
    NoChanges.(notificationId := Some(Some(id)))
  }

  /** The item with every field present in `updates` replaced by the update's value. */
  function Merge(item: InventoryItem, updates: ItemPatch): InventoryItem
  {
    InventoryItem(
      updates.id.GetOr(item.id),
      updates.name.GetOr(item.name),
      updates.itemType.GetOr(item.itemType),
      updates.expirationDate.GetOr(item.expirationDate),
      updates.barcode.GetOr(item.barcode),
      updates.imageUri.GetOr(item.imageUri),
      updates.status.GetOr(item.status),
      updates.notificationId.GetOr(item.notificationId),
      updates.createdAt.GetOr(item.createdAt))
  }

  /** A merge keeps every field the patch leaves out and takes the others. */
  lemma MergeFields(item: InventoryItem, updates: ItemPatch)
    ensures var m := Merge(item, updates);
      && (updates.id.None? ==> m.id == item.id) && (updates.id.Some? ==> m.id == updates.id.value)
      && (updates.name.None? ==> m.name == item.name) && (updates.name.Some? ==> m.name == updates.name.value)
      && (updates.itemType.None? ==> m.itemType == item.itemType) && (updates.itemType.Some? ==> m.itemType == updates.itemType.value)
      && (updates.expirationDate.None? ==> m.expirationDate == item.expirationDate)
      && (updates.expirationDate.Some? ==> m.expirationDate == updates.expirationDate.value)
      && (updates.barcode.None? ==> m.barcode == item.barcode) && (updates.barcode.Some? ==> m.barcode == updates.barcode.value)
      && (updates.imageUri.None? ==> m.imageUri == item.imageUri) && (updates.imageUri.Some? ==> m.imageUri == updates.imageUri.value)
      && (updates.status.None? ==> m.status == item.status) && (updates.status.Some? ==> m.status == updates.status.value)
      && (updates.notificationId.None? ==> m.notificationId == item.notificationId)
      && (updates.notificationId.Some? ==> m.notificationId == updates.notificationId.value)
      && (updates.createdAt.None? ==> m.createdAt == item.createdAt) && (updates.createdAt.Some? ==> m.createdAt == updates.createdAt.value)
  {
  }

  lemma MergeNoChanges(item: InventoryItem)
    ensures Merge(item, NoChanges) == item
  {
  }

  /** The list with every item whose id is `id` merged with `updates`, in order. */
  function UpdateById(items: seq<InventoryItem>, id: string, updates: ItemPatch): (r: seq<InventoryItem>)
    ensures |r| == |items|
    ensures forall k :: 0 <= k < |items| ==> r[k] == if items[k].id == id then Merge(items[k], updates) else items[k]
  {
    seq(|items|, k requires 0 <= k < |items| => if items[k].id == id then Merge(items[k], updates) else items[k])
  }

  /** An update of an id that no item has leaves the list as it was. */
  lemma UpdateMissingId(items: seq<InventoryItem>, id: string, updates: ItemPatch)
    requires forall k :: 0 <= k < |items| ==> items[k].id != id
    ensures UpdateById(items, id, updates) == items
  {
  }

  /** The items whose id differs from `id`, in order. */
  function RemoveById(items: seq<InventoryItem>, id: string): (r: seq<InventoryItem>)
    ensures forall k :: 0 <= k < |r| ==> r[k].id != id
    ensures forall k :: 0 <= k < |items| && items[k].id != id ==> items[k] in r
    ensures forall e :: e in r ==> e in items
    ensures |r| <= |items|
  {
    if |items| == 0 then []
    else (if items[0].id != id then [items[0]] else []) + RemoveById(items[1..], id)
  }

  /** Removal works piecewise, so the kept items keep their relative order. */
  lemma {:induction false} RemoveByIdConcat(a: seq<InventoryItem>, b: seq<InventoryItem>, id: string)
    ensures RemoveById(a + b, id) == RemoveById(a, id) + RemoveById(b, id)
  {
    if |a| > 0 {
      assert (a + b)[1..] == a[1..] + b;
      RemoveByIdConcat(a[1..], b, id);
    } else {
      assert a + b == b;
    }
  }

  /** Removal drops exactly the items with that id, counted with multiplicity. */
  lemma {:induction false} RemoveByIdCounts(items: seq<InventoryItem>, id: string, e: InventoryItem)
    ensures multiset(RemoveById(items, id))[e] == if e.id == id then 0 else multiset(items)[e]
  {
    if |items| > 0 {
      var head := if items[0].id != id then [items[0]] else [];
      var tail := RemoveById(items[1..], id);
      RemoveByIdCounts(items[1..], id, e);
      assert RemoveById(items, id) == head + tail;
      assert multiset(RemoveById(items, id)) == multiset(head) + multiset(tail);
      assert items == [items[0]] + items[1..];
      assert multiset(items) == multiset([items[0]]) + multiset(items[1..]);
    }
  }

  /** The store's state: the list of items. */
  class InventoryState {
    var items: seq<InventoryItem>

    constructor ()
      ensures items == []
    {
      items := [];
    }

    /** `setItems`: the list is replaced wholesale. */
    method SetItems(newItems: seq<InventoryItem>)
      modifies this
      ensures items == newItems
    {
      items := newItems;
    }

    /** `addItem`: the new item goes first. */
    method AddItem(item: InventoryItem)
      modifies this
      ensures items == [item] + old(items)
      ensures |items| == |old(items)| + 1 && items[0] == item
    {
      items := [item] + items;
    }

    /** `updateItem`: every item with the id is merged with the updates. */
    method UpdateItem(id: string, updates: ItemPatch)
      modifies this
      ensures items == UpdateById(old(items), id, updates)
    {
      items := UpdateById(items, id, updates);
    }

    /** `removeItem`: every item with the id is dropped. */
    method RemoveItem(id: string)
      modifies this
      ensures items == RemoveById(old(items), id)
    {
      items := RemoveById(items, id);
    }
  }
}
