/** The at-most-one-reminder discipline, stated over the item list and the
    platform's live reminders: every live reminder is the one whose handle
    the (first) item with the reminder's `itemId` stores. */
module ReminderTracking {
  import opened Wrappers
  import opened Types
  import opened NotificationService
  import opened InventoryStore

  /** The first item with the id, if any. */
  function FindItem(items: seq<InventoryItem>, id: string): (r: Option<InventoryItem>)
    ensures r.Some? ==> r.value.id == id && r.value in items
    ensures r.None? <==> forall k :: 0 <= k < |items| ==> items[k].id != id
  {
    if |items| == 0 then None
    else if items[0].id == id then Some(items[0])
    else FindItem(items[1..], id)
  }

  /** The item found is the first with the id: no earlier item has it. */
  lemma {:induction false} FindItemIsFirst(items: seq<InventoryItem>, id: string)
    ensures FindItem(items, id).Some? ==>
      exists k :: 0 <= k < |items| && items[k] == FindItem(items, id).value
        && forall j :: 0 <= j < k ==> items[j].id != id
  {
    if |items| > 0 {
      if items[0].id == id {
        assert items[0] == FindItem(items, id).value;
      } else {
        FindItemIsFirst(items[1..], id);
        if FindItem(items, id).Some? {
          var k :| 0 <= k < |items| - 1 && items[1..][k] == FindItem(items, id).value
            && forall j :: 0 <= j < k ==> items[1..][j].id != id;
          assert items[k + 1] == FindItem(items, id).value;
          forall j | 0 <= j < k + 1 ensures items[j].id != id {
            if j > 0 {
              assert items[j] == items[1..][j - 1];
            }
          }
        }
      }
    }
  }

  /** Two items that differ at most in their reminder handle. */
  predicate SameExceptHandle(a: InventoryItem, b: InventoryItem) {
    a.(notificationId := b.notificationId) == b
  }

  predicate UniqueIds(items: seq<InventoryItem>) {
    forall i, j | 0 <= i < j < |items| :: items[i].id != items[j].id
  }

  /** Every live reminder is referenced by the handle its item stores. */
  predicate Tracked(items: seq<InventoryItem>, live: map<string, Reminder>) {
    forall nid | nid in live ::
      FindItem(items, live[nid].itemId).Some? && FindItem(items, live[nid].itemId).value.notificationId == Some(nid)
  }

  /** No item has two live reminders. */
  predicate AtMostOnePerItem(live: map<string, Reminder>) {
    forall a, b | a in live && b in live && live[a].itemId == live[b].itemId :: a == b
  }

  lemma TrackedGivesAtMostOne(items: seq<InventoryItem>, live: map<string, Reminder>)
    requires Tracked(items, live)
    ensures AtMostOnePerItem(live)
  {
  }

  /** With unique ids, an item is the one found by its id. */
  lemma {:induction false} FindUnique(items: seq<InventoryItem>, k: nat)
    requires UniqueIds(items) && k < |items|
    ensures FindItem(items, items[k].id) == Some(items[k])
  {
    if k > 0 {
      assert items[0].id != items[k].id;
      assert UniqueIds(items[1..]) by {
        forall i, j | 0 <= i < j < |items[1..]| ensures items[1..][i].id != items[1..][j].id {
          assert items[1..][i] == items[i + 1] && items[1..][j] == items[j + 1];
        }
      }
      FindUnique(items[1..], k - 1);
    }
  }

  /** Setting the handle of the items with id `x` changes what is found for
      `x` only, and there it sets the handle. */
  lemma {:induction false} FindAfterUpdate(items: seq<InventoryItem>, x: string, m: string, y: string)
    ensures var items' := UpdateById(items, x, NotificationPatch(m));
      && (y != x ==> FindItem(items', y) == FindItem(items, y))
      && (y == x && FindItem(items, x).Some? ==>
            FindItem(items', x) == Some(FindItem(items, x).value.(notificationId := Some(m))))
  {
    if |items| > 0 {
      var items' := UpdateById(items, x, NotificationPatch(m));
      assert items'[1..] == UpdateById(items[1..], x, NotificationPatch(m));
      FindAfterUpdate(items[1..], x, m, y);
    }
  }

  /** Looking up in a list with one more item in front. */
  lemma FindPrepend(x: InventoryItem, items: seq<InventoryItem>, id: string)
    ensures FindItem([x] + items, id) == if x.id == id then Some(x) else FindItem(items, id)
  {
    assert ([x] + items)[1..] == items;
  }

  /** An item with a new id in front keeps the ids unique. */
  lemma UniquePrepend(x: InventoryItem, items: seq<InventoryItem>)
    requires UniqueIds(items)
    requires forall k :: 0 <= k < |items| ==> items[k].id != x.id
    ensures UniqueIds([x] + items)
  {
    var all := [x] + items;
    forall i, j | 0 <= i < j < |all| ensures all[i].id != all[j].id {
      assert all[j] == items[j - 1];
      if i > 0 {
        assert all[i] == items[i - 1];
      }
    }
  }

  /** An item with a new id in front keeps the discipline. */
  lemma TrackedPrepend(x: InventoryItem, items: seq<InventoryItem>, live: map<string, Reminder>)
    requires Tracked(items, live)
    requires forall k :: 0 <= k < |items| ==> items[k].id != x.id
    ensures Tracked([x] + items, live)
  {
    forall nid | nid in live
      ensures FindItem([x] + items, live[nid].itemId) == FindItem(items, live[nid].itemId)
    {
      FindPrepend(x, items, live[nid].itemId);
    }
  }

  /** Dropping live reminders keeps the discipline. */
  lemma TrackedShrink(items: seq<InventoryItem>, live: map<string, Reminder>, live': map<string, Reminder>)
    requires Tracked(items, live)
    requires forall nid | nid in live' :: nid in live && live'[nid] == live[nid]
    ensures Tracked(items, live')
  {
  }
}
