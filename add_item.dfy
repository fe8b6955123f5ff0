/** Submitting the add-item form: the status is computed, a reminder is
    scheduled when a profile exists, and the item is stored in every case. */
module AddItem {
  import opened Wrappers
  import opened Types
  import opened NotificationService
  import opened InventoryStore
  import opened UserStore
  import opened ReminderTracking
  import ExpirationStatus

  /** The validated form values. */
  datatype ItemForm = ItemForm(name: string, itemType: ItemType, expirationDate: string, barcode: Option<string>)

  /** The form schema: a name and a date are required, the category is one
      of the three declared ones. */
  predicate ValidItemForm(f: ItemForm) {
    |f.name| >= 1 && |f.expirationDate| >= 1 && !f.itemType.Other?
  }

  /** How the scheduling promise settled. */
  datatype Settlement = Resolved(id: Option<string>) | Rejected

  /** The item built from the form; an empty or absent image reference becomes absent
      image reference, and there is no reminder handle yet. */
  function NewItem(f: ItemForm, id: string, imageUri: Option<string>, status: ItemStatus, createdAt: string): InventoryItem
  {
    InventoryItem(id, f.name, f.itemType, f.expirationDate, f.barcode,
                  if Truthy(imageUri) then imageUri else None, status, None, createdAt)
  }

  /** The item as stored after scheduling settled: with the returned handle
      when there is one, otherwise as built. */
  function StoredItem(item: InventoryItem, s: Settlement): InventoryItem
  {
    match s
    case Resolved(id) => if Truthy(id) then item.(notificationId := id) else item
    case Rejected => item
  }

  lemma StoredItemCases(item: InventoryItem, id: string)
    requires item.notificationId == None
    ensures id != "" ==> StoredItem(item, Resolved(Some(id))) == item.(notificationId := Some(id))
    ensures StoredItem(item, Resolved(None)).notificationId == None
    ensures StoredItem(item, Rejected) == item
    ensures forall s: Settlement :: SameExceptHandle(StoredItem(item, s), item)
  {
  }

  /** The lead-time settings of the current profile, if any. */
  function ProfileSettings(profile: Option<UserProfile>): Option<NotificationSettings> {
    match profile
    case None => None
    case Some(p) => Some(p.notificationSettings)
  }

  /** `onSubmit`. `randomId` is the generated item id, `createdAt` the
      creation timestamp text and `now` the clock in seconds. */
  method Submit(users: UserState, inventory: InventoryState, platform: Platform, form: ItemForm, randomId: string,
                imageUri: Option<string>, createdAt: string, parse: DateParser, now: int, web: bool, fails: bool)
    requires ValidItemForm(form)
    modifies inventory, platform
    ensures var status := ExpirationStatus.ComputeItemStatus(parse(form.expirationDate), form.itemType,
                                                              ProfileSettings(users.profile), now / SecondsPerDay);
      var item := NewItem(form, randomId, imageUri, status, createdAt);
      match users.profile
      case None =>
        platform.State() == old(platform.State()) && inventory.items == [item] + old(inventory.items)
      case Some(p) =>
        var (st', r) := ScheduleSpec(old(platform.State()), item, p.notificationSettings, parse(form.expirationDate), now, web, fails);
        platform.State() == st' && inventory.items == [StoredItem(item, Resolved(r))] + old(inventory.items)
  {
    var status := ExpirationStatus.ComputeItemStatus(parse(form.expirationDate), form.itemType,
                                                      ProfileSettings(users.profile), now / SecondsPerDay);
    var newItem := NewItem(form, randomId, imageUri, status, createdAt);
    if users.profile.Some? {
      var id := ScheduleItemNotification(platform, newItem, users.profile.value.notificationSettings, parse, now, web, fails);
      inventory.AddItem(StoredItem(newItem, Resolved(id)));
    } else {
      inventory.AddItem(newItem);
    }
  }

  /** Adding an item whose id no stored item has keeps the discipline, with
      or without a reminder, and keeps the ids unique. */
  lemma AddKeepsTracked(st: PlatformState, items: seq<InventoryItem>, item: InventoryItem, settings: NotificationSettings,
                        expDay: Option<int>, now: int, web: bool, fails: bool)
    requires item.notificationId == None
    requires forall k :: 0 <= k < |items| ==> items[k].id != item.id
    requires WellFormed(st) && Tracked(items, st.live) && UniqueIds(items)
    ensures Tracked([item] + items, st.live)
    ensures var (st', r) := ScheduleSpec(st, item, settings, expDay, now, web, fails);
      && WellFormed(st') && Tracked([StoredItem(item, Resolved(r))] + items, st'.live)
      && UniqueIds([StoredItem(item, Resolved(r))] + items)
  {
    TrackedPrepend(item, items, st.live);
    ScheduleResult(st, item, settings, expDay, now, web, fails);
    var (st', r) := ScheduleSpec(st, item, settings, expDay, now, web, fails);
    var stored := StoredItem(item, Resolved(r));
    assert stored.id == item.id;
    UniquePrepend(stored, items);
    forall nid | nid in st'.live
      ensures FindItem([stored] + items, st'.live[nid].itemId).Some?
           && FindItem([stored] + items, st'.live[nid].itemId).value.notificationId == Some(nid)
    {
      var id := st'.live[nid].itemId;
      FindPrepend(stored, items, id);
      if r.None? || nid != r.value {
        FindPrepend(item, items, id);
      }
    }
  }
}
