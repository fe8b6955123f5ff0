/** Submitting the edit-profile form: the profile gets the new name, avatar
    and lead times, and when a lead time changed every item's reminder is
    cancelled and scheduled again, one item after the other. */
module EditProfile {
  import opened Wrappers
  import opened Types
  import opened NotificationService
  import opened InventoryStore
  import opened UserStore
  import opened ReminderTracking
  import ExpirationStatus

  /** The validated form values. */
  datatype ProfileForm = ProfileForm(
    userName: string,
    avatarId: string,
    foodLeadTime: int,
    medicineLeadTime: int,
    cosmeticsLeadTime: int)

  const MinNameLength := 2
  const MinLeadTime := 1
  const MaxLeadTime := 30

  /** The form schema: a name of at least two characters, each lead time
      between 1 and 30 days. */
  predicate ValidForm(f: ProfileForm) {
    && |f.userName| >= MinNameLength
    && MinLeadTime <= f.foodLeadTime <= MaxLeadTime
    && MinLeadTime <= f.medicineLeadTime <= MaxLeadTime
    && MinLeadTime <= f.cosmeticsLeadTime <= MaxLeadTime
  }

  function FormSettings(f: ProfileForm): NotificationSettings {
    NotificationSettings(f.foodLeadTime, f.medicineLeadTime, f.cosmeticsLeadTime)
  }

  /** The profile update the form makes. */
  function FormPatch(f: ProfileForm): ProfilePatch {
    NoProfileChanges.(userName := Some(f.userName), avatarId := Some(f.avatarId), notificationSettings := Some(FormSettings(f)))
  }

  /** Whether some lead time differs from the current profile's; without a
      profile every comparison with `undefined` differs. */
  function SettingsChanged(profile: Option<UserProfile>, s: NotificationSettings): bool
  {
    match profile
    case None => true
    case Some(p) =>
      || p.notificationSettings.foodLeadTime != s.foodLeadTime
      || p.notificationSettings.medicineLeadTime != s.medicineLeadTime
      || p.notificationSettings.cosmeticsLeadTime != s.cosmeticsLeadTime
  }

  /** For a present profile: a change exactly when the settings differ. */
  lemma SettingsChangedMeans(p: UserProfile, s: NotificationSettings)
    ensures SettingsChanged(Some(p), s) <==> p.notificationSettings != s
  {
  }

  /** Validated lead times are positive, so expired items get no reminder
      and reminders are only set for fresh items. */
  lemma ValidFormLeadTimes(f: ProfileForm, t: ItemType)
    requires ValidForm(f)
    ensures 1 <= ExpirationStatus.StatusLeadTime(t, Some(FormSettings(f))) <= 30
  {
  }

  /** One turn of the loop: cancel the stored handle (if any), schedule
      anew, and store the new handle when one came back. The item is the one
      from the list as it was when the form was shown. */
  function RescheduleOne(st: PlatformState, stored: seq<InventoryItem>, item: InventoryItem, settings: NotificationSettings,
                         parse: DateParser, web: bool, now: int, fails: bool): (PlatformState, seq<InventoryItem>)
  {
    var st1 := if Truthy(item.notificationId) then CancelSpec(st, item.notificationId, web) else st;
    var (st2, newId) := ScheduleSpec(st1, item, settings, parse(item.expirationDate), now, web, fails);
    (st2, if Truthy(newId) then UpdateById(stored, item.id, NotificationPatch(newId.value)) else stored)
  }

  /** The whole loop over `snapshot`, in list order; `clock(k)` and
      `fails(k)` are the time and the platform outcome of the k-th turn. */
  function Reschedule(st: PlatformState, stored: seq<InventoryItem>, snapshot: seq<InventoryItem>, settings: NotificationSettings,
                      parse: DateParser, web: bool, clock: nat -> int, fails: nat -> bool): (PlatformState, seq<InventoryItem>)
    decreases |snapshot|
  {
    if |snapshot| == 0 then (st, stored)
    else
      var k := |snapshot| - 1;
      var (st1, stored1) := Reschedule(st, stored, snapshot[..k], settings, parse, web, clock, fails);
      RescheduleOne(st1, stored1, snapshot[k], settings, parse, web, clock(k), fails(k))
  }

  /** `onSubmit`. */
  method Submit(users: UserState, inventory: InventoryState, platform: Platform, form: ProfileForm, parse: DateParser,
                web: bool, clock: nat -> int, fails: nat -> bool)
    requires ValidForm(form)
    modifies users, inventory, platform
    ensures users.profile == UpdatedProfile(old(users.profile), FormPatch(form))
    ensures SettingsChanged(old(users.profile), FormSettings(form)) ==>
      (platform.State(), inventory.items)
        == Reschedule(old(platform.State()), old(inventory.items), old(inventory.items), FormSettings(form), parse, web, clock, fails)
    ensures !SettingsChanged(old(users.profile), FormSettings(form)) ==>
      platform.State() == old(platform.State()) && inventory.items == old(inventory.items)
  {
    var newSettings := FormSettings(form);
    var changed := SettingsChanged(users.profile, newSettings);
    users.UpdateProfile(FormPatch(form));
    if changed {
      RescheduleAll(inventory, platform, newSettings, parse, web, clock, fails);
    }
  }

  /** The loop over the items as they were when it started. */
  method RescheduleAll(inventory: InventoryState, platform: Platform, settings: NotificationSettings, parse: DateParser,
                       web: bool, clock: nat -> int, fails: nat -> bool)
    modifies inventory, platform
    ensures (platform.State(), inventory.items)
      == Reschedule(old(platform.State()), old(inventory.items), old(inventory.items), settings, parse, web, clock, fails)
  {
    var items := inventory.items;
    for i := 0 to |items|
      invariant (platform.State(), inventory.items)
        == Reschedule(old(platform.State()), items, items[..i], settings, parse, web, clock, fails)
    {
      RescheduleItem(inventory, platform, items[i], settings, parse, clock(i), web, fails(i));
      assert items[..i + 1][..i] == items[..i];
    }
    assert items[..|items|] == items;
  }

  /** The body of the loop for one item. */
  method RescheduleItem(inventory: InventoryState, platform: Platform, item: InventoryItem, settings: NotificationSettings,
                        parse: DateParser, now: int, web: bool, fails: bool)
    modifies inventory, platform
    ensures (platform.State(), inventory.items)
      == RescheduleOne(old(platform.State()), old(inventory.items), item, settings, parse, web, now, fails)
  {
    if Truthy(item.notificationId) {
      CancelItemNotification(platform, item.notificationId, web);
    }
    var newId := ScheduleItemNotification(platform, item, settings, parse, now, web, fails);
    if Truthy(newId) {
      inventory.UpdateItem(item.id, NotificationPatch(newId.value));
    }
  }

  /** The loop keeps the list's length and order and changes nothing but
      reminder handles. */
  lemma {:induction false} RescheduleShape(st: PlatformState, stored: seq<InventoryItem>, snapshot: seq<InventoryItem>,
                                           settings: NotificationSettings, parse: DateParser, web: bool,
                                           clock: nat -> int, fails: nat -> bool)
    ensures var (_, items) := Reschedule(st, stored, snapshot, settings, parse, web, clock, fails);
      |items| == |stored| && forall k :: 0 <= k < |stored| ==> SameExceptHandle(items[k], stored[k])
    decreases |snapshot|
  {
    if |snapshot| > 0 {
      RescheduleShape(st, stored, snapshot[..|snapshot| - 1], settings, parse, web, clock, fails);
    }
  }

  /** On the web the loop changes nothing at all. */
  lemma {:induction false} RescheduleOnWeb(st: PlatformState, stored: seq<InventoryItem>, snapshot: seq<InventoryItem>,
                                           settings: NotificationSettings, parse: DateParser, clock: nat -> int, fails: nat -> bool)
    ensures Reschedule(st, stored, snapshot, settings, parse, true, clock, fails) == (st, stored)
    decreases |snapshot|
  {
    if |snapshot| > 0 {
      RescheduleOnWeb(st, stored, snapshot[..|snapshot| - 1], settings, parse, clock, fails);
    }
  }

  /** The calls of one turn: they extend the record; off the web the first
      is the cancel of the stored handle when there is one; only the last
      may be a schedule; and the list changes only when that last call is a
      successful schedule for this item, whose id then becomes the handle of
      the items with this id. */
  lemma RescheduleOneCalls(st: PlatformState, stored: seq<InventoryItem>, item: InventoryItem, settings: NotificationSettings,
                           parse: DateParser, web: bool, now: int, fails: bool)
    ensures var (st', stored') := RescheduleOne(st, stored, item, settings, parse, web, now, fails);
      && |st'.calls| >= |st.calls| && st'.calls[..|st.calls|] == st.calls
      && (web ==> st' == st && stored' == stored)
      && (!web && Truthy(item.notificationId) ==>
            |st'.calls| > |st.calls| && st'.calls[|st.calls|] == CancelCall(item.notificationId.value))
      && (forall j | |st.calls| <= j < |st'.calls| - 1 :: st'.calls[j].CancelCall?)
      && (stored' != stored ==>
            var last := st'.calls[|st'.calls| - 1];
            && |st'.calls| > |st.calls|
            && last.ScheduledCall? && last.reminder.itemId == item.id
            && stored' == UpdateById(stored, item.id, NotificationPatch(last.id)))
  {
    var st1 := if Truthy(item.notificationId) then CancelSpec(st, item.notificationId, web) else st;
    assert st1.calls[..|st.calls|] == st.calls;
    assert !web && Truthy(item.notificationId) ==> st1.calls == st.calls + [CancelCall(item.notificationId.value)];
    assert web || !Truthy(item.notificationId) ==> st1 == st;
    var expDay := parse(item.expirationDate);
    ScheduleCalls(st1, item, settings, expDay, now, web, fails);
    var (st2, newId) := ScheduleSpec(st1, item, settings, expDay, now, web, fails);
    PrefixOfPrefix(st2.calls, st1.calls, st.calls);
    forall j | |st.calls| <= j < |st2.calls| - 1
      ensures st2.calls[j].CancelCall?
    {
      if j < |st1.calls| {
        assert st2.calls[j] == st2.calls[..|st1.calls|][j];
      }
    }
    if !web && Truthy(item.notificationId) {
      assert st2.calls[|st.calls|] == st2.calls[..|st1.calls|][|st.calls|];
    }
  }

  lemma PrefixOfPrefix<T>(a: seq<T>, b: seq<T>, c: seq<T>)
    requires |a| >= |b| >= |c| && a[..|b|] == b && b[..|c|] == c
    ensures a[..|c|] == c
  {
    assert a[..|c|] == a[..|b|][..|c|];
  }

  /** One turn keeps the discipline, provided the item is the one the list
      finds under its id. */
  lemma RescheduleOneTracked(st: PlatformState, stored: seq<InventoryItem>, item: InventoryItem, settings: NotificationSettings,
                             parse: DateParser, web: bool, now: int, fails: bool)
    requires WellFormed(st) && Tracked(stored, st.live)
    requires FindItem(stored, item.id) == Some(item)
    ensures var (st', stored') := RescheduleOne(st, stored, item, settings, parse, web, now, fails);
      WellFormed(st') && Tracked(stored', st'.live)
  {
    if !web {
      CancelStoredKeepsTracked(st, stored, item);
      var st1 := if Truthy(item.notificationId) then CancelSpec(st, item.notificationId, false) else st;
      ScheduleKeepsTracked(st1, stored, item, settings, parse(item.expirationDate), now, fails);
    }
  }

  /** Cancelling the stored handle keeps the discipline and leaves no live
      reminder for the item. */
  lemma CancelStoredKeepsTracked(st: PlatformState, stored: seq<InventoryItem>, item: InventoryItem)
    requires WellFormed(st) && Tracked(stored, st.live)
    requires FindItem(stored, item.id) == Some(item)
    ensures var st1 := if Truthy(item.notificationId) then CancelSpec(st, item.notificationId, false) else st;
      && WellFormed(st1) && Tracked(stored, st1.live)
      && forall nid | nid in st1.live :: st1.live[nid].itemId != item.id
  {
    var st1 := if Truthy(item.notificationId) then CancelSpec(st, item.notificationId, false) else st;
    CancelEffect(st, item.notificationId, false);
    PlatformCancelWellFormed(st, item.notificationId.GetOr(""));
    TrackedShrink(stored, st.live, st1.live);
    forall nid | nid in st1.live ensures st1.live[nid].itemId != item.id {
      assert nid != "";
    }
  }

  /** Scheduling for an item with no live reminder, and storing the id that
      comes back, keeps the discipline. */
  lemma ScheduleKeepsTracked(st1: PlatformState, stored: seq<InventoryItem>, item: InventoryItem, settings: NotificationSettings,
                             expDay: Option<int>, now: int, fails: bool)
    requires WellFormed(st1) && Tracked(stored, st1.live)
    requires forall nid | nid in st1.live :: st1.live[nid].itemId != item.id
    requires FindItem(stored, item.id).Some?
    ensures var (st2, newId) := ScheduleSpec(st1, item, settings, expDay, now, false, fails);
      WellFormed(st2) && Tracked(if Truthy(newId) then UpdateById(stored, item.id, NotificationPatch(newId.value)) else stored, st2.live)
  {
    ScheduleResult(st1, item, settings, expDay, now, false, fails);
    var (st2, newId) := ScheduleSpec(st1, item, settings, expDay, now, false, fails);
    if Truthy(newId) {
      var stored' := UpdateById(stored, item.id, NotificationPatch(newId.value));
      forall nid | nid in st2.live
        ensures FindItem(stored', st2.live[nid].itemId).Some? && FindItem(stored', st2.live[nid].itemId).value.notificationId == Some(nid)
      {
        FindAfterUpdate(stored, item.id, newId.value, st2.live[nid].itemId);
      }
    } else {
      TrackedShrink(stored, st1.live, st2.live);
    }
  }

  /** The loop keeps the discipline: if item ids are unique and every live
      reminder is the one its item stores, the same holds afterwards, so no
      item ends up with two live reminders. */
  lemma {:induction false} RescheduleTracked(st: PlatformState, items: seq<InventoryItem>, i: nat, settings: NotificationSettings,
                                             parse: DateParser, web: bool, clock: nat -> int, fails: nat -> bool)
    requires i <= |items|
    requires UniqueIds(items) && WellFormed(st) && Tracked(items, st.live)
    ensures var (st', items') := Reschedule(st, items, items[..i], settings, parse, web, clock, fails);
      && WellFormed(st') && Tracked(items', st'.live) && AtMostOnePerItem(st'.live)
      && |items'| == |items|
      && (forall k :: 0 <= k < |items| ==> items'[k].id == items[k].id)
      && (forall k :: i <= k < |items| ==> items'[k] == items[k])
  {
    if i > 0 {
      RescheduleTracked(st, items, i - 1, settings, parse, web, clock, fails);
      assert items[..i][..i - 1] == items[..i - 1];
      var (st1, items1) := Reschedule(st, items, items[..i - 1], settings, parse, web, clock, fails);
      var item := items[i - 1];
      UniqueSameIds(items, items1);
      FindUnique(items1, i - 1);
      RescheduleOneTracked(st1, items1, item, settings, parse, web, clock(i - 1), fails(i - 1));
      RescheduleOneKeeps(st1, items1, item, settings, parse, web, clock(i - 1), fails(i - 1));
      forall k | i <= k < |items| ensures items1[k].id != item.id {
        assert items[i - 1].id != items[k].id;
      }
    }
    var (st', items') := Reschedule(st, items, items[..i], settings, parse, web, clock, fails);
    TrackedGivesAtMostOne(items', st'.live);
  }

  /** One turn keeps every id, and changes no item with another id. */
  lemma RescheduleOneKeeps(st: PlatformState, stored: seq<InventoryItem>, item: InventoryItem, settings: NotificationSettings,
                           parse: DateParser, web: bool, now: int, fails: bool)
    ensures var (_, stored') := RescheduleOne(st, stored, item, settings, parse, web, now, fails);
      && |stored'| == |stored|
      && (forall k :: 0 <= k < |stored| ==> stored'[k].id == stored[k].id)
      && (forall k :: 0 <= k < |stored| && stored[k].id != item.id ==> stored'[k] == stored[k])
  {
  }

  /** Ids unique in one list are unique in a list with the same ids. */
  lemma UniqueSameIds(a: seq<InventoryItem>, b: seq<InventoryItem>)
    requires UniqueIds(a) && |a| == |b|
    requires forall k :: 0 <= k < |a| ==> a[k].id == b[k].id
    ensures UniqueIds(b)
  {
  }

  /** Raising a lead time past the days an item has left turns it from Fresh
      to Expiring Soon, and its reschedule then yields no reminder: the new
      warning instant is already past. Food, 3 days raised to 7, expiring in
      5 days. */
  lemma RaisedLeadTimeDropsReminder(st: PlatformState, item: InventoryItem, now: int, web: bool, fails: bool)
    requires item.itemType == Food
    ensures var today := now / SecondsPerDay;
      var before := NotificationSettings(3, 7, 7);
      var after := NotificationSettings(7, 7, 7);
      && ExpirationStatus.ComputeItemStatus(Some(today + 5), Food, Some(before), today) == Fresh
      && ExpirationStatus.ComputeItemStatus(Some(today + 5), Food, Some(after), today) == ExpiringSoon
      && ScheduleSpec(st, item, after, Some(today + 5), now, web, fails).1 == None
  {
    var today := now / SecondsPerDay;
    assert today * SecondsPerDay <= now;
    assert GetNotificationDate(today + 5, Food, NotificationSettings(7, 7, 7)) == (today - 2) * SecondsPerDay;
  }
}
