/** Reminder scheduling against the device's notification platform.

    The platform is modelled by its observable state: the live (scheduled,
    not yet cancelled) reminders by id, how many ids it has issued, and the
    sequence of calls it has received. It issues the decimal numerals
    "0", "1", "2", ... as ids, so every id is fresh. Time is in whole
    seconds; day `d` starts at second `d * 86400`. */
module NotificationService {
  import opened Wrappers
  import opened Types
  import Decimal
  import ExpirationStatus

  const SecondsPerDay := 86400

  /** Lead time for a category outside the declared ones. */
  const FallbackLeadTime := 3

  /** A one-shot reminder: the item it is about (the payload's `itemId`),
      the delay in seconds from the moment it was scheduled, and whether the
      trigger repeats. Title and body texts are not modelled. */
  datatype Reminder = Reminder(itemId: string, seconds: int, repeats: bool)

  /** A call the platform received. */
  datatype Call =
    | CancelCall(id: string)
    | ScheduledCall(id: string, reminder: Reminder)
    | RejectedCall(reminder: Reminder)

  datatype PlatformState = PlatformState(live: map<string, Reminder>, issued: nat, calls: seq<Call>)

  /** The id the platform gives to its `n`-th reminder. */
  function PlatformId(n: nat): string {
    Decimal.NatToString(n)
  }

  /** Every live id is one the platform issued earlier. */
  predicate WellFormed(st: PlatformState) {
    forall id | id in st.live :: Decimal.ParseNat(id).Some? && Decimal.ParseNat(id).value < st.issued
  }

  /** The platform's cancel: the id is no longer live, every other live
      reminder stays; an unknown id changes nothing but the call record. */
  function PlatformCancel(st: PlatformState, id: string): (r: PlatformState)
    ensures id !in r.live
    ensures forall other | other in st.live && other != id :: other in r.live && r.live[other] == st.live[other]
    ensures r.live.Keys <= st.live.Keys
    ensures id !in st.live ==> r.live == st.live
    ensures r.issued == st.issued && r.calls == st.calls + [CancelCall(id)]
  {
    st.(live := st.live - {id}, calls := st.calls + [CancelCall(id)])
  }

  /** The platform's schedule: on success a new id with the reminder, on
      failure (`fails`: the platform raises an error) nothing is added. */
  function PlatformSchedule(st: PlatformState, rem: Reminder, fails: bool): (PlatformState, Option<string>)
  {
    if fails then (st.(calls := st.calls + [RejectedCall(rem)]), None)
    else
      var id := PlatformId(st.issued);
      (PlatformState(st.live[id := rem], st.issued + 1, st.calls + [ScheduledCall(id, rem)]), Some(id))
  }

  lemma PlatformCancelWellFormed(st: PlatformState, id: string)
    requires WellFormed(st)
    ensures WellFormed(PlatformCancel(st, id))
  {
  }

  /** A scheduled id is new, non-empty and now live with the reminder; the
      other live reminders are untouched. */
  lemma PlatformScheduleFresh(st: PlatformState, rem: Reminder, fails: bool)
    requires WellFormed(st)
    ensures var (st', r) := PlatformSchedule(st, rem, fails);
      && WellFormed(st')
      && (r.None? <==> fails)
      && (r.None? ==> st'.live == st.live)
      && (r.Some? ==> r.value !in st.live && r.value != "" && st'.live == st.live[r.value := rem])
  {
    Decimal.ParseNatToString(st.issued);
  }

  /** The notification platform as a mutable object. */
  class Platform {
    var live: map<string, Reminder>
    var issued: nat
    var calls: seq<Call>

    function State(): PlatformState
      reads this
    {
      PlatformState(live, issued, calls)
    }

    constructor ()
      ensures State() == PlatformState(map[], 0, [])
    {
      live, issued, calls := map[], 0, [];
    }

    method Cancel(id: string)
      modifies this
      ensures State() == PlatformCancel(old(State()), id)
    {
      live := live - {id};
      calls := calls + [CancelCall(id)];
    }

    method Schedule(rem: Reminder, fails: bool) returns (id: Option<string>)
      modifies this
      ensures (State(), id) == PlatformSchedule(old(State()), rem, fails)
    {
      if fails {
        calls := calls + [RejectedCall(rem)];
        return None;
      }
      var newId := PlatformId(issued);
      live := live[newId := rem];
      issued := issued + 1;
      calls := calls + [ScheduledCall(newId, rem)];
      id := Some(newId);
    }
  }

  /** `getLeadTime`: the category's setting, and the fallback for any other
      category. */
  function GetLeadTime(t: ItemType, settings: NotificationSettings): int
  {
    match t
    case Food => settings.foodLeadTime
    case Medicine => settings.medicineLeadTime
    case Cosmetics => settings.cosmeticsLeadTime
    case Other(_) => FallbackLeadTime
  }

  /** `getNotificationDate`, in seconds: the start of the expiration day
      moved back by the lead time, which is the food lead time unless the
      category is Medicine or Cosmetics. */
  function GetNotificationDate(expDay: int, t: ItemType, settings: NotificationSettings): int
  {
    var leadTime :=
      if t == Medicine then settings.medicineLeadTime
      else if t == Cosmetics then settings.cosmeticsLeadTime
      else settings.foodLeadTime;
    (expDay - leadTime) * SecondsPerDay
  }

  /** The notification instant is the start of the day that lies the status
      engine's lead time before expiry; for the declared categories that
      lead time is `GetLeadTime`'s. */
  lemma NotificationDateMeans(expDay: int, t: ItemType, settings: NotificationSettings)
    ensures var lead := ExpirationStatus.StatusLeadTime(t, Some(settings));
      && GetNotificationDate(expDay, t, settings) == (expDay - lead) * SecondsPerDay
      && GetNotificationDate(expDay, t, settings) / SecondsPerDay == expDay - lead
      && GetNotificationDate(expDay, t, settings) % SecondsPerDay == 0
    ensures !t.Other? ==> GetNotificationDate(expDay, t, settings) == (expDay - GetLeadTime(t, settings)) * SecondsPerDay
  {
  }

  /** `getLeadTime` returns the matching field, and 3 for an unknown category. */
  lemma LeadTimeLookup(settings: NotificationSettings, tag: string)
    ensures GetLeadTime(Food, settings) == settings.foodLeadTime
    ensures GetLeadTime(Medicine, settings) == settings.medicineLeadTime
    ensures GetLeadTime(Cosmetics, settings) == settings.cosmeticsLeadTime
    ensures GetLeadTime(Other(tag), settings) == 3
  {
  }

  /** The decision part of scheduling: the delay in seconds to request, or
      `None` when no reminder is requested. An unparseable date yields no
      valid interval (the platform receives NaN and rejects it; the error is
      caught), so it is `None` too. */
  function ReminderOffset(expDay: Option<int>, t: ItemType, settings: NotificationSettings, now: int): Option<int>
  {
    match expDay
    case None => None
    case Some(d) =>
      var notifyAt := GetNotificationDate(d, t, settings);
      if notifyAt < now && d < now / SecondsPerDay then None   // already expired
      else if notifyAt - now <= 0 then None                     // warning point passed
      else Some(notifyAt - now)
  }

  /** `cancelItemNotification`: nothing on the web or for a missing or empty
      id, otherwise the platform's cancel. */
  function CancelSpec(st: PlatformState, notificationId: Option<string>, web: bool): PlatformState
  {
    if web || !Truthy(notificationId) then st else PlatformCancel(st, notificationId.value)
  }

  /** `scheduleItemNotification`: on the web nothing; otherwise cancel the
      handle named by the ITEM's id, then request a reminder if one is due. */
  function ScheduleSpec(st: PlatformState, item: InventoryItem, settings: NotificationSettings, expDay: Option<int>,
                        now: int, web: bool, fails: bool): (PlatformState, Option<string>)
  {
    if web then (st, None)
    else
      var st1 := CancelSpec(st, Some(item.id), false);
      match ReminderOffset(expDay, item.itemType, settings, now)
      case None => (st1, None)
      case Some(secs) => PlatformSchedule(st1, Reminder(item.id, secs, false), fails)
  }

  method CancelItemNotification(p: Platform, notificationId: Option<string>, web: bool)
    modifies p
    ensures p.State() == CancelSpec(old(p.State()), notificationId, web)
  {
    if web || !Truthy(notificationId) {
      return;
    }
    p.Cancel(notificationId.value);
  }

  method ScheduleItemNotification(p: Platform, item: InventoryItem, settings: NotificationSettings, parse: DateParser,
                                  now: int, web: bool, fails: bool) returns (id: Option<string>)
    modifies p
    ensures (p.State(), id) == ScheduleSpec(old(p.State()), item, settings, parse(item.expirationDate), now, web, fails)
  {
    if web {
      return None;
    }
    CancelItemNotification(p, Some(item.id), web);
    var expDay := parse(item.expirationDate);
    if expDay.None? {
      return None;
    }
    var notifyAt := GetNotificationDate(expDay.value, item.itemType, settings);
    if notifyAt < now {
      if expDay.value < now / SecondsPerDay {
        return None;
      }
    }
    var seconds := notifyAt - now;
    if seconds <= 0 {
      return None;
    }
    id := p.Schedule(Reminder(item.id, seconds, false), fails);
  }

  /** Cancelling: on the web or with a missing/empty id nothing changes;
      otherwise the id is no longer live and every other live reminder stays. */
  lemma CancelEffect(st: PlatformState, notificationId: Option<string>, web: bool)
    ensures web || !Truthy(notificationId) ==> CancelSpec(st, notificationId, web) == st
    ensures !web && Truthy(notificationId) ==>
      var st' := CancelSpec(st, notificationId, web);
      && notificationId.value !in st'.live
      && (forall other | other in st.live && other != notificationId.value :: other in st'.live && st'.live[other] == st.live[other])
      && (notificationId.value !in st.live ==> st'.live == st.live)
  {
  }

  /** On the web scheduling returns none and touches nothing. */
  lemma ScheduleOnWeb(st: PlatformState, item: InventoryItem, settings: NotificationSettings, expDay: Option<int>, now: int, fails: bool)
    ensures ScheduleSpec(st, item, settings, expDay, now, true, fails) == (st, None)
  {
  }

  /** Off the web, the first call the platform receives is the cancel of the
      item's own id (for a non-empty id), and the older calls are kept. */
  lemma ScheduleCancelsItemIdFirst(st: PlatformState, item: InventoryItem, settings: NotificationSettings, expDay: Option<int>, now: int, fails: bool)
    requires item.id != ""
    ensures var (st', _) := ScheduleSpec(st, item, settings, expDay, now, false, fails);
      |st'.calls| > |st.calls| && st'.calls[..|st.calls|] == st.calls && st'.calls[|st.calls|] == CancelCall(item.id)
  {
    var st1 := PlatformCancel(st, item.id);
    assert st1.calls[..|st.calls|] == st.calls;
    match ReminderOffset(expDay, item.itemType, settings, now)
    case None =>
    case Some(secs) =>
      var (st', _) := PlatformSchedule(st1, Reminder(item.id, secs, false), fails);
      assert st'.calls == st1.calls + [st'.calls[|st'.calls| - 1]];
      assert st'.calls[..|st.calls|] == st.calls;
  }

  /** The calls `scheduleItemNotification` makes: it only adds calls; on
      the web none; all but the last added are cancels; and when an id comes
      back the last call is the schedule for this item that produced it. */
  lemma ScheduleCalls(st: PlatformState, item: InventoryItem, settings: NotificationSettings, expDay: Option<int>, now: int, web: bool, fails: bool)
    ensures var (st', r) := ScheduleSpec(st, item, settings, expDay, now, web, fails);
      && |st'.calls| >= |st.calls| && st'.calls[..|st.calls|] == st.calls
      && (web ==> st' == st && r.None?)
      && (forall j | |st.calls| <= j < |st'.calls| - 1 :: st'.calls[j].CancelCall?)
      && (r.Some? ==>
            && |st'.calls| > |st.calls|
            && st'.calls[|st'.calls| - 1].ScheduledCall?
            && st'.calls[|st'.calls| - 1].id == r.value
            && st'.calls[|st'.calls| - 1].reminder.itemId == item.id)
  {
    if !web {
      var st1 := PlatformCancel(st, item.id);
      assert st1.calls[..|st.calls|] == st.calls;
      match ReminderOffset(expDay, item.itemType, settings, now)
      case None =>
      case Some(secs) =>
        var (st', _) := PlatformSchedule(st1, Reminder(item.id, secs, false), fails);
        assert st'.calls == st1.calls + [st'.calls[|st'.calls| - 1]];
        assert st'.calls[..|st.calls|] == st.calls;
    }
  }

  /** A reminder is requested, and an id returned, exactly when the platform
      is not the web, the date is valid, the notification instant lies at
      least one whole second ahead and the platform does not fail. The
      request is a one-shot reminder for the item after exactly that delay. */
  lemma ScheduleResult(st: PlatformState, item: InventoryItem, settings: NotificationSettings, expDay: Option<int>, now: int, web: bool, fails: bool)
    requires WellFormed(st)
    ensures var (st', r) := ScheduleSpec(st, item, settings, expDay, now, web, fails);
      && WellFormed(st')
      && (r.Some? <==>
           !web && !fails && expDay.Some? && GetNotificationDate(expDay.value, item.itemType, settings) - now >= 1)
      && (r.Some? ==>
           var secs := GetNotificationDate(expDay.value, item.itemType, settings) - now;
           && r.value !in st.live
           && r.value in st'.live
           && st'.live[r.value] == Reminder(item.id, secs, false)
           && st'.calls[|st'.calls| - 1] == ScheduledCall(r.value, Reminder(item.id, secs, false)))
      && (r.Some? ==> r.value != "")
      && (forall nid | nid in st'.live && (r.None? || nid != r.value) :: nid in st.live && st'.live[nid] == st.live[nid])
  {
    if !web {
      var st1 := CancelSpec(st, Some(item.id), false);
      PlatformCancelWellFormed(st, item.id);
      match ReminderOffset(expDay, item.itemType, settings, now)
      case None =>
      case Some(secs) =>
        PlatformScheduleFresh(st1, Reminder(item.id, secs, false), fails);
        Decimal.ParseNatToString(st.issued);
    }
  }

  /** An item whose expiration day is already past gets no reminder (for a
      non-negative lead time). */
  lemma ExpiredItemGetsNoReminder(st: PlatformState, item: InventoryItem, settings: NotificationSettings, d: int, now: int, web: bool, fails: bool)
    requires d < now / SecondsPerDay
    requires ExpirationStatus.StatusLeadTime(item.itemType, Some(settings)) >= 0
    ensures ScheduleSpec(st, item, settings, Some(d), now, web, fails).1 == None
  {
    NotificationDateMeans(d, item.itemType, settings);
    var today := now / SecondsPerDay;
    assert today * SecondsPerDay <= now;
    var lead := ExpirationStatus.StatusLeadTime(item.itemType, Some(settings));
    assert (d - lead) * SecondsPerDay <= d * SecondsPerDay < today * SecondsPerDay;
  }

  /** A reminder is only scheduled for an item that is Fresh at that moment
      (for a non-negative lead time): for one already expiring soon the
      warning instant has passed. */
  lemma ScheduledOnlyWhenFresh(st: PlatformState, item: InventoryItem, settings: NotificationSettings, d: int, now: int, web: bool, fails: bool)
    requires ScheduleSpec(st, item, settings, Some(d), now, web, fails).1.Some?
    requires ExpirationStatus.StatusLeadTime(item.itemType, Some(settings)) >= 0
    ensures ExpirationStatus.ComputeItemStatus(Some(d), item.itemType, Some(settings), now / SecondsPerDay) == Fresh
  {
    NotificationDateMeans(d, item.itemType, settings);
    assert ReminderOffset(Some(d), item.itemType, settings, now).Some?;
    var today := now / SecondsPerDay;
    var lead := ExpirationStatus.StatusLeadTime(item.itemType, Some(settings));
    assert now < GetNotificationDate(d, item.itemType, settings);
    assert today * SecondsPerDay <= now < (d - lead) * SecondsPerDay;
    assert today < d - lead;
    assert ExpirationStatus.DaysUntilExpiration(Some(d), today) > lead;
  }

  /** When the reminder fires (delay after `now`), the item has just become
      Expiring Soon: it is the first day of its lead time. */
  lemma ReminderFiresWhenExpiringSoon(st: PlatformState, item: InventoryItem, settings: NotificationSettings, d: int, now: int, web: bool, fails: bool)
    requires ScheduleSpec(st, item, settings, Some(d), now, web, fails).1.Some?
    requires ExpirationStatus.StatusLeadTime(item.itemType, Some(settings)) >= 0
    ensures var secs := GetNotificationDate(d, item.itemType, settings) - now;
      var fireDay := (now + secs) / SecondsPerDay;
      && ExpirationStatus.DaysUntilExpiration(Some(d), fireDay) == ExpirationStatus.StatusLeadTime(item.itemType, Some(settings))
      && ExpirationStatus.ComputeItemStatus(Some(d), item.itemType, Some(settings), fireDay) == ExpiringSoon
  {
    NotificationDateMeans(d, item.itemType, settings);
  }

  /** The cancel inside scheduling is passed the item's id, not its stored
      handle: every live reminder whose id differs from the item's id
      survives a reschedule, including the item's own earlier reminder. */
  lemma ScheduleKeepsOtherReminders(st: PlatformState, item: InventoryItem, settings: NotificationSettings, expDay: Option<int>, now: int, web: bool, fails: bool)
    requires WellFormed(st)
    ensures var (st', _) := ScheduleSpec(st, item, settings, expDay, now, web, fails);
      forall nid | nid in st.live && nid != item.id :: nid in st'.live && st'.live[nid] == st.live[nid]
  {
    ScheduleResult(st, item, settings, expDay, now, web, fails);
  }

  /** Hence scheduling the same item twice in a row leaves two live
      reminders for it when its id is not a platform id: here "0" and "1"
      both remind about "milk". */
  lemma TwoSchedulesLeaveTwoReminders()
    ensures
      var item := InventoryItem("milk", "Milk", Food, "1970-01-11", None, None, Fresh, None, "");
      var settings := NotificationSettings(3, 7, 7);
      var (st1, r1) := ScheduleSpec(PlatformState(map[], 0, []), item, settings, Some(10), 0, false, false);
      var (st2, r2) := ScheduleSpec(st1, item, settings, Some(10), 0, false, false);
      && r1 == Some("0") && r2 == Some("1")
      && "0" in st2.live && "1" in st2.live
      && st2.live["0"].itemId == "milk" && st2.live["1"].itemId == "milk"
  {
    assert PlatformId(0) == "0";
    assert PlatformId(1) == "1";
  }
}
