/** The status engine: an item's status from its expiration day, its
    category and the lead times, relative to a given day. */
module ExpirationStatus {
  import opened Wrappers
  import opened Types

  /** Day count reported for a date that does not parse. */
  const InvalidDateDays := 999

  /** Lead time used by the status engine: the built-in defaults when there
      are no settings, the category's own setting otherwise; an unknown
      category falls back to the food values. */
  function StatusLeadTime(t: ItemType, settings: Option<NotificationSettings>): int
  {
    match settings
    case None =>
      (match t
       case Food => 3
       case Medicine => 7
       case Cosmetics => 7
       case Other(_) => 3)
    case Some(s) =>
      (match t
       case Food => s.foodLeadTime
       case Medicine => s.medicineLeadTime
       case Cosmetics => s.cosmeticsLeadTime
       case Other(_) => s.foodLeadTime)
  }

  /** Signed number of days from `today` to the expiration day (negative once
      it has passed), or the sentinel for an unparseable date. */
  function DaysUntilExpiration(expDay: Option<int>, today: int): int
  {
    match expDay
    case None => InvalidDateDays
    case Some(d) => d - today
  }

  /** The status of an item expiring on day `expDay` (`None`: the date does
      not parse), seen on day `today`. */
  function ComputeItemStatus(expDay: Option<int>, t: ItemType, settings: Option<NotificationSettings>, today: int): (r: ItemStatus)
    ensures expDay.None? ==> r == Fresh
    ensures expDay.Some? ==> (r == Expired <==> DaysUntilExpiration(expDay, today) < 0)
    ensures expDay.Some? ==>
      (r == ExpiringSoon <==> 0 <= DaysUntilExpiration(expDay, today) <= StatusLeadTime(t, settings))
  {
    match expDay
    case None => Fresh
    case Some(d) =>
      var daysUntil := d - today;
      if daysUntil < 0 then Expired
      else if daysUntil <= StatusLeadTime(t, settings) then ExpiringSoon
      else Fresh
  }

  /** How urgent a status is: Fresh < Expiring Soon < Expired. */
  function Urgency(s: ItemStatus): nat {
    match s
    case Fresh => 0
    case ExpiringSoon => 1
    case Expired => 2
  }

  /** The boundaries: the last day of the lead time and the expiration day
      itself are warnings, the day before the lead time starts is still
      fresh, and the day after expiry is expired. */
  lemma StatusBoundaries(d: int, t: ItemType, settings: Option<NotificationSettings>, today: int)
    requires StatusLeadTime(t, settings) >= 0
    ensures d - today == StatusLeadTime(t, settings) ==> ComputeItemStatus(Some(d), t, settings, today) == ExpiringSoon
    ensures d - today == StatusLeadTime(t, settings) + 1 ==> ComputeItemStatus(Some(d), t, settings, today) == Fresh
    ensures d - today == 0 ==> ComputeItemStatus(Some(d), t, settings, today) == ExpiringSoon
    ensures d - today == -1 ==> ComputeItemStatus(Some(d), t, settings, today) == Expired
  {
  }

  /** As days pass a status only becomes more urgent: never back from
      Expired, never back to Fresh. */
  lemma StatusMonotoneInTime(expDay: Option<int>, t: ItemType, settings: Option<NotificationSettings>, today1: int, today2: int)
    requires today1 <= today2
    ensures Urgency(ComputeItemStatus(expDay, t, settings, today1)) <= Urgency(ComputeItemStatus(expDay, t, settings, today2))
  {
  }

  /** A longer lead time can only make a status more urgent. */
  lemma StatusMonotoneInLeadTime(d: int, t: ItemType, s1: NotificationSettings, s2: NotificationSettings, today: int)
    requires StatusLeadTime(t, Some(s1)) <= StatusLeadTime(t, Some(s2))
    ensures Urgency(ComputeItemStatus(Some(d), t, Some(s1), today)) <= Urgency(ComputeItemStatus(Some(d), t, Some(s2), today))
  {
  }

  /** The lead times: defaults 3/7/7 without settings, the category's own
      field with settings. */
  lemma StatusLeadTimes(s: NotificationSettings)
    ensures StatusLeadTime(Food, None) == 3
    ensures StatusLeadTime(Medicine, None) == 7
    ensures StatusLeadTime(Cosmetics, None) == 7
    ensures StatusLeadTime(Food, Some(s)) == s.foodLeadTime
    ensures StatusLeadTime(Medicine, Some(s)) == s.medicineLeadTime
    ensures StatusLeadTime(Cosmetics, Some(s)) == s.cosmeticsLeadTime
  {
  }

  /** For a valid date the day count is the signed difference and is negative
      exactly when the item is expired. */
  lemma DaysUntilMeansExpired(d: int, t: ItemType, settings: Option<NotificationSettings>, today: int)
    ensures DaysUntilExpiration(Some(d), today) == d - today
    ensures DaysUntilExpiration(Some(d), today) < 0 <==> ComputeItemStatus(Some(d), t, settings, today) == Expired
    ensures DaysUntilExpiration(None, today) == InvalidDateDays
  {
  }

  /** Two items that differ at most in their cached status. */
  predicate SameExceptStatus(a: InventoryItem, b: InventoryItem) {
    a.(status := b.status) == b
  }

  /** Every item with its status recomputed; a new list, same order. */
  function ComputeAllItemStatuses(items: seq<InventoryItem>, settings: Option<NotificationSettings>, parse: DateParser, today: int): (r: seq<InventoryItem>)
    ensures |r| == |items|
    ensures forall i :: 0 <= i < |items| ==>
      SameExceptStatus(r[i], items[i]) &&
      r[i].status == ComputeItemStatus(parse(items[i].expirationDate), items[i].itemType, settings, today)
  {
    seq(|items|, i requires 0 <= i < |items| =>
      items[i].(status := ComputeItemStatus(parse(items[i].expirationDate), items[i].itemType, settings, today)))
  }

  /** The stored status plays no part in the computation, so recomputing is
      idempotent. */
  lemma RecomputeIdempotent(items: seq<InventoryItem>, settings: Option<NotificationSettings>, parse: DateParser, today: int)
    ensures ComputeAllItemStatuses(ComputeAllItemStatuses(items, settings, parse, today), settings, parse, today)
         == ComputeAllItemStatuses(items, settings, parse, today)
  {
  }

  /** Whether an item warrants a reminder: it is expiring soon or expired. */
  function ShouldNotify(item: InventoryItem, settings: Option<NotificationSettings>, parse: DateParser, today: int): bool
  {
    var s := ComputeItemStatus(parse(item.expirationDate), item.itemType, settings, today);
    s == ExpiringSoon || s == Expired
  }

  /** An item warrants a reminder exactly when its date is valid and is
      either past or at most its lead time away. */
  lemma ShouldNotifyMeans(item: InventoryItem, settings: Option<NotificationSettings>, parse: DateParser, today: int)
    ensures ShouldNotify(item, settings, parse, today) <==>
      var days := DaysUntilExpiration(parse(item.expirationDate), today);
      parse(item.expirationDate).Some? && (days < 0 || days <= StatusLeadTime(item.itemType, settings))
  {
  }
}
