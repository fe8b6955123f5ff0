# Expiry tracking core, modelled in Dafny

The application keeps an inventory of food, medicine and cosmetics, each
with an expiration date. Every item has a status: Fresh, Expiring Soon
(within the lead time its category has in the user's settings) or Expired.
The application asks the device's notification platform for a one-shot
reminder when an item's warning day arrives. This project models the core
of that behaviour and proves properties of the model:

- the status engine (`expirationStatus.ts`);
- the reminder scheduler (`notificationService.ts`), over an abstract
  platform that keeps a map from reminder id to reminder;
- the two stores (`inventoryStore.ts`, `userStore.ts`) as classes whose
  methods update their fields;
- the submit handlers of the add-item and edit-profile screens, as
  imperative methods over those stores and the platform;
- the text helpers: the recipe suggestion, the share message, the CSV and
  JSON export records, the export date stamp and the start-up language.

The central property is the platform's at-most-one-reminder-per-item
discipline. It is carried by the invariant `ReminderTracking.Tracked`:
every live reminder is the one whose id the item with the reminder's
`itemId` stores. For unique item ids, the edit-profile loop
(`EditProfile.RescheduleTracked`) and adding an item
(`AddItem.AddKeepsTracked`) preserve it, and it implies
`AtMostOnePerItem`. The loop requires the ids in the list to be unique,
and adding requires the new id to be absent from it. The source does not
check that its random id is new (add-item.tsx:102).

Conventions of the model:

- Dates are day numbers. A `DateParser` (`string -> Option<int>`) stands
  for `parseISO` + `isValid` + `startOfDay`; `None` is an invalid date.
- The clock is `now`, in whole seconds; today is `now / 86400`.
- The notification platform returns decimal ids `"0"`, `"1"`, …, one per
  successful request. `web` is one flag for the platform's kind, the same
  for every call; `fails` is the outcome of a request. In the edit-profile
  loop the clock and the outcome are given per turn (`clock(k)`,
  `fails(k)`), while `web` stays fixed.
- The JavaScript built-ins are written out as functions: `Text.JoinWith`
  for `join` (exportData.ts:27, 29), `Text.SplitOn` for `split` on one
  character, `Text.Lower` for `toLowerCase` and `Text.Contains` for
  `includes` (recipeMatcher.ts:19), and `Decimal.NatToString` /
  `Decimal.ParseNat` for the platform's decimal ids. They are stated
  through `Text.SplitJoin`, `Text.ContainsMeans`,
  `RecipeMatcher.SomeIngredientMeans` and
  `NotificationService.PlatformScheduleFresh`.
- `ReminderTracking.FindItem` is the lookup of the first item with a given
  id, as done by the item screens (app/item/[id].tsx:31, app/edit-item/[id].tsx:60).
  Its rows cite the place where the at-most-one discipline reads the
  handle of the item found (edit-profile.tsx:94).
- `ItemType.Other(tag)` stands for a category string outside the declared
  union, so that the `default:` branches of the source are modelled.

Where the code and the system's design description differ, the model
follows the code:

- The description has a reschedule first retire the item's previous
  reminder, so that scheduling the same item twice leaves one reminder.
  The code cancels `item.id` (notificationService.ts:59), which is not a
  reminder id. Two schedules of the same item therefore leave two live
  reminders (`NotificationService.TwoSchedulesLeaveTwoReminders`). The
  edit-profile handler compensates: it cancels the stored handle first
  (edit-profile.tsx:94-96).
- The description expects that raising Food's lead time from 3 to 7 days,
  for an item expiring in 5 days, yields a new reminder id. In the code
  the new warning instant is already past, so no reminder is scheduled
  (`EditProfile.RaisedLeadTimeDropsReminder`). The reschedule loop also
  leaves the stored `status` field unchanged (`EditProfile.RescheduleShape`).
- The description has the edit-profile loop write the new reminder id,
  or none, back into the item. The code writes back only an id that came
  back (edit-profile.tsx:98-100). When none comes back, the item keeps
  its old handle, which was just cancelled (`EditProfile.RescheduleOneCalls`).
- CSV rows are joined with a line feed (exportData.ts:29), not the CRLF of
  rule 2 of section 2 of RFC 4180. The quoting of the name follows rule 7
  of that section.

## Model

| member | source | states |
|---|---|---|
| ExpirationStatus.ComputeItemStatus | src/utils/expirationStatus.ts:14-50 | an invalid date is Fresh; Expired exactly when the day count is negative; Expiring Soon exactly when 0 ≤ days ≤ the category's lead time; Fresh otherwise |
| ExpirationStatus.StatusBoundaries | src/utils/expirationStatus.ts:34-47 | days == lead time is Expiring Soon, lead time + 1 is Fresh, day 0 is Expiring Soon, day −1 is Expired (for a non-negative lead time) |
| ExpirationStatus.StatusMonotoneInTime | src/utils/expirationStatus.ts:34-49 | as the day advances, the status never becomes less urgent |
| ExpirationStatus.StatusMonotoneInLeadTime | src/utils/expirationStatus.ts:42-47 | a longer lead time never makes the status less urgent |
| ExpirationStatus.StatusLeadTimes | src/utils/expirationStatus.ts:55-79 | without settings, Food 3, Medicine 7, Cosmetics 7; with settings, each category its own field |
| ExpirationStatus.StatusLeadTime | src/utils/expirationStatus.ts:55-79 | no contract of its own; stated by `ExpirationStatus.StatusLeadTimes` |
| ExpirationStatus.DaysUntilMeansExpired | src/utils/expirationStatus.ts:109-123 | the day count is expDay − today for a valid date, 999 for an invalid one; for a valid date it is negative exactly when the status is Expired |
| ExpirationStatus.DaysUntilExpiration | src/utils/expirationStatus.ts:109-123 | no contract of its own; stated by `ExpirationStatus.DaysUntilMeansExpired` |
| ExpirationStatus.ComputeAllItemStatuses | src/utils/expirationStatus.ts:85-93 | same length and order; each element differs from its input only in `status`, which is that element's computed status |
| ExpirationStatus.RecomputeIdempotent | src/utils/expirationStatus.ts:85-93 | recomputing all statuses a second time changes nothing |
| ExpirationStatus.ShouldNotifyMeans | src/utils/expirationStatus.ts:98-104 | true exactly when the date is valid and the item is expired or within its lead time, that is, when the status is Expiring Soon or Expired |
| ExpirationStatus.ShouldNotify | src/utils/expirationStatus.ts:98-104 | no contract of its own; stated by `ExpirationStatus.ShouldNotifyMeans` |
| NotificationService.PlatformCancel | src/utils/notificationService.ts:125 | the cancelled id is no longer live; every other live reminder is kept; an unknown id changes no reminder; the call is recorded |
| NotificationService.PlatformCancelWellFormed | src/utils/notificationService.ts:125 | a cancel keeps every live id below the platform's counter |
| NotificationService.PlatformScheduleFresh | src/utils/notificationService.ts:99-110 | a successful request returns an id that was not live, now maps to the requested reminder, and leaves the other reminders as they were |
| NotificationService.PlatformSchedule | src/utils/notificationService.ts:99-115 | no contract of its own; stated by `NotificationService.PlatformScheduleFresh` |
| NotificationService.Platform.Cancel | src/utils/notificationService.ts:125 | the platform's new state is the cancel applied to its old state |
| NotificationService.Platform.Schedule | src/utils/notificationService.ts:99-110 | the platform's new state and the returned id are those of a schedule request on the old state |
| NotificationService.NotificationDateMeans | src/utils/notificationService.ts:41-50 | the warning instant is the start of the expiration day minus the lead time (Food's for any other category) in days |
| NotificationService.GetNotificationDate | src/utils/notificationService.ts:41-50 | no contract of its own; stated by `NotificationService.NotificationDateMeans` |
| NotificationService.LeadTimeLookup | src/utils/notificationService.ts:134-141 | each category gets its own settings field, any other category gets 3 |
| NotificationService.GetLeadTime | src/utils/notificationService.ts:134-141 | no contract of its own; stated by `NotificationService.LeadTimeLookup` |
| NotificationService.CancelItemNotification | src/utils/notificationService.ts:121-129 | the platform's new state is that of the cancel operation |
| NotificationService.CancelEffect | src/utils/notificationService.ts:121-129 | on the web, or with an absent or empty id, nothing changes; otherwise that id is no longer live and every other live reminder is kept |
| NotificationService.CancelSpec | src/utils/notificationService.ts:121-129 | no contract of its own; stated by `NotificationService.CancelEffect` and `NotificationService.CancelItemNotification` |
| NotificationService.ScheduleItemNotification | src/utils/notificationService.ts:55-116 | the platform's new state and the returned id are those of the schedule operation |
| NotificationService.ReminderOffset | src/utils/notificationService.ts:61-80 | no contract of its own; stated by `NotificationService.ScheduleResult` |
| NotificationService.ScheduleSpec | src/utils/notificationService.ts:55-116 | no contract of its own; stated by `NotificationService.ScheduleResult`, `NotificationService.ScheduleCalls`, `NotificationService.ScheduleOnWeb` and `NotificationService.ScheduleCancelsItemIdFirst` |
| NotificationService.ScheduleOnWeb | src/utils/notificationService.ts:56 | on the web, scheduling returns none and leaves the platform untouched |
| NotificationService.ScheduleCancelsItemIdFirst | src/utils/notificationService.ts:59 | off the web, the first new platform call is a cancel of `item.id`, and the earlier calls are kept |
| NotificationService.ScheduleCalls | src/utils/notificationService.ts:55-116 | scheduling only adds platform calls, none on the web; all but the last added are cancels; when an id comes back the last call is the request for this item that produced it |
| NotificationService.ScheduleResult | src/utils/notificationService.ts:61-115 | an id comes back exactly when not on the web, the date is valid, the whole-second delay is ≥ 1 and the platform does not fail; it is a fresh non-empty id for a one-shot reminder for `item.id` after that delay; no other reminder appears or changes |
| NotificationService.ExpiredItemGetsNoReminder | src/utils/notificationService.ts:65-72 | an item whose expiration day is before today gets no reminder (for a non-negative lead time) |
| NotificationService.ScheduledOnlyWhenFresh | src/utils/notificationService.ts:61-80 | a reminder is set only for an item that is Fresh at that moment (for a non-negative lead time) |
| NotificationService.ReminderFiresWhenExpiringSoon | src/utils/notificationService.ts:77-97 | at the instant the reminder fires, the item has exactly its lead time left, so it is Expiring Soon |
| NotificationService.ScheduleKeepsOtherReminders | src/utils/notificationService.ts:59 | every live reminder whose id is not `item.id` survives a schedule, including the item's own earlier reminder |
| NotificationService.TwoSchedulesLeaveTwoReminders | src/utils/notificationService.ts:59 | two schedules of the same item in a row leave two live reminders for it |
| InventoryStore.MergeFields | src/store/inventoryStore.ts:18 | every field present in the update overrides; every absent field keeps its old value |
| InventoryStore.MergeNoChanges | src/store/inventoryStore.ts:18 | an empty update leaves the item unchanged |
| InventoryStore.Merge | src/store/inventoryStore.ts:18 | no contract of its own; stated by `InventoryStore.MergeFields` and `InventoryStore.MergeNoChanges` |
| InventoryStore.UpdateById | src/store/inventoryStore.ts:16-20 | same length and order; elements with the id are merged, the others are unchanged |
| InventoryStore.UpdateMissingId | src/store/inventoryStore.ts:16-20 | an update for an id not in the list leaves the list equal to the old one |
| InventoryStore.RemoveById | src/store/inventoryStore.ts:21 | no element with the id is left; every other element is kept; nothing new appears |
| InventoryStore.RemoveByIdConcat | src/store/inventoryStore.ts:21 | removal distributes over concatenation, so relative order is kept |
| InventoryStore.RemoveByIdCounts | src/store/inventoryStore.ts:21 | each element without the id keeps its multiplicity; those with the id drop to zero |
| InventoryStore.InventoryState.constructor | src/store/inventoryStore.ts:13 | the list starts empty |
| InventoryStore.InventoryState.SetItems | src/store/inventoryStore.ts:14 | the list is replaced wholesale |
| InventoryStore.InventoryState.AddItem | src/store/inventoryStore.ts:15 | the new list is the item followed by the old list |
| InventoryStore.InventoryState.UpdateItem | src/store/inventoryStore.ts:16-20 | the new list is the old one updated by id |
| InventoryStore.InventoryState.RemoveItem | src/store/inventoryStore.ts:21 | the new list is the old one with the id removed |
| UserStore.UpdatedProfile | src/store/userStore.ts:14-17 | the profile is absent afterwards exactly when it was absent before |
| UserStore.MergeProfileFields | src/store/userStore.ts:16 | the fields given override; the others keep their values |
| UserStore.UpdateWithNothing | src/store/userStore.ts:16 | an empty update is the identity |
| UserStore.MergeProfile | src/store/userStore.ts:16 | no contract of its own; stated by `UserStore.MergeProfileFields` and `UserStore.UpdateWithNothing` |
| UserStore.UserState.constructor | src/store/userStore.ts:12 | no profile at first |
| UserStore.UserState.SetProfile | src/store/userStore.ts:13 | the stored profile is the argument |
| UserStore.UserState.UpdateProfile | src/store/userStore.ts:14-17 | the profile is updated field-wise; an absent profile stays absent |
| UserStore.UserState.ClearProfile | src/store/userStore.ts:18 | the profile becomes absent |
| ReminderTracking.FindItem | app/edit-profile.tsx:94 | an item found has the id and is in the list; none exactly when no item has it |
| ReminderTracking.FindItemIsFirst | app/edit-profile.tsx:94 | the item found is the first with the id: no earlier item has it |
| ReminderTracking.TrackedGivesAtMostOne | src/utils/notificationService.ts:58-59 | when every live reminder is the handle its item stores, no item has two live reminders |
| ReminderTracking.FindUnique | app/edit-profile.tsx:93-94 | with unique ids, looking up an item's id finds that item |
| ReminderTracking.FindAfterUpdate | src/store/inventoryStore.ts:16-20 | after storing a handle under one id, lookups of other ids find what they found before, and that id finds its item with the new handle |
| ReminderTracking.FindPrepend | src/store/inventoryStore.ts:15 | after adding an item in front, its id finds it and every other id finds what it found before |
| ReminderTracking.UniquePrepend | src/store/inventoryStore.ts:15 | adding an item under a new id keeps the ids unique |
| ReminderTracking.TrackedPrepend | src/store/inventoryStore.ts:15 | adding an item under a new id keeps the discipline |
| ReminderTracking.TrackedShrink | src/utils/notificationService.ts:121-129 | removing live reminders keeps the discipline |
| EditProfile.SettingsChangedMeans | app/edit-profile.tsx:80-83 | settings changed exactly when at least one of the three lead times differs |
| EditProfile.SettingsChanged | app/edit-profile.tsx:80-83 | no contract of its own; stated by `EditProfile.SettingsChangedMeans` |
| EditProfile.ValidFormLeadTimes | app/edit-profile.tsx:35-41 | a validated form gives every category a lead time in 1..30 |
| EditProfile.ValidForm | app/edit-profile.tsx:35-41 | no contract of its own; stated by `EditProfile.ValidFormLeadTimes` |
| EditProfile.Submit | app/edit-profile.tsx:73-105 | the profile gets the new name, avatar and settings in every case; when the settings changed, platform and list are the result of the sequential cancel-then-schedule loop over the list as it was; otherwise neither changes |
| EditProfile.RescheduleAll | app/edit-profile.tsx:93-101 | platform and list afterwards are those of the specified loop over the list as it was when the loop started |
| EditProfile.RescheduleItem | app/edit-profile.tsx:94-100 | platform and list afterwards are those of one specified turn for the item |
| EditProfile.RescheduleOne | app/edit-profile.tsx:94-100 | no contract of its own; stated by `EditProfile.RescheduleOneCalls`, `EditProfile.RescheduleOneTracked` and `EditProfile.RescheduleOneKeeps` |
| EditProfile.Reschedule | app/edit-profile.tsx:93-101 | no contract of its own; stated by `EditProfile.RescheduleShape`, `EditProfile.RescheduleOnWeb` and `EditProfile.RescheduleTracked` |
| EditProfile.RescheduleShape | app/edit-profile.tsx:93-101 | the loop keeps the length and order and changes nothing but reminder handles |
| EditProfile.RescheduleOnWeb | app/edit-profile.tsx:93-101 | on the web the loop changes nothing |
| EditProfile.RescheduleOneCalls | app/edit-profile.tsx:94-100 | one turn: the cancel of the stored handle, when there is one, comes before the schedule; only the last call may be a schedule; the stored handle is replaced only when that schedule returned an id |
| EditProfile.RescheduleOneTracked | app/edit-profile.tsx:94-100 | one turn keeps the at-most-one discipline |
| EditProfile.CancelStoredKeepsTracked | app/edit-profile.tsx:94-96 | cancelling the stored handle keeps the discipline and leaves the item no live reminder |
| EditProfile.ScheduleKeepsTracked | app/edit-profile.tsx:97-100 | scheduling for an item with no live reminder, and storing the id that comes back, keeps the discipline |
| EditProfile.RescheduleOneKeeps | app/edit-profile.tsx:97-100 | one turn keeps every id and changes no item with another id |
| EditProfile.UniqueSameIds | app/edit-profile.tsx:99 | a list with the same ids as one with unique ids has unique ids |
| EditProfile.RescheduleTracked | app/edit-profile.tsx:92-101 | the whole loop keeps the discipline and the ids, so no item has two live reminders afterwards |
| EditProfile.RaisedLeadTimeDropsReminder | app/edit-profile.tsx:97 | raising Food from 3 to 7 days for an item 5 days from expiry turns it Expiring Soon, and its reschedule yields no reminder |
| AddItem.StoredItemCases | app/add-item.tsx:109-125 | a resolved id is stored as the handle; a none result or a rejection stores the item without one; nothing else changes |
| AddItem.Submit | app/add-item.tsx:92-131 | the status is computed from the date, category and the profile's settings (if any); with no profile the item is added once and the platform is untouched; with one, the schedule is requested and the item added once with the returned id |
| AddItem.NewItem | app/add-item.tsx:101-111 | no contract of its own; stated by `AddItem.Submit` |
| AddItem.StoredItem | app/add-item.tsx:114-126 | no contract of its own; stated by `AddItem.StoredItemCases` and `AddItem.Submit` |
| AddItem.AddKeepsTracked | app/add-item.tsx:101-128 | adding an item under a new id keeps the discipline and the unique ids, with or without a reminder |
| RecipeMatcher.SomeIngredientMeans | src/utils/recipeMatcher.ts:19 | true exactly when some ingredient, lower-cased, occurs in the lower-cased item name |
| RecipeMatcher.SomeIngredient | src/utils/recipeMatcher.ts:19 | no contract of its own; stated by `RecipeMatcher.SomeIngredientMeans` |
| RecipeMatcher.FindRecipe | src/utils/recipeMatcher.ts:18-20 | a recipe found is one of the recipes |
| RecipeMatcher.FindRecipeIsFirst | src/utils/recipeMatcher.ts:18-20 | the recipe found matches the item and no earlier recipe does; none is found exactly when no recipe matches |
| RecipeMatcher.FoodItems | src/utils/recipeMatcher.ts:12 | exactly the Food items that are Expiring Soon; empty exactly when there is none |
| RecipeMatcher.FirstMatch | src/utils/recipeMatcher.ts:16-28 | a returned item is among the food items and the recipe is its first match |
| RecipeMatcher.FirstMatchFrom | src/utils/recipeMatcher.ts:16-28 | reference scan over the unfiltered list: a result is a qualifying item at or after the start index, with the recipe found for it |
| RecipeMatcher.FirstMatchFromIsFirst | src/utils/recipeMatcher.ts:16-28 | no qualifying item before the one found has a matching recipe; nothing is found exactly when no qualifying item has one |
| RecipeMatcher.FirstMatchOverFoods | src/utils/recipeMatcher.ts:12-28 | filtering and then scanning finds what the reference scan finds |
| RecipeMatcher.GetRecipeSuggestion | src/utils/recipeMatcher.ts:11-34 | null exactly when no item is Food and Expiring Soon |
| RecipeMatcher.SuggestionMeans | src/utils/recipeMatcher.ts:16-33 | a named recipe matches the first qualifying item with any match, is its first matching recipe, and the message is "Try making <recipe> with your <item>!"; otherwise the fallback message, and no qualifying item matches any recipe |
| RecipeMatcher.SuggestionNamesFirstMatch | src/utils/recipeMatcher.ts:16-27 | a suggestion naming a recipe names the first qualifying item with any match and its first matching recipe, in the message too |
| RecipeMatcher.SuggestionFallback | src/utils/recipeMatcher.ts:30-33 | the fallback message comes only when no qualifying item matches any recipe |
| RecipeMatcher.MatchMessage | src/utils/recipeMatcher.ts:24 | no contract of its own; stated by `RecipeMatcher.SuggestionMeans` and `RecipeMatcher.SuggestionNamesFirstMatch` |
| ShareList.Group | src/utils/shareList.ts:16-18 | only items with that status, all from the list |
| ShareList.ShareMessage | src/utils/shareList.ts:5-41 | no message exactly when the list is empty |
| ShareList.AppendItemLines | src/utils/shareList.ts:22-24 | appends the lines `- name (date)` of the group, in order |
| ShareList.AppendSection | src/utils/shareList.ts:20-41 | appends the section of one group: nothing when it is empty |
| ShareList.BuildShareMessage | src/utils/shareList.ts:5-41 | the message built step by step is the specified one |
| ShareList.GroupConcat | src/utils/shareList.ts:16-18 | grouping keeps the items' relative order |
| ShareList.GroupsPartition | src/utils/shareList.ts:16-18 | the three groups together hold every item exactly as often as the list, so the section counts add up to the length |
| ShareList.GroupCounts | src/utils/shareList.ts:16-21 | a group holds each item with that status as often as the list does, and nothing else |
| ShareList.ItemLinesConcat | src/utils/shareList.ts:22-24 | the lines of a group are the lines of its parts in order |
| ShareList.OneLinePerItem | src/utils/shareList.ts:22-24 | with no line break in names or dates, a group's lines contain exactly one line break per item |
| ShareList.ItemLines | src/utils/shareList.ts:22-24 | no contract of its own; stated by `ShareList.ItemLinesConcat`, `ShareList.OneLinePerItem` and `ShareList.AppendItemLines` |
| ShareList.SectionPresent | src/utils/shareList.ts:20-41 | a section is absent exactly when its group is empty |
| ShareList.Section | src/utils/shareList.ts:20-41 | no contract of its own; stated by `ShareList.SectionPresent` and `ShareList.AppendSection` |
| ShareList.MessageLayout | src/utils/shareList.ts:13-41 | the message starts with the header and its blank line and ends with the Fresh section |
| ExportData.EscapeQuotes | src/utils/exportData.ts:21 | escaping never shortens the name |
| ExportData.EscapeSingleLine | src/utils/exportData.ts:21 | escaping adds no line break |
| ExportData.CsvFields | src/utils/exportData.ts:19-27 | no contract of its own; stated by `ExportData.RowRoundTrip` |
| ExportData.CsvRow | src/utils/exportData.ts:19-27 | no contract of its own; stated by `ExportData.RowRoundTrip` and `ExportData.RowSingleLine` |
| ExportData.CsvRows | src/utils/exportData.ts:19-27 | one row per item, in input order |
| ExportData.CsvContent | src/utils/exportData.ts:9-29 | no content exactly when the list is empty |
| ExportData.ParseQuoted | src/utils/exportData.ts:21 | a quoted field is read within the text it is given |
| ExportData.DoubledQuoteStep | src/utils/exportData.ts:21 | a doubled quote is read as one quote, then the rest of the field |
| ExportData.OrdinaryCharStep | src/utils/exportData.ts:21 | any other character is read as itself, then the rest of the field |
| ExportData.ClosingQuote | src/utils/exportData.ts:21 | a single quote not followed by another ends the field, with nothing read |
| ExportData.QuotedStep | src/utils/exportData.ts:21 | one more escaped character in front of an escaped name adds that character to what is read |
| ExportData.QuotedRoundTrip | src/utils/exportData.ts:21 | un-doubling the quoted name recovers the name |
| ExportData.ParsePlainLast | src/utils/exportData.ts:27 | a last field without comma or quote is read as itself |
| ExportData.PlainRoundTrip | src/utils/exportData.ts:19-27 | fields without commas or quotes are read back unchanged |
| ExportData.ParsePlainThen | src/utils/exportData.ts:27 | a plain field followed by a comma is read as itself, then the rest |
| ExportData.ParseQuotedThen | src/utils/exportData.ts:21-27 | a quoted name followed by a comma is read as the name, then the rest |
| ExportData.QuotedSecondRoundTrip | src/utils/exportData.ts:19-27 | a record whose second field is a quoted name and whose other fields are plain reads back with the name un-quoted |
| ExportData.RowRoundTrip | src/utils/exportData.ts:19-27 | a row reads back as seven fields: id, the exact name, type, date, status, the barcode or an empty field, creation time (when the unquoted fields have no comma or quote) |
| ExportData.HeaderFields | src/utils/exportData.ts:16 | the header line reads back as the seven column names in order |
| ExportData.FirstLine | src/utils/exportData.ts:29 | the first line of a joined text is its first part |
| ExportData.CsvHeaderLine | src/utils/exportData.ts:16-29 | the first line of the CSV text is the header line |
| ExportData.JoinKeepsSingleLine | src/utils/exportData.ts:27 | joining single-line fields with a comma gives a single line |
| ExportData.RowSingleLine | src/utils/exportData.ts:19-27 | the row of an item whose fields have no line break has none |
| ExportData.SplitLines | src/utils/exportData.ts:29 | splitting the joined text at line feeds gives the header line and the rows back |
| ExportData.CsvLines | src/utils/exportData.ts:19-29 | with no line breaks in fields, the text has 1 + n lines: the header line, then one row per item in order |
| ExportData.OrNull | src/utils/exportData.ts:53-54 | null exactly when the value is absent or empty; otherwise the value |
| ExportData.JsonRecord | src/utils/exportData.ts:47-56 | no contract of its own; stated by `ExportData.JsonEntries` |
| ExportData.JsonContent | src/utils/exportData.ts:38-57 | no record for an empty list; otherwise `itemCount` is the number of items and of entries |
| ExportData.JsonEntries | src/utils/exportData.ts:47-56 | each entry carries its item's id, name, type, expiration date, status and creation time, in order; a missing or empty barcode or image reference becomes null |
| ExportData.PadStart | src/utils/exportData.ts:147-148 | the result has the requested length (or the text's, if longer), ends with the text and is padded with the fill character |
| ExportData.TwoDigits | src/utils/exportData.ts:147-148 | a number below 100 is padded to two digits that read back as the number |
| ExportData.DashedParts | src/utils/exportData.ts:149 | the layout of `year-month-day` |
| ExportData.FormatDate | src/utils/exportData.ts:145-150 | no contract of its own; stated by `ExportData.FormatDateLayout` |
| ExportData.FormatDateLayout | src/utils/exportData.ts:145-150 | the stamp is `YYYY-MM-DD`: the year, then the zero-based month plus one and the day, each in two digits, separated by dashes |
| I18n.GetInitialLanguage | src/i18n/i18n.ts:14-23 | a saved language other than `system` is returned verbatim; otherwise the result is a language with resources |
| I18n.FallsThroughToSystem | src/i18n/i18n.ts:19-22 | without a saved language, the system language is taken exactly when it has resources; anything else, including no locale, gives `en` |
| I18n.ResultHasResources | src/i18n/i18n.ts:8-22 | unless a saved language names another one directly, the result has resources |
| I18n.StartUpLanguage | src/i18n/i18n.ts:29 | the start-up call, which passes no saved language, yields the system language if it has resources and `en` otherwise |
| Text.SplitJoin | src/utils/exportData.ts:29 | splitting a join recovers the parts when no part contains the separator |
| Text.ContainsMeans | src/utils/recipeMatcher.ts:19 | `includes` holds exactly when the text occurs at some position |

## Left out

- Date parsing and local time: `parseISO`, `isValid`, `setHours`,
  `startOfDay`, time zones and DST are the `DateParser` parameter and day
  numbers. The clock is whole seconds, so the sub-second truncation of
  `differenceInSeconds` is not modelled.
- NotificationService.ScheduleItemNotification: the model assumes that the
  platform rejects a request whose delay is not a number; the source does
  not guarantee it. For an invalid date the delay is not a number, passes
  the `seconds <= 0` test (notificationService.ts:77-80) and is sent
  (notificationService.ts:99). The model sends no request for it and
  returns none, which is what the surrounding `catch` returns if the
  platform rejects the request. `NotificationService.ScheduleResult` and
  `NotificationService.ScheduleCalls` rest on this assumption for invalid
  dates.
- NotificationService.Platform.Cancel: the model assumes every cancel
  removes the id. In the source a rejected native cancel
  (notificationService.ts:124-128) is only logged, and the reminder stays
  live. The tracking results (`EditProfile.CancelStoredKeepsTracked`,
  `EditProfile.RescheduleTracked`, `ReminderTracking.TrackedGivesAtMostOne`
  as applied to the edit-profile loop) hold only when no cancel fails.
- The platform itself: the notification handler, permission requests
  (notificationService.ts:9-36), the Android channel setup
  (notificationService.ts:83-90), the notification title and body texts,
  and the sound flag. These are foreign calls and are not modelled.
- NotificationService.ExpiredItemGetsNoReminder,
  NotificationService.ScheduledOnlyWhenFresh and
  NotificationService.ReminderFiresWhenExpiringSoon: stated only for
  non-negative lead times. With a negative lead time the warning instant
  is after the expiration day, and an expired item can still get a
  reminder. The edit-profile form admits 1..30 only.
- AddItem.Submit: the `.catch` branch (add-item.tsx:122-125) cannot occur
  in the model, because scheduling never rejects. `AddItem.StoredItem`
  still covers a rejected settlement, which adds the item without a
  handle. The un-awaited promise and `router.back()` are navigation timing;
  scheduling and then adding are one sequential step.
- Random ids and creation timestamps are parameters of the handlers.
- RecipeMatcher.SomeIngredient: lower-casing covers ASCII letters only;
  Unicode case mapping is not modelled. The bundled recipe list is a
  parameter.
- ShareList: the `Share.share` call, its result and its alerts are I/O.
  The date text is a parameter.
- ExportData: writing, sharing and downloading the file
  (`saveAndShareFile`), the JSON text layout of `JSON.stringify`, and the
  file names. For the date stamp the year, zero-based month and day of the
  `Date` are parameters.
- I18n: the `i18n.init` configuration and the translation tables.
- Persistence (the database schema, client and inventory service), the UI
  screens and the other form fields and screens are not part of this model.
