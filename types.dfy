/** The records of the inventory and of the user profile, as the
    application's type declarations define them. */
module Types {
  import opened Wrappers

  /** An item's category. `Other` stands for a category string outside the
      declared union (one that reached the item through untyped data); the
      source's `default:` branches exist for it. */
  datatype ItemType = Food | Medicine | Cosmetics | Other(tag: string)

  datatype ItemStatus = Fresh | ExpiringSoon | Expired

  /** Days before expiry at which each category is "expiring soon". */
  datatype NotificationSettings = NotificationSettings(
    foodLeadTime: int,
    medicineLeadTime: int,
    cosmeticsLeadTime: int)

  /** An inventory item. `status` is a cached value, recomputed from the
      expiration date whenever it matters; `notificationId` is the handle of
      the reminder the platform issued for it. */
  datatype InventoryItem = InventoryItem(
    id: string,
    name: string,
    itemType: ItemType,
    expirationDate: string,
    barcode: Option<string>,
    imageUri: Option<string>,
    status: ItemStatus,
    notificationId: Option<string>,
    createdAt: string)

  datatype Theme = SystemTheme | LightTheme | DarkTheme

  datatype UserProfile = UserProfile(
    id: string,
    userName: string,
    avatarId: string,
    isOnboarded: bool,
    notificationSettings: NotificationSettings,
    theme: Theme,
    createdAt: string)

  /** Reads an ISO 8601 calendar date and gives its day number, or `None`
      when the string is not a valid date. */
  type DateParser = string -> Option<int>

  /** JavaScript truthiness of an optional string: present and non-empty. */
  predicate Truthy(s: Option<string>) {
    s.Some? && s.value != ""
  }

  /** The category as the text the records carry. */
  function TypeName(t: ItemType): string {
    match t
    case Food => "Food"
    case Medicine => "Medicine"
    case Cosmetics => "Cosmetics"
    case Other(tag) => tag
  }

  /** The status as the text the records carry. */
  function StatusName(s: ItemStatus): string {
    match s
    case Fresh => "Fresh"
    case ExpiringSoon => "Expiring Soon"
    case Expired => "Expired"
  }
}
