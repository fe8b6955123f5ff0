/** The in-memory user profile (absent until onboarding) and its actions. */
module UserStore {
  import opened Wrappers
  import opened Types

  /** A partial profile, as passed to `updateProfile`; `None` means absent. */
  datatype ProfilePatch = ProfilePatch(
    id: Option<string>,
    userName: Option<string>,
    avatarId: Option<string>,
    isOnboarded: Option<bool>,
    notificationSettings: Option<NotificationSettings>,
    theme: Option<Theme>,
    createdAt: Option<string>)

  const NoProfileChanges := ProfilePatch(None, None, None, None, None, None, None)

  /** The profile with every field present in `updates` replaced by the update's value. */
  function MergeProfile(p: UserProfile, updates: ProfilePatch): UserProfile
  {
    UserProfile(
      updates.id.GetOr(p.id),
      updates.userName.GetOr(p.userName),
      updates.avatarId.GetOr(p.avatarId),
      updates.isOnboarded.GetOr(p.isOnboarded),
      updates.notificationSettings.GetOr(p.notificationSettings),
      updates.theme.GetOr(p.theme),
      updates.createdAt.GetOr(p.createdAt))
  }

  /** The merged profile when one is present; absent when it is absent. */
  function UpdatedProfile(profile: Option<UserProfile>, updates: ProfilePatch): (r: Option<UserProfile>)
    ensures profile.None? <==> r.None?
  {
    match profile
    case None => None
    case Some(p) => Some(MergeProfile(p, updates))
  }

  /** A merge overrides exactly the given fields and keeps the rest. */
  lemma MergeProfileFields(p: UserProfile, updates: ProfilePatch)
    ensures var m := MergeProfile(p, updates);
      && (updates.id.None? ==> m.id == p.id) && (updates.id.Some? ==> m.id == updates.id.value)
      && (updates.userName.None? ==> m.userName == p.userName) && (updates.userName.Some? ==> m.userName == updates.userName.value)
      && (updates.avatarId.None? ==> m.avatarId == p.avatarId) && (updates.avatarId.Some? ==> m.avatarId == updates.avatarId.value)
      && (updates.isOnboarded.None? ==> m.isOnboarded == p.isOnboarded)
      && (updates.isOnboarded.Some? ==> m.isOnboarded == updates.isOnboarded.value)
      && (updates.notificationSettings.None? ==> m.notificationSettings == p.notificationSettings)
      && (updates.notificationSettings.Some? ==> m.notificationSettings == updates.notificationSettings.value)
      && (updates.theme.None? ==> m.theme == p.theme) && (updates.theme.Some? ==> m.theme == updates.theme.value)
      && (updates.createdAt.None? ==> m.createdAt == p.createdAt) && (updates.createdAt.Some? ==> m.createdAt == updates.createdAt.value)
  {
  }

  /** Updating with nothing is the identity, on a present or absent profile. */
  lemma UpdateWithNothing(profile: Option<UserProfile>)
    ensures UpdatedProfile(profile, NoProfileChanges) == profile
  {
  }

  /** The store's state: the optional profile. */
  class UserState {
    var profile: Option<UserProfile>

    constructor ()
      ensures profile == None
    {
      profile := None;
    }

    /** `setProfile`. */
    method SetProfile(p: UserProfile)
      modifies this
      ensures profile == Some(p)
    {
      profile := Some(p);
    }

    /** `updateProfile`: merges into a present profile, leaves an absent one absent. */
    method UpdateProfile(updates: ProfilePatch)
      modifies this
      ensures profile == UpdatedProfile(old(profile), updates)
      ensures old(profile).None? ==> profile.None?
    {
      profile := UpdatedProfile(profile, updates);
    }

    /** `clearProfile`. */
    method ClearProfile()
      modifies this
      ensures profile == None
    {
      profile := None;
    }
  }
}
