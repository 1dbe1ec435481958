/**
 * The browser-storage session of the influencer front end: three slots
 * (the user, the influencer profile and an admin flag) written by
 * `setAuth`, partly cleared by `logout`, and read by the getters every page
 * calls on mount.
 *
 * JSON encoding is abstracted: a slot holds a typed value rather than a
 * string. `Text` stands for any stored string that does not decode to the
 * record the slot is read as; such a slot reads as null, as a failed
 * `JSON.parse` or an empty string does in the program.
 */
module AuthUtils {
  import opened Wrappers

  datatype User = User(id: string, email: string, fullName: string, phone: string, role: string, roleLevel: int)

  datatype Profile = Profile(id: string, referralCode: string, tier: string, totalEarnings: string)

  datatype Value = UserJson(user: User) | ProfileJson(profile: Profile) | Text(text: string)

  type Storage = map<string, Value>

  const UserKey: string := "influencerUser"
  const ProfileKey: string := "influencerProfile"
  const AdminKey: string := "isAdmin"

  /** The flag value `setAuth` writes for an admin. */
  const AdminFlag: Value := Text("true")

  /** The role test `setAuth` and `isAdmin` share: level 4 or above, or role "admin" or "super_admin". */
  predicate IsAdminUser(u: User) {
    u.roleLevel >= 4 || u.role == "admin" || u.role == "super_admin"
  }

  /** Whether key `k` holds the same thing (or is absent) in both storages. */
  predicate SameSlot(s: Storage, t: Storage, k: string) {
    (k in s <==> k in t) && (k in s ==> s[k] == t[k])
  }

  /** What `getUser` reads from the storage: null when the slot is missing or does not decode to a user. */
  function UserIn(s: Storage): (r: Option<User>)
    ensures UserKey !in s ==> r.None?
    ensures UserKey in s && s[UserKey].UserJson? ==> r == Some(s[UserKey].user)
    ensures UserKey in s && !s[UserKey].UserJson? ==> r.None?
  {
    if UserKey in s && s[UserKey].UserJson? then Some(s[UserKey].user) else None
  }

  /** What `getProfile` reads from the storage: null when the slot is missing or does not decode to a profile. */
  function ProfileIn(s: Storage): (r: Option<Profile>)
    ensures ProfileKey !in s ==> r.None?
    ensures ProfileKey in s && s[ProfileKey].ProfileJson? ==> r == Some(s[ProfileKey].profile)
    ensures ProfileKey in s && !s[ProfileKey].ProfileJson? ==> r.None?
  {
    if ProfileKey in s && s[ProfileKey].ProfileJson? then Some(s[ProfileKey].profile) else None
  }

  /** What `isAdmin` reads: the stored flag is "true", or else the stored user has an admin role. */
  function AdminIn(s: Storage): (r: bool)
    ensures AdminKey in s && s[AdminKey] == AdminFlag ==> r
    ensures UserIn(s).None? && !(AdminKey in s && s[AdminKey] == AdminFlag) ==> !r
    ensures UserIn(s).Some? && !(AdminKey in s && s[AdminKey] == AdminFlag) ==> (r <==> IsAdminUser(UserIn(s).value))
  {
    if AdminKey in s && s[AdminKey] == AdminFlag then true
    else
      match UserIn(s)
      case Some(u) => IsAdminUser(u)
      case None => false
  }

  /** The storage after `setAuth(user, profile)` in a browser. */
  function AfterSetAuth(s: Storage, user: User, profile: Option<Profile>): (r: Storage)
    ensures UserIn(r) == Some(user)
    ensures ProfileIn(r) == profile
    ensures AdminKey in r <==> IsAdminUser(user)
    ensures AdminIn(r) <==> IsAdminUser(user)
    ensures forall k :: k != UserKey && k != ProfileKey && k != AdminKey ==> SameSlot(s, r, k)
  {
    var withUser := s[UserKey := UserJson(user)];
    var withProfile :=
      if profile.Some? then withUser[ProfileKey := ProfileJson(profile.value)]
      else withUser - {ProfileKey};
    if IsAdminUser(user) then withProfile[AdminKey := AdminFlag] else withProfile - {AdminKey}
  }

  /** The storage after `logout()` in a browser: only the user and profile slots are removed. */
  function AfterLogout(s: Storage): (r: Storage)
    ensures UserIn(r).None? && ProfileIn(r).None?
    ensures UserKey !in r && ProfileKey !in r
    ensures forall k :: k != UserKey && k != ProfileKey ==> SameSlot(s, r, k)
  {
    s - {UserKey, ProfileKey}
  }

  /** Logging out twice is the same as logging out once. */
  lemma LogoutIdempotent(s: Storage)
    ensures AfterLogout(AfterLogout(s)) == AfterLogout(s)
  {
  }

  /**
   * `logout` leaves the admin flag behind: after an admin's session is set
   * and then cleared, nobody is authenticated, yet `isAdmin` still holds.
   */
  lemma AdminFlagSurvivesLogout(s: Storage, user: User, profile: Option<Profile>)
    requires IsAdminUser(user)
    ensures UserIn(AfterLogout(AfterSetAuth(s, user, profile))).None?
    ensures AdminIn(AfterLogout(AfterSetAuth(s, user, profile)))
  {
    var t := AfterSetAuth(s, user, profile);
    assert SameSlot(t, AfterLogout(t), AdminKey);
  }

  /** After logout, `isAdmin` depends on the flag slot alone. */
  lemma AdminAfterLogoutIsFlag(s: Storage)
    ensures AdminIn(AfterLogout(s)) <==> AdminKey in s && s[AdminKey] == AdminFlag
  {
    assert SameSlot(s, AfterLogout(s), AdminKey);
  }

  /** A second `setAuth` overwrites everything the first one wrote. */
  lemma SetAuthLastWins(s: Storage, u1: User, p1: Option<Profile>, u2: User, p2: Option<Profile>)
    ensures AfterSetAuth(AfterSetAuth(s, u1, p1), u2, p2) == AfterSetAuth(s, u2, p2)
  {
    var a := AfterSetAuth(AfterSetAuth(s, u1, p1), u2, p2);
    var b := AfterSetAuth(s, u2, p2);
    assert a.Keys == b.Keys;
    forall k | k in a ensures a[k] == b[k] {
    }
  }

  /** The session store over `localStorage`; with no window every reader gives null or false and every writer is a no-op. */
  class SessionStore {
    const hasWindow: bool
    var storage: Storage

    constructor (hasWindow: bool, initial: Storage)
      ensures this.hasWindow == hasWindow && storage == initial
    {
      this.hasWindow := hasWindow;
      storage := initial;
    }

    /** `getUser`. */
    function GetUser(): (r: Option<User>)
      reads this
      ensures !hasWindow ==> r.None?
      ensures r.Some? ==> UserKey in storage && storage[UserKey] == UserJson(r.value)
      ensures hasWindow && UserKey in storage && storage[UserKey].UserJson? ==> r.Some?
    {
      if !hasWindow then None else UserIn(storage)
    }

    /** `getProfile`. */
    function GetProfile(): (r: Option<Profile>)
      reads this
      ensures !hasWindow ==> r.None?
      ensures r.Some? ==> ProfileKey in storage && storage[ProfileKey] == ProfileJson(r.value)
      ensures hasWindow && ProfileKey in storage && storage[ProfileKey].ProfileJson? ==> r.Some?
    {
      if !hasWindow then None else ProfileIn(storage)
    }

    /** `isAuthenticated`: a user can be read. */
    function IsAuthenticated(): (r: bool)
      reads this
      ensures r <==> hasWindow && UserKey in storage && storage[UserKey].UserJson?
    {
      GetUser().Some?
    }

    /** `isAdmin`. */
    function IsAdmin(): (r: bool)
      reads this
      ensures !hasWindow ==> !r
      ensures hasWindow && AdminKey in storage && storage[AdminKey] == AdminFlag ==> r
      ensures r && !(AdminKey in storage && storage[AdminKey] == AdminFlag) ==>
                GetUser().Some? && IsAdminUser(GetUser().value)
      ensures hasWindow ==> r == AdminIn(storage)
    {
      if !hasWindow then false
      else if AdminKey in storage && storage[AdminKey] == AdminFlag then true
      else
        var user := GetUser();
        if user.Some? then IsAdminUser(user.value) else false
    }

    /** `logout`: removes the user and profile slots, in place. */
    method Logout()
      modifies this
      ensures storage == if hasWindow then AfterLogout(old(storage)) else old(storage)
      ensures hasWindow ==> !IsAuthenticated() && GetProfile().None?
      ensures SameSlot(old(storage), storage, AdminKey)
    {
      if !hasWindow {
        return;
      }
      storage := storage - {UserKey};
      storage := storage - {ProfileKey};
      assert storage == AfterLogout(old(storage));
    }

    /** `setAuth`: writes the user, writes or removes the profile, and sets or removes the admin flag, in place. */
    method SetAuth(user: User, profile: Option<Profile>)
      modifies this
      ensures storage == if hasWindow then AfterSetAuth(old(storage), user, profile) else old(storage)
      ensures hasWindow ==> GetUser() == Some(user) && IsAuthenticated() && GetProfile() == profile
      ensures hasWindow ==> (IsAdmin() <==> IsAdminUser(user))
    {
      if !hasWindow {
        return;
      }
      storage := storage[UserKey := UserJson(user)];
      if profile.Some? {
        storage := storage[ProfileKey := ProfileJson(profile.value)];
      } else {
        storage := storage - {ProfileKey};
      }
      if IsAdminUser(user) {
        storage := storage[AdminKey := AdminFlag];
      } else {
        storage := storage - {AdminKey};
      }
    }
  }
}
