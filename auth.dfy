/** project/utils/auth.py: the identity store, a dict of users keyed by
    user id, with registration, login and password change. */
module Auth {
  import opened Common
  import opened Users

  const AdminUsername := "admin"
  const AdminPassword := "admin123"
  const AdminEmail := "admin@bank.com"
  const AdminPhone := "1234567890"
  const AdminRole := "admin"

  /** The user `create_default_admin` registers. */
  function AdminData(adminId: string, now: int): UserData {
    UserData(adminId, AdminUsername, AdminEmail, AdminPhone, AdminRole,
             HashPassword(AdminPassword), now, None, true)
  }

  /** The test `authenticate_user` applies to each user in turn. */
  predicate CanLogIn(u: UserData, username: string, password: string) {
    u.username == username && PasswordMatches(u, password) && u.isActive
  }

  /** The key of the first user, in dict order from position `i` on, who
      can log in with these credentials. */
  function FirstLogin(t: Dict<UserData>, username: string, password: string, i: nat): (r: Option<string>)
    requires t.Valid() && i <= |t.keys|
    ensures r.Some? ==> r.value in t.entries && CanLogIn(t.entries[r.value], username, password)
    ensures r.None? <==> forall j :: i <= j < |t.keys| ==> !CanLogIn(t.entries[t.keys[j]], username, password)
    decreases |t.keys| - i
  {
    if i == |t.keys| then None
    else if CanLogIn(t.entries[t.keys[i]], username, password) then Some(t.keys[i])
    else FirstLogin(t, username, password, i + 1)
  }

  /** No user before the one `FirstLogin` finds can log in. */
  lemma {:induction false} FirstLoginIsFirst(t: Dict<UserData>, username: string, password: string, i: nat)
    requires t.Valid() && i <= |t.keys|
    ensures var r := FirstLogin(t, username, password, i);
      r.Some? ==>
        exists p ::
          i <= p < |t.keys| && t.keys[p] == r.value &&
          forall j :: i <= j < p ==> !CanLogIn(t.entries[t.keys[j]], username, password)
    decreases |t.keys| - i
  {
    if i < |t.keys| && !CanLogIn(t.entries[t.keys[i]], username, password) {
      FirstLoginIsFirst(t, username, password, i + 1);
    }
  }

  /** The key of the first user, in dict order from position `i` on, with
      this exact username. */
  function FirstWithUsername(t: Dict<UserData>, username: string, i: nat): (r: Option<string>)
    requires t.Valid() && i <= |t.keys|
    ensures r.Some? ==> r.value in t.entries && t.entries[r.value].username == username
    ensures r.None? <==> forall j :: i <= j < |t.keys| ==> t.entries[t.keys[j]].username != username
    decreases |t.keys| - i
  {
    if i == |t.keys| then None
    else if t.entries[t.keys[i]].username == username then Some(t.keys[i])
    else FirstWithUsername(t, username, i + 1)
  }

  /** No user before the one `FirstWithUsername` finds has that username. */
  lemma {:induction false} FirstWithUsernameIsFirst(t: Dict<UserData>, username: string, i: nat)
    requires t.Valid() && i <= |t.keys|
    ensures var r := FirstWithUsername(t, username, i);
      r.Some? ==>
        exists p ::
          i <= p < |t.keys| && t.keys[p] == r.value &&
          forall j :: i <= j < p ==> t.entries[t.keys[j]].username != username
    decreases |t.keys| - i
  {
    if i < |t.keys| && t.entries[t.keys[i]].username != username {
      FirstWithUsernameIsFirst(t, username, i + 1);
    }
  }

  predicate UsernameTaken(t: Dict<UserData>, username: string) {
    exists k :: k in t.entries && t.entries[k].username == username
  }

  /** No two users share a username. */
  predicate UniqueUsernames(t: Dict<UserData>) {
    forall k1, k2 :: k1 in t.entries && k2 in t.entries && k1 != k2 ==>
      t.entries[k1].username != t.entries[k2].username
  }

  /** Registering a username nobody has keeps usernames unique, even when
      the new id happens to replace an existing entry. */
  lemma RegisterKeepsUsernamesUnique(t: Dict<UserData>, id: string, u: UserData)
    requires t.Valid() && UniqueUsernames(t) && !UsernameTaken(t, u.username)
    ensures UniqueUsernames(t.Put(id, u))
    ensures UsernameTaken(t.Put(id, u), u.username)
  {
    var t' := t.Put(id, u);
    forall k1, k2 | k1 in t'.entries && k2 in t'.entries && k1 != k2
      ensures t'.entries[k1].username != t'.entries[k2].username
    {
      if k1 == id {
        assert t'.entries[k2] == t.entries[k2];
      } else if k2 == id {
        assert t'.entries[k1] == t.entries[k1];
      }
    }
    assert t'.entries[id] == u;
  }

  /** A username is taken exactly when a search for it finds someone. */
  lemma UsernameTakenIffFound(t: Dict<UserData>, username: string)
    requires t.Valid()
    ensures UsernameTaken(t, username) <==> FirstWithUsername(t, username, 0).Some?
  {
    if UsernameTaken(t, username) {
      var k :| k in t.entries && t.entries[k].username == username;
      var j := IndexOf(t, k);
    }
  }

  /** A deactivated user is never the one a login finds. */
  lemma DeactivatedCannotLogIn(t: Dict<UserData>, id: string, username: string, password: string)
    requires t.Valid() && id in t.entries
    ensures FirstLogin(t.Put(id, t.entries[id].(isActive := false)), username, password, 0) != Some(id)
  {
  }

  class AuthManager {
    var users: Dict<User>

    ghost predicate Valid()
      reads this
    {
      users.Valid() && Injective(users)
    }

    /** The users' field values, in the dict's order. */
    function UserTable(): (t: Dict<UserData>)
      reads this, users.entries.Values
      requires Valid()
      ensures t.Valid() && t.keys == users.keys
    {
      UserTableOf(users)
    }

    /** `AuthManager()` over the users loaded from storage: an empty store
        gets the default administrator. `adminId` and `now` are the uuid
        and instant that creation would draw. */
    constructor (loaded: Dict<User>, adminId: string, now: int)
      requires loaded.Valid() && Injective(loaded)
      ensures Valid()
      ensures loaded.keys != [] ==> users == loaded
      ensures loaded.keys == [] ==> UserTable() == EmptyDict().Put(adminId, AdminData(adminId, now))
    {
      users := loaded;
      new;
      if loaded.keys == [] {
        assert loaded.entries == map[];
        CreateDefaultAdmin(adminId, now);
      }
    }

    /** `create_default_admin`: adds the administrator under `adminId`. */
    method CreateDefaultAdmin(adminId: string, now: int)
      requires Valid()
      modifies this
      ensures Valid()
      ensures UserTable() == old(UserTable()).Put(adminId, AdminData(adminId, now))
      ensures fresh(users.entries[adminId])
    {
      var admin := User.CreateUser(AdminUsername, AdminPassword, AdminEmail, AdminPhone, AdminRole, adminId, now);
      Store(admin);
    }

    /** `self.users[user.user_id] = user` for a user object not yet in the dict. */
    method Store(u: User)
      requires Valid() && u !in users.entries.Values
      modifies this`users
      ensures Valid()
      ensures users == old(users).Put(u.userId, u)
      ensures UserTable() == old(UserTable()).Put(u.userId, u.Data())
    {
      UserTableOfPut(users, u.userId, u);
      PutKeepsInjective(users, u.userId, u);
      users := users.Put(u.userId, u);
    }

    /** `authenticate_user`: the first user in dict order whose username
        matches, whose password verifies and who is active; that user's
        last login becomes `now` and no other user changes. */
    method AuthenticateUser(username: string, password: string, now: int) returns (r: Option<User>)
      requires Valid()
      modifies users.entries.Values
      ensures Valid() && users == old(users)
      ensures var k := FirstLogin(old(UserTable()), username, password, 0);
        && (r.Some? <==> k.Some?)
        && (k.Some? ==> r.value == users.entries[k.value])
        && UserTable() == (if k.Some? then old(UserTable()).Put(k.value, old(UserTable()).entries[k.value].(lastLogin := Some(now)))
                           else old(UserTable()))
    {
      var found := FindLogin(username, password);
      if found.None? {
        return None;
      }
      RecordLogin(found.value, now);
      r := Some(users.entries[found.value]);
    }

    /** The search loop of `authenticate_user`: the key of the first user,
        in dict order, whose username matches, whose password verifies and
        who is active. */
    method FindLogin(username: string, password: string) returns (k: Option<string>)
      requires Valid()
      ensures k == FirstLogin(UserTable(), username, password, 0)
    {
      ghost var t := UserTable();
      var i := 0;
      while i < |users.keys|
        invariant 0 <= i <= |users.keys|
        invariant FirstLogin(t, username, password, 0) == FirstLogin(t, username, password, i)
      {
        var key := users.keys[i];
        var u := users.entries[key];
        assert t.entries[key] == u.Data();
        if u.username == username && u.VerifyPassword(password) && u.isActive {
          assert CanLogIn(t.entries[key], username, password);
          assert FirstLogin(t, username, password, i) == Some(key);
          return Some(key);
        }
        assert !CanLogIn(t.entries[key], username, password);
        i := i + 1;
      }
      assert FirstLogin(t, username, password, i) == None;
      return None;
    }

    /** `update_last_login` on the user stored under `key`, seen from the dict. */
    method RecordLogin(key: string, now: int)
      requires Valid() && key in users.entries
      modifies users.entries[key]
      ensures Valid() && users == old(users)
      ensures UserTable() == old(UserTable()).Put(key, old(UserTable()).entries[key].(lastLogin := Some(now)))
    {
      var u := users.entries[key];
      u.UpdateLastLogin(now);
      UserTableUpdated(users, key);
    }

    /** `register_user`: refused when any user, active or not, already has
        exactly this username; otherwise a new user is stored under `userId`
        (the `uuid4()` string) and nothing else changes. */
    method RegisterUser(username: string, password: string, email: string, phone: string,
                        role: string, userId: string, now: int) returns (ok: bool)
      requires Valid()
      modifies this
      ensures Valid()
      ensures ok <==> !UsernameTaken(old(UserTable()), username)
      ensures UserTable() == if ok then old(UserTable()).Put(userId, UserData(userId, username, email, phone, role, HashPassword(password), now, None, true))
                             else old(UserTable())
      ensures ok && userId !in old(users.entries) ==> users.Size() == old(users.Size()) + 1
      ensures UniqueUsernames(old(UserTable())) ==> UniqueUsernames(UserTable())
    {
      ghost var t := UserTable();
      var taken := FindUsername(username);
      if taken.Some? {
        return false;
      }
      var u := User.CreateUser(username, password, email, phone, role, userId, now);
      if UniqueUsernames(t) {
        RegisterKeepsUsernamesUnique(t, userId, u.Data());
      }
      ghost var data := UserData(userId, username, email, phone, role, HashPassword(password), now, None, true);
      assert u.Data() == data;
      assert u.userId == userId;
      assert UserTable() == t;
      if userId !in users.entries {
        PutGrows(users, userId, u);
      }
      Store(u);
      assert u.Data() == data;
      assert UserTable() == t.Put(userId, data);
      return true;
    }

    /** `get_user` */
    function GetUser(userId: string): (r: Option<User>)
      reads this
      ensures r.Some? <==> userId in users.entries
      ensures r.Some? ==> r.value == users.entries[userId]
    {
      users.Get(userId)
    }

    /** `get_user_by_username`: the first user in dict order with exactly
        this username, None when there is none. */
    method GetUserByUsername(username: string) returns (r: Option<User>)
      requires Valid()
      ensures var k := FirstWithUsername(UserTable(), username, 0);
        && (r.Some? <==> k.Some?)
        && (k.Some? ==> r.value == users.entries[k.value])
      ensures r.Some? ==> r.value in users.entries.Values && r.value.username == username
      ensures r.None? <==> !UsernameTaken(UserTable(), username)
    {
      var k := FindUsername(username);
      if k.None? {
        return None;
      }
      var u := users.entries[k.value];
      assert u in users.entries.Values;
      return Some(u);
    }

    /** The search loop of `get_user_by_username` and `register_user`: the
        key of the first user, in dict order, with exactly this username. */
    method FindUsername(username: string) returns (k: Option<string>)
      requires Valid()
      ensures k == FirstWithUsername(UserTable(), username, 0)
      ensures k.None? <==> !UsernameTaken(UserTable(), username)
    {
      ghost var t := UserTable();
      UsernameTakenIffFound(t, username);
      var i := 0;
      while i < |users.keys|
        invariant 0 <= i <= |users.keys|
        invariant FirstWithUsername(t, username, 0) == FirstWithUsername(t, username, i)
      {
        var key := users.keys[i];
        var u := users.entries[key];
        assert t.entries[key] == u.Data();
        if u.username == username {
          assert t.entries[key].username == username;
          return Some(key);
        }
        assert t.entries[key].username != username;
        i := i + 1;
      }
      return None;
    }

    /** `deactivate_user`: false for an unknown id; otherwise only that
        user's active flag is cleared. */
    method DeactivateUser(userId: string) returns (ok: bool)
      requires Valid()
      modifies users.entries.Values
      ensures Valid() && users == old(users)
      ensures ok <==> userId in users.entries
      ensures UserTable() == if ok then old(UserTable()).Put(userId, old(UserTable()).entries[userId].(isActive := false))
                             else old(UserTable())
    {
      var found := GetUser(userId);
      if found.None? {
        return false;
      }
      var u := found.value;
      u.isActive := false;
      assert forall k :: k in users.entries && k != userId ==> users.entries[k] != u;
      UserTableUpdated(users, userId);
      return true;
    }

    /** `change_password`: false for an unknown id or an old password that
        does not verify; otherwise only that user's digest changes, to the
        digest of the new password. */
    method ChangePassword(userId: string, oldPassword: string, newPassword: string) returns (ok: bool)
      requires Valid()
      modifies users.entries.Values
      ensures Valid() && users == old(users)
      ensures ok <==> userId in users.entries && PasswordMatches(old(UserTable()).entries[userId], oldPassword)
      ensures UserTable() == if ok then old(UserTable()).Put(userId, old(UserTable()).entries[userId].(passwordHash := HashPassword(newPassword)))
                             else old(UserTable())
    {
      var found := GetUser(userId);
      if found.None? || !found.value.VerifyPassword(oldPassword) {
        return false;
      }
      var u := found.value;
      u.passwordHash := HashPassword(newPassword);
      assert forall k :: k in users.entries && k != userId ==> users.entries[k] != u;
      UserTableUpdated(users, userId);
      return true;
    }
  }
}
