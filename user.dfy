/** project/models/user.py: a user of the bank, its password digest and its
    dictionary form. */
module Users {
  import opened Common
  import Json

  /** The hex SHA-256 digest (FIPS 180-4) of a password's UTF-8 bytes. Left
      uninterpreted: the model uses only that it is a function. */
  const Sha256Hex: string -> string

  /** `User.hash_password`: a single unsalted digest. */
  function HashPassword(password: string): (h: string)
    ensures h == Sha256Hex(password)
  {
    Sha256Hex(password)
  }

  /** The field values of a user at one moment. */
  datatype UserData = UserData(
    userId: string,
    username: string,
    email: string,
    phone: string,
    role: string,
    passwordHash: string,
    createdAt: int,
    lastLogin: Option<int>,
    isActive: bool)

  /** What `verify_password` decides: the stored digest is that of `password`. */
  predicate PasswordMatches(u: UserData, password: string) {
    u.passwordHash == HashPassword(password)
  }

  class User {
    const userId: string
    const username: string
    const email: string
    const phone: string
    const role: string
    var passwordHash: string
    const createdAt: int
    var lastLogin: Option<int>
    var isActive: bool

    function Data(): UserData
      reads this
    {
      UserData(userId, username, email, phone, role, passwordHash, createdAt, lastLogin, isActive)
    }

    /** `User(...)`: a new user is active and has never logged in. */
    constructor (userId: string, username: string, email: string, phone: string, role: string,
                 passwordHash: string, createdAt: int)
      ensures Data() == UserData(userId, username, email, phone, role, passwordHash, createdAt, None, true)
    {
      this.userId := userId;
      this.username := username;
      this.email := email;
      this.phone := phone;
      this.role := role;
      this.passwordHash := passwordHash;
      this.createdAt := createdAt;
      lastLogin := None;
      isActive := true;
    }

    /** `User.create_user`: stores the digest of the password, so that the
        password verifies. `userId` is the `uuid4()` string, `now` the
        creation instant. */
    static method CreateUser(username: string, password: string, email: string, phone: string,
                             role: string, userId: string, now: int) returns (u: User)
      ensures fresh(u)
      ensures u.Data() == UserData(userId, username, email, phone, role, HashPassword(password), now, None, true)
      ensures u.VerifyPassword(password)
    {
      u := new User(userId, username, email, phone, role, HashPassword(password), now);
    }

    /** `verify_password` */
    function VerifyPassword(password: string): (ok: bool)
      reads this
      ensures ok <==> PasswordMatches(Data(), password)
    {
      passwordHash == HashPassword(password)
    }

    /** Sets the last login to `now` (the `datetime.now()` instant) and nothing else. */
    method UpdateLastLogin(now: int)
      modifies this`lastLogin
      ensures Data() == old(Data()).(lastLogin := Some(now))
    {
      lastLogin := Some(now);
    }

    /** `to_dict` of this object. */
    function ToDict(): (r: Json.Object)
      reads this
      ensures r.Keys == UserKeys
      ensures forall now :: FromDict(r, now) == Ok(Data())
    {
      assert forall now :: FromDict(UserToDict(Data()), now) == Ok(Data()) by {
        forall now ensures FromDict(UserToDict(Data()), now) == Ok(Data()) {
          FromDictToDict(Data(), now);
        }
      }
      UserToDict(Data())
    }

    /** `User.from_dict(data)`: `now` is the `datetime.now()` used when no
        creation instant is stored. */
    static method FromDictObject(data: Json.Object, now: int) returns (r: Result<User>)
      ensures r.Ok? <==> FromDict(data, now).Ok?
      ensures r.Ok? ==> fresh(r.value) && r.value.Data() == FromDict(data, now).value
    {
      var parsed := FromDict(data, now);
      if parsed.Err? {
        return Err(parsed.reason);
      }
      var p := parsed.value;
      var u := new User(p.userId, p.username, p.email, p.phone, p.role, p.passwordHash, p.createdAt);
      u.lastLogin := p.lastLogin;
      u.isActive := p.isActive;
      return Ok(u);
    }
  }

  /** The keys of a stored user record. */
  const UserKeys: set<string> := {"user_id", "username", "email", "phone", "role", "password_hash",
                                  "created_at", "last_login", "is_active"}

  /** `to_dict` */
  function UserToDict(u: UserData): (r: Json.Object)
    ensures r.Keys == UserKeys
  {
    map[
      "user_id" := Json.JStr(u.userId),
      "username" := Json.JStr(u.username),
      "email" := Json.JStr(u.email),
      "phone" := Json.JStr(u.phone),
      "role" := Json.JStr(u.role),
      "password_hash" := Json.JStr(u.passwordHash),
      "created_at" := Json.JTime(u.createdAt),
      "last_login" := Json.TimeOrNull(u.lastLogin),
      "is_active" := Json.JBool(u.isActive)
    ]
  }

  /** The field values `from_dict` assigns, or the error it raises. A
      missing or null `last_login` means never; a missing `is_active` means active. */
  function FromDict(d: Json.Object, now: int): Result<UserData> {
    var id :- Json.RequiredStr(d, "user_id");
    var username :- Json.RequiredStr(d, "username");
    var email :- Json.RequiredStr(d, "email");
    var phone :- Json.RequiredStr(d, "phone");
    var role :- Json.RequiredStr(d, "role");
    var hash :- Json.RequiredStr(d, "password_hash");
    var created :- Json.OptionalTime(d, "created_at");
    var lastLogin :- Json.OptionalTime(d, "last_login");
    var active :- Json.BoolOr(d, "is_active", true);
    Ok(UserData(id, username, email, phone, role, hash,
                match created case Some(t) => t case None => now,
                lastLogin, active))
  }

  /** `from_dict(to_dict(u))` reproduces every field, a null last login included. */
  lemma FromDictToDict(u: UserData, now: int)
    ensures FromDict(UserToDict(u), now) == Ok(u)
  {
  }

  /** A record without `last_login` and `is_active` loads as an active
      user who never logged in. */
  lemma FromDictDefaults(id: string, username: string, email: string, phone: string, role: string,
                         hash: string, createdAt: int, now: int)
    ensures FromDict(map["user_id" := Json.JStr(id), "username" := Json.JStr(username),
                         "email" := Json.JStr(email), "phone" := Json.JStr(phone),
                         "role" := Json.JStr(role), "password_hash" := Json.JStr(hash),
                         "created_at" := Json.JTime(createdAt)], now)
         == Ok(UserData(id, username, email, phone, role, hash, createdAt, None, true))
  {
  }

  /** The field values of the users of a dict, under the same keys and order. */
  function UserTableOf(d: Dict<User>): (t: Dict<UserData>)
    reads d.entries.Values
    requires d.Valid()
    ensures t.Valid() && t.keys == d.keys
  {
    Dict(d.keys, map k | k in d.entries :: d.entries[k].Data())
  }

  lemma UserTableOfPut(d: Dict<User>, k: string, u: User)
    requires d.Valid()
    ensures UserTableOf(d.Put(k, u)) == UserTableOf(d).Put(k, u.Data())
  {
    assert UserTableOf(d.Put(k, u)).entries == UserTableOf(d).entries[k := u.Data()];
  }

  /** Only the user stored under `changed` changed in place: the table changes
      at that key alone. */
  twostate lemma UserTableUpdated(d: Dict<User>, new changed: string)
    requires d.Valid() && changed in d.entries
    requires forall k :: k in d.entries && k != changed ==> unchanged(d.entries[k])
    ensures UserTableOf(d) == old(UserTableOf(d)).Put(changed, d.entries[changed].Data())
  {
    assert UserTableOf(d).entries == old(UserTableOf(d)).entries[changed := d.entries[changed].Data()];
  }
}
