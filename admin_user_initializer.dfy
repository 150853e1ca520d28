/** The start-up seeding of the administrator account. The password hasher
    and the clock are parameters. */
module AdminUserInitializer {
  import opened Common
  import opened Entities
  import opened Database
  import AuthController

  const AdminName := "admin"
  const AdminPassword := "admin123"

  function AdminUser(encode: string -> string, now: Time): (u: AppUser)
    ensures u.name == AdminName && u.occupation == Admin && u.admin
  {
    AppUser(AdminName, Admin, encode(AdminPassword), now, true)
  }

  /** The user table and the next key after seeding: unchanged when a user
      called "admin" exists, otherwise one more row holding the administrator. */
  function Seeded(users: map<nat, AppUser>, nextId: nat, encode: string -> string, now: Time)
    : (r: (map<nat, AppUser>, nat))
    ensures NameTaken(r.0, AdminName)
    ensures NameTaken(users, AdminName) ==> r == (users, nextId)
    ensures !NameTaken(users, AdminName) ==>
      r == (users[nextId := AdminUser(encode, now)], nextId + 1)
  {
    if NameTaken(users, AdminName) then (users, nextId)
    else
      var u := AdminUser(encode, now);
      assert users[nextId := u][nextId].name == AdminName;
      (users[nextId := u], nextId + 1)
  }

  /** Seeding a second time, at any later moment, changes nothing. */
  lemma SeedIdempotent(users: map<nat, AppUser>, nextId: nat, encode: string -> string, now: Time, later: Time)
    ensures var once := Seeded(users, nextId, encode, now);
      Seeded(once.0, once.1, encode, later) == once
  {
  }

  /** A freshly seeded store lets the administrator log in, as an admin,
      with the default password. */
  lemma SeededAdminLogsIn(users: map<nat, AppUser>, nextId: nat, encode: string -> string,
                          matches: (string, string) -> bool, now: Time)
    requires KeysBelow(users, nextId) && UsersConstrained(users) && !NameTaken(users, AdminName)
    requires matches(AdminPassword, encode(AdminPassword))
    ensures var s := Seeded(users, nextId, encode, now);
      KeysBelow(s.0, s.1) && UsersConstrained(s.0)
      && AuthController.Authenticate(s.0, s.1, AdminName, AdminPassword, matches)
         == Ok(SessionUser(nextId, AdminName, Admin, true))
  {
    var s := Seeded(users, nextId, encode, now);
    assert s.0[nextId] == AdminUser(encode, now);
    forall a, b | a in s.0 && b in s.0 && a != b
      ensures s.0[a].name != s.0[b].name
    {
      if a == nextId {
        assert users[b].name == s.0[b].name;
      } else if b == nextId {
        assert users[a].name == s.0[a].name;
      }
    }
    var r := AuthController.Authenticate(s.0, s.1, AdminName, AdminPassword, matches);
    assert r.Ok? by {
      assert s.0[nextId].name == AdminName && matches(AdminPassword, s.0[nextId].passwordHash);
    }
    assert r.value.id == nextId;
  }

  /** `run`: insert the administrator unless a user called "admin" exists;
      an existing one is left as it is. */
  method Run(db: Db, encode: string -> string, now: Time)
    requires db.Valid()
    modifies db`users, db`nextId
    ensures db.Valid()
    ensures (db.users, db.nextId) == Seeded(old(db.users), old(db.nextId), encode, now)
  {
    if !NameTaken(db.users, AdminName) {
      var ok, id := db.InsertUser(AdminUser(encode, now));
    }
  }
}
