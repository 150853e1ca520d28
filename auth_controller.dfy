/** Login and user creation. Password hashing and checking are parameters
    (`encode` and `matches`); the caller's session user is passed in. */
module AuthController {
  import opened Common
  import opened Entities
  import opened Database
  import Text
  import SessionService

  /** `findByName`: the key of the user called `name` among keys `[lo, hi)`. */
  function UserNamed(users: map<nat, AppUser>, name: string, lo: nat, hi: nat): (r: Option<nat>)
    ensures r.Some? ==> r.value in users && users[r.value].name == name && lo <= r.value < hi
    ensures r.None? ==> forall k :: k in users && lo <= k < hi ==> users[k].name != name
    decreases hi - lo
  {
    if lo >= hi then None
    else if lo in users && users[lo].name == name then Some(lo)
    else UserNamed(users, name, lo + 1, hi)
  }

  /** The identity a login grants: admin exactly when the occupation is ADMIN
      (the stored admin flag plays no part). */
  function SessionOf(id: nat, u: AppUser): (s: SessionUser)
    ensures s.admin <==> u.occupation == Admin
    ensures s.id == id && s.name == u.name && s.occupation == u.occupation
  {
    SessionUser(id, u.name, u.occupation, u.occupation == Admin)
  }

  /** The checks of `login`: 404 for an unknown name, 401 for a wrong
      password, otherwise the session user of the one user with that name. */
  function Authenticate(users: map<nat, AppUser>, nextId: nat, name: string, password: string,
                        matches: (string, string) -> bool): (r: Result<SessionUser>)
    requires KeysBelow(users, nextId) && UsersConstrained(users)
    ensures r == Err(NotFound) <==> !NameTaken(users, name)
    ensures r == Err(Unauthorized) <==>
      exists k :: k in users && users[k].name == name && !matches(password, users[k].passwordHash)
    ensures r.Ok? <==> exists k :: k in users && users[k].name == name && matches(password, users[k].passwordHash)
    ensures r.Ok? ==>
      r.value.id in users && r.value == SessionOf(r.value.id, users[r.value.id]) && users[r.value.id].name == name
  {
    var found := UserNamed(users, name, 0, nextId);
    if found.None? then Err(NotFound)
    else if !matches(password, users[found.value].passwordHash) then Err(Unauthorized)
    else Ok(SessionOf(found.value, users[found.value]))
  }

  /** What both endpoints answer with; user creation carries no token. */
  datatype LoginResponse = LoginResponse(token: Option<string>, id: nat, name: string, occupation: Occupation,
                                         admin: bool)

  /** `login`: a session is opened only when the name and the password
      check out. `token` is the random token the session service draws. */
  method Login(db: Db, sessions: SessionService.Sessions, name: string, password: string,
               matches: (string, string) -> bool, token: string)
    returns (res: Result<LoginResponse>)
    requires db.Valid()
    modifies sessions
    ensures var a := Authenticate(db.users, db.nextId, name, password, matches);
      if a.Ok? then
        res == Ok(LoginResponse(Some(token), a.value.id, a.value.name, a.value.occupation, a.value.admin))
        && sessions.sessions == old(sessions.sessions)[token := a.value]
      else
        res == Err(a.error) && sessions.sessions == old(sessions.sessions)
  {
    var a := Authenticate(db.users, db.nextId, name, password, matches);
    if a.Err? {
      return Err(a.error);
    }
    var issued := sessions.CreateSession(a.value, token);
    return Ok(LoginResponse(Some(issued), a.value.id, a.value.name, a.value.occupation, a.value.admin));
  }

  /** The body of `createUser`; a missing field is null. */
  datatype CreateUserRequest = CreateUserRequest(name: Option<string>, password: Option<string>,
                                                 occupation: Option<Occupation>)

  /** May create users: a session whose user is an admin. */
  predicate IsAdmin(current: Option<SessionUser>)
  {
    current.Some? && current.value.admin
  }

  /** The user `createUser` builds: trimmed name, hashed password, the admin
      flag left at false. */
  function NewUser(name: string, password: string, occupation: Occupation, encode: string -> string, now: Time)
    : (u: AppUser)
    ensures u.name == Text.Trim(name) && !u.admin && u.occupation == occupation
  {
    AppUser(Text.Trim(name), occupation, encode(password), now, false)
  }

  /** As written: 403 for a caller who is not an admin; 409 when the name AS
      SENT is taken. A null name, password or occupation fails with a 500
      (trimming null, hashing null, the not-null columns). */
  function CreateUserCheckedAsWritten(users: map<nat, AppUser>, current: Option<SessionUser>, req: CreateUserRequest,
                                      encode: string -> string, now: Time): (r: Result<AppUser>)
    ensures !IsAdmin(current) ==> r == Err(Forbidden)
    ensures IsAdmin(current) && req.name.Some? && NameTaken(users, req.name.value) ==> r == Err(Conflict)
    ensures r.Ok? <==> IsAdmin(current) && req.name.Some? && req.password.Some? && req.occupation.Some?
                       && !NameTaken(users, req.name.value)
    ensures r.Ok? ==> r.value == NewUser(req.name.value, req.password.value, req.occupation.value, encode, now)
  {
    if !IsAdmin(current) then Err(Forbidden)
    else if req.name.None? then Err(Internal)
    else if NameTaken(users, req.name.value) then Err(Conflict)
    else if req.password.None? || req.occupation.None? then Err(Internal)
    else Ok(NewUser(req.name.value, req.password.value, req.occupation.value, encode, now))
  }

  /** A name that differs from a stored one only by surrounding blanks passes
      the as-written check, and the unique column then refuses the insert:
      the request ends in a 500, not in the 409 meant for a taken name. */
  lemma PaddedDuplicateSlipsThrough(encode: string -> string, now: Time)
    ensures var users := map[1 := AppUser("alice", MaintenanceEngineer, "h", 0, false)];
      var admin := Some(SessionUser(0, "admin", Admin, true));
      var req := CreateUserRequest(Some(" alice "), Some("pw"), Some(MaintenanceEngineer));
      && CreateUserCheckedAsWritten(users, admin, req, encode, now).Ok?
      && NameTaken(users, CreateUserCheckedAsWritten(users, admin, req, encode, now).value.name)
  {
    var users := map[1 := AppUser("alice", MaintenanceEngineer, "h", 0, false)];
    var admin := Some(SessionUser(0, "admin", Admin, true));
    var req := CreateUserRequest(Some(" alice "), Some("pw"), Some(MaintenanceEngineer));
    assert !NameTaken(users, " alice ") by {
      assert users.Keys == {1};
      assert " alice " != "alice";
    }
    assert Text.Trim(" alice ") == "alice" by {
      assert " alice "[1..] == "alice ";
      assert "alice "[..5] == "alice";
    }
    assert CreateUserCheckedAsWritten(users, admin, req, encode, now).value.name == "alice" == users[1].name;
  }

  /** Corrected: the duplicate check uses the name that is stored. */
  function CreateUserChecked(users: map<nat, AppUser>, current: Option<SessionUser>, req: CreateUserRequest,
                             encode: string -> string, now: Time): (r: Result<AppUser>)
    ensures !IsAdmin(current) ==> r == Err(Forbidden)
    ensures IsAdmin(current) && req.name.Some? && NameTaken(users, Text.Trim(req.name.value)) ==> r == Err(Conflict)
    ensures r.Ok? <==> IsAdmin(current) && req.name.Some? && req.password.Some? && req.occupation.Some?
                       && !NameTaken(users, Text.Trim(req.name.value))
    ensures r.Ok? ==> r.value == NewUser(req.name.value, req.password.value, req.occupation.value, encode, now)
    // whatever passes the check is accepted by the unique name column
    ensures r.Ok? ==> !NameTaken(users, r.value.name)
  {
    if !IsAdmin(current) then Err(Forbidden)
    else if req.name.None? then Err(Internal)
    else if NameTaken(users, Text.Trim(req.name.value)) then Err(Conflict)
    else if req.password.None? || req.occupation.None? then Err(Internal)
    else Ok(NewUser(req.name.value, req.password.value, req.occupation.value, encode, now))
  }

  /** The two checks differ only where the as-written one lets a taken name
      through. */
  lemma ChecksDifferOnlyOnPaddedNames(users: map<nat, AppUser>, current: Option<SessionUser>,
                                      req: CreateUserRequest, encode: string -> string, now: Time)
    requires req.name.Some? ==> NameTaken(users, req.name.value) == NameTaken(users, Text.Trim(req.name.value))
    ensures CreateUserCheckedAsWritten(users, current, req, encode, now) == CreateUserChecked(users, current, req, encode, now)
  {
  }

  /** `createUser` with the corrected check: 201 with the new user and no
      token. The store never refuses a user that passed the check: the name
      column has no length limit in this model. */
  method CreateUser(db: Db, current: Option<SessionUser>, req: CreateUserRequest, encode: string -> string, now: Time)
    returns (res: Result<LoginResponse>)
    requires db.Valid()
    modifies db`users, db`nextId
    ensures db.Valid()
    ensures var c := CreateUserChecked(old(db.users), current, req, encode, now);
      if c.Ok? then
        var id := old(db.nextId);
        res == Ok(LoginResponse(None, id, c.value.name, c.value.occupation, c.value.occupation == Admin))
        && db.users == old(db.users)[id := c.value]
      else
        res == Err(c.error) && db.users == old(db.users)
  {
    var c := CreateUserChecked(db.users, current, req, encode, now);
    if c.Err? {
      return Err(c.error);
    }
    var ok, id := db.InsertUser(c.value);
    if !ok {
      assert false;
      return Err(Internal);
    }
    return Ok(LoginResponse(None, id, c.value.name, c.value.occupation, c.value.occupation == Admin));
  }
}
