/**
 * `POST /api/auth/register`, `POST /api/auth/login` and `POST /api/auth/refresh-token`.
 * bcrypt and JWT are parameters: `hash` stands for `bcrypt.hash(_, 10)`, `matches` for
 * `bcrypt.compare`, `verify` for `jwt.verify` (the id of a valid, unexpired token) and `sign`
 * for `jwt.sign` of the user's id, email and role.
 */
module AuthRoutes {
  import opened Wrappers
  import opened Schema
  import opened Storage
  import opened Http
  import opened Guards
  import opened Tables

  ghost predicate EmailTaken(db: Store, email: string) {
    exists k :: k in db.users.rows && db.users.rows[k].email == email
  }

  ghost predicate PhoneTaken(db: Store, phone: string) {
    exists k :: k in db.users.rows && db.users.rows[k].phone == Some(phone)
  }

  /**
   * Registration, checked in this order: 400 when the body does not pass `insertUserSchema`,
   * 409 when the email is taken, 409 when a non-empty phone is taken, 500 when the insert is
   * refused anyway (which happens exactly for an empty phone another user already has), 201
   * with the new user otherwise. The stored password is the hash; every other given column is
   * stored as sent. A refused insert still uses up a serial id.
   */
  function PostRegister(body: UserFields, hash: string -> string, db: Store, now: int): (r: Reply<PublicUser>)
    requires Valid(db)
    ensures Valid(r.db)
    ensures r.status in {201, 400, 409, 500}
    ensures r.status == 400 <==> !UserInsertOk(body)
    ensures r.status == 409 <==>
      && UserInsertOk(body)
      && (EmailTaken(db, body.email.value) || (Truthy(body.phone) && PhoneTaken(db, body.phone.value)))
    ensures r.status == 500 <==>
      && UserInsertOk(body) && !EmailTaken(db, body.email.value)
      && body.phone == Given("") && PhoneTaken(db, "")
    ensures r.status == 201 <==>
      && UserInsertOk(body) && !EmailTaken(db, body.email.value)
      && !(body.phone.Given? && PhoneTaken(db, body.phone.value))
    ensures r.status != 201 ==> r.body.None?
    ensures r.status in {400, 409} ==> r.db == db
    ensures r.status == 500 ==> r.db == db.(users := Skip(db.users))
    ensures r.status == 201 ==>
      && r.body.Some? && r.body.value.id in r.db.users.rows && r.body.value.id !in db.users.rows
      && var u := r.db.users.rows[r.body.value.id];
         && r.db.users.rows == db.users.rows[u.id := u] && r.db == db.(users := r.db.users)
         && UserInserted(u.id, body.(password := Given(hash(body.password.value))), now, u)
         && r.body.value == WithoutPassword(u)
  {
    if !UserInsertOk(body) then Refuse(400, db)
    else if UserByEmail(db, body.email.value).Some? then Refuse(409, db)
    else if Truthy(body.phone) && UserByPhone(db, body.phone.value).Some? then Refuse(409, db)
    else
      var f := body.(password := Given(hash(body.password.value)));
      RegisterClash(f, db, now);
      match CreateUser(db, f, now)
      case (None, db') => Reply(500, None, db')
      case (Some(u), db') => Reply(201, Some(WithoutPassword(u)), db')
  }

  /**
   * Past the two 409 checks, the new row clashes with a stored one exactly when its phone is
   * the empty string and some user already has that phone.
   */
  lemma RegisterClash(f: UserFields, db: Store, now: int)
    requires Valid(db) && UserInsertOk(f) && !EmailTaken(db, f.email.value)
    requires !(Truthy(f.phone) && PhoneTaken(db, f.phone.value))
    ensures (exists k :: k in db.users.rows && ContactClash(NewUser(db.users.nextId, f, now), db.users.rows[k]))
            <==> f.phone == Given("") && PhoneTaken(db, "")
  {
    var row := NewUser(db.users.nextId, f, now);
    if f.phone == Given("") && PhoneTaken(db, "") {
      var k :| k in db.users.rows && db.users.rows[k].phone == Some("");
      assert ContactClash(row, db.users.rows[k]);
    }
  }

  /**
   * An empty phone is falsy, so the phone check is skipped; if another user already has the
   * empty phone, the unique index refuses the insert and registration fails with 500.
   */
  lemma EmptyPhoneClashIsServerError(body: UserFields, hash: string -> string, db: Store, now: int, other: int)
    requires Valid(db) && UserInsertOk(body) && !EmailTaken(db, body.email.value)
    requires body.phone == Given("") && other in db.users.rows && db.users.rows[other].phone == Some("")
    ensures PostRegister(body, hash, db, now).status == 500
  {
    assert PhoneTaken(db, "");
  }

  /** The fields `login` reads from the body. */
  datatype LoginBody = LoginBody(email: Field<string>, password: Field<string>)

  /** A falsy `isActive` (false or NULL) blocks login. */
  predicate Deactivated(u: User) {
    u.isActive != Some(true)
  }

  /**
   * Login, checked in this order: 400 without a non-empty email and password, 401 when no user
   * has the email, 403 when the account is deactivated, 401 when the password does not match,
   * 200 otherwise. Success refreshes only updatedAt (lastLoginAt is never written) and replies
   * with the user as it was before that update, plus a signed token. The update touches neither
   * email nor phone, so the handler's 500 is unreachable for a string email and password.
   */
  function PostLogin(body: LoginBody, matches: (string, string) -> bool, sign: User -> string, db: Store,
                     now: int): (r: Reply<(PublicUser, string)>)
    requires Valid(db)
    ensures Valid(r.db)
    ensures r.status in {200, 400, 401, 403}
    ensures r.status == 400 <==> !Truthy(body.email) || !Truthy(body.password)
    ensures r.status == 403 <==>
      && Truthy(body.email) && Truthy(body.password)
      && exists k :: k in db.users.rows && db.users.rows[k].email == body.email.value && Deactivated(db.users.rows[k])
    ensures r.status == 200 <==>
      && Truthy(body.email) && Truthy(body.password)
      && exists k :: && k in db.users.rows && db.users.rows[k].email == body.email.value
                     && !Deactivated(db.users.rows[k]) && matches(body.password.value, db.users.rows[k].password)
    ensures r.status != 200 ==> r.db == db && r.body.None?
    ensures r.status == 200 ==>
      && r.body.Some? && r.body.value.0.id in db.users.rows
      && var u := db.users.rows[r.body.value.0.id];
      && u.email == body.email.value && !Deactivated(u) && matches(body.password.value, u.password)
      && r.body.value == (WithoutPassword(u), sign(u))
      && r.db == db.(users := r.db.users)
      && r.db.users.rows == db.users.rows[u.id := u.(updatedAt := now)]
      && r.db.users.nextId == db.users.nextId
  {
    if !Truthy(body.email) || !Truthy(body.password) then Refuse(400, db)
    else
      match UserByEmail(db, body.email.value)
      case None => Refuse(401, db)
      case Some(u) =>
        if Deactivated(u) then Refuse(403, db)
        else if !matches(body.password.value, u.password) then Refuse(401, db)
        else
          UnchangedContactsNoClash(db, u.id, NoUserFields, now);
          var w := UpdateUser(db, u.id, NoUserFields, now);
          Reply(200, Some((WithoutPassword(u), sign(u))), w.db)
  }

  /** A deactivated account cannot log in, even with the right password. */
  lemma DeactivatedCannotLogIn(body: LoginBody, matches: (string, string) -> bool, sign: User -> string,
                               db: Store, now: int, id: int)
    requires Valid(db) && Truthy(body.email) && Truthy(body.password)
    requires id in db.users.rows && db.users.rows[id].email == body.email.value
    ensures var (_, db') := DeactivateUser(db, id, now);
      PostLogin(body, matches, sign, db', now).status == 403
  {
    var (_, db') := DeactivateUser(db, id, now);
    assert db'.users.rows[id].email == body.email.value;
  }

  /**
   * Refresh: 400 without a non-empty refreshToken, 401 when it does not verify or names no
   * user, 200 with a newly signed token otherwise. The stored refreshToken column is never
   * compared, so any valid access token is accepted as a refresh token.
   */
  function PostRefreshToken(refreshToken: Field<string>, verify: string -> Option<int>, sign: User -> string,
                            db: Store): (r: Reply<string>)
    requires Valid(db)
    ensures r.db == db
    ensures r.status in {200, 400, 401}
    ensures r.status == 400 <==> !Truthy(refreshToken)
    ensures r.status == 200 <==> Truthy(refreshToken) && verify(refreshToken.value).Some?
                                 && verify(refreshToken.value).value in db.users.rows
    ensures r.status == 200 ==> r.body == Some(sign(db.users.rows[verify(refreshToken.value).value]))
  {
    if !Truthy(refreshToken) then Refuse(400, db)
    else
      match verify(refreshToken.value)
      case None => Refuse(401, db)
      case Some(id) =>
        match GetUser(db, id)
        case None => Refuse(401, db)
        case Some(u) => Reply(200, Some(sign(u)), db)
  }

  /** Any access token that gets through `authenticate` is also accepted as a refresh token. */
  lemma AccessTokenRefreshes(header: string, verify: string -> Option<int>, sign: User -> string, db: Store)
    requires Valid(db)
    requires Authenticate(Some(header), verify, db).Admitted?
    requires BearerToken(header) != ""
    ensures PostRefreshToken(Given(BearerToken(header)), verify, sign, db).status == 200
  {
  }
}
