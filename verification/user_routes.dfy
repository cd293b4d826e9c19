/** `GET /api/users/me`, `PATCH /api/users/me` and the admin placeholder `GET /api/admin/users`. */
module UserRoutes {
  import opened Wrappers
  import opened Schema
  import opened Storage
  import opened Http
  import opened Guards

  /** The caller's own record without the password, or 404 once the row is gone. */
  function GetMe(caller: Caller, db: Store): (r: Reply<PublicUser>)
    requires Valid(db)
    ensures r.db == db
    ensures r.status == 404 <==> caller.id !in db.users.rows
    ensures r.status != 404 ==> r.status == 200 && r.body == Some(WithoutPassword(db.users.rows[caller.id]))
  {
    match GetUser(db, caller.id)
    case None => Refuse(404, db)
    case Some(u) => Reply(200, Some(WithoutPassword(u)), db)
  }

  /**
   * What `PATCH /users/me` hands to `updateUser`: a given `role` removed (a null one is falsy
   * and stays, for validation to refuse), and a non-empty password replaced by its hash (an
   * empty one is falsy and goes through as it is). Every other field, isActive and isVerified
   * included, passes unchanged.
   */
  function SelfPatch(body: UserFields, hash: string -> string): (f: UserFields)
    ensures f.role == (if body.role.Null? then Null else Absent)
    ensures Truthy(body.password) ==> f.password == Given(hash(body.password.value))
    ensures !Truthy(body.password) ==> f.password == body.password
    ensures f.(role := body.role, password := body.password) == body
  {
    body.(role := if body.role.Given? then Absent else body.role,
          password := if Truthy(body.password) then Given(hash(body.password.value)) else body.password)
  }

  /**
   * 400 when the body fails `insertUserSchema.partial()` (a required column set to null),
   * 404 when the caller's row is gone, 500 when the new email or phone belongs to someone else,
   * 200 with the updated user otherwise: every field of the self-patch is stored, the rest of
   * the row stays.
   */
  function PatchMe(caller: Caller, body: UserFields, hash: string -> string, db: Store, now: int): (r: Reply<PublicUser>)
    requires Valid(db)
    ensures Valid(r.db)
    ensures r.status in {200, 400, 404, 500}
    ensures r.status == 400 <==> !UserPatchOk(body)
    ensures r.status == 404 <==> UserPatchOk(body) && caller.id !in db.users.rows
    ensures r.status == 500 <==>
      && UserPatchOk(body) && caller.id in db.users.rows
      && ClashesWithOther(db.users, ApplyUserFields(db.users.rows[caller.id], SelfPatch(body, hash), now))
    ensures r.status != 200 ==> r.db == db && r.body.None?
    ensures r.status == 200 ==>
      && caller.id in db.users.rows && caller.id in r.db.users.rows
      && var prev := db.users.rows[caller.id];
         var u := r.db.users.rows[caller.id];
         && UserUpdated(prev, SelfPatch(body, hash), now, u)
         && u.role == prev.role
         && (Truthy(body.password) ==> u.password == hash(body.password.value))
         && (body.password == Given("") ==> u.password == "")
         && r.db == db.(users := r.db.users)
         && r.db.users.rows == db.users.rows[caller.id := u]
         && r.body == Some(WithoutPassword(u))
  {
    if !UserPatchOk(body) then Refuse(400, db)
    else
      match UpdateUser(db, caller.id, SelfPatch(body, hash), now)
      case Missing => Refuse(404, db)
      case Conflict => Refuse(500, db)
      case Written(u, db') => Reply(200, Some(WithoutPassword(u)), db')
  }

  /** Whatever the body says, the caller's role is the same after `PATCH /users/me`. */
  lemma PatchMeKeepsRole(caller: Caller, body: UserFields, hash: string -> string, db: Store, now: int)
    requires Valid(db) && caller.id in db.users.rows
    ensures var r := PatchMe(caller, body, hash, db, now);
      caller.id in r.db.users.rows && r.db.users.rows[caller.id].role == db.users.rows[caller.id].role
  {
  }

  /**
   * A deactivated user whose token still verifies can switch their own account back on:
   * `authenticate` ignores isActive and the self-patch accepts it.
   */
  lemma DeactivatedUserCanReactivate(header: string, verify: string -> Option<int>, hash: string -> string,
                                     db: Store, id: int, now: int)
    requires Valid(db) && id in db.users.rows
    requires |header| >= 7 && header[..7] == "Bearer " && verify(BearerToken(header)) == Some(id)
    ensures var (_, db1) := DeactivateUser(db, id, now);
      var auth := Authenticate(Some(header), verify, db1);
      && auth.Admitted?
      && var r := PatchMe(auth.caller, NoUserFields.(isActive := Given(true)), hash, db1, now);
         r.status == 200 && r.db.users.rows[id].isActive == Some(true)
  {
    var (_, db1) := DeactivateUser(db, id, now);
    UnchangedContactsNoClash(db1, id, SelfPatch(NoUserFields.(isActive := Given(true)), hash), now);
  }

  /** `GET /api/admin/users`: past `authenticate` and `requireRole(['admin'])`, a fixed message. */
  function GetAdminUsers(header: Option<string>, verify: string -> Option<int>, db: Store): (r: Reply<()>)
    requires Valid(db)
    ensures r.db == db && r.body.None?
    ensures r.status == 200 <==> AuthenticateWithRole(header, verify, db, [Admin]).Admitted?
    ensures r.status == 403 <==> Authenticate(header, verify, db).Admitted? && Authenticate(header, verify, db).caller.role != Admin
  {
    match AuthenticateWithRole(header, verify, db, [Admin])
    case Rejected(s) => Refuse(s, db)
    case Admitted(_) => Reply(200, None, db)
  }
}
