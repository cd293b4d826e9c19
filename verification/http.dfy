/** What the route handlers exchange with Express: the authenticated caller and the reply. */
module Http {
  import opened Wrappers
  import opened Schema
  import opened Storage

  /** `req.user` as `authenticate` fills it in: id, email and role read from the users table. */
  datatype Caller = Caller(id: int, email: string, role: Role)

  /**
   * A handler's answer: the status code, the record or list the JSON body carries on success,
   * and the store after the request. Message texts are not modelled.
   */
  datatype Reply<T> = Reply(status: int, body: Option<T>, db: Store)

  /** An error reply: the status code, no record, and the store as it was. */
  function Refuse<T>(status: int, db: Store): (r: Reply<T>)
    ensures r.status == status && r.body.None? && r.db == db
  {
    Reply(status, None, db)
  }

  /** A users row as the replies show it: every modelled column except the password. */
  datatype PublicUser = PublicUser(
    id: int,
    email: string,
    phone: Option<string>,
    firstName: string,
    lastName: string,
    role: Role,
    languagePreference: Language,
    isVerified: Option<bool>,
    isActive: Option<bool>,
    createdAt: int,
    updatedAt: int,
    lastLoginAt: Option<int>,
    refreshToken: Option<string>)

  /** `const { password, ...userWithoutPassword } = user`. */
  function WithoutPassword(u: User): (p: PublicUser)
    ensures p.id == u.id && p.email == u.email && p.role == u.role && p.isActive == u.isActive
  {
    PublicUser(u.id, u.email, u.phone, u.firstName, u.lastName, u.role, u.languagePreference,
               u.isVerified, u.isActive, u.createdAt, u.updatedAt, u.lastLoginAt, u.refreshToken)
  }

  /** The JavaScript truthiness of an optional string field: present, not null, not empty. */
  predicate Truthy(f: Field<string>) {
    f.Given? && f.value != ""
  }
}
