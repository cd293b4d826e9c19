/**
 * The data model of shared/schema.ts: the Postgres enums, one record per table row (the columns
 * the server logic reads or writes), the JSON fields a request may carry for each table, the
 * column defaults applied on insert, and the merge an update performs.
 *
 * Columns declared `notNull()` are plain values; nullable columns are `Option`s (`None` is SQL
 * NULL). Timestamps are integers (milliseconds); `doublePrecision` columns are `real`.
 */
module Schema {
  import opened Wrappers

  // ---------------------------------------------------------------------------------------------
  // Enums

  datatype Role = Student | Tutor | Parent | Admin
  datatype Currency = NGN | KES | ZAR | XOF | USD | EUR
  datatype Language = En | Fr | Sw
  datatype SessionStatus = Scheduled | InProgress | Completed | Cancelled
  datatype PaymentStatus = Pending | Paid | Failed | Refunded | HeldInEscrow
  datatype PaymentGateway = Flutterwave | Mpesa | Paystack
  datatype ContentType = Pdf | Video | Image | PlainText | Audio | Link

  /** The labels of `session_status`, in declaration order. */
  const SessionStatusLabels: seq<string> := ["scheduled", "in_progress", "completed", "cancelled"]

  /** The labels of `payment_status`, in declaration order (`Paid` is the label `completed`). */
  const PaymentStatusLabels: seq<string> := ["pending", "completed", "failed", "refunded", "held_in_escrow"]

  /** The labels of `user_role`, in declaration order. */
  const RoleLabels: seq<string> := ["student", "tutor", "parent", "admin"]

  function SessionStatusLabel(s: SessionStatus): string {
    match s
    case Scheduled => "scheduled"
    case InProgress => "in_progress"
    case Completed => "completed"
    case Cancelled => "cancelled"
  }

  /** Reads a `session_status` label: exactly the four declared labels are accepted. */
  function ParseSessionStatus(name: string): (r: Option<SessionStatus>)
    ensures r.Some? <==> name in SessionStatusLabels
    ensures r.Some? ==> SessionStatusLabel(r.value) == name
  {
    if name == "scheduled" then Some(Scheduled)
    else if name == "in_progress" then Some(InProgress)
    else if name == "completed" then Some(Completed)
    else if name == "cancelled" then Some(Cancelled)
    else None
  }

  function PaymentStatusLabel(s: PaymentStatus): string {
    match s
    case Pending => "pending"
    case Paid => "completed"
    case Failed => "failed"
    case Refunded => "refunded"
    case HeldInEscrow => "held_in_escrow"
  }

  /** Reads a `payment_status` label: exactly the five declared labels are accepted. */
  function ParsePaymentStatus(name: string): (r: Option<PaymentStatus>)
    ensures r.Some? <==> name in PaymentStatusLabels
    ensures r.Some? ==> PaymentStatusLabel(r.value) == name
  {
    if name == "pending" then Some(Pending)
    else if name == "completed" then Some(Paid)
    else if name == "failed" then Some(Failed)
    else if name == "refunded" then Some(Refunded)
    else if name == "held_in_escrow" then Some(HeldInEscrow)
    else None
  }

  function RoleLabel(r: Role): string {
    match r
    case Student => "student"
    case Tutor => "tutor"
    case Parent => "parent"
    case Admin => "admin"
  }

  /** Reads a `user_role` label: exactly the four declared labels are accepted. */
  function ParseRole(name: string): (r: Option<Role>)
    ensures r.Some? <==> name in RoleLabels
    ensures r.Some? ==> RoleLabel(r.value) == name
  {
    if name == "student" then Some(Student)
    else if name == "tutor" then Some(Tutor)
    else if name == "parent" then Some(Parent)
    else if name == "admin" then Some(Admin)
    else None
  }

  /** The labels of `language`, in declaration order. */
  const LanguageLabels: seq<string> := ["en", "fr", "sw"]

  function LanguageLabel(l: Language): string {
    match l
    case En => "en"
    case Fr => "fr"
    case Sw => "sw"
  }

  /** Reads a `language` label: exactly the three declared labels are accepted. */
  function ParseLanguage(name: string): (r: Option<Language>)
    ensures r.Some? <==> name in LanguageLabels
    ensures r.Some? ==> LanguageLabel(r.value) == name
  {
    if name == "en" then Some(En)
    else if name == "fr" then Some(Fr)
    else if name == "sw" then Some(Sw)
    else None
  }

  /** Every enum value is written with a label its reader accepts back as the same value. */
  lemma LabelsRoundTrip(s: SessionStatus, p: PaymentStatus, r: Role, l: Language)
    ensures ParseSessionStatus(SessionStatusLabel(s)) == Some(s)
    ensures ParsePaymentStatus(PaymentStatusLabel(p)) == Some(p)
    ensures ParseRole(RoleLabel(r)) == Some(r)
    ensures ParseLanguage(LanguageLabel(l)) == Some(l)
  {
  }

  // ---------------------------------------------------------------------------------------------
  // Request fields

  /**
   * One field of a JSON request body as the insert schemas see it: left out, sent as `null`,
   * or given a value (of the right type: bodies with wrongly typed values are not modelled).
   */
  datatype Field<T> = Absent | Null | Given(value: T)

  /**
   * The value a nullable column takes from a field: the given value, NULL for `null`, and
   * `otherwise` when the field is left out (the column default on insert, the old value on
   * update).
   */
  function Merged<T>(f: Field<T>, otherwise: Option<T>): Option<T> {
    match f
    case Absent => otherwise
    case Null => None
    case Given(v) => Some(v)
  }

  /** The same for a `notNull` column, where a `null` is refused before any write. */
  function MergedRequired<T>(f: Field<T>, otherwise: T): T {
    if f.Given? then f.value else otherwise
  }

  /** Column value `v` is what field `f` asks for, `otherwise` standing for a left-out field. */
  predicate Takes<T(==)>(f: Field<T>, otherwise: Option<T>, v: Option<T>) {
    && (f.Given? ==> v == Some(f.value))
    && (f.Null? ==> v.None?)
    && (f.Absent? ==> v == otherwise)
  }

  /** The same for a `notNull` column: a given value is stored, a left-out one keeps `otherwise`. */
  predicate TakesRequired<T(==)>(f: Field<T>, otherwise: T, v: T) {
    && (f.Given? ==> v == f.value)
    && (f.Absent? ==> v == otherwise)
  }

  /** The field of a merge that sends the same fields again: nothing further changes. */
  lemma MergeTwice<T>(f: Field<T>, prev: Option<T>, req: T)
    ensures Merged(f, Merged(f, prev)) == Merged(f, prev)
    ensures MergedRequired(f, MergedRequired(f, req)) == MergedRequired(f, req)
  {
  }

  // ---------------------------------------------------------------------------------------------
  // users

  datatype User = User(
    id: int,
    email: string,
    phone: Option<string>,
    password: string,
    firstName: string,
    lastName: string,
    role: Role,
    languagePreference: Language,
    isVerified: Option<bool>,
    isActive: Option<bool>,
    createdAt: int,
    updatedAt: int,
    lastLoginAt: Option<int>,
    refreshToken: Option<string>)

  /** The fields `insertUserSchema` keeps (it omits id, createdAt, updatedAt, lastLoginAt, refreshToken). */
  datatype UserFields = UserFields(
    email: Field<string>,
    phone: Field<string>,
    password: Field<string>,
    firstName: Field<string>,
    lastName: Field<string>,
    role: Field<Role>,
    languagePreference: Field<Language>,
    isVerified: Field<bool>,
    isActive: Field<bool>)

  const NoUserFields := UserFields(Absent, Absent, Absent, Absent, Absent, Absent, Absent, Absent, Absent)

  /** `insertUserSchema` accepts the fields: the `notNull` columns without default are given. */
  predicate UserInsertOk(f: UserFields) {
    && f.email.Given? && f.password.Given? && f.firstName.Given? && f.lastName.Given?
    && !f.role.Null? && !f.languagePreference.Null?
  }

  /** `insertUserSchema.partial()` accepts the fields: no `notNull` column is set to null. */
  predicate UserPatchOk(f: UserFields) {
    && !f.email.Null? && !f.password.Null? && !f.firstName.Null? && !f.lastName.Null?
    && !f.role.Null? && !f.languagePreference.Null?
  }

  /** The row an insert creates: role defaults to student, language to en, isActive to true. */
  function NewUser(id: int, f: UserFields, now: int): (u: User)
    requires UserInsertOk(f)
    ensures UserInserted(id, f, now, u)
  {
    User(id, f.email.value, Merged(f.phone, None), f.password.value, f.firstName.value,
         f.lastName.value, MergedRequired(f.role, Student), MergedRequired(f.languagePreference, En),
         Merged(f.isVerified, Some(false)), Merged(f.isActive, Some(true)), now, now, None, None)
  }

  /** The row after `update ... set {...fields, updatedAt: now}`. */
  function ApplyUserFields(u: User, f: UserFields, now: int): (r: User)
    requires UserPatchOk(f)
    ensures UserUpdated(u, f, now, r)
  {
    u.(email := MergedRequired(f.email, u.email),
       phone := Merged(f.phone, u.phone),
       password := MergedRequired(f.password, u.password),
       firstName := MergedRequired(f.firstName, u.firstName),
       lastName := MergedRequired(f.lastName, u.lastName),
       role := MergedRequired(f.role, u.role),
       languagePreference := MergedRequired(f.languagePreference, u.languagePreference),
       isVerified := Merged(f.isVerified, u.isVerified),
       isActive := Merged(f.isActive, u.isActive),
       updatedAt := now)
  }

  /**
   * `u` is the row an insert of `f` creates under `id` at `now`: the required columns hold the
   * given values, every other column its field or its default, and the columns no schema
   * carries start empty.
   */
  predicate UserInserted(id: int, f: UserFields, now: int, u: User) {
    && u.id == id
    && f.email == Given(u.email) && f.password == Given(u.password)
    && f.firstName == Given(u.firstName) && f.lastName == Given(u.lastName)
    && Takes(f.phone, None, u.phone)
    && TakesRequired(f.role, Student, u.role)
    && TakesRequired(f.languagePreference, En, u.languagePreference)
    && Takes(f.isVerified, Some(false), u.isVerified)
    && Takes(f.isActive, Some(true), u.isActive)
    && u.createdAt == now && u.updatedAt == now
    && u.lastLoginAt.None? && u.refreshToken.None?
  }

  /**
   * `u` is `prev` after an update carrying `f` at `now`: every column takes its field, the
   * columns no schema carries stay as they were, and updatedAt becomes `now`.
   */
  predicate UserUpdated(prev: User, f: UserFields, now: int, u: User) {
    && u.id == prev.id
    && TakesRequired(f.email, prev.email, u.email)
    && Takes(f.phone, prev.phone, u.phone)
    && TakesRequired(f.password, prev.password, u.password)
    && TakesRequired(f.firstName, prev.firstName, u.firstName)
    && TakesRequired(f.lastName, prev.lastName, u.lastName)
    && TakesRequired(f.role, prev.role, u.role)
    && TakesRequired(f.languagePreference, prev.languagePreference, u.languagePreference)
    && Takes(f.isVerified, prev.isVerified, u.isVerified)
    && Takes(f.isActive, prev.isActive, u.isActive)
    && u.createdAt == prev.createdAt && u.updatedAt == now
    && u.lastLoginAt == prev.lastLoginAt && u.refreshToken == prev.refreshToken
  }

  /** Neither relation leaves a column open: for fields the schema accepts, each fixes the row. */
  lemma UserRowDetermined(id: int, prev: User, f: UserFields, now: int, a: User, b: User)
    ensures UserInsertOk(f) && UserInserted(id, f, now, a) && UserInserted(id, f, now, b) ==> a == b
    ensures UserPatchOk(f) && UserUpdated(prev, f, now, a) && UserUpdated(prev, f, now, b) ==> a == b
  {
  }

  // ---------------------------------------------------------------------------------------------
  // tutor_profiles

  datatype TutorProfile = TutorProfile(
    id: int,
    userId: int,
    subjects: Option<seq<string>>,
    experience: Option<int>,
    ratingAverage: Option<real>,
    ratingsCount: Option<int>,
    completedSessions: Option<int>,
    createdAt: int,
    updatedAt: int)

  /** The fields `insertTutorProfileSchema` keeps: the rating aggregates are omitted. */
  datatype TutorProfileFields = TutorProfileFields(
    userId: Field<int>,
    subjects: Field<seq<string>>,
    experience: Field<int>)

  predicate TutorProfileInsertOk(f: TutorProfileFields) { f.userId.Given? }

  predicate TutorProfilePatchOk(f: TutorProfileFields) { !f.userId.Null? }

  /** The row an insert creates: experience and the three aggregates default to 0. */
  function NewTutorProfile(id: int, f: TutorProfileFields, now: int): (p: TutorProfile)
    requires TutorProfileInsertOk(f)
    ensures TutorProfileInserted(id, f, now, p)
  {
    TutorProfile(id, f.userId.value, Merged(f.subjects, None), Merged(f.experience, Some(0)),
                 Some(0.0), Some(0), Some(0), now, now)
  }

  function ApplyTutorProfileFields(p: TutorProfile, f: TutorProfileFields, now: int): (r: TutorProfile)
    requires TutorProfilePatchOk(f)
    ensures TutorProfileUpdated(p, f, now, r)
  {
    p.(userId := MergedRequired(f.userId, p.userId),
       subjects := Merged(f.subjects, p.subjects),
       experience := Merged(f.experience, p.experience),
       updatedAt := now)
  }

  /** `p` is the row an insert of `f` creates: the rating aggregates start at 0 whatever the body says. */
  predicate TutorProfileInserted(id: int, f: TutorProfileFields, now: int, p: TutorProfile) {
    && p.id == id && f.userId == Given(p.userId)
    && Takes(f.subjects, None, p.subjects)
    && Takes(f.experience, Some(0), p.experience)
    && p.ratingAverage == Some(0.0) && p.ratingsCount == Some(0) && p.completedSessions == Some(0)
    && p.createdAt == now && p.updatedAt == now
  }

  /** `p` is `prev` after an update carrying `f`: the rating aggregates are out of reach. */
  predicate TutorProfileUpdated(prev: TutorProfile, f: TutorProfileFields, now: int, p: TutorProfile) {
    && p.id == prev.id
    && TakesRequired(f.userId, prev.userId, p.userId)
    && Takes(f.subjects, prev.subjects, p.subjects)
    && Takes(f.experience, prev.experience, p.experience)
    && p.ratingAverage == prev.ratingAverage && p.ratingsCount == prev.ratingsCount
    && p.completedSessions == prev.completedSessions
    && p.createdAt == prev.createdAt && p.updatedAt == now
  }

  lemma TutorProfileRowDetermined(id: int, prev: TutorProfile, f: TutorProfileFields, now: int,
                                  a: TutorProfile, b: TutorProfile)
    ensures TutorProfileInserted(id, f, now, a) && TutorProfileInserted(id, f, now, b) ==> a == b
    ensures TutorProfilePatchOk(f) && TutorProfileUpdated(prev, f, now, a) && TutorProfileUpdated(prev, f, now, b)
            ==> a == b
  {
  }

  // ---------------------------------------------------------------------------------------------
  // student_profiles

  datatype StudentProfile = StudentProfile(
    id: int,
    userId: int,
    parentId: Option<int>,
    createdAt: int,
    updatedAt: int)

  datatype StudentProfileFields = StudentProfileFields(userId: Field<int>, parentId: Field<int>)

  predicate StudentProfileInsertOk(f: StudentProfileFields) { f.userId.Given? }

  predicate StudentProfilePatchOk(f: StudentProfileFields) { !f.userId.Null? }

  function NewStudentProfile(id: int, f: StudentProfileFields, now: int): (p: StudentProfile)
    requires StudentProfileInsertOk(f)
    ensures StudentProfileInserted(id, f, now, p)
  {
    StudentProfile(id, f.userId.value, Merged(f.parentId, None), now, now)
  }

  function ApplyStudentProfileFields(p: StudentProfile, f: StudentProfileFields, now: int): (r: StudentProfile)
    requires StudentProfilePatchOk(f)
    ensures StudentProfileUpdated(p, f, now, r)
  {
    p.(userId := MergedRequired(f.userId, p.userId), parentId := Merged(f.parentId, p.parentId),
       updatedAt := now)
  }

  predicate StudentProfileInserted(id: int, f: StudentProfileFields, now: int, p: StudentProfile) {
    && p.id == id && f.userId == Given(p.userId) && Takes(f.parentId, None, p.parentId)
    && p.createdAt == now && p.updatedAt == now
  }

  predicate StudentProfileUpdated(prev: StudentProfile, f: StudentProfileFields, now: int, p: StudentProfile) {
    && p.id == prev.id
    && TakesRequired(f.userId, prev.userId, p.userId) && Takes(f.parentId, prev.parentId, p.parentId)
    && p.createdAt == prev.createdAt && p.updatedAt == now
  }

  lemma StudentProfileRowDetermined(id: int, prev: StudentProfile, f: StudentProfileFields, now: int,
                                    a: StudentProfile, b: StudentProfile)
    ensures StudentProfileInserted(id, f, now, a) && StudentProfileInserted(id, f, now, b) ==> a == b
    ensures StudentProfilePatchOk(f) && StudentProfileUpdated(prev, f, now, a) && StudentProfileUpdated(prev, f, now, b)
            ==> a == b
  {
  }

  // ---------------------------------------------------------------------------------------------
  // sessions

  datatype Session = Session(
    id: int,
    studentId: int,
    tutorId: int,
    title: string,
    description: Option<string>,
    startTime: int,
    endTime: int,
    status: Option<SessionStatus>,
    meetingLink: Option<string>,
    subject: string,
    price: real,
    currency: Currency,
    createdAt: int,
    updatedAt: int)

  /** The fields `insertSessionSchema` keeps (it omits id, createdAt, updatedAt). */
  datatype SessionFields = SessionFields(
    studentId: Field<int>,
    tutorId: Field<int>,
    title: Field<string>,
    description: Field<string>,
    startTime: Field<int>,
    endTime: Field<int>,
    status: Field<SessionStatus>,
    meetingLink: Field<string>,
    subject: Field<string>,
    price: Field<real>,
    currency: Field<Currency>)

  const NoSessionFields := SessionFields(Absent, Absent, Absent, Absent, Absent, Absent, Absent, Absent, Absent, Absent, Absent)

  predicate SessionInsertOk(f: SessionFields) {
    && f.studentId.Given? && f.tutorId.Given? && f.title.Given? && f.startTime.Given?
    && f.endTime.Given? && f.subject.Given? && f.price.Given? && f.currency.Given?
  }

  predicate SessionPatchOk(f: SessionFields) {
    && !f.studentId.Null? && !f.tutorId.Null? && !f.title.Null? && !f.startTime.Null?
    && !f.endTime.Null? && !f.subject.Null? && !f.price.Null? && !f.currency.Null?
  }

  /** The row an insert creates: status defaults to scheduled. */
  function NewSession(id: int, f: SessionFields, now: int): (s: Session)
    requires SessionInsertOk(f)
    ensures SessionInserted(id, f, now, s)
  {
    Session(id, f.studentId.value, f.tutorId.value, f.title.value, Merged(f.description, None),
            f.startTime.value, f.endTime.value, Merged(f.status, Some(Scheduled)),
            Merged(f.meetingLink, None), f.subject.value, f.price.value, f.currency.value, now, now)
  }

  function ApplySessionFields(s: Session, f: SessionFields, now: int): (r: Session)
    requires SessionPatchOk(f)
    ensures SessionUpdated(s, f, now, r)
  {
    s.(studentId := MergedRequired(f.studentId, s.studentId),
       tutorId := MergedRequired(f.tutorId, s.tutorId),
       title := MergedRequired(f.title, s.title),
       description := Merged(f.description, s.description),
       startTime := MergedRequired(f.startTime, s.startTime),
       endTime := MergedRequired(f.endTime, s.endTime),
       status := Merged(f.status, s.status),
       meetingLink := Merged(f.meetingLink, s.meetingLink),
       subject := MergedRequired(f.subject, s.subject),
       price := MergedRequired(f.price, s.price),
       currency := MergedRequired(f.currency, s.currency),
       updatedAt := now)
  }

  predicate SessionInserted(id: int, f: SessionFields, now: int, s: Session) {
    && s.id == id
    && f.studentId == Given(s.studentId) && f.tutorId == Given(s.tutorId)
    && f.title == Given(s.title) && f.subject == Given(s.subject)
    && f.startTime == Given(s.startTime) && f.endTime == Given(s.endTime)
    && f.price == Given(s.price) && f.currency == Given(s.currency)
    && Takes(f.description, None, s.description)
    && Takes(f.status, Some(Scheduled), s.status)
    && Takes(f.meetingLink, None, s.meetingLink)
    && s.createdAt == now && s.updatedAt == now
  }

  predicate SessionUpdated(prev: Session, f: SessionFields, now: int, s: Session) {
    && s.id == prev.id
    && TakesRequired(f.studentId, prev.studentId, s.studentId)
    && TakesRequired(f.tutorId, prev.tutorId, s.tutorId)
    && TakesRequired(f.title, prev.title, s.title)
    && Takes(f.description, prev.description, s.description)
    && TakesRequired(f.startTime, prev.startTime, s.startTime)
    && TakesRequired(f.endTime, prev.endTime, s.endTime)
    && Takes(f.status, prev.status, s.status)
    && Takes(f.meetingLink, prev.meetingLink, s.meetingLink)
    && TakesRequired(f.subject, prev.subject, s.subject)
    && TakesRequired(f.price, prev.price, s.price)
    && TakesRequired(f.currency, prev.currency, s.currency)
    && s.createdAt == prev.createdAt && s.updatedAt == now
  }

  lemma SessionRowDetermined(id: int, prev: Session, f: SessionFields, now: int, a: Session, b: Session)
    ensures SessionInserted(id, f, now, a) && SessionInserted(id, f, now, b) ==> a == b
    ensures SessionPatchOk(f) && SessionUpdated(prev, f, now, a) && SessionUpdated(prev, f, now, b) ==> a == b
  {
  }

  /** Sending the same session fields twice leaves the row as sending them once (at the same instant). */
  lemma SessionFieldsIdempotent(s: Session, f: SessionFields, now: int)
    requires SessionPatchOk(f)
    ensures ApplySessionFields(ApplySessionFields(s, f, now), f, now) == ApplySessionFields(s, f, now)
  {
  }

  /** An update with no fields changes nothing but updatedAt. */
  lemma NoSessionFieldsOnlyTouchUpdatedAt(s: Session, now: int)
    ensures ApplySessionFields(s, NoSessionFields, now) == s.(updatedAt := now)
  {
  }

  // ---------------------------------------------------------------------------------------------
  // session_attendance

  datatype Attendance = Attendance(
    id: int,
    sessionId: int,
    userId: int,
    joinTime: Option<int>,
    leaveTime: Option<int>,
    duration: Option<int>,
    createdAt: int)

  // ---------------------------------------------------------------------------------------------
  // payments

  datatype Payment = Payment(
    id: int,
    sessionId: Option<int>,
    userId: int,
    amount: real,
    currency: Currency,
    gateway: PaymentGateway,
    status: Option<PaymentStatus>,
    transactionId: Option<string>,
    gatewayReference: Option<string>,
    releaseDate: Option<int>,
    processingFee: Option<real>,
    createdAt: int,
    updatedAt: int)

  /** The fields `insertPaymentSchema` keeps: processingFee is omitted along with id and timestamps. */
  datatype PaymentFields = PaymentFields(
    sessionId: Field<int>,
    userId: Field<int>,
    amount: Field<real>,
    currency: Field<Currency>,
    gateway: Field<PaymentGateway>,
    status: Field<PaymentStatus>,
    transactionId: Field<string>,
    gatewayReference: Field<string>,
    releaseDate: Field<int>)

  predicate PaymentInsertOk(f: PaymentFields) {
    f.userId.Given? && f.amount.Given? && f.currency.Given? && f.gateway.Given?
  }

  predicate PaymentPatchOk(f: PaymentFields) {
    !f.userId.Null? && !f.amount.Null? && !f.currency.Null? && !f.gateway.Null?
  }

  /** The row an insert creates: status defaults to pending and processingFee to 0. */
  function NewPayment(id: int, f: PaymentFields, now: int): (p: Payment)
    requires PaymentInsertOk(f)
    ensures PaymentInserted(id, f, now, p)
  {
    Payment(id, Merged(f.sessionId, None), f.userId.value, f.amount.value, f.currency.value,
            f.gateway.value, Merged(f.status, Some(Pending)), Merged(f.transactionId, None),
            Merged(f.gatewayReference, None), Merged(f.releaseDate, None), Some(0.0), now, now)
  }

  function ApplyPaymentFields(p: Payment, f: PaymentFields, now: int): (r: Payment)
    requires PaymentPatchOk(f)
    ensures PaymentUpdated(p, f, now, r)
  {
    p.(sessionId := Merged(f.sessionId, p.sessionId),
       userId := MergedRequired(f.userId, p.userId),
       amount := MergedRequired(f.amount, p.amount),
       currency := MergedRequired(f.currency, p.currency),
       gateway := MergedRequired(f.gateway, p.gateway),
       status := Merged(f.status, p.status),
       transactionId := Merged(f.transactionId, p.transactionId),
       gatewayReference := Merged(f.gatewayReference, p.gatewayReference),
       releaseDate := Merged(f.releaseDate, p.releaseDate),
       updatedAt := now)
  }

  /** `p` is the row an insert of `f` creates: the processing fee is always the default 0. */
  predicate PaymentInserted(id: int, f: PaymentFields, now: int, p: Payment) {
    && p.id == id
    && f.userId == Given(p.userId) && f.amount == Given(p.amount)
    && f.currency == Given(p.currency) && f.gateway == Given(p.gateway)
    && Takes(f.sessionId, None, p.sessionId)
    && Takes(f.status, Some(Pending), p.status)
    && Takes(f.transactionId, None, p.transactionId)
    && Takes(f.gatewayReference, None, p.gatewayReference)
    && Takes(f.releaseDate, None, p.releaseDate)
    && p.processingFee == Some(0.0)
    && p.createdAt == now && p.updatedAt == now
  }

  /** `p` is `prev` after an update carrying `f`: the processing fee is out of reach. */
  predicate PaymentUpdated(prev: Payment, f: PaymentFields, now: int, p: Payment) {
    && p.id == prev.id
    && Takes(f.sessionId, prev.sessionId, p.sessionId)
    && TakesRequired(f.userId, prev.userId, p.userId)
    && TakesRequired(f.amount, prev.amount, p.amount)
    && TakesRequired(f.currency, prev.currency, p.currency)
    && TakesRequired(f.gateway, prev.gateway, p.gateway)
    && Takes(f.status, prev.status, p.status)
    && Takes(f.transactionId, prev.transactionId, p.transactionId)
    && Takes(f.gatewayReference, prev.gatewayReference, p.gatewayReference)
    && Takes(f.releaseDate, prev.releaseDate, p.releaseDate)
    && p.processingFee == prev.processingFee
    && p.createdAt == prev.createdAt && p.updatedAt == now
  }

  lemma PaymentRowDetermined(id: int, prev: Payment, f: PaymentFields, now: int, a: Payment, b: Payment)
    ensures PaymentInserted(id, f, now, a) && PaymentInserted(id, f, now, b) ==> a == b
    ensures PaymentPatchOk(f) && PaymentUpdated(prev, f, now, a) && PaymentUpdated(prev, f, now, b) ==> a == b
  {
  }

  // ---------------------------------------------------------------------------------------------
  // payouts

  datatype Payout = Payout(
    id: int,
    tutorId: int,
    amount: real,
    currency: Currency,
    status: Option<PaymentStatus>,
    paymentMethod: string,
    reference: Option<string>,
    processingFee: Option<real>,
    createdAt: int,
    processedAt: Option<int>)

  /** The fields `insertPayoutSchema` keeps (it omits id, createdAt, processedAt, processingFee). */
  datatype PayoutFields = PayoutFields(
    tutorId: Field<int>,
    amount: Field<real>,
    currency: Field<Currency>,
    status: Field<PaymentStatus>,
    paymentMethod: Field<string>,
    reference: Field<string>)

  predicate PayoutInsertOk(f: PayoutFields) {
    f.tutorId.Given? && f.amount.Given? && f.currency.Given? && f.paymentMethod.Given?
  }

  predicate PayoutPatchOk(f: PayoutFields) {
    !f.tutorId.Null? && !f.amount.Null? && !f.currency.Null? && !f.paymentMethod.Null?
  }

  function NewPayout(id: int, f: PayoutFields, now: int): (p: Payout)
    requires PayoutInsertOk(f)
    ensures PayoutInserted(id, f, now, p)
  {
    Payout(id, f.tutorId.value, f.amount.value, f.currency.value, Merged(f.status, Some(Pending)),
           f.paymentMethod.value, Merged(f.reference, None), Some(0.0), now, None)
  }

  /** The payouts table has no updatedAt column, so an update sets exactly the given fields. */
  function ApplyPayoutFields(p: Payout, f: PayoutFields): (r: Payout)
    requires PayoutPatchOk(f)
    ensures PayoutUpdated(p, f, r)
  {
    p.(tutorId := MergedRequired(f.tutorId, p.tutorId),
       amount := MergedRequired(f.amount, p.amount),
       currency := MergedRequired(f.currency, p.currency),
       status := Merged(f.status, p.status),
       paymentMethod := MergedRequired(f.paymentMethod, p.paymentMethod),
       reference := Merged(f.reference, p.reference))
  }

  predicate PayoutInserted(id: int, f: PayoutFields, now: int, p: Payout) {
    && p.id == id
    && f.tutorId == Given(p.tutorId) && f.amount == Given(p.amount)
    && f.currency == Given(p.currency) && f.paymentMethod == Given(p.paymentMethod)
    && Takes(f.status, Some(Pending), p.status)
    && Takes(f.reference, None, p.reference)
    && p.processingFee == Some(0.0) && p.createdAt == now && p.processedAt.None?
  }

  /** `p` is `prev` after an update carrying `f`; no timestamp moves. */
  predicate PayoutUpdated(prev: Payout, f: PayoutFields, p: Payout) {
    && p.id == prev.id
    && TakesRequired(f.tutorId, prev.tutorId, p.tutorId)
    && TakesRequired(f.amount, prev.amount, p.amount)
    && TakesRequired(f.currency, prev.currency, p.currency)
    && Takes(f.status, prev.status, p.status)
    && TakesRequired(f.paymentMethod, prev.paymentMethod, p.paymentMethod)
    && Takes(f.reference, prev.reference, p.reference)
    && p.processingFee == prev.processingFee
    && p.createdAt == prev.createdAt && p.processedAt == prev.processedAt
  }

  lemma PayoutRowDetermined(id: int, prev: Payout, f: PayoutFields, now: int, a: Payout, b: Payout)
    ensures PayoutInserted(id, f, now, a) && PayoutInserted(id, f, now, b) ==> a == b
    ensures PayoutPatchOk(f) && PayoutUpdated(prev, f, a) && PayoutUpdated(prev, f, b) ==> a == b
  {
  }

  // ---------------------------------------------------------------------------------------------
  // content

  datatype Content = Content(
    id: int,
    creatorId: int,
    sessionId: Option<int>,
    title: string,
    kind: ContentType,
    url: string,
    isPublic: Option<bool>,
    isOfflineAvailable: Option<bool>,
    language: Option<Language>,
    createdAt: int,
    updatedAt: int)

  /** The fields `insertContentSchema` keeps; `kind` is the column named `type`. */
  datatype ContentFields = ContentFields(
    creatorId: Field<int>,
    sessionId: Field<int>,
    title: Field<string>,
    kind: Field<ContentType>,
    url: Field<string>,
    isPublic: Field<bool>,
    isOfflineAvailable: Field<bool>,
    language: Field<Language>)

  predicate ContentInsertOk(f: ContentFields) {
    f.creatorId.Given? && f.title.Given? && f.kind.Given? && f.url.Given?
  }

  predicate ContentPatchOk(f: ContentFields) {
    !f.creatorId.Null? && !f.title.Null? && !f.kind.Null? && !f.url.Null?
  }

  function NewContent(id: int, f: ContentFields, now: int): (c: Content)
    requires ContentInsertOk(f)
    ensures ContentInserted(id, f, now, c)
  {
    Content(id, f.creatorId.value, Merged(f.sessionId, None), f.title.value, f.kind.value,
            f.url.value, Merged(f.isPublic, Some(false)), Merged(f.isOfflineAvailable, Some(false)),
            Merged(f.language, Some(En)), now, now)
  }

  function ApplyContentFields(c: Content, f: ContentFields, now: int): (r: Content)
    requires ContentPatchOk(f)
    ensures ContentUpdated(c, f, now, r)
  {
    c.(creatorId := MergedRequired(f.creatorId, c.creatorId),
       sessionId := Merged(f.sessionId, c.sessionId),
       title := MergedRequired(f.title, c.title),
       kind := MergedRequired(f.kind, c.kind),
       url := MergedRequired(f.url, c.url),
       isPublic := Merged(f.isPublic, c.isPublic),
       isOfflineAvailable := Merged(f.isOfflineAvailable, c.isOfflineAvailable),
       language := Merged(f.language, c.language),
       updatedAt := now)
  }

  /** `c` is the row an insert of `f` creates: private, online-only and English unless the body says otherwise. */
  predicate ContentInserted(id: int, f: ContentFields, now: int, c: Content) {
    && c.id == id
    && f.creatorId == Given(c.creatorId) && f.title == Given(c.title)
    && f.kind == Given(c.kind) && f.url == Given(c.url)
    && Takes(f.sessionId, None, c.sessionId)
    && Takes(f.isPublic, Some(false), c.isPublic)
    && Takes(f.isOfflineAvailable, Some(false), c.isOfflineAvailable)
    && Takes(f.language, Some(En), c.language)
    && c.createdAt == now && c.updatedAt == now
  }

  predicate ContentUpdated(prev: Content, f: ContentFields, now: int, c: Content) {
    && c.id == prev.id
    && TakesRequired(f.creatorId, prev.creatorId, c.creatorId)
    && Takes(f.sessionId, prev.sessionId, c.sessionId)
    && TakesRequired(f.title, prev.title, c.title)
    && TakesRequired(f.kind, prev.kind, c.kind)
    && TakesRequired(f.url, prev.url, c.url)
    && Takes(f.isPublic, prev.isPublic, c.isPublic)
    && Takes(f.isOfflineAvailable, prev.isOfflineAvailable, c.isOfflineAvailable)
    && Takes(f.language, prev.language, c.language)
    && c.createdAt == prev.createdAt && c.updatedAt == now
  }

  lemma ContentRowDetermined(id: int, prev: Content, f: ContentFields, now: int, a: Content, b: Content)
    ensures ContentInserted(id, f, now, a) && ContentInserted(id, f, now, b) ==> a == b
    ensures ContentPatchOk(f) && ContentUpdated(prev, f, now, a) && ContentUpdated(prev, f, now, b) ==> a == b
  {
  }

  // ---------------------------------------------------------------------------------------------
  // reviews

  datatype Review = Review(
    id: int,
    studentId: int,
    tutorId: int,
    sessionId: Option<int>,
    rating: int,
    comment: Option<string>,
    createdAt: int)

  /** The fields `insertReviewSchema` keeps; the rating is any integer (no 1..5 check). */
  datatype ReviewFields = ReviewFields(
    studentId: Field<int>,
    tutorId: Field<int>,
    sessionId: Field<int>,
    rating: Field<int>,
    comment: Field<string>)

  predicate ReviewInsertOk(f: ReviewFields) {
    f.studentId.Given? && f.tutorId.Given? && f.rating.Given?
  }

  function NewReview(id: int, f: ReviewFields, now: int): (v: Review)
    requires ReviewInsertOk(f)
    ensures ReviewInserted(id, f, now, v)
  {
    Review(id, f.studentId.value, f.tutorId.value, Merged(f.sessionId, None), f.rating.value,
           Merged(f.comment, None), now)
  }

  predicate ReviewInserted(id: int, f: ReviewFields, now: int, v: Review) {
    && v.id == id
    && f.studentId == Given(v.studentId) && f.tutorId == Given(v.tutorId) && f.rating == Given(v.rating)
    && Takes(f.sessionId, None, v.sessionId) && Takes(f.comment, None, v.comment)
    && v.createdAt == now
  }

  lemma ReviewRowDetermined(id: int, f: ReviewFields, now: int, a: Review, b: Review)
    ensures ReviewInserted(id, f, now, a) && ReviewInserted(id, f, now, b) ==> a == b
  {
  }
}
