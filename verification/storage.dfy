/**
 * `DatabaseStorage`: the queries and updates the route handlers use, over nine in-memory tables.
 * Every table is keyed by its serial id; `users` also carries the unique indexes on email and
 * phone. Foreign keys and cascades are not enforced.
 */
module Storage {
  import opened Wrappers
  import opened Schema
  import opened Tables

  datatype Store = Store(
    users: Table<User>,
    tutorProfiles: Table<TutorProfile>,
    studentProfiles: Table<StudentProfile>,
    sessions: Table<Session>,
    attendance: Table<Attendance>,
    payments: Table<Payment>,
    payouts: Table<Payout>,
    content: Table<Content>,
    reviews: Table<Review>)

  function EmptyStore(): Store {
    Store(EmptyTable(), EmptyTable(), EmptyTable(), EmptyTable(), EmptyTable(), EmptyTable(),
          EmptyTable(), EmptyTable(), EmptyTable())
  }

  function UserId(u: User): int { u.id }
  function TutorProfileId(p: TutorProfile): int { p.id }
  function StudentProfileId(p: StudentProfile): int { p.id }
  function SessionId(s: Session): int { s.id }
  function AttendanceId(a: Attendance): int { a.id }
  function PaymentId(p: Payment): int { p.id }
  function PayoutId(p: Payout): int { p.id }
  function ContentId(c: Content): int { c.id }
  function ReviewId(r: Review): int { r.id }

  /** Two users clash on `users.email` or, when the first has one, on `users.phone`. */
  predicate ContactClash(a: User, b: User) {
    a.email == b.email || (a.phone.Some? && a.phone == b.phone)
  }

  /** The unique indexes on email and phone (NULL phones never clash). */
  ghost predicate UniqueContacts(t: Table<User>) {
    forall j, k :: j in t.rows && k in t.rows && j != k ==> !ContactClash(t.rows[j], t.rows[k])
  }

  /** Some user other than `u` itself (by id) clashes with `u`. */
  ghost predicate ClashesWithOther(t: Table<User>, u: User) {
    exists k :: k in t.rows && k != u.id && ContactClash(u, t.rows[k])
  }

  ghost predicate Valid(db: Store) {
    && Keyed(db.users, UserId)
    && Keyed(db.tutorProfiles, TutorProfileId)
    && Keyed(db.studentProfiles, StudentProfileId)
    && Keyed(db.sessions, SessionId)
    && Keyed(db.attendance, AttendanceId)
    && Keyed(db.payments, PaymentId)
    && Keyed(db.payouts, PayoutId)
    && Keyed(db.content, ContentId)
    && Keyed(db.reviews, ReviewId)
    && UniqueContacts(db.users)
  }

  lemma EmptyStoreValid()
    ensures Valid(EmptyStore())
  {
  }

  /**
   * The range of a Postgres `integer` column. A query that compares such a column with a value
   * outside it fails ("out of range for type integer"), and the handler's catch answers 500.
   */
  predicate InInt4(n: int) {
    -0x8000_0000 <= n < 0x8000_0000
  }

  /** The outcome of `update ... where id = ... returning`. */
  datatype Write<T> =
    | Written(row: T, db: Store)
    | Missing                      // no row has that id: `undefined`
    | Conflict                     // a unique index refuses the new row: the query throws

  // ---------------------------------------------------------------------------------------------
  // users

  function GetUser(db: Store, id: int): (r: Option<User>)
    requires Valid(db)
    ensures r.Some? <==> id in db.users.rows
    ensures r.Some? ==> r.value.id == id && r.value in db.users.rows.Values
  {
    Get(db.users, id)
  }

  function UserByEmail(db: Store, email: string): (r: Option<User>)
    requires Valid(db)
    ensures r.None? <==> forall k :: k in db.users.rows ==> db.users.rows[k].email != email
    ensures r.Some? ==> r.value.email == email && r.value.id in db.users.rows
                        && db.users.rows[r.value.id] == r.value
    ensures r.Some? ==> forall k :: k in db.users.rows && db.users.rows[k].email == email ==> k == r.value.id
  {
    FirstWhere(db.users, (u: User) => u.email == email)
  }

  function UserByPhone(db: Store, phone: string): (r: Option<User>)
    requires Valid(db)
    ensures r.None? <==> forall k :: k in db.users.rows ==> db.users.rows[k].phone != Some(phone)
    ensures r.Some? ==> r.value.phone == Some(phone) && r.value.id in db.users.rows
                        && db.users.rows[r.value.id] == r.value
    ensures r.Some? ==> forall k :: k in db.users.rows && db.users.rows[k].phone == Some(phone) ==> k == r.value.id
  {
    FirstWhere(db.users, (u: User) => u.phone == Some(phone))
  }

  /**
   * `createUser`: the insert succeeds unless the email, or the phone when one is given, is
   * already taken, in which case Postgres refuses it. Either way the serial id is used up.
   */
  function CreateUser(db: Store, f: UserFields, now: int): (r: (Option<User>, Store))
    requires Valid(db) && UserInsertOk(f)
    ensures Valid(r.1)
    ensures r.0.None? <==> exists k :: k in db.users.rows && ContactClash(NewUser(db.users.nextId, f, now), db.users.rows[k])
    ensures r.0.None? ==> r.1 == db.(users := Skip(db.users))
    ensures r.0.Some? ==> var (u, db') := (r.0.value, r.1);
      && u.id == db.users.nextId && u.id !in db.users.rows
      && db'.users.rows == db.users.rows[u.id := u] && db'.users.nextId == u.id + 1
      && db' == db.(users := db'.users)
      && UserInserted(db.users.nextId, f, now, u)
  {
    var row := NewUser(db.users.nextId, f, now);
    match FirstWhere(db.users, (v: User) => ContactClash(row, v))
    case Some(_) =>
      SkipKeyed(db.users, UserId);
      (None, db.(users := Skip(db.users)))
    case None =>
      var db' := db.(users := Append(db.users, row));
      AppendKeyed(db.users, row, UserId);
      (Some(row), db')
  }

  /** `updateUser`: the given fields and updatedAt change; everything else stays. */
  function UpdateUser(db: Store, id: int, f: UserFields, now: int): (r: Write<User>)
    requires Valid(db) && UserPatchOk(f)
    ensures r.Missing? <==> id !in db.users.rows
    ensures r.Conflict? <==> id in db.users.rows && ClashesWithOther(db.users, ApplyUserFields(db.users.rows[id], f, now))
    ensures r.Written? ==> var prev := db.users.rows[id];
      && r.row.id == id
      && UserUpdated(prev, f, now, r.row)
      && r.db.users.rows == db.users.rows[id := r.row] && r.db.users.nextId == db.users.nextId
      && r.db == db.(users := r.db.users)
      && Valid(r.db)
  {
    if id !in db.users.rows then Missing
    else
      var row := ApplyUserFields(db.users.rows[id], f, now);
      match FirstWhere(db.users, (v: User) => v.id != id && ContactClash(row, v))
      case Some(_) => Conflict
      case None =>
        ReplaceKeyed(db.users, id, row, UserId);
        Written(row, db.(users := Replace(db.users, id, row)))
  }

  /** A patch that leaves email and phone alone cannot trip the unique indexes. */
  lemma UnchangedContactsNoClash(db: Store, id: int, f: UserFields, now: int)
    requires Valid(db) && id in db.users.rows && UserPatchOk(f)
    requires f.email.Absent? && f.phone.Absent?
    ensures !ClashesWithOther(db.users, ApplyUserFields(db.users.rows[id], f, now))
  {
    var row := ApplyUserFields(db.users.rows[id], f, now);
    assert row.email == db.users.rows[id].email && row.phone == db.users.rows[id].phone;
  }

  /** `deactivateUser`: isActive becomes false; the answer says whether the user existed. */
  function DeactivateUser(db: Store, id: int, now: int): (r: (bool, Store))
    requires Valid(db)
    ensures r.0 <==> id in db.users.rows
    ensures !r.0 ==> r.1 == db
    ensures r.0 ==> && r.1.users.rows == db.users.rows[id := db.users.rows[id].(isActive := Some(false), updatedAt := now)]
                    && r.1.users.nextId == db.users.nextId
                    && r.1 == db.(users := r.1.users)
    ensures Valid(r.1)
  {
    if id !in db.users.rows then (false, db)
    else
      var row := db.users.rows[id].(isActive := Some(false), updatedAt := now);
      ReplaceKeyed(db.users, id, row, UserId);
      (true, db.(users := Replace(db.users, id, row)))
  }

  // ---------------------------------------------------------------------------------------------
  // tutor_profiles

  function GetTutorProfile(db: Store, id: int): (r: Option<TutorProfile>)
    requires Valid(db)
    ensures r.Some? <==> id in db.tutorProfiles.rows
    ensures r.Some? ==> r.value.id == id && r.value in db.tutorProfiles.rows.Values
  {
    Get(db.tutorProfiles, id)
  }

  function TutorProfileByUserId(db: Store, userId: int): (r: Option<TutorProfile>)
    requires Valid(db)
    ensures r.None? <==> forall k :: k in db.tutorProfiles.rows ==> db.tutorProfiles.rows[k].userId != userId
    ensures r.Some? ==> r.value.userId == userId && r.value in db.tutorProfiles.rows.Values
  {
    FirstWhere(db.tutorProfiles, (p: TutorProfile) => p.userId == userId)
  }

  function CreateTutorProfile(db: Store, f: TutorProfileFields, now: int): (r: (TutorProfile, Store))
    requires Valid(db) && TutorProfileInsertOk(f)
    ensures var (p, db') := r;
      && p.id == db.tutorProfiles.nextId && p.id !in db.tutorProfiles.rows
      && db'.tutorProfiles.rows == db.tutorProfiles.rows[p.id := p] && db'.tutorProfiles.nextId == p.id + 1
      && db' == db.(tutorProfiles := db'.tutorProfiles)
      && TutorProfileInserted(db.tutorProfiles.nextId, f, now, p)
      && Valid(db')
  {
    var row := NewTutorProfile(db.tutorProfiles.nextId, f, now);
    AppendKeyed(db.tutorProfiles, row, TutorProfileId);
    (row, db.(tutorProfiles := Append(db.tutorProfiles, row)))
  }

  function UpdateTutorProfile(db: Store, id: int, f: TutorProfileFields, now: int): (r: Write<TutorProfile>)
    requires Valid(db) && TutorProfilePatchOk(f)
    ensures !r.Conflict?
    ensures r.Missing? <==> id !in db.tutorProfiles.rows
    ensures r.Written? ==> var prev := db.tutorProfiles.rows[id];
      && r.row.id == id
      && TutorProfileUpdated(prev, f, now, r.row)
      && r.db.tutorProfiles.rows == db.tutorProfiles.rows[id := r.row] && r.db.tutorProfiles.nextId == db.tutorProfiles.nextId
      && r.db == db.(tutorProfiles := r.db.tutorProfiles)
      && Valid(r.db)
  {
    if id !in db.tutorProfiles.rows then Missing
    else
      var row := ApplyTutorProfileFields(db.tutorProfiles.rows[id], f, now);
      ReplaceKeyed(db.tutorProfiles, id, row, TutorProfileId);
      Written(row, db.(tutorProfiles := Replace(db.tutorProfiles, id, row)))
  }

  /** `subjects @> ARRAY[subject]`: profiles whose subject list contains `subject` (NULL lists never match). */
  function TutorsBySubject(db: Store, subject: string): (r: seq<TutorProfile>)
    requires Valid(db)
    ensures Exactly(r, db.tutorProfiles, (p: TutorProfile) => p.subjects.Some? && subject in p.subjects.value)
  {
    Select(db.tutorProfiles, TutorProfileId, (p: TutorProfile) => p.subjects.Some? && subject in p.subjects.value)
  }

  /** `ratingAverage >= minRating` (a NULL average never matches). */
  function TutorsByRating(db: Store, minRating: int): (r: seq<TutorProfile>)
    requires Valid(db)
    ensures Exactly(r, db.tutorProfiles, (p: TutorProfile) => p.ratingAverage.Some? && p.ratingAverage.value >= minRating as real)
  {
    Select(db.tutorProfiles, TutorProfileId, (p: TutorProfile) => p.ratingAverage.Some? && p.ratingAverage.value >= minRating as real)
  }

  // ---------------------------------------------------------------------------------------------
  // student_profiles

  function GetStudentProfile(db: Store, id: int): (r: Option<StudentProfile>)
    requires Valid(db)
    ensures r.Some? <==> id in db.studentProfiles.rows
    ensures r.Some? ==> r.value.id == id && r.value in db.studentProfiles.rows.Values
  {
    Get(db.studentProfiles, id)
  }

  function StudentProfileByUserId(db: Store, userId: int): (r: Option<StudentProfile>)
    requires Valid(db)
    ensures r.None? <==> forall k :: k in db.studentProfiles.rows ==> db.studentProfiles.rows[k].userId != userId
    ensures r.Some? ==> r.value.userId == userId && r.value in db.studentProfiles.rows.Values
  {
    FirstWhere(db.studentProfiles, (p: StudentProfile) => p.userId == userId)
  }

  function CreateStudentProfile(db: Store, f: StudentProfileFields, now: int): (r: (StudentProfile, Store))
    requires Valid(db) && StudentProfileInsertOk(f)
    ensures var (p, db') := r;
      && p.id == db.studentProfiles.nextId && p.id !in db.studentProfiles.rows
      && db'.studentProfiles.rows == db.studentProfiles.rows[p.id := p] && db'.studentProfiles.nextId == p.id + 1
      && db' == db.(studentProfiles := db'.studentProfiles)
      && StudentProfileInserted(db.studentProfiles.nextId, f, now, p)
      && Valid(db')
  {
    var row := NewStudentProfile(db.studentProfiles.nextId, f, now);
    AppendKeyed(db.studentProfiles, row, StudentProfileId);
    (row, db.(studentProfiles := Append(db.studentProfiles, row)))
  }

  function UpdateStudentProfile(db: Store, id: int, f: StudentProfileFields, now: int): (r: Write<StudentProfile>)
    requires Valid(db) && StudentProfilePatchOk(f)
    ensures !r.Conflict?
    ensures r.Missing? <==> id !in db.studentProfiles.rows
    ensures r.Written? ==>
      && r.row.id == id
      && StudentProfileUpdated(db.studentProfiles.rows[id], f, now, r.row)
      && r.db.studentProfiles.rows == db.studentProfiles.rows[id := r.row] && r.db.studentProfiles.nextId == db.studentProfiles.nextId
      && r.db == db.(studentProfiles := r.db.studentProfiles)
      && Valid(r.db)
  {
    if id !in db.studentProfiles.rows then Missing
    else
      var row := ApplyStudentProfileFields(db.studentProfiles.rows[id], f, now);
      ReplaceKeyed(db.studentProfiles, id, row, StudentProfileId);
      Written(row, db.(studentProfiles := Replace(db.studentProfiles, id, row)))
  }

  function StudentsByParent(db: Store, parentId: int): (r: seq<StudentProfile>)
    requires Valid(db)
    ensures Exactly(r, db.studentProfiles, (p: StudentProfile) => p.parentId == Some(parentId))
  {
    Select(db.studentProfiles, StudentProfileId, (p: StudentProfile) => p.parentId == Some(parentId))
  }

  // ---------------------------------------------------------------------------------------------
  // sessions

  function GetSession(db: Store, id: int): (r: Option<Session>)
    requires Valid(db)
    ensures r.Some? <==> id in db.sessions.rows
    ensures r.Some? ==> r.value.id == id && r.value in db.sessions.rows.Values
  {
    Get(db.sessions, id)
  }

  function CreateSession(db: Store, f: SessionFields, now: int): (r: (Session, Store))
    requires Valid(db) && SessionInsertOk(f)
    ensures var (s, db') := r;
      && s.id == db.sessions.nextId && s.id !in db.sessions.rows
      && db'.sessions.rows == db.sessions.rows[s.id := s] && db'.sessions.nextId == s.id + 1
      && db' == db.(sessions := db'.sessions)
      && SessionInserted(db.sessions.nextId, f, now, s)
      && Valid(db')
  {
    var row := NewSession(db.sessions.nextId, f, now);
    AppendKeyed(db.sessions, row, SessionId);
    (row, db.(sessions := Append(db.sessions, row)))
  }

  /**
   * `updateSession`: the fields present in the patch are overwritten, updatedAt is refreshed,
   * and nothing else changes; a missing id gives `undefined`.
   */
  function UpdateSession(db: Store, id: int, f: SessionFields, now: int): (r: Write<Session>)
    requires Valid(db) && SessionPatchOk(f)
    ensures !r.Conflict?
    ensures r.Missing? <==> id !in db.sessions.rows
    ensures r.Written? ==> var prev := db.sessions.rows[id];
      && r.row.id == id
      && SessionUpdated(prev, f, now, r.row)
      && r.db.sessions.rows == db.sessions.rows[id := r.row] && r.db.sessions.nextId == db.sessions.nextId
      && r.db == db.(sessions := r.db.sessions)
      && Valid(r.db)
  {
    if id !in db.sessions.rows then Missing
    else
      var row := ApplySessionFields(db.sessions.rows[id], f, now);
      ReplaceKeyed(db.sessions, id, row, SessionId);
      Written(row, db.(sessions := Replace(db.sessions, id, row)))
  }

  function SessionsByStudent(db: Store, studentId: int): (r: seq<Session>)
    requires Valid(db)
    ensures Exactly(r, db.sessions, (s: Session) => s.studentId == studentId)
  {
    Select(db.sessions, SessionId, (s: Session) => s.studentId == studentId)
  }

  function SessionsByTutor(db: Store, tutorId: int): (r: seq<Session>)
    requires Valid(db)
    ensures Exactly(r, db.sessions, (s: Session) => s.tutorId == tutorId)
  {
    Select(db.sessions, SessionId, (s: Session) => s.tutorId == tutorId)
  }

  /** The user takes part in the session, as its student or as its tutor. */
  predicate Participant(s: Session, userId: int) {
    s.studentId == userId || s.tutorId == userId
  }

  /**
   * `getUpcomingSessions`: the user's sessions starting at or after `now`, earliest first.
   * There is no status filter: cancelled and completed sessions are included.
   */
  function UpcomingSessions(db: Store, userId: int, now: int): (r: seq<Session>)
    requires Valid(db)
    ensures Exactly(r, db.sessions, (s: Session) => Participant(s, userId) && s.startTime >= now)
    ensures forall i, j :: 0 <= i < j < |r| ==> r[i].startTime <= r[j].startTime
  {
    SelectSorted(db.sessions, SessionId, (s: Session) => Participant(s, userId) && s.startTime >= now,
                 (s: Session) => s.startTime)
  }

  /** `getPastSessions`: the user's sessions that ended at or before `now`, latest first. */
  function PastSessions(db: Store, userId: int, now: int): (r: seq<Session>)
    requires Valid(db)
    ensures Exactly(r, db.sessions, (s: Session) => Participant(s, userId) && s.endTime <= now)
    ensures forall i, j :: 0 <= i < j < |r| ==> r[i].endTime >= r[j].endTime
  {
    SelectSorted(db.sessions, SessionId, (s: Session) => Participant(s, userId) && s.endTime <= now,
                 (s: Session) => -s.endTime)
  }

  // ---------------------------------------------------------------------------------------------
  // session_attendance

  /** `recordAttendance`: the row is stored as given, under the next id. */
  function RecordAttendance(db: Store, sessionId: int, userId: int, joinTime: Option<int>,
                            leaveTime: Option<int>, duration: Option<int>, now: int): (r: (Attendance, Store))
    requires Valid(db)
    ensures var (a, db') := r;
      && a.id == db.attendance.nextId && a.id !in db.attendance.rows
      && a.sessionId == sessionId && a.userId == userId && a.joinTime == joinTime
      && a.leaveTime == leaveTime && a.duration == duration && a.createdAt == now
      && db'.attendance.rows == db.attendance.rows[a.id := a] && db'.attendance.nextId == a.id + 1
      && db' == db.(attendance := db'.attendance)
      && Valid(db')
  {
    var row := Attendance(db.attendance.nextId, sessionId, userId, joinTime, leaveTime, duration, now);
    AppendKeyed(db.attendance, row, AttendanceId);
    (row, db.(attendance := Append(db.attendance, row)))
  }

  function SessionAttendance(db: Store, sessionId: int): (r: seq<Attendance>)
    requires Valid(db)
    ensures Exactly(r, db.attendance, (a: Attendance) => a.sessionId == sessionId)
  {
    Select(db.attendance, AttendanceId, (a: Attendance) => a.sessionId == sessionId)
  }

  // ---------------------------------------------------------------------------------------------
  // payments

  function GetPayment(db: Store, id: int): (r: Option<Payment>)
    requires Valid(db)
    ensures r.Some? <==> id in db.payments.rows
    ensures r.Some? ==> r.value.id == id && r.value in db.payments.rows.Values
  {
    Get(db.payments, id)
  }

  function CreatePayment(db: Store, f: PaymentFields, now: int): (r: (Payment, Store))
    requires Valid(db) && PaymentInsertOk(f)
    ensures var (p, db') := r;
      && p.id == db.payments.nextId && p.id !in db.payments.rows
      && db'.payments.rows == db.payments.rows[p.id := p] && db'.payments.nextId == p.id + 1
      && db' == db.(payments := db'.payments)
      && PaymentInserted(db.payments.nextId, f, now, p)
      && Valid(db')
  {
    var row := NewPayment(db.payments.nextId, f, now);
    AppendKeyed(db.payments, row, PaymentId);
    (row, db.(payments := Append(db.payments, row)))
  }

  /** `updatePayment`: the patched fields and updatedAt change; the processing fee never does. */
  function UpdatePayment(db: Store, id: int, f: PaymentFields, now: int): (r: Write<Payment>)
    requires Valid(db) && PaymentPatchOk(f)
    ensures !r.Conflict?
    ensures r.Missing? <==> id !in db.payments.rows
    ensures r.Written? ==> var prev := db.payments.rows[id];
      && r.row.id == id
      && PaymentUpdated(prev, f, now, r.row)
      && r.db.payments.rows == db.payments.rows[id := r.row] && r.db.payments.nextId == db.payments.nextId
      && r.db == db.(payments := r.db.payments)
      && Valid(r.db)
  {
    if id !in db.payments.rows then Missing
    else
      var row := ApplyPaymentFields(db.payments.rows[id], f, now);
      ReplaceKeyed(db.payments, id, row, PaymentId);
      Written(row, db.(payments := Replace(db.payments, id, row)))
  }

  function PaymentsByUser(db: Store, userId: int): (r: seq<Payment>)
    requires Valid(db)
    ensures Exactly(r, db.payments, (p: Payment) => p.userId == userId)
  {
    Select(db.payments, PaymentId, (p: Payment) => p.userId == userId)
  }

  function PaymentsBySession(db: Store, sessionId: int): (r: seq<Payment>)
    requires Valid(db)
    ensures Exactly(r, db.payments, (p: Payment) => p.sessionId == Some(sessionId))
  {
    Select(db.payments, PaymentId, (p: Payment) => p.sessionId == Some(sessionId))
  }

  /** `getPaymentsInEscrow`: the payments whose status is `held_in_escrow`, whatever their release date. */
  function PaymentsInEscrow(db: Store): (r: seq<Payment>)
    requires Valid(db)
    ensures Exactly(r, db.payments, (p: Payment) => p.status == Some(HeldInEscrow))
  {
    Select(db.payments, PaymentId, (p: Payment) => p.status == Some(HeldInEscrow))
  }

  // ---------------------------------------------------------------------------------------------
  // payouts

  function GetPayout(db: Store, id: int): (r: Option<Payout>)
    requires Valid(db)
    ensures r.Some? <==> id in db.payouts.rows
    ensures r.Some? ==> r.value.id == id && r.value in db.payouts.rows.Values
  {
    Get(db.payouts, id)
  }

  function CreatePayout(db: Store, f: PayoutFields, now: int): (r: (Payout, Store))
    requires Valid(db) && PayoutInsertOk(f)
    ensures var (p, db') := r;
      && p.id == db.payouts.nextId && p.id !in db.payouts.rows
      && db'.payouts.rows == db.payouts.rows[p.id := p] && db'.payouts.nextId == p.id + 1
      && db' == db.(payouts := db'.payouts)
      && PayoutInserted(db.payouts.nextId, f, now, p)
      && Valid(db')
  {
    var row := NewPayout(db.payouts.nextId, f, now);
    AppendKeyed(db.payouts, row, PayoutId);
    (row, db.(payouts := Append(db.payouts, row)))
  }

  /** `updatePayout` sets only the given fields: the table has no updatedAt column. */
  function UpdatePayout(db: Store, id: int, f: PayoutFields): (r: Write<Payout>)
    requires Valid(db) && PayoutPatchOk(f)
    ensures !r.Conflict?
    ensures r.Missing? <==> id !in db.payouts.rows
    ensures r.Written? ==> var prev := db.payouts.rows[id];
      && r.row.id == id
      && PayoutUpdated(prev, f, r.row)
      && r.db.payouts.rows == db.payouts.rows[id := r.row] && r.db.payouts.nextId == db.payouts.nextId
      && r.db == db.(payouts := r.db.payouts)
      && Valid(r.db)
  {
    if id !in db.payouts.rows then Missing
    else
      var row := ApplyPayoutFields(db.payouts.rows[id], f);
      ReplaceKeyed(db.payouts, id, row, PayoutId);
      Written(row, db.(payouts := Replace(db.payouts, id, row)))
  }

  function PayoutsByTutor(db: Store, tutorId: int): (r: seq<Payout>)
    requires Valid(db)
    ensures Exactly(r, db.payouts, (p: Payout) => p.tutorId == tutorId)
  {
    Select(db.payouts, PayoutId, (p: Payout) => p.tutorId == tutorId)
  }

  // ---------------------------------------------------------------------------------------------
  // content

  function GetContent(db: Store, id: int): (r: Option<Content>)
    requires Valid(db)
    ensures r.Some? <==> id in db.content.rows
    ensures r.Some? ==> r.value.id == id && r.value in db.content.rows.Values
  {
    Get(db.content, id)
  }

  function CreateContent(db: Store, f: ContentFields, now: int): (r: (Content, Store))
    requires Valid(db) && ContentInsertOk(f)
    ensures var (c, db') := r;
      && c.id == db.content.nextId && c.id !in db.content.rows
      && db'.content.rows == db.content.rows[c.id := c] && db'.content.nextId == c.id + 1
      && db' == db.(content := db'.content)
      && ContentInserted(db.content.nextId, f, now, c)
      && Valid(db')
  {
    var row := NewContent(db.content.nextId, f, now);
    AppendKeyed(db.content, row, ContentId);
    (row, db.(content := Append(db.content, row)))
  }

  function UpdateContent(db: Store, id: int, f: ContentFields, now: int): (r: Write<Content>)
    requires Valid(db) && ContentPatchOk(f)
    ensures !r.Conflict?
    ensures r.Missing? <==> id !in db.content.rows
    ensures r.Written? ==> var prev := db.content.rows[id];
      && r.row.id == id
      && ContentUpdated(prev, f, now, r.row)
      && r.db.content.rows == db.content.rows[id := r.row] && r.db.content.nextId == db.content.nextId
      && r.db == db.(content := r.db.content)
      && Valid(r.db)
  {
    if id !in db.content.rows then Missing
    else
      var row := ApplyContentFields(db.content.rows[id], f, now);
      ReplaceKeyed(db.content, id, row, ContentId);
      Written(row, db.(content := Replace(db.content, id, row)))
  }

  function ContentBySession(db: Store, sessionId: int): (r: seq<Content>)
    requires Valid(db)
    ensures Exactly(r, db.content, (c: Content) => c.sessionId == Some(sessionId))
  {
    Select(db.content, ContentId, (c: Content) => c.sessionId == Some(sessionId))
  }

  function ContentByCreator(db: Store, creatorId: int): (r: seq<Content>)
    requires Valid(db)
    ensures Exactly(r, db.content, (c: Content) => c.creatorId == creatorId)
  {
    Select(db.content, ContentId, (c: Content) => c.creatorId == creatorId)
  }

  function PublicContent(db: Store): (r: seq<Content>)
    requires Valid(db)
    ensures Exactly(r, db.content, (c: Content) => c.isPublic == Some(true))
  {
    Select(db.content, ContentId, (c: Content) => c.isPublic == Some(true))
  }

  function OfflineAvailableContent(db: Store): (r: seq<Content>)
    requires Valid(db)
    ensures Exactly(r, db.content, (c: Content) => c.isOfflineAvailable == Some(true))
  {
    Select(db.content, ContentId, (c: Content) => c.isOfflineAvailable == Some(true))
  }

  // ---------------------------------------------------------------------------------------------
  // reviews

  function GetReview(db: Store, id: int): (r: Option<Review>)
    requires Valid(db)
    ensures r.Some? <==> id in db.reviews.rows
    ensures r.Some? ==> r.value.id == id && r.value in db.reviews.rows.Values
  {
    Get(db.reviews, id)
  }

  function CreateReview(db: Store, f: ReviewFields, now: int): (r: (Review, Store))
    requires Valid(db) && ReviewInsertOk(f)
    ensures var (v, db') := r;
      && v.id == db.reviews.nextId && v.id !in db.reviews.rows
      && db'.reviews.rows == db.reviews.rows[v.id := v] && db'.reviews.nextId == v.id + 1
      && db' == db.(reviews := db'.reviews)
      && ReviewInserted(db.reviews.nextId, f, now, v)
      && Valid(db')
  {
    var row := NewReview(db.reviews.nextId, f, now);
    AppendKeyed(db.reviews, row, ReviewId);
    (row, db.(reviews := Append(db.reviews, row)))
  }

  function ReviewsByTutor(db: Store, tutorId: int): (r: seq<Review>)
    requires Valid(db)
    ensures Exactly(r, db.reviews, (v: Review) => v.tutorId == tutorId)
  {
    Select(db.reviews, ReviewId, (v: Review) => v.tutorId == tutorId)
  }

  function ReviewsByStudent(db: Store, studentId: int): (r: seq<Review>)
    requires Valid(db)
    ensures Exactly(r, db.reviews, (v: Review) => v.studentId == studentId)
  {
    Select(db.reviews, ReviewId, (v: Review) => v.studentId == studentId)
  }

  function ReviewsBySession(db: Store, sessionId: int): (r: seq<Review>)
    requires Valid(db)
    ensures Exactly(r, db.reviews, (v: Review) => v.sessionId == Some(sessionId))
  {
    Select(db.reviews, ReviewId, (v: Review) => v.sessionId == Some(sessionId))
  }
}
