/**
 * `POST /api/sessions`, `GET /api/sessions/upcoming`, `GET /api/sessions/past`,
 * `PATCH /api/sessions/:id` and `POST /api/sessions/:id/attendance`, all behind `authenticate`.
 * The random meeting link is a parameter.
 */
module SessionRoutes {
  import opened Wrappers
  import opened Text
  import opened Schema
  import opened Tables
  import opened Storage
  import opened Http

  /**
   * `new Date(req.body.startTime)` before validation: null becomes the epoch, a number stays
   * the instant it names, and an absent value becomes an invalid date, kept here as `Absent`
   * because validation refuses both alike.
   */
  function AsDate(f: Field<int>): (d: Field<int>)
    ensures f.Null? ==> d == Given(0)
    ensures !f.Null? ==> d == f
  {
    if f.Null? then Given(0) else f
  }

  /**
   * The body `insertSessionSchema` sees: a student caller becomes the session's student, a
   * tutor caller its tutor (parents and admins name both freely), the two times go through
   * `new Date`, and the meeting link is the generated one.
   */
  function SessionRequest(caller: Caller, body: SessionFields, link: string): (f: SessionFields)
    ensures f.studentId == if caller.role == Student then Given(caller.id) else body.studentId
    ensures f.tutorId == if caller.role == Tutor then Given(caller.id) else body.tutorId
    ensures f.startTime == AsDate(body.startTime) && f.endTime == AsDate(body.endTime)
    ensures f.meetingLink == Given(link)
    ensures f.(studentId := body.studentId, tutorId := body.tutorId, startTime := body.startTime,
               endTime := body.endTime, meetingLink := body.meetingLink) == body
  {
    var dated := body.(startTime := AsDate(body.startTime), endTime := AsDate(body.endTime),
                       meetingLink := Given(link));
    if caller.role == Student then dated.(studentId := Given(caller.id))
    else if caller.role == Tutor then dated.(tutorId := Given(caller.id))
    else dated
  }

  /**
   * 400 when the request fails `insertSessionSchema`, 201 with the new session otherwise.
   * There is no check for overlapping sessions and the client may choose the initial status.
   */
  function PostSession(caller: Caller, body: SessionFields, link: string, db: Store, now: int): (r: Reply<Session>)
    requires Valid(db)
    ensures Valid(r.db)
    ensures r.status in {201, 400}
    ensures r.status == 201 <==> SessionInsertOk(SessionRequest(caller, body, link))
    ensures r.status == 400 ==> r.db == db && r.body.None?
    ensures r.status == 201 ==>
      && r.body.Some?
      && var s := r.body.value;
         && s.id !in db.sessions.rows
         && r.db.sessions.rows == db.sessions.rows[s.id := s] && r.db == db.(sessions := r.db.sessions)
         && (caller.role == Student ==> s.studentId == caller.id)
         && (caller.role == Tutor ==> s.tutorId == caller.id)
         && s.meetingLink == Some(link)
         && s.id == db.sessions.nextId && r.db.sessions.nextId == s.id + 1
         && SessionInserted(db.sessions.nextId, SessionRequest(caller, body, link), now, s)
         && (body.status.Absent? ==> s.status == Some(Scheduled))
         && (body.status.Given? ==> s.status == Some(body.status.value))
  {
    var f := SessionRequest(caller, body, link);
    if !SessionInsertOk(f) then Refuse(400, db)
    else
      var (s, db') := CreateSession(db, f, now);
      Reply(201, Some(s), db')
  }

  /**
   * Nothing stops double-booking: the same tutor can book the same slot twice, and both
   * sessions are stored.
   */
  lemma NoDoubleBookingCheck(caller: Caller, body: SessionFields, link1: string, link2: string, db: Store, now: int)
    requires Valid(db) && caller.role == Tutor
    requires PostSession(caller, body, link1, db, now).status == 201
    ensures var r1 := PostSession(caller, body, link1, db, now);
      var r2 := PostSession(caller, body, link2, r1.db, now);
      && r2.status == 201
      && r1.body.value.id != r2.body.value.id
      && r2.body.value.tutorId == r1.body.value.tutorId == caller.id
      && r2.body.value.startTime == r1.body.value.startTime
      && r1.body.value.id in r2.db.sessions.rows && r2.body.value.id in r2.db.sessions.rows
  {
  }

  /** The caller's sessions starting at or after `now`, earliest first, whatever their status. */
  function GetUpcomingSessions(caller: Caller, db: Store, now: int): (r: Reply<seq<Session>>)
    requires Valid(db)
    ensures r.status == 200 && r.db == db && r.body.Some?
    ensures Exactly(r.body.value, db.sessions, (s: Session) => Participant(s, caller.id) && s.startTime >= now)
    ensures forall i, j :: 0 <= i < j < |r.body.value| ==> r.body.value[i].startTime <= r.body.value[j].startTime
  {
    Reply(200, Some(UpcomingSessions(db, caller.id, now)), db)
  }

  /** The caller's sessions that ended at or before `now`, latest first. */
  function GetPastSessions(caller: Caller, db: Store, now: int): (r: Reply<seq<Session>>)
    requires Valid(db)
    ensures r.status == 200 && r.db == db && r.body.Some?
    ensures Exactly(r.body.value, db.sessions, (s: Session) => Participant(s, caller.id) && s.endTime <= now)
    ensures forall i, j :: 0 <= i < j < |r.body.value| ==> r.body.value[i].endTime >= r.body.value[j].endTime
  {
    Reply(200, Some(PastSessions(db, caller.id, now)), db)
  }

  // ---------------------------------------------------------------------------------------------
  // PATCH /api/sessions/:id

  /**
   * The role rule on a session patch: an admin's patch is untouched; anyone else loses price
   * and currency, and a status other than cancelled (a null status is falsy and stays).
   */
  function SanitizeSessionPatch(role: Role, f: SessionFields): (g: SessionFields)
    ensures role == Admin ==> g == f
    ensures role != Admin ==> g.price.Absent? && g.currency.Absent?
    ensures role != Admin ==> g.status == if f.status.Given? && f.status.value != Cancelled then Absent else f.status
    ensures g.(price := f.price, currency := f.currency, status := f.status) == f
  {
    if role == Admin then f
    else
      f.(price := Absent, currency := Absent,
         status := if f.status.Given? && f.status.value != Cancelled then Absent else f.status)
  }

  /** Sanitising a sanitised patch changes nothing more. */
  lemma SanitizeIdempotent(role: Role, f: SessionFields)
    ensures SanitizeSessionPatch(role, SanitizeSessionPatch(role, f)) == SanitizeSessionPatch(role, f)
  {
  }

  /**
   * `insertSessionSchema.partial()` accepts the body: no required column is null, and neither
   * time is present, since `z.date()` accepts no JSON value and this handler converts none.
   */
  predicate SessionPatchAccepted(f: SessionFields) {
    SessionPatchOk(f) && f.startTime.Absent? && f.endTime.Absent?
  }

  /** The caller may patch the session: one of its participants, or an admin. */
  predicate MayPatch(caller: Caller, s: Session) {
    Participant(s, caller.id) || caller.role == Admin
  }

  /**
   * Checked in this order: 400 for an id parseInt cannot read, 500 for an id outside the
   * `integer` range (the lookup query fails), 404 for a missing session, 403 unless the caller
   * is the session's student, its tutor or an admin, 400 for a body the partial schema refuses;
   * then the sanitised patch is applied and the reply is 200. The current status is not
   * consulted.
   */
  function PatchSession(caller: Caller, idParam: string, body: SessionFields, db: Store, now: int): (r: Reply<Session>)
    requires Valid(db)
    ensures Valid(r.db)
    ensures r.status in {200, 400, 403, 404, 500}
    ensures r.status != 200 ==> r.db == db && r.body.None?
    ensures ParseInt(idParam).None? ==> r.status == 400
    ensures ParseInt(idParam).Some? ==> var id := ParseInt(idParam).value;
      && (r.status == 500 <==> !InInt4(id))
      && (r.status == 404 <==> InInt4(id) && id !in db.sessions.rows)
      && (r.status == 403 <==> InInt4(id) && id in db.sessions.rows && !MayPatch(caller, db.sessions.rows[id]))
      && (r.status == 400 <==> InInt4(id) && id in db.sessions.rows && MayPatch(caller, db.sessions.rows[id])
                               && !SessionPatchAccepted(body))
    ensures r.status == 200 ==>
      && ParseInt(idParam).Some? && r.body.Some?
      && var id := ParseInt(idParam).value;
         var prev := db.sessions.rows[id];
         && r.body.value.id == id && id in db.sessions.rows
         && r.db.sessions.rows == db.sessions.rows[id := r.body.value]
         && r.db == db.(sessions := r.db.sessions)
         && SessionUpdated(prev, SanitizeSessionPatch(caller.role, body), now, r.body.value)
         && (caller.role != Admin ==> r.body.value.price == prev.price && r.body.value.currency == prev.currency)
         && (caller.role != Admin ==> r.body.value.status in {prev.status, Some(Cancelled), None})
         && (caller.role == Admin && body.price.Given? ==> r.body.value.price == body.price.value)
  {
    match ParseInt(idParam)
    case None => Refuse(400, db)
    case Some(id) =>
      if !InInt4(id) then Refuse(500, db)
      else
      match GetSession(db, id)
      case None => Refuse(404, db)
      case Some(s) =>
        if !MayPatch(caller, s) then Refuse(403, db)
        else if !SessionPatchAccepted(body) then Refuse(400, db)
        else
          match UpdateSession(db, id, SanitizeSessionPatch(caller.role, body), now)
          case Written(row, db') => Reply(200, Some(row), db')
          case _ => Reply(200, None, db)
  }

  /** A participant can cancel a session that has already been completed. */
  lemma CompletedSessionCanBeCancelled(caller: Caller, idParam: string, db: Store, now: int)
    requires Valid(db) && ParseInt(idParam).Some? && ParseInt(idParam).value in db.sessions.rows
    requires InInt4(ParseInt(idParam).value)
    requires var s := db.sessions.rows[ParseInt(idParam).value];
      s.status == Some(Completed) && Participant(s, caller.id)
    ensures var r := PatchSession(caller, idParam, NoSessionFields.(status := Given(Cancelled)), db, now);
      r.status == 200 && r.db.sessions.rows[ParseInt(idParam).value].status == Some(Cancelled)
  {
    var f := NoSessionFields.(status := Given(Cancelled));
    assert SessionPatchAccepted(f);
    assert SanitizeSessionPatch(caller.role, f).status == Given(Cancelled);
    var r := PatchSession(caller, idParam, f, db, now);
    assert r.status == 200;
  }

  /** A non-admin asking for `completed` gets 200, but the status is left as it was. */
  lemma NonAdminStatusDropped(caller: Caller, idParam: string, db: Store, now: int)
    requires Valid(db) && ParseInt(idParam).Some? && ParseInt(idParam).value in db.sessions.rows
    requires InInt4(ParseInt(idParam).value)
    requires caller.role != Admin && Participant(db.sessions.rows[ParseInt(idParam).value], caller.id)
    ensures var r := PatchSession(caller, idParam, NoSessionFields.(status := Given(Completed)), db, now);
      var id := ParseInt(idParam).value;
      r.status == 200 && r.db.sessions.rows[id].status == db.sessions.rows[id].status
  {
    var f := NoSessionFields.(status := Given(Completed));
    assert SessionPatchAccepted(f);
    assert SanitizeSessionPatch(caller.role, f).status.Absent?;
    var r := PatchSession(caller, idParam, f, db, now);
    assert r.status == 200;
  }

  // ---------------------------------------------------------------------------------------------
  // POST /api/sessions/:id/attendance

  /**
   * 400 for an unreadable id, 500 for one outside the `integer` range, 404 for a missing
   * session, otherwise 201 with an attendance row for the caller, joined now, no leave time,
   * duration 0. The caller need not take part in the session.
   */
  function PostAttendance(caller: Caller, idParam: string, db: Store, now: int): (r: Reply<Attendance>)
    requires Valid(db)
    ensures Valid(r.db)
    ensures r.status in {201, 400, 404, 500}
    ensures r.status == 400 <==> ParseInt(idParam).None?
    ensures r.status == 500 <==> ParseInt(idParam).Some? && !InInt4(ParseInt(idParam).value)
    ensures r.status == 404 <==>
      ParseInt(idParam).Some? && InInt4(ParseInt(idParam).value) && ParseInt(idParam).value !in db.sessions.rows
    ensures r.status != 201 ==> r.db == db && r.body.None?
    ensures r.status == 201 ==>
      && r.body.Some?
      && var a := r.body.value;
         && a.id !in db.attendance.rows
         && a.sessionId == ParseInt(idParam).value && a.userId == caller.id
         && a.joinTime == Some(now) && a.leaveTime.None? && a.duration == Some(0)
         && r.db.attendance.rows == db.attendance.rows[a.id := a]
         && r.db == db.(attendance := r.db.attendance)
  {
    match ParseInt(idParam)
    case None => Refuse(400, db)
    case Some(id) =>
      if !InInt4(id) then Refuse(500, db)
      else if GetSession(db, id).None? then Refuse(404, db)
      else
        var (a, db') := RecordAttendance(db, id, caller.id, Some(now), None, Some(0), now);
        Reply(201, Some(a), db')
  }
}
