/**
 * `POST /api/reviews` (behind `authenticate` and `requireRole(['student'])`) and the public
 * `GET /api/tutors/:id/reviews`. Posting a review does not touch the tutor's rating aggregates.
 */
module ReviewRoutes {
  import opened Wrappers
  import opened Text
  import opened Schema
  import opened Tables
  import opened Storage
  import opened Http
  import opened Guards

  /** `if (reviewData.sessionId)`: a session is checked only for a given, non-zero id. */
  predicate NamesSession(f: ReviewFields) {
    f.sessionId.Given? && f.sessionId.value != 0
  }

  /**
   * The caller's id replaces any `studentId`; then 400 without a tutorId and a rating; then, for
   * a named session, 404 when it is missing and 403 when the caller is not its student; 201
   * with the stored review otherwise. Neither the session's status nor its tutor is compared
   * with the review, and the rating may be any integer.
   */
  function PostReview(caller: Caller, body: ReviewFields, db: Store, now: int): (r: Reply<Review>)
    requires Valid(db)
    ensures Valid(r.db)
    ensures r.status in {201, 400, 403, 404}
    ensures r.status == 400 <==> !(body.tutorId.Given? && body.rating.Given?)
    ensures r.status == 404 <==>
      body.tutorId.Given? && body.rating.Given? && NamesSession(body) && body.sessionId.value !in db.sessions.rows
    ensures r.status == 403 <==>
      && body.tutorId.Given? && body.rating.Given? && NamesSession(body)
      && body.sessionId.value in db.sessions.rows && db.sessions.rows[body.sessionId.value].studentId != caller.id
    ensures r.status != 201 ==> r.db == db && r.body.None?
    ensures r.status == 201 ==>
      && r.body.Some?
      && var v := r.body.value;
         && v.id !in db.reviews.rows
         && r.db.reviews.rows == db.reviews.rows[v.id := v] && r.db == db.(reviews := r.db.reviews)
         && v.studentId == caller.id && v.tutorId == body.tutorId.value && v.rating == body.rating.value
         && r.db.tutorProfiles == db.tutorProfiles
         && v.id == db.reviews.nextId && r.db.reviews.nextId == v.id + 1
         && ReviewInserted(db.reviews.nextId, body.(studentId := Given(caller.id)), now, v)
  {
    var f := body.(studentId := Given(caller.id));
    if !ReviewInsertOk(f) then Refuse(400, db)
    else if NamesSession(f) && GetSession(db, f.sessionId.value).None? then Refuse(404, db)
    else if NamesSession(f) && GetSession(db, f.sessionId.value).value.studentId != caller.id then Refuse(403, db)
    else
      var (v, db') := CreateReview(db, f, now);
      Reply(201, Some(v), db')
  }

  /**
   * A student may review any tutor for one of their own sessions, even one that has not taken
   * place and whose tutor is someone else, with a rating outside 1..5.
   */
  lemma ReviewNotTiedToSession(caller: Caller, sessionId: int, tutorId: int, rating: int, db: Store, now: int)
    requires Valid(db) && sessionId in db.sessions.rows && sessionId != 0
    requires db.sessions.rows[sessionId].studentId == caller.id
    ensures var body := ReviewFields(Absent, Given(tutorId), Given(sessionId), Given(rating), Absent);
      PostReview(caller, body, db, now).status == 201
  {
  }

  /** `POST /api/reviews` with its guards: 401 and 403 from them, then the handler. */
  function PostReviewRoute(header: Option<string>, verify: string -> Option<int>, body: ReviewFields,
                           db: Store, now: int): (r: Reply<Review>)
    requires Valid(db)
    ensures Valid(r.db)
    ensures !Authenticate(header, verify, db).Admitted? ==> r.status == 401 && r.db == db
    ensures Authenticate(header, verify, db).Admitted? && Authenticate(header, verify, db).caller.role != Student
            ==> r.status == 403 && r.db == db
    ensures r.status == 201 ==>
      && Authenticate(header, verify, db).Admitted?
      && Authenticate(header, verify, db).caller.role == Student
      && r.body.Some? && r.body.value.studentId == Authenticate(header, verify, db).caller.id
  {
    match AuthenticateWithRole(header, verify, db, [Student])
    case Rejected(s) => Refuse(s, db)
    case Admitted(c) => PostReview(c, body, db, now)
  }

  /**
   * 400 when parseInt cannot read the id, 500 when it lies outside the `integer` range (the
   * query fails), otherwise 200 with the tutor's reviews.
   */
  function GetTutorReviews(idParam: string, db: Store): (r: Reply<seq<Review>>)
    requires Valid(db)
    ensures r.db == db
    ensures r.status in {200, 400, 500}
    ensures r.status == 400 <==> ParseInt(idParam).None?
    ensures r.status == 500 <==> ParseInt(idParam).Some? && !InInt4(ParseInt(idParam).value)
    ensures r.status == 200 ==> r.body.Some?
    ensures r.body.Some? ==>
      && ParseInt(idParam).Some?
      && Exactly(r.body.value, db.reviews, (v: Review) => v.tutorId == ParseInt(idParam).value)
  {
    match ParseInt(idParam)
    case None => Refuse(400, db)
    case Some(id) =>
      if !InInt4(id) then Refuse(500, db) else Reply(200, Some(ReviewsByTutor(db, id)), db)
  }

  /** A review just posted is listed under its tutor. */
  lemma PostedReviewListed(caller: Caller, body: ReviewFields, db: Store, now: int, idParam: string)
    requires Valid(db) && PostReview(caller, body, db, now).status == 201
    requires ParseInt(idParam) == Some(body.tutorId.value) && InInt4(body.tutorId.value)
    ensures var r := PostReview(caller, body, db, now);
      r.body.value in GetTutorReviews(idParam, r.db).body.value
  {
    var r := PostReview(caller, body, db, now);
    assert r.db.reviews.rows[r.body.value.id] == r.body.value;
  }
}
