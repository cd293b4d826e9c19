/**
 * `POST /api/tutor-profiles`, `GET /api/tutor-profiles/me`, `GET /api/tutors` and
 * `POST /api/student-profiles`. The handlers run after `authenticate` and
 * `requireRole(['tutor'])` or `requireRole(['student'])`; `GET /api/tutors` is public.
 */
module ProfileRoutes {
  import opened Wrappers
  import opened Text
  import opened Schema
  import opened Tables
  import opened Storage
  import opened Http

  /** No user owns two tutor profiles. */
  ghost predicate OneTutorProfilePerUser(db: Store) {
    forall j, k ::
      (j in db.tutorProfiles.rows && k in db.tutorProfiles.rows && db.tutorProfiles.rows[j].userId == db.tutorProfiles.rows[k].userId) ==> j == k
  }

  /** No user owns two student profiles. */
  ghost predicate OneStudentProfilePerUser(db: Store) {
    forall j, k ::
      (j in db.studentProfiles.rows && k in db.studentProfiles.rows && db.studentProfiles.rows[j].userId == db.studentProfiles.rows[k].userId) ==> j == k
  }

  /**
   * The caller's id replaces any `userId` in the body, which makes the only required field
   * present; then 409 if the caller already has a tutor profile, 201 with the new one otherwise.
   * The rating aggregates start at 0 whatever the body says.
   */
  function PostTutorProfile(caller: Caller, body: TutorProfileFields, db: Store, now: int): (r: Reply<TutorProfile>)
    requires Valid(db)
    ensures Valid(r.db)
    ensures r.status in {201, 409}
    ensures r.status == 409 <==> exists k :: k in db.tutorProfiles.rows && db.tutorProfiles.rows[k].userId == caller.id
    ensures r.status == 409 ==> r.db == db && r.body.None?
    ensures r.status == 201 ==>
      && r.body.Some? && r.body.value.id !in db.tutorProfiles.rows
      && r.body.value.userId == caller.id
      && r.body.value.ratingAverage == Some(0.0) && r.body.value.ratingsCount == Some(0)
      && r.body.value.completedSessions == Some(0)
      && r.body.value.id == db.tutorProfiles.nextId && r.db.tutorProfiles.nextId == r.body.value.id + 1
      && TutorProfileInserted(db.tutorProfiles.nextId, body.(userId := Given(caller.id)), now, r.body.value)
      && r.db.tutorProfiles.rows == db.tutorProfiles.rows[r.body.value.id := r.body.value]
      && r.db == db.(tutorProfiles := r.db.tutorProfiles)
  {
    if TutorProfileByUserId(db, caller.id).Some? then Refuse(409, db)
    else
      var (p, db') := CreateTutorProfile(db, body.(userId := Given(caller.id)), now);
      Reply(201, Some(p), db')
  }

  /** Creating tutor profiles through the route never gives a user a second one. */
  lemma PostTutorProfileKeepsOnePerUser(caller: Caller, body: TutorProfileFields, db: Store, now: int)
    requires Valid(db) && OneTutorProfilePerUser(db)
    ensures OneTutorProfilePerUser(PostTutorProfile(caller, body, db, now).db)
  {
    var r := PostTutorProfile(caller, body, db, now);
    if r.status == 201 {
      var t := r.db.tutorProfiles.rows;
      forall j, k | j in t && k in t && t[j].userId == t[k].userId
        ensures j == k
      {
      }
    }
  }

  /** A `userId` in the body makes no difference: the profile belongs to the caller. */
  lemma BodyUserIdIgnored(caller: Caller, body: TutorProfileFields, other: Field<int>, db: Store, now: int)
    requires Valid(db)
    ensures PostTutorProfile(caller, body.(userId := other), db, now) == PostTutorProfile(caller, body, db, now)
  {
  }

  /** The caller's tutor profile, or 404. */
  function GetMyTutorProfile(caller: Caller, db: Store): (r: Reply<TutorProfile>)
    requires Valid(db)
    ensures r.db == db
    ensures r.status == 404 <==> forall k :: k in db.tutorProfiles.rows ==> db.tutorProfiles.rows[k].userId != caller.id
    ensures r.status != 404 ==> r.status == 200 && r.body.Some? && r.body.value.userId == caller.id
                                && r.body.value in db.tutorProfiles.rows.Values
  {
    match TutorProfileByUserId(db, caller.id)
    case None => Refuse(404, db)
    case Some(p) => Reply(200, Some(p), db)
  }

  /** Same as `PostTutorProfile`, for student profiles. */
  function PostStudentProfile(caller: Caller, body: StudentProfileFields, db: Store, now: int): (r: Reply<StudentProfile>)
    requires Valid(db)
    ensures Valid(r.db)
    ensures r.status in {201, 409}
    ensures r.status == 409 <==> exists k :: k in db.studentProfiles.rows && db.studentProfiles.rows[k].userId == caller.id
    ensures r.status == 409 ==> r.db == db && r.body.None?
    ensures r.status == 201 ==>
      && r.body.Some? && r.body.value.id !in db.studentProfiles.rows
      && r.body.value.userId == caller.id
      && (body.parentId.Given? ==> r.body.value.parentId == Some(body.parentId.value))
      && r.body.value.id == db.studentProfiles.nextId && r.db.studentProfiles.nextId == r.body.value.id + 1
      && StudentProfileInserted(db.studentProfiles.nextId, body.(userId := Given(caller.id)), now, r.body.value)
      && r.db.studentProfiles.rows == db.studentProfiles.rows[r.body.value.id := r.body.value]
      && r.db == db.(studentProfiles := r.db.studentProfiles)
  {
    if StudentProfileByUserId(db, caller.id).Some? then Refuse(409, db)
    else
      var (p, db') := CreateStudentProfile(db, body.(userId := Given(caller.id)), now);
      Reply(201, Some(p), db')
  }

  /** Creating student profiles through the route never gives a user a second one. */
  lemma PostStudentProfileKeepsOnePerUser(caller: Caller, body: StudentProfileFields, db: Store, now: int)
    requires Valid(db) && OneStudentProfilePerUser(db)
    ensures OneStudentProfilePerUser(PostStudentProfile(caller, body, db, now).db)
  {
    var r := PostStudentProfile(caller, body, db, now);
    if r.status == 201 {
      var t := r.db.studentProfiles.rows;
      forall j, k | j in t && k in t && t[j].userId == t[k].userId
        ensures j == k
      {
      }
    }
  }

  // ---------------------------------------------------------------------------------------------
  // GET /api/tutors

  /** The JSON body of `GET /api/tutors`: a list of profiles, or the placeholder message. */
  datatype TutorsReply = Profiles(list: seq<TutorProfile>) | Placeholder

  /** `parseInt(req.query.rating)` when it lands in 1..5; an absent parameter parses as NaN. */
  function RatingFilter(rating: Option<string>): (m: Option<int>)
    ensures m.Some? <==> rating.Some? && ParseInt(rating.value).Some? && 1 <= ParseInt(rating.value).value <= 5
    ensures m.Some? ==> m == ParseInt(rating.value)
  {
    match rating
    case None => None
    case Some(s) =>
      match ParseInt(s)
      case Some(n) => if 1 <= n <= 5 then Some(n) else None
      case None => None
  }

  /**
   * A non-empty subject wins; otherwise a rating that parses to 1..5 filters by minimum
   * average; otherwise the placeholder message. Always 200.
   */
  function GetTutors(subject: Option<string>, rating: Option<string>, db: Store): (r: Reply<TutorsReply>)
    requires Valid(db)
    ensures r.status == 200 && r.db == db && r.body.Some?
    ensures subject.Some? && subject.value != "" ==>
      r.body.value.Profiles? &&
      Exactly(r.body.value.list, db.tutorProfiles, (p: TutorProfile) => p.subjects.Some? && subject.value in p.subjects.value)
    ensures (subject.None? || subject.value == "") && RatingFilter(rating).Some? ==>
      r.body.value.Profiles? &&
      Exactly(r.body.value.list, db.tutorProfiles,
              (p: TutorProfile) => p.ratingAverage.Some? && p.ratingAverage.value >= RatingFilter(rating).value as real)
    ensures r.body.value.Placeholder? <==> (subject.None? || subject.value == "") && RatingFilter(rating).None?
  {
    if subject.Some? && subject.value != "" then Reply(200, Some(Profiles(TutorsBySubject(db, subject.value))), db)
    else
      match RatingFilter(rating)
      case Some(m) => Reply(200, Some(Profiles(TutorsByRating(db, m))), db)
      case None => Reply(200, Some(Placeholder), db)
  }

  /** `?rating=4.5` is read by parseInt as 4, so profiles averaging 4 or more are listed. */
  lemma FractionalRatingTruncates()
    ensures RatingFilter(Some("4.5")) == Some(4)
  {
    var t := NatToString(4) + ".5";
    assert t == "4.5" by {
      assert NatToString(4) == "4";
    }
    ParseIntOfRendering(4, ".5");
  }

  /** `?rating=0` and `?rating=6` fall outside 1..5 and give the placeholder. */
  lemma RatingOutOfRange()
    ensures RatingFilter(Some("0")).None? && RatingFilter(Some("6")).None?
  {
    assert NatToString(0) + "" == "0";
    assert NatToString(6) == "6";
    assert NatToString(6) + "" == "6";
    ParseIntOfRendering(0, "");
    ParseIntOfRendering(6, "");
    assert ParseInt("0") == Some(0);
    assert ParseInt("6") == Some(6);
  }
}
