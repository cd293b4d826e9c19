/**
 * `POST /api/content` and `GET /api/content/offline` (both behind `authenticate`) and the public
 * `GET /api/content/public`. No file is uploaded: the URL is whatever the client sends.
 */
module ContentRoutes {
  import opened Wrappers
  import opened Schema
  import opened Tables
  import opened Storage
  import opened Http
  import opened Guards

  /**
   * The body `insertContentSchema` sees: the caller as creator, and as type the body's
   * `contentType` when it is given (a valid type name is never falsy) or else its `type`.
   */
  function ContentRequest(caller: Caller, body: ContentFields, contentType: Field<ContentType>): (f: ContentFields)
    ensures f.creatorId == Given(caller.id)
    ensures f.kind == if contentType.Given? then contentType else body.kind
    ensures f.(creatorId := body.creatorId, kind := body.kind) == body
  {
    body.(creatorId := Given(caller.id), kind := if contentType.Given? then contentType else body.kind)
  }

  /**
   * 400 unless a title, a url and a type (under either name) are given; 201 with the stored
   * item otherwise, created by the caller, private and online-only unless the body says so.
   */
  function PostContent(caller: Caller, body: ContentFields, contentType: Field<ContentType>, db: Store,
                       now: int): (r: Reply<Content>)
    requires Valid(db)
    ensures Valid(r.db)
    ensures r.status in {201, 400}
    ensures r.status == 400 <==>
      !(body.title.Given? && body.url.Given? && (contentType.Given? || body.kind.Given?))
    ensures r.status == 400 ==> r.db == db && r.body.None?
    ensures r.status == 201 ==>
      && r.body.Some?
      && var c := r.body.value;
         && c.id !in db.content.rows
         && r.db.content.rows == db.content.rows[c.id := c] && r.db == db.(content := r.db.content)
         && c.creatorId == caller.id
         && c.kind == (if contentType.Given? then contentType.value else body.kind.value)
         && (body.isPublic.Absent? ==> c.isPublic == Some(false))
         && (body.isOfflineAvailable.Absent? ==> c.isOfflineAvailable == Some(false))
         && c.id == db.content.nextId && r.db.content.nextId == c.id + 1
         && ContentInserted(db.content.nextId, ContentRequest(caller, body, contentType), now, c)
  {
    var f := ContentRequest(caller, body, contentType);
    if !ContentInsertOk(f) then Refuse(400, db)
    else
      var (c, db') := CreateContent(db, f, now);
      Reply(201, Some(c), db')
  }

  /** With no `isPublic` in the body, a new item is not listed as public content. */
  lemma NewContentPrivateByDefault(caller: Caller, body: ContentFields, contentType: Field<ContentType>,
                                   db: Store, now: int)
    requires Valid(db) && body.isPublic.Absent?
    requires PostContent(caller, body, contentType, db, now).status == 201
    ensures var r := PostContent(caller, body, contentType, db, now);
      r.body.value !in GetPublicContent(r.db).body.value
  {
  }

  /** The public items, open to anyone. */
  function GetPublicContent(db: Store): (r: Reply<seq<Content>>)
    requires Valid(db)
    ensures r.status == 200 && r.db == db && r.body.Some?
    ensures Exactly(r.body.value, db.content, (c: Content) => c.isPublic == Some(true))
  {
    Reply(200, Some(PublicContent(db)), db)
  }

  /**
   * The items marked for offline use, to any authenticated caller: 401 without a valid token,
   * otherwise 200 with every such item, whoever created it and whether or not it is public.
   */
  function GetOfflineContent(header: Option<string>, verify: string -> Option<int>, db: Store): (r: Reply<seq<Content>>)
    requires Valid(db)
    ensures r.db == db
    ensures r.status in {200, 401}
    ensures r.status == 200 <==> Authenticate(header, verify, db).Admitted?
    ensures r.status == 200 ==> r.body.Some?
    ensures r.body.Some? ==> Exactly(r.body.value, db.content, (c: Content) => c.isOfflineAvailable == Some(true))
  {
    match Authenticate(header, verify, db)
    case Rejected(s) => Refuse(s, db)
    case Admitted(_) => Reply(200, Some(OfflineAvailableContent(db)), db)
  }
}
