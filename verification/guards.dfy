/**
 * The middleware in front of the handlers: the fixed-window rate limiter on the two auth
 * routes, `authenticate` (Bearer token, user looked up afresh) and `requireRole`.
 */
module Guards {
  import opened Wrappers
  import opened Text
  import opened Schema
  import opened Storage
  import opened Http

  // ---------------------------------------------------------------------------------------------
  // rateLimit

  /** One entry of `requestCounts`: requests admitted in the current window and when it ends. */
  datatype Window = Window(count: int, resetTime: int)

  /** `rateLimit(10, 60 * 1000)`, the only configuration the routes use (register and login). */
  const AuthMaxRequests: int := 10
  const AuthWindowMs: int := 60 * 1000

  /** `req.ip || 'unknown'`: a missing or empty address is counted under "unknown". */
  function ClientKey(ip: Option<string>): (key: string)
    ensures ip.Some? && ip.value != "" ==> key == ip.value
    ensures ip.None? || ip.value == "" ==> key == "unknown"
  {
    if ip.Some? && ip.value != "" then ip.value else "unknown"
  }

  /** The request at `now` opens a new window for `key`: none yet, or the old one has strictly passed. */
  predicate OpensWindow(counts: map<string, Window>, key: string, now: int) {
    key !in counts || now > counts[key].resetTime
  }

  /**
   * The limiter's decision and its new table. A new window starts with count 1 and ends
   * `windowMs` later; inside a window a request passes while fewer than `maxRequests` have
   * passed and is refused with 429 otherwise, leaving the table alone.
   */
  function RateLimit(counts: map<string, Window>, ip: Option<string>, now: int, maxRequests: int,
                     windowMs: int): (r: (bool, map<string, Window>))
    ensures var key := ClientKey(ip);
      && r.1.Keys == counts.Keys + {key}
      && (r.0 <==> OpensWindow(counts, key, now) || counts[key].count < maxRequests)
      && (OpensWindow(counts, key, now) ==> r.1[key] == Window(1, now + windowMs))
      && (!OpensWindow(counts, key, now) && r.0 ==>
            r.1[key] == counts[key].(count := counts[key].count + 1))
      && (!r.0 ==> r.1 == counts)
      && (forall k :: k in counts && k != key ==> r.1[k] == counts[k])
  {
    var key := ClientKey(ip);
    if key !in counts then (true, counts[key := Window(1, now + windowMs)])
    else if now > counts[key].resetTime then (true, counts[key := Window(1, now + windowMs)])
    else if counts[key].count >= maxRequests then (false, counts)
    else (true, counts[key := counts[key].(count := counts[key].count + 1)])
  }

  /** Feeds requests from one address at the given instants; counts the ones let through. */
  function Replay(counts: map<string, Window>, ip: Option<string>, times: seq<int>, maxRequests: int,
                  windowMs: int): (r: (nat, map<string, Window>))
    ensures r.0 <= |times|
    decreases |times|
  {
    if |times| == 0 then (0, counts)
    else
      var (ok, next) := RateLimit(counts, ip, times[0], maxRequests, windowMs);
      var (n, last) := Replay(next, ip, times[1..], maxRequests, windowMs);
      ((if ok then 1 else 0) + n, last)
  }

  /**
   * Inside a window (every instant at or before its reset time, the reset instant included)
   * at most `maxRequests - count` further requests pass.
   */
  lemma {:induction false} WindowCap(counts: map<string, Window>, ip: Option<string>, times: seq<int>,
                                     maxRequests: int, windowMs: int)
    requires ClientKey(ip) in counts
    requires forall i :: 0 <= i < |times| ==> times[i] <= counts[ClientKey(ip)].resetTime
    ensures var w := counts[ClientKey(ip)];
      Replay(counts, ip, times, maxRequests, windowMs).0 <= if w.count >= maxRequests then 0 else maxRequests - w.count
    decreases |times|
  {
    if |times| > 0 {
      var key := ClientKey(ip);
      var (ok, next) := RateLimit(counts, ip, times[0], maxRequests, windowMs);
      assert next[key].resetTime == counts[key].resetTime;
      WindowCap(next, ip, times[1..], maxRequests, windowMs);
    }
  }

  /**
   * A request that opens a window, followed by any requests up to the window's end: at most
   * `maxRequests` of them pass in total, the opener included.
   */
  lemma WindowAdmitsAtMostMax(counts: map<string, Window>, ip: Option<string>, times: seq<int>,
                              maxRequests: int, windowMs: int)
    requires |times| >= 1 && maxRequests >= 1
    requires OpensWindow(counts, ClientKey(ip), times[0])
    requires forall i :: 1 <= i < |times| ==> times[i] <= times[0] + windowMs
    ensures Replay(counts, ip, times, maxRequests, windowMs).0 <= maxRequests
  {
    var (ok, next) := RateLimit(counts, ip, times[0], maxRequests, windowMs);
    WindowCap(next, ip, times[1..], maxRequests, windowMs);
  }

  /**
   * The other side of `WindowCap`: inside a window with room for all of them, every request
   * passes and the window's count grows by one per request, its reset time fixed.
   */
  lemma {:induction false} WindowFillsUp(counts: map<string, Window>, ip: Option<string>, times: seq<int>,
                                         maxRequests: int, windowMs: int)
    requires ClientKey(ip) in counts
    requires forall i :: 0 <= i < |times| ==> times[i] <= counts[ClientKey(ip)].resetTime
    requires counts[ClientKey(ip)].count + |times| <= maxRequests
    ensures var (n, last) := Replay(counts, ip, times, maxRequests, windowMs);
      var w := counts[ClientKey(ip)];
      n == |times| && ClientKey(ip) in last && last[ClientKey(ip)] == w.(count := w.count + |times|)
    decreases |times|
  {
    if |times| > 0 {
      var key := ClientKey(ip);
      var (ok, next) := RateLimit(counts, ip, times[0], maxRequests, windowMs);
      assert ok && next[key] == counts[key].(count := counts[key].count + 1);
      WindowFillsUp(next, ip, times[1..], maxRequests, windowMs);
    }
  }

  /** Ten requests from one address within a minute pass; the eleventh is refused. */
  lemma EleventhAuthRequestRefused(ip: Option<string>, now: int)
    ensures var times := seq(11, i => now + i);
      var (n, _) := Replay(map[], ip, times[..10], AuthMaxRequests, AuthWindowMs);
      n == 10
    ensures var times := seq(11, i => now + i);
      var (_, after) := Replay(map[], ip, times[..10], AuthMaxRequests, AuthWindowMs);
      !RateLimit(after, ip, now + 10, AuthMaxRequests, AuthWindowMs).0
  {
    var key := ClientKey(ip);
    var times := seq(11, i => now + i)[..10];
    var (ok, first) := RateLimit(map[], ip, times[0], AuthMaxRequests, AuthWindowMs);
    assert ok && first[key] == Window(1, now + AuthWindowMs);
    WindowFillsUp(first, ip, times[1..], AuthMaxRequests, AuthWindowMs);
  }

  // ---------------------------------------------------------------------------------------------
  // authenticate and requireRole

  /** Whether a request gets past a guard, and with which caller; a refusal carries the status. */
  datatype Admission = Admitted(caller: Caller) | Rejected(status: int)

  /** The token `authHeader.split(' ')[1]` picks out of a header that starts with "Bearer ". */
  function BearerToken(header: string): (token: string)
    requires |header| >= 7 && header[..7] == "Bearer "
    ensures token == Split(header[7..], ' ')[0]
    ensures token <= header[7..] && ' ' !in token
  {
    BearerSplit(header[7..]);
    assert header == "Bearer " + header[7..];
    SplitHead(header[7..], ' ');
    Split(header, ' ')[1]
  }

  /** Splitting a Bearer header: "Bearer" first, then the pieces of the rest. */
  lemma BearerSplit(rest: string)
    ensures Split("Bearer " + rest, ' ') == ["Bearer"] + Split(rest, ' ')
  {
    var parts := ["Bearer"] + Split(rest, ' ');
    JoinSplit(rest, ' ');
    assert Join(parts, ' ') == "Bearer" + [' '] + Join(parts[1..], ' ');
    assert parts[1..] == Split(rest, ' ');
    assert "Bearer" + [' '] + rest == "Bearer " + rest;
    SplitJoin(parts, ' ');
  }

  /**
   * `authenticate`: the header must start with "Bearer ", the token must verify, and the user
   * it names must still exist; every failure is 401. Role and email come from the users table,
   * not from the token, and `isActive` is not consulted.
   */
  function Authenticate(header: Option<string>, verify: string -> Option<int>, db: Store): (r: Admission)
    requires Valid(db)
    ensures r.Rejected? ==> r.status == 401
    ensures r.Admitted? <==>
      && header.Some? && |header.value| >= 7 && header.value[..7] == "Bearer "
      && verify(BearerToken(header.value)).Some?
      && verify(BearerToken(header.value)).value in db.users.rows
    ensures r.Admitted? ==>
      var u := db.users.rows[verify(BearerToken(header.value)).value];
      r.caller == Caller(u.id, u.email, u.role)
  {
    if header.None? || |header.value| < 7 || header.value[..7] != "Bearer " then Rejected(401)
    else
      match verify(BearerToken(header.value))
      case None => Rejected(401)
      case Some(id) =>
        match GetUser(db, id)
        case None => Rejected(401)
        case Some(u) => Admitted(Caller(u.id, u.email, u.role))
  }

  /** A deactivated user whose token still verifies gets through `authenticate`. */
  lemma DeactivatedUserStillAuthenticates(header: string, verify: string -> Option<int>, db: Store, id: int, now: int)
    requires Valid(db) && id in db.users.rows
    requires |header| >= 7 && header[..7] == "Bearer " && verify(BearerToken(header)) == Some(id)
    ensures var (_, db') := DeactivateUser(db, id, now);
      Authenticate(Some(header), verify, db').Admitted?
  {
  }

  /** `requireRole(roles)`: 401 without a user, 403 when the user's role is not listed. */
  function RequireRole(user: Option<Caller>, roles: seq<Role>): (r: Admission)
    ensures r.Rejected? ==> r.status == 401 || r.status == 403
    ensures r.Rejected? && r.status == 401 <==> user.None?
    ensures r.Rejected? && r.status == 403 <==> user.Some? && user.value.role !in roles
    ensures r.Admitted? ==> user == Some(r.caller) && r.caller.role in roles
  {
    match user
    case None => Rejected(401)
    case Some(c) => if c.role in roles then Admitted(c) else Rejected(403)
  }

  /** `authenticate` followed by `requireRole(roles)`, as the role-restricted routes chain them. */
  function AuthenticateWithRole(header: Option<string>, verify: string -> Option<int>, db: Store,
                                roles: seq<Role>): (r: Admission)
    requires Valid(db)
    ensures r.Admitted? <==> Authenticate(header, verify, db).Admitted? && Authenticate(header, verify, db).caller.role in roles
    ensures r.Rejected? && r.status == 403 <==> Authenticate(header, verify, db).Admitted? && Authenticate(header, verify, db).caller.role !in roles
    ensures r.Admitted? ==> r.caller == Authenticate(header, verify, db).caller
  {
    match Authenticate(header, verify, db)
    case Rejected(s) => Rejected(s)
    case Admitted(c) => RequireRole(Some(c), roles)
  }
}
