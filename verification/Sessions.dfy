/** Login sessions: signed tokens that carry the version their user had when the row was read, the
    hook that compares it with the version of today, and all the ways that version is written. */
module Sessions {
  import opened Options
  import opened Text

  const SESSION_TOKEN_TTL_MS: int := 7 * 24 * 60 * 60 * 1000

  datatype Payload = Payload(username: string, sub: string, sv: Option<int>, iat: Option<int>, exp: Option<int>)

  // A token whose signature verifies carries its payload; nothing is known of any other.
  datatype Token = Signed(payload: Payload) | Unsigned

  // What a handler holds of a user after reading the row.
  datatype UserRow = UserRow(id: string, username: string, sessionVersion: Option<int>)

  function SessionPayloadForUser(row: UserRow): Payload {
    Payload(row.username, row.id, Some(match row.sessionVersion case Some(v) => v case None => 0), None, None)
  }

  // Fields of the payload win over the stamps.
  function EncodeSession(p: Payload, now: int): Token {
    Signed(p.(iat := if p.iat.Some? then p.iat else Some(now),
              exp := if p.exp.Some? then p.exp else Some(now + SESSION_TOKEN_TTL_MS)))
  }

  function DecodeSession(token: Token, now: int): Option<Payload> {
    if token.Signed? && token.payload.exp.Some? && token.payload.exp.value > now then Some(token.payload) else None
  }

  function VersionOf(p: Payload): int {
    match p.sv case Some(v) => v case None => 0
  }

  predicate SessionVersionMatches(p: Payload, dbVersion: int) {
    VersionOf(p) == dbVersion
  }

  // ---------------------------------------------------------------- the stored versions

  function VersionIn(users: map<string, int>, userId: string): int {
    if userId in users then users[userId] else 0
  }

  class UserTable {
    var sessionVersion: map<string, int>

    constructor (rows: map<string, int>)
      ensures sessionVersion == rows
    {
      sessionVersion := rows;
    }

    method LoadUserSessionVersion(userId: string) returns (v: int)
      ensures v == VersionIn(sessionVersion, userId)
    {
      v := if userId in sessionVersion then sessionVersion[userId] else 0;
    }

    method IncrementUserSessionVersion(userId: string)
      modifies this
      ensures sessionVersion.Keys == old(sessionVersion).Keys
      ensures forall u :: u in sessionVersion ==>
                sessionVersion[u] == old(sessionVersion)[u] + if u == userId then 1 else 0
    {
      if userId in sessionVersion {
        sessionVersion := sessionVersion[userId := sessionVersion[userId] + 1];
      }
    }

    // The other writers: one more than the version that was read some time ago.
    method StoreBump(userId: string, read: int)
      modifies this
      ensures sessionVersion.Keys == old(sessionVersion).Keys
      ensures forall u :: u in sessionVersion ==>
                sessionVersion[u] == if u == userId then read + 1 else old(sessionVersion)[u]
    {
      if userId in sessionVersion {
        sessionVersion := sessionVersion[userId := read + 1];
      }
    }
  }

  // ---------------------------------------------------------------- the enforcement hook

  predicate IsUuid(s: string) {
    && |s| == 36
    && (forall i :: 0 <= i < 36 ==> if i in {8, 13, 18, 23} then s[i] == '-' else IsHex(LowerChar(s[i])))
    && '1' <= s[14] <= '5'
    && s[19] in "89abAB"
  }

  function WithoutSlashes(path: string): string {
    if |path| > 0 && path[|path| - 1] == '/' then WithoutSlashes(path[..|path| - 1]) else path
  }

  function PathOf(url: string): string {
    var p := WithoutSlashes(BeforeQuery(url));
    if p == "" then "/" else p
  }

  predicate ExemptFromEnforcement(path: string) {
    || path in ["/api/auth/session", "/api/auth/me", "/api/auth/logout", "/api/auth/register", "/api/auth/registration-policy"]
    || "/api/auth/password-reset/" <= path
  }

  predicate SkipsHook(url: string) {
    var path := PathOf(url);
    "/api/health" <= path || ("/api/auth/" <= path && ExemptFromEnforcement(path))
  }

  // Passed as nobody, passed as a user, or answered.
  datatype Outcome = Skipped | Anonymous | AsUser(id: string) | SessionInvalid | AccessDenied | SessionRevoked

  datatype Request = Request(url: string, cookie: Option<Token>)

  method EnforceSession(useDatabase: bool, req: Request, now: int, banned: set<string>, users: UserTable) returns (r: Outcome)
    ensures r == Hook(useDatabase, req, now, banned, users.sessionVersion)
  {
    if !useDatabase {
      return Skipped;
    }
    var path := PathOf(req.url);
    if "/api/health" <= path {
      return Skipped;
    }
    if "/api/auth/" <= path && ExemptFromEnforcement(path) {
      return Skipped;
    }
    var payload := if req.cookie.Some? then DecodeSession(req.cookie.value, now) else None;
    if payload.None? || payload.value.sub == "" {
      return Anonymous;
    }
    var userId := payload.value.sub;
    if !IsUuid(userId) {
      return SessionInvalid;
    }
    if userId in banned {
      return AccessDenied;
    }
    var dbSessionVersion := users.LoadUserSessionVersion(userId);
    if !SessionVersionMatches(payload.value, dbSessionVersion) {
      return SessionRevoked;
    }
    return AsUser(userId);
  }

  function Enforced(cookie: Option<Token>, now: int, banned: set<string>, versions: map<string, int>): Outcome {
    var payload := if cookie.Some? then DecodeSession(cookie.value, now) else None;
    if payload.None? || payload.value.sub == "" then Anonymous
    else if !IsUuid(payload.value.sub) then SessionInvalid
    else if payload.value.sub in banned then AccessDenied
    else if !SessionVersionMatches(payload.value, VersionIn(versions, payload.value.sub)) then SessionRevoked
    else AsUser(payload.value.sub)
  }

  function Hook(useDatabase: bool, req: Request, now: int, banned: set<string>, versions: map<string, int>): Outcome {
    if !useDatabase || SkipsHook(req.url) then Skipped else Enforced(req.cookie, now, banned, versions)
  }

  // ---------------------------------------------------------------- which requests are enforced

  // A path as it is routed: no query, and no slash at its end.
  predicate IsRoute(p: string) {
    |p| > 0 && p[|p| - 1] != '/' && '?' !in p
  }

  predicate AllSlashes(s: string) {
    forall i :: 0 <= i < |s| ==> s[i] == '/'
  }

  lemma {:induction false} SlashesCut(p: string, slashes: string)
    requires (|p| > 0 ==> p[|p| - 1] != '/') && AllSlashes(slashes)
    ensures WithoutSlashes(p + slashes) == p
  {
    if |slashes| == 0 {
      assert p + slashes == p;
    } else {
      assert (p + slashes)[..|p + slashes| - 1] == p + slashes[..|slashes| - 1];
      SlashesCut(p, slashes[..|slashes| - 1]);
    }
  }

  /** Slashes at the end of a path and a query make no difference to the hook. */
  lemma UrlIsItsRoute(p: string, slashes: string, query: string)
    requires IsRoute(p) && AllSlashes(slashes)
    ensures PathOf(p) == p && PathOf(p + slashes) == p && PathOf(p + slashes + ("?" + query)) == p
  {
    assert '?' !in p + slashes by {
      assert forall i :: 0 <= i < |slashes| ==> slashes[i] != '?';
    }
    QueryDrops(p, "");
    QueryDrops(p + slashes, "");
    QueryDrops(p + slashes, "?" + query);
    SlashesCut(p, "");
    SlashesCut(p, slashes);
    assert p + "" == p && p + slashes + "" == p + slashes;
  }

  // Health checks, the five auth routes that look at the session themselves, and password reset.
  predicate IsOpenRoute(p: string) {
    || "/api/health" <= p
    || p == "/api/auth/session" || p == "/api/auth/me" || p == "/api/auth/logout"
    || p == "/api/auth/register" || p == "/api/auth/registration-policy"
    || "/api/auth/password-reset/" <= p
  }

  lemma ResetIsAuth(p: string)
    requires "/api/auth/password-reset/" <= p
    ensures "/api/auth/" <= p
  {
    assert "/api/auth/password-reset/"[..10] == "/api/auth/";
    assert p[..25] == "/api/auth/password-reset/" && p[..10] == p[..25][..10];
  }

  lemma NamedIsAuth(p: string)
    requires p in ["/api/auth/session", "/api/auth/me", "/api/auth/logout", "/api/auth/register", "/api/auth/registration-policy"]
    ensures "/api/auth/" <= p
  {
  }

  /** The hook is skipped for exactly these, with any slashes and any query. */
  lemma SkipsIff(p: string, slashes: string, query: string)
    requires IsRoute(p) && AllSlashes(slashes)
    ensures SkipsHook(p) == SkipsHook(p + slashes) == SkipsHook(p + slashes + ("?" + query)) == IsOpenRoute(p)
  {
    UrlIsItsRoute(p, slashes, query);
    if "/api/auth/password-reset/" <= p { ResetIsAuth(p); }
    hide PathOf;
    if p in ["/api/auth/session", "/api/auth/me", "/api/auth/logout", "/api/auth/register", "/api/auth/registration-policy"] {
      NamedIsAuth(p);
    }
  }

  /** Changing the password is enforced, however the request is written. */
  lemma PasswordChangeIsEnforced(slashes: string, query: string)
    requires AllSlashes(slashes)
    ensures !SkipsHook("/api/auth/password/change" + slashes + ("?" + query))
  {
    hide SkipsHook, IsRoute, IsOpenRoute;
    ChangeIsRoute();
    ChangeIsNotOpen();
    SkipsIff("/api/auth/password/change", slashes, query);
  }

  lemma ChangeIsRoute()
    ensures IsRoute("/api/auth/password/change")
  {
  }

  lemma ChangeIsNotOpen()
    ensures !IsOpenRoute("/api/auth/password/change")
  {
    var p := "/api/auth/password/change";
    assert |p| == 25 && p[5] == 'a' && p[18] == '/';
    assert "/api/health"[5] == 'h' && "/api/auth/password-reset/"[18] == '-';
    assert |"/api/auth/session"| == 17 && |"/api/auth/me"| == 12 && |"/api/auth/logout"| == 16 && |"/api/auth/register"| == 18;
    assert |"/api/auth/registration-policy"| == 29;
  }

  // ---------------------------------------------------------------- runs

  // A handler that has read a version and is going to store one more.
  datatype Bump = Bump(id: string, read: int)

  // `rows` are the rows that handlers hold and may still turn into tokens.
  datatype World = World(
    now: int,
    versions: map<string, int>,
    banned: set<string>,
    rows: set<UserRow>,
    tokens: set<Token>,
    bumps: multiset<Bump>)

  /** Logout increments in the database.  Password change, password reset, suspension and account
      deletion read the version, await, and store one more than they read, or give up; a password
      change then goes on with the row as it stored it. */
  datatype Step =
    | Tick(ms: nat)
    | ReadRow(id: string, username: string)
    | Issue(row: UserRow)
    | Increment(id: string)
    | ReadForBump(id: string)
    | WriteBump(bump: Bump, username: string)
    | GiveUp(bump: Bump)
    | Ban(id: string)
    | Unban(id: string)

  function Next(w: World, step: Step): World {
    match step
    case Tick(ms) => w.(now := w.now + ms)
    case ReadRow(id, username) =>
      if id in w.versions then w.(rows := w.rows + {UserRow(id, username, Some(w.versions[id]))}) else w
    case Issue(row) =>
      if row in w.rows then w.(tokens := w.tokens + {EncodeSession(SessionPayloadForUser(row), w.now)}) else w
    case Increment(id) =>
      if id in w.versions then w.(versions := w.versions[id := w.versions[id] + 1]) else w
    case ReadForBump(id) =>
      if id in w.versions then w.(bumps := w.bumps + multiset{Bump(id, w.versions[id])}) else w
    case WriteBump(b, username) =>
      if Writes(w, b) then
        w.(versions := w.versions[b.id := b.read + 1],
           bumps := w.bumps - multiset{b},
           rows := w.rows + {UserRow(b.id, username, Some(b.read + 1))})
      else w
    case GiveUp(b) => w.(bumps := w.bumps - multiset{b})
    case Ban(id) => w.(banned := w.banned + {id})
    case Unban(id) => w.(banned := w.banned - {id})
  }

  predicate Writes(w: World, b: Bump) {
    b in w.bumps && b.id in w.versions
  }

  function Run(w: World, steps: seq<Step>): World
    decreases |steps|
  {
    if |steps| == 0 then w else Run(Next(w, steps[0]), steps[1..])
  }

  // What the hook answers to a request with a token in some state of the world.
  function AnswerAt(w: World, url: string, token: Token): Outcome {
    Hook(true, Request(url, Some(token)), w.now, w.banned, w.versions)
  }

  // Where it is not skipped.
  function Answer(w: World, token: Token): Outcome {
    Enforced(Some(token), w.now, w.banned, w.versions)
  }

  lemma EnforcedAnswer(w: World, url: string, token: Token)
    requires !SkipsHook(url)
    ensures AnswerAt(w, url, token) == Answer(w, token)
  {
    hide SkipsHook, Enforced;
  }

  lemma {:induction false} RunSplits(w: World, a: seq<Step>, b: seq<Step>)
    ensures Run(w, a + b) == Run(Run(w, a), b)
    decreases |a|
  {
    if |a| == 0 {
      assert a + b == b;
    } else {
      assert (a + b)[1..] == a[1..] + b;
      RunSplits(Next(w, a[0]), a[1..], b);
    }
  }

  // ---------------------------------------------------------------- when a refusal is for ever

  // Version v of the user is behind the table, and every bump under way will store more than v.
  ghost predicate Passed(w: World, id: string, v: int) {
    && id in w.versions && v < w.versions[id]
    && forall b :: b in w.bumps && b.id == id ==> v < b.read + 1
  }

  lemma PassedStays(w: World, step: Step, id: string, v: int)
    requires Passed(w, id, v)
    ensures Passed(Next(w, step), id, v)
  {
  }

  lemma {:induction false} PassedForGood(w: World, steps: seq<Step>, id: string, v: int)
    requires Passed(w, id, v)
    ensures Passed(Run(w, steps), id, v)
    decreases |steps|
  {
    hide Passed, Next;
    if |steps| > 0 {
      PassedStays(w, steps[0], id, v);
      PassedForGood(Next(w, steps[0]), steps[1..], id, v);
    }
  }

  // As many increments as it takes.
  function Climb(id: string, n: nat): seq<Step> {
    if n == 0 then [] else [Increment(id)] + Climb(id, n - 1)
  }

  lemma {:induction false} Climbs(w: World, id: string, n: nat)
    requires id in w.versions
    ensures Run(w, Climb(id, n)) == w.(versions := w.versions[id := w.versions[id] + n])
    decreases n
  {
    if n > 0 {
      assert Climb(id, n)[1..] == Climb(id, n - 1);
      Climbs(Next(w, Increment(id)), id, n - 1);
    }
  }

  // A token that only its version can keep out.
  predicate IsLive(w: World, token: Token) {
    token.Signed? && IsUuid(token.payload.sub) && token.payload.sub in w.versions && DecodeSession(token, w.now).Some?
  }

  predicate RefusedIn(w: World, token: Token, steps: seq<Step>) {
    !Answer(Run(w, steps), token).AsUser?
  }

  // Refused as a user, wherever the hook is not skipped.
  ghost predicate RefusedAt(w: World, url: string, token: Token, steps: seq<Step>) {
    !AnswerAt(Run(w, steps), url, token).AsUser?
  }

  // A continuation in which a token passes that is not behind the table, or that some bump can
  // still bring the table back to.
  lemma Reaches(w: World, token: Token, via: Option<Bump>) returns (steps: seq<Step>)
    requires IsLive(w, token)
    requires via.Some? ==> via.value in w.bumps && via.value.id == token.payload.sub
    requires VersionOf(token.payload) >=
             match via case None => w.versions[token.payload.sub] case Some(b) => b.read + 1
    ensures !RefusedIn(w, token, steps)
  {
    hide IsUuid, Run, Climb;
    var (id, v) := (token.payload.sub, VersionOf(token.payload));
    var first := if via.Some? then [Unban(id), WriteBump(via.value, "")] else [Unban(id)];
    var w1 := Run(w, first);
    FirstSteps(w, id, via);
    steps := first + Climb(id, v - w1.versions[id]);
    RunSplits(w, first, Climb(id, v - w1.versions[id]));
    Climbs(w1, id, v - w1.versions[id]);
    LiveTokenPasses(Run(w, steps), token);
  }

  lemma FirstSteps(w: World, id: string, via: Option<Bump>)
    requires id in w.versions && (via.Some? ==> via.value in w.bumps && via.value.id == id)
    ensures var w1 := Run(w, if via.Some? then [Unban(id), WriteBump(via.value, "")] else [Unban(id)]);
            && id in w1.versions && id !in w1.banned && w1.now == w.now
            && w1.versions[id] == match via case None => w.versions[id] case Some(b) => b.read + 1
  {
    var w0 := Next(w, Unban(id));
    if via.Some? {
      var b := WriteBump(via.value, "");
      assert [Unban(id), b][1..] == [b] && [b][1..] == [];
      assert Run(w, [Unban(id), b]) == Run(w0, [b]) == Run(Next(w0, b), []) == Next(w0, b);
    } else {
      assert [Unban(id)][1..] == [];
      assert Run(w, [Unban(id)]) == Run(w0, []) == w0;
    }
  }

  lemma LiveTokenPasses(w: World, token: Token)
    requires IsLive(w, token) && token.payload.sub !in w.banned
    requires VersionOf(token.payload) == w.versions[token.payload.sub]
    ensures Answer(w, token) == AsUser(token.payload.sub)
  {
  }

  lemma PassedIsRefused(w: World, token: Token)
    requires token.Signed? && Passed(w, token.payload.sub, VersionOf(token.payload))
    ensures !Answer(w, token).AsUser?
  {
    hide IsUuid;
  }

  lemma RefusedIff(w: World, token: Token)
    requires IsLive(w, token)
    ensures (forall steps :: RefusedIn(w, token, steps)) <==>
              && VersionOf(token.payload) < w.versions[token.payload.sub]
              && forall b :: b in w.bumps && b.id == token.payload.sub ==> VersionOf(token.payload) <= b.read
  {
    var (id, v) := (token.payload.sub, VersionOf(token.payload));
    if Passed(w, id, v) {
      forall steps ensures RefusedIn(w, token, steps) {
        PassedForGood(w, steps, id, v);
        PassedIsRefused(Run(w, steps), token);
      }
    } else if v >= w.versions[id] {
      var steps := Reaches(w, token, None);
    } else {
      var b :| b in w.bumps && b.id == id && b.read + 1 <= v;
      var steps := Reaches(w, token, Some(b));
    }
  }

  /** At any URL that the hook does not skip, a token is refused in every continuation exactly when it is
      behind the table and no bump under way has read a version below its own. */
  lemma RefusedForEverIff(w: World, url: string, token: Token)
    requires IsLive(w, token) && !SkipsHook(url)
    ensures (forall steps :: RefusedAt(w, url, token, steps)) <==>
              && VersionOf(token.payload) < w.versions[token.payload.sub]
              && forall b :: b in w.bumps && b.id == token.payload.sub ==> VersionOf(token.payload) <= b.read
  {
    hide IsLive, SkipsHook, AnswerAt, Answer, Run;
    RefusedIff(w, token);
    forall steps ensures RefusedAt(w, url, token, steps) == RefusedIn(w, token, steps) {
      EnforcedAnswer(Run(w, steps), url, token);
    }
    var all := forall steps :: RefusedIn(w, token, steps);
    if all {
      forall steps ensures RefusedAt(w, url, token, steps) { assert RefusedIn(w, token, steps); }
    } else {
      var steps :| !RefusedIn(w, token, steps);
      assert !RefusedAt(w, url, token, steps);
    }
  }

  /** So an increment revokes a token for good exactly when the token is not ahead of the table and no
      bump under way has read a version below the token's. */
  lemma RevokedForGoodIff(w: World, url: string, token: Token)
    requires IsLive(w, token) && !SkipsHook(url)
    ensures (forall steps :: RefusedAt(Next(w, Increment(token.payload.sub)), url, token, steps)) <==>
              && VersionOf(token.payload) <= w.versions[token.payload.sub]
              && forall b :: b in w.bumps && b.id == token.payload.sub ==> VersionOf(token.payload) <= b.read
  {
    hide IsUuid, SkipsHook;
    RefusedForEverIff(Next(w, Increment(token.payload.sub)), url, token);
  }

  const NO_BUMPS: multiset<Bump> := multiset{}

  function Start(now: int, versions: map<string, int>): World {
    World(now, versions, {}, {}, {}, NO_BUMPS)
  }

  /** It happens: a password change reads version v; a logout, a login and another logout follow; the
      token of that login is refused, until the password change stores v + 1. */
  lemma StaleBumpRevives(now: int, id: string, username: string, v: int)
    requires IsUuid(id)
    ensures var row := UserRow(id, username, Some(v + 1));
            var token := EncodeSession(SessionPayloadForUser(row), now);
            var w := Run(Start(now, map[id := v]),
                         [ReadForBump(id), Increment(id), ReadRow(id, username), Issue(row), Increment(id)]);
            && token in w.tokens && Answer(w, token) == SessionRevoked
            && Answer(Run(w, [WriteBump(Bump(id, v), username)]), token) == AsUser(id)
  {
    var row := UserRow(id, username, Some(v + 1));
    var start := Start(now, map[id := v]);
    FiveSteps(start, ReadForBump(id), Increment(id), ReadRow(id, username), Issue(row), Increment(id));
    hide IsUuid, Run, Answer, DecodeSession;
    var token := EncodeSession(SessionPayloadForUser(row), now);
    var w := World(now, map[id := v + 2], {}, {row}, {token}, multiset{Bump(id, v)});
    assert Next(Next(Next(Next(Next(start, ReadForBump(id)), Increment(id)), ReadRow(id, username)), Issue(row)), Increment(id))
        == w;
    var write := WriteBump(Bump(id, v), username);
    OneStep(w, write);
    FreshTokenIsLive(w, row, now);
    LiveTokenIsRevoked(w, token);
    FreshTokenIsLive(Next(w, write), row, now);
    LiveTokenPasses(Next(w, write), token);
  }

  lemma FreshTokenIsLive(w: World, row: UserRow, at: int)
    requires IsUuid(row.id) && row.id in w.versions && w.now == at
    ensures IsLive(w, EncodeSession(SessionPayloadForUser(row), at))
  {
  }

  lemma LiveTokenIsRevoked(w: World, token: Token)
    requires IsLive(w, token) && token.payload.sub !in w.banned
    requires VersionOf(token.payload) != w.versions[token.payload.sub]
    ensures Answer(w, token) == SessionRevoked
  {
  }

  lemma OneStep(w: World, a: Step)
    ensures Run(w, [a]) == Next(w, a)
  {
    hide Next;
    assert [a][1..] == [];
    assert Run(w, [a]) == Run(Next(w, a), []);
  }

  lemma FiveSteps(w: World, a: Step, b: Step, c: Step, d: Step, e: Step)
    ensures Run(w, [a, b, c, d, e]) == Next(Next(Next(Next(Next(w, a), b), c), d), e)
  {
    hide Next;
    assert [a, b, c, d, e][1..] == [b, c, d, e] && [b, c, d, e][1..] == [c, d, e];
    assert [c, d, e][1..] == [d, e] && [d, e][1..] == [e] && [e][1..] == [];
    assert Run(Next(w, a), [b, c, d, e]) == Run(Next(Next(w, a), b), [c, d, e]);
    var w4 := Next(Next(Next(Next(w, a), b), c), d);
    assert Run(Next(Next(Next(w, a), b), c), [d, e]) == Run(w4, [e]);
    OneStep(w4, e);
  }

  // ---------------------------------------------------------------- runs without a stale write

  // Whoever stores a version has read the one it replaces.
  predicate NothingStale(w: World, steps: seq<Step>)
    decreases |steps|
  {
    |steps| > 0 ==>
      && (steps[0].WriteBump? && Writes(w, steps[0].bump) ==> w.versions[steps[0].bump.id] == steps[0].bump.read)
      && NothingStale(Next(w, steps[0]), steps[1..])
  }

  // No token and no row in anybody's hands is ahead of the table.
  ghost predicate NobodyAhead(w: World) {
    && (forall t :: t in w.tokens ==> t.Signed? && t.payload.sub in w.versions && VersionOf(t.payload) <= w.versions[t.payload.sub])
    && (forall r :: r in w.rows ==> r.id in w.versions && r.sessionVersion.Some? && r.sessionVersion.value <= w.versions[r.id])
  }

  lemma {:induction false} StaysBehind(w: World, steps: seq<Step>)
    requires NobodyAhead(w) && NothingStale(w, steps)
    ensures NobodyAhead(Run(w, steps))
    decreases |steps|
  {
    if |steps| > 0 { StaysBehind(Next(w, steps[0]), steps[1..]); }
  }

  lemma {:induction false} VersionsGrow(w: World, steps: seq<Step>, id: string)
    requires id in w.versions && NothingStale(w, steps)
    ensures var w' := Run(w, steps); id in w'.versions && w.versions[id] <= w'.versions[id]
    decreases |steps|
  {
    if |steps| > 0 { VersionsGrow(Next(w, steps[0]), steps[1..], id); }
  }

  lemma BehindIsRefused(w: World, token: Token)
    requires token.Signed? && token.payload.sub in w.versions && VersionOf(token.payload) < w.versions[token.payload.sub]
    ensures !Answer(w, token).AsUser?
  {
    hide IsUuid;
  }

  /** In every run from a table without tokens in which no bump stores over a version it has not read:
      after an increment, every token and every row that was out before it is refused for ever at every
      URL that the hook does not skip, also when the row is turned into a token afterwards. */
  lemma EveryRunRevokes(now: int, versions: map<string, int>, before: seq<Step>, id: string, later: seq<Step>, at: int, url: string)
    requires id in versions && NothingStale(Start(now, versions), before) && !SkipsHook(url)
    requires NothingStale(Next(Run(Start(now, versions), before), Increment(id)), later)
    ensures var w := Run(Start(now, versions), before);
            var w' := Run(Next(w, Increment(id)), later);
            && (forall t :: t in w.tokens && t.Signed? && t.payload.sub == id ==> !AnswerAt(w', url, t).AsUser?)
            && (forall r :: r in w.rows && r.id == id ==>
                  !AnswerAt(w', url, EncodeSession(SessionPayloadForUser(r), at)).AsUser?)
  {
    var w := Run(Start(now, versions), before);
    StaysBehind(Start(now, versions), before);
    VersionsGrow(Start(now, versions), before, id);
    VersionsGrow(Next(w, Increment(id)), later, id);
    var w' := Run(Next(w, Increment(id)), later);
    hide Run, Answer, AnswerAt, SkipsHook, NothingStale;
    forall t | t in w.tokens && t.Signed? && t.payload.sub == id ensures !AnswerAt(w', url, t).AsUser? {
      EnforcedAnswer(w', url, t);
      BehindIsRefused(w', t);
    }
    forall r | r in w.rows && r.id == id
      ensures !AnswerAt(w', url, EncodeSession(SessionPayloadForUser(r), at)).AsUser?
    {
      EnforcedAnswer(w', url, EncodeSession(SessionPayloadForUser(r), at));
      BehindIsRefused(w', EncodeSession(SessionPayloadForUser(r), at));
    }
  }

  // ---------------------------------------------------------------- how long a fresh token passes

  function Increments(steps: seq<Step>, id: string): nat
    decreases |steps|
  {
    if |steps| == 0 then 0 else (if steps[0] == Increment(id) then 1 else 0) + Increments(steps[1..], id)
  }

  // The number of steps up to and including the last bump of the user that is written; 0 without one.
  function LastBump(w: World, steps: seq<Step>, id: string): (k: nat)
    ensures k <= |steps|
    ensures k > 0 ==> steps[k - 1].WriteBump? && steps[k - 1].bump.id == id
    decreases |steps|
  {
    if |steps| == 0 then 0
    else
      var k := LastBump(Next(w, steps[0]), steps[1..], id);
      if k > 0 then k + 1
      else if steps[0].WriteBump? && steps[0].bump.id == id && Writes(w, steps[0].bump) then 1
      else 0
  }

  // What the last bump stored and the increments since.
  function VersionAfter(w: World, steps: seq<Step>, id: string): int
    requires id in w.versions
  {
    var k := LastBump(w, steps, id);
    (if k == 0 then w.versions[id] else steps[k - 1].bump.read + 1) + Increments(steps[k..], id)
  }

  lemma {:induction false} RunEffects(w: World, steps: seq<Step>, id: string)
    requires id in w.versions
    ensures var w' := Run(w, steps);
            id in w'.versions && w'.versions[id] == VersionAfter(w, steps, id) && w.now <= w'.now
    decreases |steps|
  {
    if |steps| > 0 {
      var (next, rest) := (Next(w, steps[0]), steps[1..]);
      RunEffects(next, rest, id);
      var k := LastBump(next, rest, id);
      if k > 0 {
        assert steps[k + 1..] == rest[k..] && steps[k] == rest[k - 1];
      } else {
        assert rest[0..] == rest && steps[0..] == steps;
      }
    }
  }

  /** A token from a row just read passes later exactly while the version stands where it stood, counted
      from the last bump that was written, its user is not banned, and the seven days are not over. */
  lemma PassesIff(w: World, id: string, username: string, later: seq<Step>)
    requires id in w.versions && IsUuid(id)
    ensures var token := EncodeSession(SessionPayloadForUser(UserRow(id, username, Some(w.versions[id]))), w.now);
            var w' := Run(w, later);
            Answer(w', token) == AsUser(id) <==>
              VersionAfter(w, later, id) == w.versions[id] && id !in w'.banned && w'.now < w.now + SESSION_TOKEN_TTL_MS
  {
    RunEffects(w, later, id);
    hide Run, VersionAfter;
  }

  /** An expired token never becomes acceptable again. */
  lemma ExpiredForGood(w: World, token: Token, later: seq<Step>)
    requires DecodeSession(token, w.now).None?
    ensures Answer(Run(w, later), token) == Anonymous
  {
    ClockRuns(w, later);
    hide Run;
  }

  lemma {:induction false} ClockRuns(w: World, steps: seq<Step>)
    ensures w.now <= Run(w, steps).now
    decreases |steps|
  {
    if |steps| > 0 { ClockRuns(Next(w, steps[0]), steps[1..]); }
  }

  // ---------------------------------------------------------------- the answers of the hook

  // Nobody is logged in: no token, a forged or expired one, or one that names nobody.
  predicate NobodyIn(cookie: Option<Token>, now: int) {
    cookie.None? || cookie.value.Unsigned? || cookie.value.payload.exp.None? || cookie.value.payload.exp.value <= now
    || cookie.value.payload.sub == ""
  }

  /** Where the hook is not skipped: nobody passes as nobody; a name that is no user id is invalid; a
      banned user is denied; and of the rest a token passes exactly with the version of today, the
      missing version and the missing user counting as 0. */
  lemma HookAnswers(req: Request, now: int, banned: set<string>, versions: map<string, int>)
    requires !SkipsHook(req.url)
    ensures var answer := Hook(true, req, now, banned, versions);
            if NobodyIn(req.cookie, now) then answer == Anonymous
            else
              var p := req.cookie.value.payload;
              if !IsUuid(p.sub) then answer == SessionInvalid
              else if p.sub in banned then answer == AccessDenied
              else if p.sv.GetOr(0) == (if p.sub in versions then versions[p.sub] else 0) then answer == AsUser(p.sub)
              else answer == SessionRevoked
  {
    hide SkipsHook, IsUuid;
  }

  // Hexadecimal digits in either case.
  predicate AllHexDigits(s: string) {
    forall i :: 0 <= i < |s| ==> '0' <= s[i] <= '9' || 'a' <= s[i] <= 'f' || 'A' <= s[i] <= 'F'
  }

  function Dashed(a: string, b: string, c: string, d: string, e: string): string {
    a + ("-" + (b + ("-" + (c + ("-" + (d + ("-" + e)))))))
  }

  predicate UuidParts(a: string, b: string, c: string, d: string, e: string) {
    && |a| == 8 && |b| == |c| == |d| == 4 && |e| == 12
    && AllHexDigits(a) && AllHexDigits(b) && AllHexDigits(c) && AllHexDigits(d) && AllHexDigits(e)
    && '1' <= c[0] <= '5' && d[0] in {'8', '9', 'a', 'b', 'A', 'B'}
  }

  lemma HexIs(c: char)
    ensures IsHex(LowerChar(c)) <==> '0' <= c <= '9' || 'a' <= c <= 'f' || 'A' <= c <= 'F'
  {
  }

  /** A user id is five groups of hexadecimal digits, of a version 1 to 5 and the standard variant. */
  lemma UuidIff(s: string)
    ensures IsUuid(s) <==> exists a, b, c, d, e :: UuidParts(a, b, c, d, e) && s == Dashed(a, b, c, d, e)
  {
    if IsUuid(s) {
      var (a, b, c, d, e) := (s[..8], s[9..13], s[14..18], s[19..23], s[24..]);
      GroupIsHex(s, 0, 8);
      GroupIsHex(s, 9, 13);
      GroupIsHex(s, 14, 18);
      GroupIsHex(s, 19, 23);
      GroupIsHex(s, 24, 36);
      UuidSplits(s);
      assert UuidParts(a, b, c, d, e);
    }
    if a, b, c, d, e :| UuidParts(a, b, c, d, e) && s == Dashed(a, b, c, d, e) {
      PartsAreUuid(a, b, c, d, e);
    }
  }

  lemma GroupIsHex(s: string, from: nat, to: nat)
    requires from <= to <= |s| && forall i :: from <= i < to ==> IsHex(LowerChar(s[i]))
    ensures AllHexDigits(s[from..to])
  {
    forall i | 0 <= i < to - from
      ensures var c := s[from..to][i]; '0' <= c <= '9' || 'a' <= c <= 'f' || 'A' <= c <= 'F'
    {
      assert IsHex(LowerChar(s[from + i]));
      HexIs(s[from + i]);
    }
  }

  lemma UuidSplits(s: string)
    requires |s| == 36 && s[8] == s[13] == s[18] == s[23] == '-'
    ensures s == Dashed(s[..8], s[9..13], s[14..18], s[19..23], s[24..])
  {
  }

  lemma PartsAreUuid(a: string, b: string, c: string, d: string, e: string)
    requires UuidParts(a, b, c, d, e)
    ensures IsUuid(Dashed(a, b, c, d, e))
  {
    var s := Dashed(a, b, c, d, e);
    assert |s| == 36 && s[8] == s[13] == s[18] == s[23] == '-';
    assert s[14] == c[0] && s[19] == d[0];
    forall i | 0 <= i < 36 && i !in {8, 13, 18, 23} ensures IsHex(LowerChar(s[i])) {
      HexIs(s[i]);
      assert s[i] == if i < 8 then a[i] else if i < 13 then b[i - 9] else if i < 18 then c[i - 14]
                     else if i < 23 then d[i - 19] else e[i - 24];
    }
  }

  // ---------------------------------------------------------------- the life of a token

  /** A token issued from a row carries the row's user and version and is good for seven days; times that
      a payload brings along are kept. */
  lemma IssuedTokenLives(row: UserRow, now: int, later: int)
    ensures var token := EncodeSession(SessionPayloadForUser(row), now);
            && (DecodeSession(token, later).Some? <==> later < now + 7 * 24 * 60 * 60 * 1000)
            && token.payload.sub == row.id && VersionOf(token.payload) == row.sessionVersion.GetOr(0)
            && token.payload.iat == Some(now)
  {
  }

  lemma StampsAreKept(p: Payload, now: int)
    ensures p.exp.Some? ==> EncodeSession(p, now).payload.exp == p.exp
    ensures p.iat.Some? ==> EncodeSession(p, now).payload.iat == p.iat
  {
  }

  /** The root with any slashes and any query is the root. */
  lemma RootIsRoot(slashes: string, query: string)
    requires AllSlashes(slashes)
    ensures PathOf(slashes) == "/" && PathOf(slashes + ("?" + query)) == "/"
  {
    hide BeforeQuery, WithoutSlashes;
    assert forall i :: 0 <= i < |slashes| ==> slashes[i] != '?';
    QueryDrops(slashes, "");
    QueryDrops(slashes, "?" + query);
    SlashesCut("", slashes);
    assert slashes + "" == slashes && "" + slashes == slashes;
  }

  function Elapsed(steps: seq<Step>): nat {
    if |steps| == 0 then 0 else (if steps[0].Tick? then steps[0].ms else 0) + Elapsed(steps[1..])
  }

  /** Time goes on by what the ticks say, and by nothing else. */
  lemma {:induction false} TimeGoesOn(w: World, steps: seq<Step>)
    ensures Run(w, steps).now == w.now + Elapsed(steps)
    decreases |steps|
  {
    if |steps| > 0 { TimeGoesOn(Next(w, steps[0]), steps[1..]); }
  }

  // ---------------------------------------------------------------- every bump ends once

  predicate Begins(w: World, step: Step) {
    step.ReadForBump? && step.id in w.versions
  }

  predicate Ends(w: World, step: Step) {
    (step.WriteBump? && Writes(w, step.bump)) || (step.GiveUp? && step.bump in w.bumps)
  }

  function Begun(w: World, steps: seq<Step>): nat
    decreases |steps|
  {
    if |steps| == 0 then 0 else (if Begins(w, steps[0]) then 1 else 0) + Begun(Next(w, steps[0]), steps[1..])
  }

  function Ended(w: World, steps: seq<Step>): nat
    decreases |steps|
  {
    if |steps| == 0 then 0 else (if Ends(w, steps[0]) then 1 else 0) + Ended(Next(w, steps[0]), steps[1..])
  }

  lemma StepBumps(w: World, step: Step)
    ensures |Next(w, step).bumps| + (if Ends(w, step) then 1 else 0) == |w.bumps| + if Begins(w, step) then 1 else 0
  {
    if step.GiveUp? && step.bump !in w.bumps { assert w.bumps - multiset{step.bump} == w.bumps; }
  }

  /** In every run, the bumps that were begun are those that ended, each stored or given up once, and
      those still under way. */
  lemma {:induction false} EveryBumpEndsOnce(w: World, steps: seq<Step>)
    ensures |Run(w, steps).bumps| + Ended(w, steps) == |w.bumps| + Begun(w, steps)
    decreases |steps|
  {
    hide Next, Begins, Ends;
    if |steps| > 0 {
      StepBumps(w, steps[0]);
      EveryBumpEndsOnce(Next(w, steps[0]), steps[1..]);
    }
  }
}
