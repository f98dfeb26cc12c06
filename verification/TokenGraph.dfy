/**
  The token half of the storage as values: what each critical section of
  storage.go does to `tokens`, `refreshers` and the heap of refresh records.

  A refresh record is one heap object for the whole life of a grant: rotation
  re-keys it in place.  Its identity is therefore a *grant number*: an index into
  `records`, the list of every refresh record ever allocated, live or not.
 */
module TokenGraph {
  import opened Common

  type Grant = nat

  const ACCESS_LIFETIME: Time := 15 * MINUTE
  const REFRESH_LIFETIME: Time := 24 * HOUR

  /** An access token. It is never written to after it has been stored. */
  datatype Token = Token(
    id: Id,
    applicationID: Id,
    subject: string,
    refreshID: Id,
    audience: seq<string>,
    expiration: Time,
    scopes: seq<string>)

  /** The fields of one refresh record at one moment. */
  datatype RefreshRecord = RefreshRecord(
    id: Id,
    authTime: Time,
    amr: seq<string>,
    audience: seq<string>,
    userID: string,
    applicationID: Id,
    expiration: Time,
    scopes: seq<string>,
    accessTokenID: Id)

  datatype Graph = Graph(
    tokens: map<Id, Token>,
    refreshers: map<Id, Grant>,
    records: seq<RefreshRecord>)

  const EMPTY: Graph := Graph(map[], map[], [])

  /** The token requests the storage tells apart. A refresh request holds a pointer to its record. */
  datatype Request =
    | FromAuth(applicationID: Id, subject: string, authTime: Time, done: bool, scopes: seq<string>)
    | FromRefresh(grant: Grant)
    | FromOther(subject: string, audience: seq<string>, scopes: seq<string>)

  /** What the storage reads out of a token request. */
  datatype Particulars = Particulars(
    applicationID: Id,
    subject: string,
    authTime: Time,
    amr: seq<string>,
    audience: seq<string>,
    scopes: seq<string>)

  predicate Known(g: Graph, req: Request) {
    req.FromRefresh? ==> req.grant < |g.records|
  }

  /** infoFromRequest together with the request's getters. */
  function Read(g: Graph, req: Request): Particulars
    requires Known(g, req)
  {
    match req
    case FromAuth(client, subject, authTime, done, scopes) =>
      Particulars(client, subject, authTime, if done then ["none"] else [], [client], scopes)
    case FromRefresh(grant) =>
      var r := g.records[grant];
      Particulars(r.applicationID, r.userID, r.authTime, r.amr, r.audience, r.scopes)
    case FromOther(subject, audience, scopes) =>
      Particulars("", subject, ZERO_TIME, [], audience, scopes)
  }

  /** accessToken: mint a token and store it. */
  function Mint(g: Graph, client: Id, refreshID: Id, p: Particulars, newToken: Id, now: Time): Graph {
    g.(tokens := g.tokens[newToken :=
      Token(newToken, client, p.subject, refreshID, p.audience, now + ACCESS_LIFETIME, p.scopes)])
  }

  /** CreateAccessToken: only an authorization request contributes its client id. */
  function CreateAccess(g: Graph, req: Request, newToken: Id, now: Time): Graph
    requires Known(g, req)
  {
    Mint(g, if req.FromAuth? then req.applicationID else "", "", Read(g, req), newToken, now)
  }

  datatype Response =
    | Issued(access: Id, refresh: Id, expires: Time)
    | InvalidRefreshToken
    | ExpiredRefreshToken

  datatype Outcome = Outcome(graph: Graph, response: Response)

  /** The first branch of CreateAccessAndRefreshTokens: a new grant. */
  function Issue(g: Graph, p: Particulars, newRefresh: Id, newToken: Id, now: Time): Graph {
    var g' := Mint(g, p.applicationID, newRefresh, p, newToken, now);
    g'.(refreshers := g.refreshers[newRefresh := |g.records|],
        records := g.records + [RefreshRecord(newRefresh, p.authTime, p.amr, p.audience, p.subject,
                                              p.applicationID, now + REFRESH_LIFETIME, p.scopes, newToken)])
  }

  predicate WellFormed(g: Graph) {
    forall r | r in g.refreshers :: g.refreshers[r] < |g.records|
  }

  /** The record is taken out of service: its key and the access token it names are deleted. */
  function Retire(g: Graph, refresh: Id): Graph
    requires WellFormed(g) && refresh in g.refreshers
  {
    g.(refreshers := g.refreshers - {refresh},
       tokens := g.tokens - {g.records[g.refreshers[refresh]].accessTokenID})
  }

  /** The surviving record goes back into service under a new key, naming a new access token. */
  function Rekey(g: Graph, grant: Grant, newRefresh: Id, newToken: Id, now: Time): Graph
    requires grant < |g.records|
  {
    g.(refreshers := g.refreshers[newRefresh := grant],
       records := g.records[grant := g.records[grant].(id := newRefresh,
                                                       accessTokenID := newToken,
                                                       expiration := now + REFRESH_LIFETIME)])
  }

  /** The rotation branch of CreateAccessAndRefreshTokens. The new token is stored before any check. */
  function Rotate(g: Graph, p: Particulars, current: Id, newRefresh: Id, newToken: Id, now: Time): Outcome
    requires WellFormed(g)
  {
    var minted := Mint(g, p.applicationID, newRefresh, p, newToken, now);
    if current !in g.refreshers then
      Outcome(minted, InvalidRefreshToken)
    else
      var grant := g.refreshers[current];
      var retired := Retire(minted, current);
      if g.records[grant].expiration < now then
        Outcome(retired, ExpiredRefreshToken)
      else
        Outcome(Rekey(retired, grant, newRefresh, newToken, now),
                Issued(newToken, newRefresh, now + ACCESS_LIFETIME))
  }

  /** CreateAccessAndRefreshTokens. */
  function CreateTokens(g: Graph, req: Request, current: Id, newRefresh: Id, newToken: Id, now: Time): Outcome
    requires WellFormed(g) && Known(g, req)
  {
    if current == "" then
      Outcome(Issue(g, Read(g, req), newRefresh, newToken, now),
              Issued(newToken, newRefresh, now + ACCESS_LIFETIME))
    else
      Rotate(g, Read(g, req), current, newRefresh, newToken, now)
  }

  /** The same rotation with the refresh token checked before anything is stored. */
  function RotateCheckFirst(g: Graph, p: Particulars, current: Id, newRefresh: Id, newToken: Id, now: Time): Outcome
    requires WellFormed(g)
  {
    if current !in g.refreshers then
      Outcome(g, InvalidRefreshToken)
    else if g.records[g.refreshers[current]].expiration < now then
      Outcome(Retire(g, current), ExpiredRefreshToken)
    else
      Outcome(Rekey(Mint(Retire(g, current), p.applicationID, newRefresh, p, newToken, now),
                    g.refreshers[current], newRefresh, newToken, now),
              Issued(newToken, newRefresh, now + ACCESS_LIFETIME))
  }

  /** SetCurrentScopes on a refresh request: writes through to the shared record. */
  function SetScopes(g: Graph, grant: Grant, scopes: seq<string>): Graph
    requires grant < |g.records|
  {
    g.(records := g.records[grant := g.records[grant].(scopes := scopes)])
  }

  datatype Revocation = Accepted | WrongClient

  /** RevokeToken: access tokens are looked up first, and an unknown token is accepted. */
  function Revoke(g: Graph, id: Id, client: Id): (Graph, Revocation)
    requires WellFormed(g)
  {
    if id in g.tokens then
      var t := g.tokens[id];
      if t.applicationID != client then (g, WrongClient) else (g.(tokens := g.tokens - {t.id}), Accepted)
    else if id in g.refreshers then
      var rt := g.records[g.refreshers[id]];
      if rt.applicationID != client then (g, WrongClient)
      else (g.(refreshers := g.refreshers - {rt.id}, tokens := g.tokens - {rt.accessTokenID}), Accepted)
    else
      (g, Accepted)
  }

  /** The access tokens of one user at one client. */
  function SessionTokens(tokens: map<Id, Token>, user: string, client: Id): set<Id> {
    set t | t in tokens && tokens[t].applicationID == client && tokens[t].subject == user
  }

  function RefreshIDs(tokens: map<Id, Token>, ids: set<Id>): set<Id>
    requires ids <= tokens.Keys
  {
    set t | t in ids :: tokens[t].refreshID
  }

  /** TerminateSession: drop the session's access tokens and whatever refresh ids they carry. */
  function Terminate(g: Graph, user: string, client: Id): Graph {
    var gone := SessionTokens(g.tokens, user, client);
    g.(tokens := g.tokens - gone, refreshers := g.refreshers - RefreshIDs(g.tokens, gone))
  }
}
