/**
  storage.go as it runs: maps that are updated in place, and records that callers
  keep pointers to.  Every method is proved to do to these maps and records what
  its value model does to values.  UUIDs and clock readings are arguments.
 */
module StorageState {
  import opened Common
  import opened Clients
  import opened Directory
  import opened Registry
  import opened Claims
  import opened Userinfo
  import opened TokenGraph
  import A = AuthFlow
  import D = DeviceFlow
  import W = Watcher

  // ----- records ----------------------------------------------------------------------------

  /** An in-flight authorization request. Login completes it in place. */
  class AuthRequest {
    const id: Id
    const applicationID: Id
    const callbackURI: string
    const state: string
    const nonce: string
    const scopes: seq<string>
    const responseType: string
    const responseMode: string
    const prompt: seq<string>
    const codeChallenge: Option<A.Challenge>
    var userID: string
    var authTime: Time
    var done: bool

    /** authRequestFromOIDC. */
    constructor (ar: A.OidcRequest, userID: string, id: Id)
      ensures View() == A.FromOidc(ar, userID, id) && this.id == id
    {
      var kept := A.OidcPromptToInternal(ar.prompt);
      var challenge: Option<A.Challenge> := None;
      if ar.codeChallenge != "" {
        var scheme := A.PLAIN;
        if ar.codeChallengeMethod == A.S256 {
          scheme := A.S256;
        }
        challenge := Some(A.Challenge(ar.codeChallenge, scheme));
      }
      this.id := id;
      applicationID, callbackURI, state, nonce := ar.clientID, ar.redirectURI, ar.state, ar.nonce;
      scopes, responseType, responseMode := ar.scopes, ar.responseType, ar.responseMode;
      prompt, codeChallenge := kept, challenge;
      this.userID, authTime, done := userID, ZERO_TIME, false;
    }

    function View(): A.AuthRecord
      reads this
    {
      A.AuthRecord(id, applicationID, callbackURI, state, nonce, scopes, responseType, responseMode, prompt,
                   codeChallenge, userID, authTime, done)
    }
  }

  /** A refresh record. Rotation re-keys it in place, and refresh requests point to it. */
  class RefreshToken {
    ghost const grant: Grant
    var id: Id
    const authTime: Time
    const amr: seq<string>
    const audience: seq<string>
    const userID: string
    const applicationID: Id
    var expiration: Time
    var scopes: seq<string>
    var accessTokenID: Id

    constructor (ghost grant: Grant, id: Id, p: Particulars, expiration: Time, accessTokenID: Id)
      ensures this.grant == grant
      ensures View() == RefreshRecord(id, p.authTime, p.amr, p.audience, p.subject, p.applicationID,
                                      expiration, p.scopes, accessTokenID)
    {
      this.grant := grant;
      this.id := id;
      authTime, amr, audience := p.authTime, p.amr, p.audience;
      userID, applicationID, scopes := p.subject, p.applicationID, p.scopes;
      this.expiration, this.accessTokenID := expiration, accessTokenID;
    }

    function View(): RefreshRecord
      reads this
    {
      RefreshRecord(id, authTime, amr, audience, userID, applicationID, expiration, scopes, accessTokenID)
    }

    method Rekey(id: Id, accessTokenID: Id, expiration: Time)
      modifies this
      ensures View() == old(View()).(id := id, accessTokenID := accessTokenID, expiration := expiration)
    {
      this.id := id;
      this.accessTokenID := accessTokenID;
      this.expiration := expiration;
    }
  }

  ghost function Views(records: seq<RefreshToken>): (r: seq<RefreshRecord>)
    reads records
    ensures |r| == |records| && forall i | 0 <= i < |r| :: r[i] == records[i].View()
  {
    seq(|records|, i requires 0 <= i < |records| reads records => records[i].View())
  }

  /** The state object of a device flow. Approval and denial write to it. */
  class DeviceAuthorizationState {
    const clientID: Id
    const scopes: seq<string>
    const expires: Time
    var subject: string
    var authTime: Time
    var amr: seq<string>
    var done: bool
    var denied: bool

    constructor (clientID: Id, scopes: seq<string>, expires: Time)
      ensures View() == D.DeviceState(clientID, scopes, expires, "", ZERO_TIME, [], false, false)
    {
      this.clientID, this.scopes, this.expires := clientID, scopes, expires;
      subject, authTime, amr, done, denied := "", ZERO_TIME, [], false, false;
    }

    function View(): D.DeviceState
      reads this
    {
      D.DeviceState(clientID, scopes, expires, subject, authTime, amr, done, denied)
    }

    method Approve(subject: string, now: Time)
      modifies this
      ensures View() == old(View()).(subject := subject, authTime := now, amr := ["none"], done := true)
    {
      this.subject := subject;
      authTime := now;
      amr := ["none"];
      done := true;
    }
  }

  datatype DeviceEntry = DeviceEntry(deviceCode: string, userCode: string, state: DeviceAuthorizationState)

  /** A userinfo object being filled in. */
  class UserInfoBuilder {
    var subject: string
    var name: string
    var email: string
    var emailVerified: bool
    var claims: map<string, seq<string>>

    constructor ()
      ensures View() == BLANK
    {
      subject, name, email, emailVerified, claims := "", "", "", false, map[];
    }

    function View(): UserInfo
      reads this
    {
      UserInfo(subject, name, email, emailVerified, claims)
    }
  }

  /** What infoFromRequest returns. */
  datatype Info = Info(applicationID: Id, authTime: Time, amr: seq<string>)

  /** A token request as the storage receives it: by pointer where the code has one. */
  datatype TokenRequest =
    | AuthorizationRequest(ar: AuthRequest)
    | RefreshRequest(rt: RefreshToken)
    | OtherRequest(subject: string, audience: seq<string>, scopes: seq<string>)
  {
    ghost function Pointees(): set<object> {
      match this
      case AuthorizationRequest(ar) => {ar}
      case RefreshRequest(rt) => {rt}
      case OtherRequest(_, _, _) => {}
    }

    ghost function View(): Request
      reads Pointees()
    {
      match this
      case AuthorizationRequest(ar) => FromAuth(ar.applicationID, ar.userID, ar.authTime, ar.done, ar.scopes)
      case RefreshRequest(rt) => FromRefresh(rt.grant)
      case OtherRequest(subject, audience, scopes) => FromOther(subject, audience, scopes)
    }

    /** What infoFromRequest can have read of the request at any moment: an authorization request may have been
        completed since. */
    ghost predicate MayHaveTold(info: Info) {
      match this
      case AuthorizationRequest(ar) => info.applicationID == ar.applicationID && (info.amr == [] || info.amr == ["none"])
      case RefreshRequest(rt) => info == Info(rt.applicationID, rt.authTime, rt.amr)
      case OtherRequest(_, _, _) => info == Info("", ZERO_TIME, [])
    }

    /** The request with its auth time and AMR as read earlier and everything else as it is now. */
    ghost function ViewWith(info: Info): Request
      reads Pointees()
    {
      match this
      case AuthorizationRequest(ar) =>
        FromAuth(ar.applicationID, ar.userID, info.authTime, info.amr == ["none"], ar.scopes)
      case _ => View()
    }

    /** infoFromRequest, which runs before the lock is taken. */
    method InfoFromRequest() returns (info: Info)
      ensures MayHaveTold(info) && ViewWith(info) == View()
    {
      match this
      case AuthorizationRequest(ar) =>
        var amr: seq<string> := [];
        if ar.done {
          amr := ["none"];
        }
        info := Info(ar.applicationID, ar.authTime, amr);
      case RefreshRequest(rt) =>
        info := Info(rt.applicationID, rt.authTime, rt.amr);
      case OtherRequest(_, _, _) =>
        info := Info("", ZERO_TIME, []);
    }

    /** The getters, which run under the lock. */
    method Inspect(info: Info) returns (p: Particulars)
      ensures p.applicationID == info.applicationID && p.authTime == info.authTime && p.amr == info.amr
      ensures match this
              case AuthorizationRequest(ar) =>
                p.subject == ar.userID && p.audience == [ar.applicationID] && p.scopes == ar.scopes
              case RefreshRequest(rt) => p.subject == rt.userID && p.audience == rt.audience && p.scopes == rt.scopes
              case OtherRequest(subject, audience, scopes) =>
                p.subject == subject && p.audience == audience && p.scopes == scopes
    {
      match this
      case AuthorizationRequest(ar) =>
        p := Particulars(info.applicationID, ar.userID, info.authTime, info.amr, [ar.applicationID], ar.scopes);
      case RefreshRequest(rt) =>
        p := Particulars(info.applicationID, rt.userID, info.authTime, info.amr, rt.audience, rt.scopes);
      case OtherRequest(subject, audience, scopes) =>
        p := Particulars(info.applicationID, subject, info.authTime, info.amr, audience, scopes);
    }
  }

  // ----- the storage --------------------------------------------------------------------------

  class Storage {
    var authRequests: map<Id, AuthRequest>
    var codes: map<string, Id>
    var tokens: map<Id, Token>
    var refreshers: map<Id, RefreshToken>
    var clients: map<Id, Client>
    const seedIDs: set<Id>
    var deviceCodes: map<string, DeviceEntry>
    var userCodes: map<string, string>

    ghost var grants: seq<RefreshToken>        // every refresh record ever allocated

    /** NewStorage. */
    constructor (clients: map<Id, Client>)
      ensures TokensValid() && AuthValid() && DevicesValid()
      ensures TokenGraph() == EMPTY
      ensures AuthState() == A.Auth(clients, map[], map[])
      ensures Devices() == D.Devices(map[], map[])
      ensures this.clients == clients && seedIDs == clients.Keys
    {
      authRequests, codes, tokens, refreshers := map[], map[], map[], map[];
      this.clients, seedIDs := clients, clients.Keys;
      deviceCodes, userCodes := map[], map[];
      grants := [];
    }

    // ----- the client registry ---------------------------------------------------------------

    /** RegisterClient. */
    method RegisterClient(c: Client)
      modifies this`clients
      ensures clients == old(clients)[c.id := c]
    {
      clients := clients[c.id := c];
    }

    /** ReplaceFileClients. */
    method ReplaceFileClients(cs: seq<Client>)
      modifies this`clients
      ensures clients == Replace(old(clients), seedIDs, cs)
    {
      var ids := clients.Keys;
      while ids != {}
        invariant ids <= clients.Keys
        invariant clients == map id | id in old(clients) && (id in seedIDs || id in ids) :: old(clients)[id]
        decreases ids
      {
        var id :| id in ids;
        ids := ids - {id};
        if id !in seedIDs {
          clients := clients - {id};
        }
      }
      assert clients == Keep(old(clients), seedIDs);
      for i := 0 to |cs|
        invariant Overlay(clients, cs[i..]) == Replace(old(clients), seedIDs, cs)
      {
        clients := clients[cs[i].id := cs[i]];
        assert cs[i..][1..] == cs[i + 1..];
      }
    }

    /** AuthorizeClientIDSecret. */
    method AuthorizeClientIDSecret(clientID: Id, clientSecret: string) returns (r: Authorization)
      ensures r == Authorize(clients, clientID, clientSecret)
      ensures SoundRegistry(clients) ==>
                (r == Authorized <==> clientID in clients && !clients[clientID].IsPublic()
                                      && clientSecret == clients[clientID].secret && clientSecret != "")
    {
      if clientID !in clients {
        return ClientNotFound;
      }
      var c := clients[clientID];
      if c.IsPublic() {
        return ClientIsPublic;
      }
      if c.secret != clientSecret {
        return InvalidSecret;
      }
      return Authorized;
    }

    // ----- authorization requests ------------------------------------------------------------

    /** Requests are stored under their own ids, so no object sits under two keys. */
    ghost predicate AuthValid()
      reads this`authRequests
    {
      forall id | id in authRequests :: authRequests[id].id == id
    }

    ghost function Requests(): (m: map<Id, A.AuthRecord>)
      reads this`authRequests, authRequests.Values
      ensures m.Keys == authRequests.Keys && forall id | id in authRequests :: m[id] == authRequests[id].View()
    {
      map id | id in authRequests :: authRequests[id].View()
    }

    ghost function AuthState(): A.Auth
      reads this`authRequests, this`codes, this`clients, authRequests.Values
    {
      A.Auth(clients, Requests(), codes)
    }

    /** CreateAuthRequest. */
    method CreateAuthRequest(ar: A.OidcRequest, userID: string, newID: Id) returns (r: A.Creation)
      requires AuthValid()
      modifies this`authRequests
      ensures AuthValid()
      ensures r == A.Admission(clients, ar, newID)
      ensures AuthState() == A.Create(old(AuthState()), ar, userID, newID)
    {
      if |ar.prompt| == 1 && ar.prompt[0] == "none" {
        return A.LoginRequired;
      }
      assert ar.prompt != ["none"];
      if ar.clientID !in clients {
        return A.ClientUnknown;
      }
      var pkce := A.RequirePkceS256(clients[ar.clientID], ar);
      if pkce != A.PkceOk {
        return A.InvalidRequest(pkce);
      }
      var req := new AuthRequest(ar, userID, newID);
      authRequests := authRequests[newID := req];
      assert Requests() == old(Requests())[newID := A.FromOidc(ar, userID, newID)];
      return A.Created(newID);
    }

    /** CompleteAuthRequest. */
    method CompleteAuthRequest(id: Id, subject: string, now: Time) returns (r: A.Completion)
      requires AuthValid()
      modifies authRequests.Values
      ensures AuthValid()
      ensures r == A.CompletionAnswer(old(AuthState()), id, subject)
      ensures AuthState() == A.Complete(old(AuthState()), id, subject, now)
    {
      var identity := IdentityBySubject(IDENTITIES, subject);
      if identity.None? {
        return A.UnknownIdentity;
      }
      if id !in authRequests {
        return A.RequestNotFound;
      }
      var req := authRequests[id];
      req.userID := subject;
      req.authTime := now;
      req.done := true;
      assert Requests() == old(Requests())[id := old(Requests())[id].(userID := subject, authTime := now, done := true)];
      return A.Completed;
    }

    /** SaveAuthCode. */
    method SaveAuthCode(id: Id, code: string)
      modifies this`codes
      ensures AuthState() == A.Save(old(AuthState()), id, code)
    {
      codes := codes[code := id];
    }

    /** The first critical section of AuthRequestByCode. */
    method RequestIDByCode(code: string) returns (id: Option<Id>)
      ensures id == if code in codes then Some(codes[code]) else None
    {
      id := if code in codes then Some(codes[code]) else None;
    }

    /** AuthRequestByID. */
    method AuthRequestByID(id: Id) returns (req: Option<AuthRequest>)
      ensures req == if id in authRequests then Some(authRequests[id]) else None
    {
      req := if id in authRequests then Some(authRequests[id]) else None;
    }

    /** AuthRequestByCode with nothing running between its sections. */
    method AuthRequestByCode(code: string) returns (req: Option<AuthRequest>)
      requires AuthValid()
      ensures match A.LookupAtomic(AuthState(), code)
              case Found(id) => id in authRequests && req == Some(authRequests[id])
              case _ => req == None
    {
      var id := RequestIDByCode(code);
      if id.None? {
        return None;
      }
      req := AuthRequestByID(id.value);
    }

    /** DeleteAuthRequest. */
    method DeleteAuthRequest(id: Id)
      requires AuthValid()
      modifies this`authRequests, this`codes
      ensures AuthValid()
      ensures AuthState() == A.Delete(old(AuthState()), id)
    {
      authRequests := authRequests - {id};
      var rest := codes.Keys;
      while rest != {}
        invariant authRequests == old(authRequests) - {id}
        invariant rest <= codes.Keys
        invariant codes == map c | c in old(codes) && (old(codes)[c] != id || c in rest) :: old(codes)[c]
        decreases rest
      {
        var code :| code in rest;
        rest := rest - {code};
        if codes[code] == id {
          codes := codes - {code};
        }
      }
      assert codes == old(codes) - A.CodesOf(old(codes), id);
      assert Requests() == old(Requests()) - {id};
    }

    // ----- tokens -------------------------------------------------------------------------------

    ghost predicate TokensValid()
      reads this`refreshers, this`grants
    {
      && (forall i | 0 <= i < |grants| :: grants[i].grant == i)
      && (forall r | r in refreshers :: refreshers[r].grant < |grants| && grants[refreshers[r].grant] == refreshers[r])
    }

    /** The refresh map, with each record named by its grant. */
    ghost function Refreshers(): (m: map<Id, Grant>)
      reads this`refreshers
      ensures m.Keys == refreshers.Keys && forall r | r in refreshers :: m[r] == refreshers[r].grant
    {
      map r | r in refreshers :: refreshers[r].grant
    }

    ghost function TokenGraph(): Graph
      reads this`tokens, this`refreshers, this`grants, grants
    {
      Graph(tokens, Refreshers(), Views(grants))
    }

    /** The request is one this storage could have handed out. */
    ghost predicate Recognised(req: TokenRequest)
      reads this`grants
    {
      req.RefreshRequest? ==> req.rt.grant < |grants| && grants[req.rt.grant] == req.rt
    }

    /** accessToken. */
    method AccessToken(appID: Id, refreshID: Id, p: Particulars, newToken: Id, now: Time) returns (t: Token)
      modifies this`tokens
      ensures t == Token(newToken, appID, p.subject, refreshID, p.audience, now + ACCESS_LIFETIME, p.scopes)
      ensures tokens == old(tokens)[newToken := t]
    {
      t := Token(newToken, appID, p.subject, refreshID, p.audience, now + ACCESS_LIFETIME, p.scopes);
      tokens := tokens[t.id := t];
    }

    /** CreateAccessToken. */
    method CreateAccessToken(req: TokenRequest, newToken: Id, now: Time) returns (id: Id, expires: Time)
      requires TokensValid() && Recognised(req)
      modifies this`tokens
      ensures id == newToken && expires == now + ACCESS_LIFETIME
      ensures TokenGraph() == CreateAccess(old(TokenGraph()), old(req.View()), newToken, now)
    {
      var appID := "";
      if req.AuthorizationRequest? {
        appID := req.ar.applicationID;
      }
      var info := req.InfoFromRequest();
      var p := req.Inspect(info);
      var t := AccessToken(appID, "", p, newToken, now);
      return t.id, t.expiration;
    }

    /** Store a new refresh record. */
    method AddRecord(rt: RefreshToken)
      requires TokensValid() && rt.grant == |grants|
      modifies this`refreshers, this`grants
      ensures TokensValid() && grants == old(grants) + [rt]
      ensures Refreshers() == old(Refreshers())[rt.id := |old(grants)|]
    {
      refreshers := refreshers[rt.id := rt];
      grants := grants + [rt];
      assert Refreshers() == old(Refreshers())[rt.id := rt.grant];
    }

    /** CreateAccessAndRefreshTokens without a current refresh token. */
    method IssueGrant(p: Particulars, newRefresh: Id, newToken: Id, now: Time) returns (r: Response)
      requires TokensValid()
      modifies this`tokens, this`refreshers, this`grants
      ensures TokensValid() && old(grants) <= grants
      ensures TokenGraph() == Issue(old(TokenGraph()), p, newRefresh, newToken, now)
      ensures r == Issued(newToken, newRefresh, now + ACCESS_LIFETIME)
    {
      var t := AccessToken(p.applicationID, newRefresh, p, newToken, now);
      var rt := new RefreshToken(|grants|, newRefresh, p, now + REFRESH_LIFETIME, t.id);
      AddRecord(rt);
      assert Views(grants) == old(Views(grants)) + [rt.View()];
      return Issued(t.id, newRefresh, t.expiration);
    }

    /** Take a record out of service. */
    method RetireRecord(current: Id) returns (rt: RefreshToken)
      requires TokensValid() && current in refreshers
      modifies this`tokens, this`refreshers
      ensures TokensValid() && rt == old(refreshers)[current]
      ensures TokenGraph() == Retire(old(TokenGraph()), current)
    {
      rt := refreshers[current];
      refreshers := refreshers - {current};
      tokens := tokens - {rt.accessTokenID};
      assert Refreshers() == old(Refreshers()) - {current};
    }

    /** Put a record back into service under a new key. */
    method RekeyRecord(rt: RefreshToken, newRefresh: Id, newToken: Id, now: Time)
      requires TokensValid() && Recognised(RefreshRequest(rt))
      modifies this`refreshers, rt
      ensures TokensValid()
      ensures TokenGraph() == Rekey(old(TokenGraph()), rt.grant, newRefresh, newToken, now)
    {
      rt.Rekey(newRefresh, newToken, now + REFRESH_LIFETIME);
      refreshers := refreshers[newRefresh := rt];
      assert Refreshers() == old(Refreshers())[newRefresh := rt.grant];
      assert Views(grants) == old(Views(grants))[rt.grant := rt.View()];
    }

    /** CreateAccessAndRefreshTokens with a refresh token to rotate. */
    method RotateGrant(p: Particulars, current: Id, newRefresh: Id, newToken: Id, now: Time) returns (r: Response)
      requires TokensValid()
      modifies this`tokens, this`refreshers, grants
      ensures TokensValid()
      ensures Outcome(TokenGraph(), r) == Rotate(old(TokenGraph()), p, current, newRefresh, newToken, now)
    {
      var t := AccessToken(p.applicationID, newRefresh, p, newToken, now);
      assert TokenGraph() == Mint(old(TokenGraph()), p.applicationID, newRefresh, p, newToken, now);
      if current !in refreshers {
        return InvalidRefreshToken;
      }
      var rt := RetireRecord(current);
      assert rt.View() == Views(grants)[rt.grant];
      if rt.expiration < now {
        return ExpiredRefreshToken;
      }
      RekeyRecord(rt, newRefresh, t.id, now);
      return Issued(t.id, newRefresh, t.expiration);
    }

    /** The critical section of CreateAccessAndRefreshTokens; `info` was read before it, possibly long before. */
    method CreateTokensLocked(req: TokenRequest, info: Info, current: Id, newRefresh: Id, newToken: Id, now: Time)
      returns (r: Response)
      requires TokensValid() && Recognised(req) && req.MayHaveTold(info)
      modifies this`tokens, this`refreshers, this`grants, grants
      ensures TokensValid() && old(grants) <= grants
      ensures Outcome(TokenGraph(), r) ==
                CreateTokens(old(TokenGraph()), old(req.ViewWith(info)), current, newRefresh, newToken, now)
    {
      var p := req.Inspect(info);
      assert p == Read(TokenGraph(), req.ViewWith(info));
      if current == "" {
        r := IssueGrant(p, newRefresh, newToken, now);
      } else {
        r := RotateGrant(p, current, newRefresh, newToken, now);
      }
    }

    /** CreateAccessAndRefreshTokens with nothing running before its lock is taken. */
    method CreateAccessAndRefreshTokens(req: TokenRequest, current: Id, newRefresh: Id, newToken: Id, now: Time)
      returns (r: Response)
      requires TokensValid() && Recognised(req)
      modifies this`tokens, this`refreshers, this`grants, grants
      ensures TokensValid() && old(grants) <= grants
      ensures Outcome(TokenGraph(), r) ==
                CreateTokens(old(TokenGraph()), old(req.View()), current, newRefresh, newToken, now)
    {
      var info := req.InfoFromRequest();
      r := CreateTokensLocked(req, info, current, newRefresh, newToken, now);
    }

    /** TokenRequestByRefreshToken: the answer is a pointer into the storage. */
    method TokenRequestByRefreshToken(current: Id) returns (req: Option<TokenRequest>)
      requires TokensValid()
      ensures req == if current in refreshers then Some(RefreshRequest(refreshers[current])) else None
      ensures req.Some? ==> Recognised(req.value)
    {
      if current !in refreshers {
        return None;
      }
      return Some(RefreshRequest(refreshers[current]));
    }

    /** TerminateSession. */
    method TerminateSession(userID: string, clientID: Id)
      requires TokensValid()
      modifies this`tokens, this`refreshers
      ensures TokensValid()
      ensures TokenGraph() == Terminate(old(TokenGraph()), userID, clientID)
    {
      ghost var gone := SessionTokens(tokens, userID, clientID);
      var rest := tokens.Keys;
      while rest != {}
        invariant rest <= tokens.Keys && gone <= old(tokens).Keys
        invariant tokens == old(tokens) - (gone - rest)
        invariant refreshers == old(refreshers) - RefreshIDs(old(tokens), gone - rest)
        decreases rest
      {
        var id :| id in rest;
        ghost var visited := gone - rest;
        rest := rest - {id};
        var t := tokens[id];
        if t.applicationID == clientID && t.subject == userID {
          assert gone - rest == visited + {id};
          assert RefreshIDs(old(tokens), visited + {id}) == RefreshIDs(old(tokens), visited) + {t.refreshID};
          tokens := tokens - {id};
          refreshers := refreshers - {t.refreshID};
        } else {
          assert gone - rest == visited;
        }
      }
      assert gone - rest == gone;
      assert Refreshers() == old(Refreshers()) - RefreshIDs(old(tokens), gone);
    }

    /** GetRefreshTokenInfo. */
    method GetRefreshTokenInfo(id: Id) returns (r: Option<(string, Id)>)
      requires TokensValid()
      ensures r == if id in refreshers then Some((refreshers[id].userID, refreshers[id].id)) else None
    {
      r := if id in refreshers then Some((refreshers[id].userID, refreshers[id].id)) else None;
    }

    /** RevokeToken. */
    method RevokeToken(id: Id, clientID: Id) returns (r: Revocation)
      requires TokensValid()
      modifies this`tokens, this`refreshers
      ensures TokensValid()
      ensures (TokenGraph(), r) == Revoke(old(TokenGraph()), id, clientID)
    {
      if id in tokens {
        var t := tokens[id];
        if t.applicationID != clientID {
          return WrongClient;
        }
        tokens := tokens - {t.id};
        return Accepted;
      }
      if id in refreshers {
        var rt := refreshers[id];
        if rt.applicationID != clientID {
          return WrongClient;
        }
        refreshers := refreshers - {rt.id};
        tokens := tokens - {rt.accessTokenID};
        assert Refreshers() == old(Refreshers()) - {rt.id};
        assert TokenGraph() == Revoke(old(TokenGraph()), id, clientID).0;
      }
      return Accepted;
    }

    // ----- userinfo ---------------------------------------------------------------------------------

    /** allClientIDs, in whatever order the map is ranged over. */
    method AllClientIDs() returns (ids: seq<Id>)
      ensures ids == InOrder(clients.Keys)
    {
      var rest := clients.Keys;
      ids := [];
      while rest != {}
        invariant rest <= clients.Keys
        invariant Distinct(ids) && Elements(ids) == clients.Keys - rest
        decreases rest
      {
        var id :| id in rest;
        rest := rest - {id};
        assert id !in Elements(ids);
        assert Elements(ids + [id]) == Elements(ids) + {id};
        ids := ids + [id];
      }
      SortIncreases(ids);
      ids := Sort(ids);
      IncreasingIsUnique(ids, InOrder(clients.Keys));
    }

    /** setCoarseUserinfo. */
    method SetCoarseUserinfo(info: UserInfoBuilder, dir: seq<Identity>, subject: string, scopes: seq<string>)
      returns (ok: bool)
      modifies info
      ensures var r := CoarseUserInfo(dir, old(info.View()), subject, scopes, clients.Keys);
              if ok then r == Some(info.View()) else r == None && info.View() == old(info.View())
    {
      var found := IdentityBySubject(dir, subject);
      if found.None? {
        return false;
      }
      var id := found.value;
      info.subject := id.subject;
      for i := 0 to |scopes|
        invariant info.subject == id.subject && info.claims == old(info.claims)
        invariant info.name == if PROFILE in scopes[..i] then id.name else old(info.name)
        invariant EMAIL in scopes[..i] && id.email != "" ==> info.email == id.email && info.emailVerified
        invariant !(EMAIL in scopes[..i] && id.email != "") ==>
                    info.email == old(info.email) && info.emailVerified == old(info.emailVerified)
      {
        assert scopes[..i + 1] == scopes[..i] + [scopes[i]];
        if scopes[i] == "profile" {
          info.name := id.name;
        } else if scopes[i] == "email" {
          if id.email != "" {
            info.email := id.email;
            info.emailVerified := true;
          }
        }
      }
      assert scopes[..|scopes|] == scopes;
      var registered := AllClientIDs();
      var apps := UnionSorted(id.apps, registered);
      info.claims := info.claims["apps" := apps];
      return true;
    }

    /** The critical section in which userinfo and introspection read a token. */
    method FindToken(tokenID: Id) returns (found: Option<Token>)
      ensures found == Lookup(tokens, tokenID)
    {
      found := if tokenID in tokens then Some(tokens[tokenID]) else None;
    }

    /** What SetUserinfoFromToken does with the token found, whatever has happened to the storage since. */
    method DescribeFound(info: UserInfoBuilder, found: Option<Token>, now: Time) returns (r: Answer)
      modifies info
      ensures r == Describe(found, clients.Keys, old(info.View()), now)
      ensures info.View() == if r.Asserted? then r.info else old(info.View())
    {
      if found.None? {
        return TokenInvalid;
      }
      var t := found.value;
      if t.expiration < now {
        return TokenExpired;
      }
      var ok := SetCoarseUserinfo(info, IDENTITIES, t.subject, t.scopes);
      return if ok then Asserted(info.View()) else IdentityNotFound;
    }

    /** SetUserinfoFromToken with nothing running between its sections. */
    method SetUserinfoFromToken(info: UserInfoBuilder, tokenID: Id, now: Time) returns (r: Answer)
      modifies info
      ensures r == Describe(Lookup(tokens, tokenID), clients.Keys, old(info.View()), now)
      ensures info.View() == if r.Asserted? then r.info else old(info.View())
    {
      var found := FindToken(tokenID);
      r := DescribeFound(info, found, now);
    }

    /** What SetIntrospectionFromToken does with the token found, whatever has happened to the storage since. */
    method IntrospectFound(found: Option<Token>, clientID: Id, now: Time) returns (r: Introspection)
      ensures r == Introspect(found, clients.Keys, clientID, now)
    {
      if found.None? {
        return Refused(TokenInvalid);
      }
      var t := found.value;
      if t.expiration < now {
        return Refused(TokenExpired);
      }
      for i := 0 to |t.audience|
        invariant clientID !in t.audience[..i]
      {
        if t.audience[i] == clientID {
          var info := new UserInfoBuilder();
          var ok := SetCoarseUserinfo(info, IDENTITIES, t.subject, t.scopes);
          if !ok {
            return Refused(IdentityNotFound);
          }
          return Active(info.View(), t.scopes, t.applicationID, t.expiration);
        }
      }
      return NotForClient;
    }

    /** SetIntrospectionFromToken with nothing running between its sections. */
    method SetIntrospectionFromToken(tokenID: Id, clientID: Id, now: Time) returns (r: Introspection)
      ensures r == Introspect(Lookup(tokens, tokenID), clients.Keys, clientID, now)
    {
      var found := FindToken(tokenID);
      r := IntrospectFound(found, clientID, now);
    }

    // ----- the device grant ----------------------------------------------------------------------------

    /** No two flows share a state object. */
    ghost predicate DevicesValid()
      reads this`deviceCodes
    {
      forall c1, c2 | c1 in deviceCodes && c2 in deviceCodes && c1 != c2 ::
        deviceCodes[c1].state != deviceCodes[c2].state
    }

    ghost function States(): set<DeviceAuthorizationState>
      reads this`deviceCodes
    {
      set c | c in deviceCodes :: deviceCodes[c].state
    }

    ghost function Entries(): (m: map<string, D.Entry>)
      reads this`deviceCodes, States()
      ensures m.Keys == deviceCodes.Keys
    {
      map c | c in deviceCodes ::
        D.Entry(deviceCodes[c].deviceCode, deviceCodes[c].userCode, deviceCodes[c].state.View())
    }

    ghost function Devices(): D.Devices
      reads this`deviceCodes, this`userCodes, States()
    {
      D.Devices(Entries(), userCodes)
    }

    /** Writing to one flow's state object writes to one entry. */
    twostate lemma OnlyStateChanged(code: string)
      requires old(DevicesValid()) && unchanged(this) && code in deviceCodes
      requires forall s | s in old(States()) && s != deviceCodes[code].state :: unchanged(s)
      ensures Devices() == D.WithState(old(Devices()), code, deviceCodes[code].state.View())
    {
      forall c | c in deviceCodes && c != code
        ensures deviceCodes[c].state.View() == old(deviceCodes[c].state.View())
      {
        assert deviceCodes[c].state in old(States());
      }
      assert Entries() == D.WithState(old(Devices()), code, deviceCodes[code].state.View()).entries;
    }

    /** StoreDeviceAuthorization. */
    method StoreDeviceAuthorization(clientID: Id, deviceCode: string, userCode: string, expires: Time,
                                    scopes: seq<string>) returns (r: D.Storing)
      requires DevicesValid()
      modifies this`deviceCodes, this`userCodes
      ensures DevicesValid()
      ensures r == D.StoreAnswer(old(Devices()), clients.Keys, clientID, userCode)
      ensures Devices() == D.Store(old(Devices()), clients.Keys, clientID, deviceCode, userCode, expires, scopes)
    {
      if clientID !in clients {
        return D.ClientUnknown;
      }
      if userCode in userCodes {
        return D.DuplicateUserCode;
      }
      var state := new DeviceAuthorizationState(clientID, scopes, expires);
      deviceCodes := deviceCodes[deviceCode := DeviceEntry(deviceCode, userCode, state)];
      userCodes := userCodes[userCode := deviceCode];
      assert Entries() == old(Entries())[deviceCode := D.Entry(deviceCode, userCode, state.View())];
      return D.Stored;
    }

    /** GetDeviceAuthorizatonState; `cancelled` is whether the caller's context has ended. */
    method GetDeviceAuthorizatonState(cancelled: bool, clientID: Id, deviceCode: string)
      returns (state: Option<DeviceAuthorizationState>)
      requires DevicesValid()
      ensures match D.ByDeviceCode(Devices(), clientID, deviceCode)
              case Some(code) => state == (if cancelled then None else Some(deviceCodes[code].state))
              case None => state == None
    {
      if cancelled {
        return None;
      }
      if deviceCode !in deviceCodes || deviceCodes[deviceCode].state.clientID != clientID {
        return None;
      }
      return Some(deviceCodes[deviceCode].state);
    }

    /** A map read that falls back to Go's zero value. */
    method DeviceCodeFor(userCode: string) returns (code: string)
      ensures code == D.DeviceCodeOf(Devices(), userCode)
    {
      code := if userCode in userCodes then userCodes[userCode] else "";
    }

    /** GetDeviceAuthorizationByUserCode. */
    method GetDeviceAuthorizationByUserCode(userCode: string) returns (state: Option<DeviceAuthorizationState>)
      requires DevicesValid()
      ensures match D.ByUserCode(Devices(), userCode)
              case Some(code) => state == Some(deviceCodes[code].state)
              case None => state == None
    {
      var code := DeviceCodeFor(userCode);
      if code !in deviceCodes {
        return None;
      }
      return Some(deviceCodes[code].state);
    }

    /** CompleteDeviceAuthorization. */
    method CompleteDeviceAuthorization(userCode: string, subject: string, now: Time) returns (r: D.Approval)
      requires DevicesValid()
      modifies States()
      ensures DevicesValid()
      ensures r == D.ApprovalAnswer(old(Devices()), userCode, subject)
      ensures Devices() == D.Complete(old(Devices()), userCode, subject, now)
    {
      var identity := IdentityBySubject(IDENTITIES, subject);
      if identity.None? {
        return D.UnknownIdentity;
      }
      var code := DeviceCodeFor(userCode);
      if code !in deviceCodes {
        return D.UserCodeNotFound;
      }
      var state := deviceCodes[code].state;
      state.Approve(subject, now);
      OnlyStateChanged(code);
      return D.Approved;
    }

    /** DenyDeviceAuthorization. */
    method DenyDeviceAuthorization(userCode: string) returns (found: bool)
      requires DevicesValid()
      modifies States()
      ensures DevicesValid()
      ensures found <==> D.ByUserCode(old(Devices()), userCode).Some?
      ensures Devices() == D.Deny(old(Devices()), userCode)
    {
      var code := DeviceCodeFor(userCode);
      if code !in deviceCodes {
        return false;
      }
      deviceCodes[code].state.denied := true;
      OnlyStateChanged(code);
      return true;
    }
  }

  /** SetCurrentScopes on a refresh request.  It never mentions the storage that handed the request out, yet
      it narrows the stored record: the request and the storage share one record. */
  method SetCurrentScopes(rt: RefreshToken, scopes: seq<string>, ghost s: Storage)
    requires s.TokensValid() && s.Recognised(RefreshRequest(rt))
    modifies rt`scopes
    ensures s.TokensValid()
    ensures s.TokenGraph() == SetScopes(old(s.TokenGraph()), rt.grant, scopes)
  {
    rt.scopes := scopes;
  }

  // ----- the clients-file watcher ---------------------------------------------------------------------

  /** WatchClientsFile: the variables of its loop, and one method for each step between which the file may change. */
  class ClientsFileWatcher {
    const storage: Storage
    var phase: W.Phase
    var last: Time
    ghost var loads: seq<seq<Client>>   // every file accepted so far

    constructor (storage: Storage)
      ensures this.storage == storage && phase == W.Starting && last == ZERO_TIME && loads == []
    {
      this.storage, phase, last, loads := storage, W.Starting, ZERO_TIME, [];
    }

    /** The watch of a file that now shows `file`. */
    ghost function Watch(file: W.File, seed: map<Id, Client>, seen: set<Time>): W.Watch
      reads this`phase, this`last, this`loads, storage`clients
    {
      W.Watch(phase, last, file, storage.clients, seed, loads, seen)
    }

    /** Load the file and apply it; a file that does not load is reported and changes nothing. */
    method LoadAndReplace(content: Content) returns (r: Option<LoadError>)
      modifies this`loads, storage`clients
      ensures match Load(content)
              case Ok(cs) =>
                r == None && loads == old(loads) + [cs]
                && storage.clients == Replace(old(storage.clients), storage.seedIDs, cs)
              case Err(e) => r == Some(e) && loads == old(loads) && storage.clients == old(storage.clients)
    {
      var loaded := LoadClientsFile(content);
      if loaded.Err? {
        return Some(loaded.error);
      }
      storage.ReplaceFileClients(loaded.value);
      loads := loads + [loaded.value];
      return None;
    }

    /** The load before the loop; its error ends the watch. */
    method InitialLoad(ghost file: W.File, content: Content, ghost seed: map<Id, Client>, ghost seen: set<Time>)
      returns (r: Option<LoadError>)
      requires phase.Starting? && content == file.content && seed.Keys == storage.seedIDs
      modifies this`phase, this`loads, storage`clients
      ensures Watch(file, seed, seen) == W.Step(old(Watch(file, seed, seen)), W.InitialLoad)
      ensures r.None? <==> Load(content).Ok?
    {
      r := LoadAndReplace(content);
      phase := if r.None? then W.Loaded else W.Stopped;
    }

    method InitialStat(ghost file: W.File, mtime: Time, ghost seed: map<Id, Client>, ghost seen: set<Time>)
      requires phase.Loaded? && mtime == file.mtime
      modifies this`phase, this`last
      ensures Watch(file, seed, seen) == W.Step(old(Watch(file, seed, seen)), W.InitialStat)
    {
      last := mtime;
      phase := W.Watching;
    }

    /** The stat of a tick. */
    method Poll(ghost file: W.File, mtime: Time, ghost seed: map<Id, Client>, ghost seen: set<Time>)
      requires phase.Watching? && mtime == file.mtime
      modifies this`phase, this`last
      ensures Watch(file, seed, seen) == W.Step(old(Watch(file, seed, seen)), W.Poll)
    {
      if mtime == last {
        return;
      }
      last := mtime;
      phase := W.Reloading;
    }

    /** The load of a tick whose stat saw a change. */
    method Reload(ghost file: W.File, content: Content, ghost seed: map<Id, Client>, ghost seen: set<Time>)
      returns (r: Option<LoadError>)
      requires phase.Reloading? && content == file.content && seed.Keys == storage.seedIDs
      modifies this`phase, this`loads, storage`clients
      ensures Watch(file, seed, seen) == W.Step(old(Watch(file, seed, seen)), W.Reload)
      ensures r.None? <==> Load(content).Ok?
    {
      r := LoadAndReplace(content);
      phase := W.Watching;
    }
  }
}
