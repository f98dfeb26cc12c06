/**
  Userinfo and introspection of an access token, as values.  The token is read in
  one critical section and the registered clients in a later one, so the token
  found and the client ids may belong to different moments.
 */
module Userinfo {
  import opened Common
  import opened Directory
  import opened TokenGraph
  import opened Claims

  /** The first critical section. A token is never written to, so what was found stays true of it. */
  function Lookup(tokens: map<Id, Token>, tokenID: Id): Option<Token> {
    if tokenID in tokens then Some(tokens[tokenID]) else None
  }

  datatype Answer = Asserted(info: UserInfo) | TokenInvalid | TokenExpired | IdentityNotFound

  /** The rest of SetUserinfoFromToken. */
  ghost function Describe(found: Option<Token>, clientIDs: set<Id>, info: UserInfo, now: Time): Answer {
    match found
    case None => TokenInvalid
    case Some(t) =>
      if t.expiration < now then TokenExpired
      else match CoarseUserInfo(IDENTITIES, info, t.subject, t.scopes, clientIDs)
           case None => IdentityNotFound
           case Some(asserted) => Asserted(asserted)
  }

  datatype Introspection =
    | Active(info: UserInfo, scopes: seq<string>, clientID: Id, expiration: Time)
    | Refused(why: Answer)
    | NotForClient

  /** The rest of SetIntrospectionFromToken. */
  ghost function Introspect(found: Option<Token>, clientIDs: set<Id>, client: Id, now: Time): Introspection {
    match found
    case None => Refused(TokenInvalid)
    case Some(t) =>
      if t.expiration < now then Refused(TokenExpired)
      else if client !in t.audience then NotForClient
      else match CoarseUserInfo(IDENTITIES, BLANK, t.subject, t.scopes, clientIDs)
           case None => Refused(IdentityNotFound)
           case Some(asserted) => Active(asserted, t.scopes, t.applicationID, t.expiration)
  }

  /** The claims of the token's own user, by the token's own scopes, on top of what the object held before. */
  ghost predicate SpeaksFor(after: UserInfo, before: UserInfo, t: Token, clientIDs: set<Id>) {
    IsBuiltIn(t.subject) &&
    var id := Find(IDENTITIES, t.subject).value;
    && after.subject == t.subject
    && after.name == (if "profile" in t.scopes then id.name else before.name)
    && after.email == (if "email" in t.scopes then id.email else before.email)
    && (after.emailVerified <==> "email" in t.scopes || before.emailVerified)
    && after.claims.Keys == before.claims.Keys + {"apps"}
    && (forall c | c in before.claims && c != "apps" :: after.claims[c] == before.claims[c])
    && Increasing(after.claims["apps"])
    && (forall app :: app in after.claims["apps"] <==> app in id.apps || app in clientIDs)
  }

  lemma AssertionSpeaksFor(before: UserInfo, t: Token, clientIDs: set<Id>)
    ensures var r := CoarseUserInfo(IDENTITIES, before, t.subject, t.scopes, clientIDs);
            && (r.Some? <==> IsBuiltIn(t.subject))
            && (r.Some? ==> SpeaksFor(r.value, before, t, clientIDs))
  {
    AppsClaimIsExact(IDENTITIES, before, t.subject, t.scopes, clientIDs);
    BuiltInIdentities(t.subject);
  }

  /** Userinfo answers for a token that is stored, unexpired and of a known identity, and then speaks for the token. */
  lemma DescriptionIsExact(found: Option<Token>, clientIDs: set<Id>, info: UserInfo, now: Time)
    ensures var r := Describe(found, clientIDs, info, now);
            && (r.TokenInvalid? <==> found.None?)
            && (r.TokenExpired? <==> found.Some? && found.value.expiration < now)
            && (r.IdentityNotFound? <==>
                  found.Some? && found.value.expiration >= now && !IsBuiltIn(found.value.subject))
            && (r.Asserted? ==> SpeaksFor(r.info, info, found.value, clientIDs))
  {
    if found.Some? {
      AssertionSpeaksFor(info, found.value, clientIDs);
    }
  }

  /** Introspection by a client: active for an unexpired token with the client in its audience, and then with the
      token's own scopes, client and expiration and the claims of its own user; each refusal has its own cause. */
  lemma IntrospectionIsExact(found: Option<Token>, clientIDs: set<Id>, client: Id, now: Time)
    ensures var r := Introspect(found, clientIDs, client, now);
            && (r == Refused(TokenInvalid) <==> found.None?)
            && (r == Refused(TokenExpired) <==> found.Some? && found.value.expiration < now)
            && (r.NotForClient? <==>
                  found.Some? && found.value.expiration >= now && client !in found.value.audience)
            && (r == Refused(IdentityNotFound) <==>
                  && found.Some? && found.value.expiration >= now && client in found.value.audience
                  && !IsBuiltIn(found.value.subject))
            && (r.Refused? ==> r.why in {TokenInvalid, TokenExpired, IdentityNotFound})
            && (r.Active? ==>
                  && r.scopes == found.value.scopes
                  && r.clientID == found.value.applicationID
                  && r.expiration == found.value.expiration
                  && SpeaksFor(r.info, BLANK, found.value, clientIDs))
  {
    if found.Some? {
      AssertionSpeaksFor(BLANK, found.value, clientIDs);
    }
  }
}
