/**
  The token graph over whole runs.

  A run is any sequence of critical sections, so any number of concurrent callers
  in any schedule is one run.  `History` is ghost bookkeeping that the code does
  not keep: which ids were ever drawn, which access tokens were ever handed out
  and for which grant, what each grant was first issued for, and what callers
  still hold.
 */
module TokenRuns {
  import opened Common
  import opened TokenGraph

  datatype History = History(
    drawn: set<Id>,                       // every id ever taken from the UUID source
    owner: map<Id, Grant>,                // every access token ever returned with a refresh token
    origins: seq<Particulars>,            // what each grant was first issued for
    fetched: set<(Id, Grant)>,            // refresh requests handed to callers, by the id presented
    pending: set<(Grant, seq<string>)>,   // scope narrowings that passed the subset check
    detached: set<Grant>)                 // grants whose current access token was revoked on its own

  datatype World = World(graph: Graph, hist: History)

  const INIT: World := World(EMPTY, History({}, map[], [], {}, {}, {}))

  datatype Event =
    | AccessOnly(req: Request, newToken: Id, now: Time)
    | Tokens(req: Request, current: Id, newRefresh: Id, newToken: Id, now: Time)
    | Fetch(current: Id)
    | CheckScopes(current: Id, grant: Grant, scopes: seq<string>)
    | Narrow(grant: Grant, scopes: seq<string>)
    | RevokeOne(id: Id, client: Id)
    | EndSession(user: string, client: Id)

  // ----- steps ---------------------------------------------------------------

  predicate Fresh(h: History, id: Id) {
    id != "" && id !in h.drawn
  }

  /** What the caller of each step owes: UUIDs are fresh, a rotation presents the refresh id its
      request was fetched with, and scopes are set only after the subset check. */
  predicate Enabled(w: World, e: Event) {
    match e
    case AccessOnly(req, newToken, _) => Known(w.graph, req) && Fresh(w.hist, newToken)
    case Tokens(req, current, newRefresh, newToken, _) =>
      && Known(w.graph, req)
      && Fresh(w.hist, newRefresh) && Fresh(w.hist, newToken) && newRefresh != newToken
      && (current != "" ==> req.FromRefresh? && (current, req.grant) in w.hist.fetched)
    case Fetch(_) => true
    case CheckScopes(current, grant, scopes) =>
      && (current, grant) in w.hist.fetched
      && grant < |w.graph.records|
      && Within(scopes, w.graph.records[grant].scopes)
    case Narrow(grant, scopes) => (grant, scopes) in w.hist.pending && grant < |w.graph.records|
    case RevokeOne(_, _) => true
    case EndSession(_, _) => true
  }

  /** The pointers an event carries lead to records of this graph. */
  predicate Meaningful(g: Graph, e: Event) {
    && (e.AccessOnly? || e.Tokens? ==> Known(g, e.req))
    && (e.Narrow? ==> e.grant < |g.records|)
  }

  function GraphStep(g: Graph, e: Event): Graph
    requires WellFormed(g) && Meaningful(g, e)
  {
    match e
    case AccessOnly(req, newToken, now) => CreateAccess(g, req, newToken, now)
    case Tokens(req, current, newRefresh, newToken, now) =>
      CreateTokens(g, req, current, newRefresh, newToken, now).graph
    case Fetch(_) => g
    case CheckScopes(_, _, _) => g
    case Narrow(grant, scopes) => SetScopes(g, grant, scopes)
    case RevokeOne(id, client) => Revoke(g, id, client).0
    case EndSession(user, client) => Terminate(g, user, client)
  }

  /** The rotation or issue step answers with tokens. */
  predicate Succeeds(g: Graph, e: Event)
    requires WellFormed(g)
    requires e.Tokens? && Known(g, e.req)
  {
    CreateTokens(g, e.req, e.current, e.newRefresh, e.newToken, e.now).response.Issued?
  }

  function HistoryStep(w: World, e: Event): History
    requires WellFormed(w.graph) && Meaningful(w.graph, e)
  {
    var h := w.hist;
    match e
    case AccessOnly(_, newToken, _) => h.(drawn := h.drawn + {newToken})
    case Tokens(req, current, newRefresh, newToken, _) =>
      var h := h.(drawn := h.drawn + {newRefresh, newToken});
      if current == "" then
        h.(owner := h.owner[newToken := |w.graph.records|], origins := h.origins + [Read(w.graph, req)])
      else if Succeeds(w.graph, e) then
        var grant := w.graph.refreshers[current];
        h.(owner := h.owner[newToken := grant], detached := h.detached - {grant})
      else h
    case Fetch(current) =>
      if current in w.graph.refreshers then
        h.(fetched := h.fetched + {(current, w.graph.refreshers[current])})
      else h
    case CheckScopes(_, grant, scopes) => h.(pending := h.pending + {(grant, scopes)})
    case Narrow(_, _) => h
    case RevokeOne(id, client) =>
      if id in w.graph.tokens && w.graph.tokens[id].applicationID == client && id in h.owner then
        h.(detached := h.detached + {h.owner[id]})
      else h
    case EndSession(_, _) => h
  }

  function Step(w: World, e: Event): World
    requires WellFormed(w.graph) && Meaningful(w.graph, e)
  {
    World(GraphStep(w.graph, e), HistoryStep(w, e))
  }

  // ----- the invariant -------------------------------------------------------

  /** Each key is its record's id, "" is never a key, and no id is both an access and a refresh token. */
  ghost predicate Keyed(g: Graph) {
    && WellFormed(g)
    && (forall t | t in g.tokens :: g.tokens[t].id == t)
    && (forall r | r in g.refreshers :: g.records[g.refreshers[r]].id == r)
    && "" !in g.tokens && "" !in g.refreshers
    && (forall t | t in g.tokens :: t !in g.refreshers)
  }

  /** A token and a refresh record agree on whom they were issued to (scopes are not compared). */
  predicate Agrees(t: Token, r: RefreshRecord) {
    t.subject == r.userID && t.applicationID == r.applicationID && t.audience == r.audience
  }

  /** A token whose refresh id is live is the one that record names. */
  ghost predicate Paired(g: Graph)
    requires WellFormed(g)
  {
    forall t | t in g.tokens && g.tokens[t].refreshID in g.refreshers ::
      var r := g.records[g.refreshers[g.tokens[t].refreshID]];
      r.accessTokenID == t && Agrees(g.tokens[t], r)
  }

  /** Nothing in the graph was named without having been drawn. */
  ghost predicate AllDrawn(w: World) {
    var g, h := w.graph, w.hist;
    && "" !in h.drawn
    && (forall t | t in g.tokens :: t in h.drawn && (g.tokens[t].refreshID == "" || g.tokens[t].refreshID in h.drawn))
    && (forall r | r in g.refreshers :: r in h.drawn)
    && (forall n | 0 <= n < |g.records| :: g.records[n].id in h.drawn && g.records[n].accessTokenID in h.drawn)
    && (forall t | t in h.owner :: t in h.drawn)
    && (forall f | f in h.fetched :: f.0 in h.drawn)
  }

  /** A grant is live while its record sits in the refresh map. */
  predicate LiveGrant(g: Graph, n: Grant) {
    && n < |g.records|
    && g.records[n].id in g.refreshers
    && g.refreshers[g.records[n].id] == n
  }

  /** A live access token that was ever handed out is the one its live refresh record names. */
  ghost predicate Owned(w: World) {
    var g, h := w.graph, w.hist;
    && (forall t | t in h.owner :: h.owner[t] < |g.records|)
    && (forall t | t in h.owner && t in g.tokens ::
          && LiveGrant(g, h.owner[t])
          && g.records[h.owner[t]].accessTokenID == t
          && g.tokens[t].refreshID == g.records[h.owner[t]].id)
  }

  /** A live record names a token handed out for it; the token is gone exactly if it was revoked on its own. */
  ghost predicate Tethered(w: World)
    requires WellFormed(w.graph)
  {
    var g, h := w.graph, w.hist;
    && (forall r | r in g.refreshers ::
          var n := g.refreshers[r];
          && g.records[n].accessTokenID in h.owner
          && h.owner[g.records[n].accessTokenID] == n
          && (g.records[n].accessTokenID in g.tokens <==> n !in h.detached))
    && (forall n | n in h.detached :: n < |g.records|)
  }

  /** The record keeps what the grant was first issued for; its scopes never leave the first set. */
  predicate FaithfulRecord(r: RefreshRecord, o: Particulars) {
    && r.userID == o.subject && r.applicationID == o.applicationID && r.audience == o.audience
    && r.authTime == o.authTime && r.amr == o.amr
    && Within(r.scopes, o.scopes)
  }

  predicate FaithfulToken(t: Token, o: Particulars) {
    && t.subject == o.subject && t.applicationID == o.applicationID && t.audience == o.audience
    && Within(t.scopes, o.scopes)
  }

  ghost predicate Faithful(w: World) {
    var g, h := w.graph, w.hist;
    && |h.origins| == |g.records|
    && (forall n | 0 <= n < |g.records| :: FaithfulRecord(g.records[n], h.origins[n]))
    && (forall t | t in h.owner && t in g.tokens ::
          h.owner[t] < |h.origins| && FaithfulToken(g.tokens[t], h.origins[h.owner[t]]))
    && (forall p | p in h.pending :: p.0 < |h.origins| && Within(p.1, h.origins[p.0].scopes))
  }

  /** A fetched refresh id still leads to the record it was fetched for, or nowhere. */
  ghost predicate FetchedStable(w: World) {
    forall f | f in w.hist.fetched ::
      && f.1 < |w.graph.records|
      && (f.0 in w.graph.refreshers ==> w.graph.refreshers[f.0] == f.1)
  }

  ghost predicate Inv(w: World) {
    && Keyed(w.graph)
    && Paired(w.graph)
    && AllDrawn(w)
    && Owned(w)
    && Tethered(w)
    && Faithful(w)
    && FetchedStable(w)
  }

  lemma InitInv()
    ensures Inv(INIT)
  {
  }

  // ----- one lemma per move the critical sections are made of ------------------

  /** A minted token is unreachable from every record until some record names it. */
  lemma MintKeepsInv(w: World, client: Id, refreshID: Id, p: Particulars, newToken: Id, now: Time, more: set<Id>)
    requires Inv(w) && Fresh(w.hist, newToken)
    requires refreshID == "" || (Fresh(w.hist, refreshID) && refreshID != newToken)
    requires more == {newToken} + (if refreshID == "" then {} else {refreshID})
    ensures Inv(World(Mint(w.graph, client, refreshID, p, newToken, now), w.hist.(drawn := w.hist.drawn + more)))
  {
  }

  lemma RetirePairs(w: World, current: Id)
    requires Inv(w) && current in w.graph.refreshers
    ensures var w' := World(Retire(w.graph, current), w.hist);
            Keyed(w'.graph) && Paired(w'.graph) && AllDrawn(w') && FetchedStable(w')
  {
  }

  lemma RetireOwns(w: World, current: Id)
    requires Inv(w) && current in w.graph.refreshers
    ensures var w' := World(Retire(w.graph, current), w.hist);
            WellFormed(w'.graph) && Owned(w') && Faithful(w')
  {
  }

  lemma RetireTethers(w: World, current: Id)
    requires Inv(w) && current in w.graph.refreshers
    ensures var w' := World(Retire(w.graph, current), w.hist);
            WellFormed(w'.graph) && Tethered(w')
  {
  }

  /** Taking a record out of service, with the token it names. */
  lemma RetireKeepsInv(w: World, current: Id)
    requires Inv(w) && current in w.graph.refreshers
    ensures Inv(World(Retire(w.graph, current), w.hist))
    ensures !LiveGrant(Retire(w.graph, current), w.graph.refreshers[current])
  {
    RetirePairs(w, current);
    RetireOwns(w, current);
    RetireTethers(w, current);
  }

  /** `newRefresh` is drawn but unused, and `newToken` is the one orphan that carries it. */
  ghost predicate Reserved(w: World, newRefresh: Id, newToken: Id) {
    var g, h := w.graph, w.hist;
    && newRefresh in h.drawn && newRefresh !in g.refreshers && newRefresh !in g.tokens
    && newToken in h.drawn && newToken in g.tokens && newToken !in h.owner
    && g.tokens[newToken].refreshID == newRefresh
    && (forall t | t in g.tokens && g.tokens[t].refreshID == newRefresh :: t == newToken)
    && (forall f | f in h.fetched :: f.0 != newRefresh)
  }

  /** What a re-keyed record needs: an orphan minted from it, and no key of its own. */
  ghost predicate CanRekey(w: World, n: Grant, newRefresh: Id, newToken: Id) {
    && Inv(w)
    && Reserved(w, newRefresh, newToken)
    && n < |w.graph.records| && !LiveGrant(w.graph, n)
    && Agrees(w.graph.tokens[newToken], w.graph.records[n])
    && Within(w.graph.tokens[newToken].scopes, w.graph.records[n].scopes)
  }

  function Rekeyed(w: World, n: Grant, newRefresh: Id, newToken: Id, now: Time): World
    requires n < |w.graph.records|
  {
    World(Rekey(w.graph, n, newRefresh, newToken, now),
          w.hist.(owner := w.hist.owner[newToken := n], detached := w.hist.detached - {n}))
  }

  lemma RekeyPairs(w: World, n: Grant, newRefresh: Id, newToken: Id, now: Time)
    requires CanRekey(w, n, newRefresh, newToken)
    ensures var w' := Rekeyed(w, n, newRefresh, newToken, now);
            Keyed(w'.graph) && Paired(w'.graph)
  {
    assert forall r | r in w.graph.refreshers :: w.graph.refreshers[r] != n;
  }

  lemma RekeyRecords(w: World, n: Grant, newRefresh: Id, newToken: Id, now: Time)
    requires CanRekey(w, n, newRefresh, newToken)
    ensures var w' := Rekeyed(w, n, newRefresh, newToken, now);
            AllDrawn(w') && FetchedStable(w') && Faithful(w')
  {
  }

  lemma RekeyOwns(w: World, n: Grant, newRefresh: Id, newToken: Id, now: Time)
    requires CanRekey(w, n, newRefresh, newToken)
    ensures Owned(Rekeyed(w, n, newRefresh, newToken, now))
  {
    assert forall t | t in w.hist.owner && t in w.graph.tokens :: w.hist.owner[t] != n;
  }

  lemma RekeyTethers(w: World, n: Grant, newRefresh: Id, newToken: Id, now: Time)
    requires CanRekey(w, n, newRefresh, newToken)
    ensures var w' := Rekeyed(w, n, newRefresh, newToken, now);
            WellFormed(w'.graph) && Tethered(w')
  {
    assert forall r | r in w.graph.refreshers :: w.graph.refreshers[r] != n;
  }

  lemma RekeyKeepsInv(w: World, n: Grant, newRefresh: Id, newToken: Id, now: Time)
    requires CanRekey(w, n, newRefresh, newToken)
    ensures Inv(Rekeyed(w, n, newRefresh, newToken, now))
  {
    RekeyPairs(w, n, newRefresh, newToken, now);
    RekeyRecords(w, n, newRefresh, newToken, now);
    RekeyOwns(w, n, newRefresh, newToken, now);
    RekeyTethers(w, n, newRefresh, newToken, now);
  }

  /** A record that was just appended goes into service, naming the orphan minted with it. */
  function Opened(w: World, p: Particulars, newRefresh: Id, newToken: Id, now: Time): World {
    var g, h := w.graph, w.hist;
    World(g.(refreshers := g.refreshers[newRefresh := |g.records|],
             records := g.records + [RefreshRecord(newRefresh, p.authTime, p.amr, p.audience, p.subject,
                                                   p.applicationID, now + REFRESH_LIFETIME, p.scopes, newToken)]),
          h.(owner := h.owner[newToken := |g.records|], origins := h.origins + [p]))
  }

  ghost predicate CanOpen(w: World, p: Particulars, newRefresh: Id, newToken: Id) {
    Inv(w) && Reserved(w, newRefresh, newToken) && FaithfulToken(w.graph.tokens[newToken], p)
  }

  lemma OpenPairs(w: World, p: Particulars, newRefresh: Id, newToken: Id, now: Time)
    requires CanOpen(w, p, newRefresh, newToken)
    ensures var w' := Opened(w, p, newRefresh, newToken, now);
            Keyed(w'.graph) && Paired(w'.graph) && AllDrawn(w')
  {
  }

  lemma OpenRecords(w: World, p: Particulars, newRefresh: Id, newToken: Id, now: Time)
    requires CanOpen(w, p, newRefresh, newToken)
    ensures var w' := Opened(w, p, newRefresh, newToken, now);
            FetchedStable(w') && Faithful(w')
  {
  }

  lemma OpenOwns(w: World, p: Particulars, newRefresh: Id, newToken: Id, now: Time)
    requires CanOpen(w, p, newRefresh, newToken)
    ensures var w' := Opened(w, p, newRefresh, newToken, now);
            WellFormed(w'.graph) && Owned(w') && Tethered(w')
  {
  }

  lemma OpenKeepsInv(w: World, p: Particulars, newRefresh: Id, newToken: Id, now: Time)
    requires CanOpen(w, p, newRefresh, newToken)
    ensures Inv(Opened(w, p, newRefresh, newToken, now))
  {
    OpenPairs(w, p, newRefresh, newToken, now);
    OpenRecords(w, p, newRefresh, newToken, now);
    OpenOwns(w, p, newRefresh, newToken, now);
  }

  /** Revoking an access token on its own leaves its record in service. */
  lemma RevokeAccessKeepsInv(w: World, t: Id)
    requires Inv(w) && t in w.graph.tokens
    ensures Inv(World(w.graph.(tokens := w.graph.tokens - {t}),
                      if t in w.hist.owner then w.hist.(detached := w.hist.detached + {w.hist.owner[t]}) else w.hist))
  {
  }

  lemma EndSessionKeepsInv(w: World, user: string, client: Id)
    requires Inv(w)
    ensures Inv(World(Terminate(w.graph, user, client), w.hist))
  {
  }

  lemma FetchKeepsInv(w: World, current: Id)
    requires Inv(w) && current in w.graph.refreshers
    ensures Inv(World(w.graph, w.hist.(fetched := w.hist.fetched + {(current, w.graph.refreshers[current])})))
  {
  }

  lemma CheckKeepsInv(w: World, n: Grant, scopes: seq<string>)
    requires Inv(w) && n < |w.graph.records| && Within(scopes, w.graph.records[n].scopes)
    ensures Inv(World(w.graph, w.hist.(pending := w.hist.pending + {(n, scopes)})))
  {
    assert FaithfulRecord(w.graph.records[n], w.hist.origins[n]);
  }

  lemma NarrowKeepsInv(w: World, n: Grant, scopes: seq<string>)
    requires Inv(w) && n < |w.graph.records| && (n, scopes) in w.hist.pending
    ensures Inv(World(SetScopes(w.graph, n, scopes), w.hist))
  {
    assert Within(scopes, w.hist.origins[n].scopes);
  }

  // ----- every step, then every run --------------------------------------------

  /** The world right after the token of an issue or rotation has been stored. */
  function Minted(w: World, e: Event): World
    requires e.Tokens? && Known(w.graph, e.req)
  {
    var p := Read(w.graph, e.req);
    World(Mint(w.graph, p.applicationID, e.newRefresh, p, e.newToken, e.now),
          w.hist.(drawn := w.hist.drawn + {e.newRefresh, e.newToken}))
  }

  lemma MintedReserved(w: World, e: Event)
    requires Inv(w) && Enabled(w, e) && e.Tokens?
    ensures Inv(Minted(w, e)) && Reserved(Minted(w, e), e.newRefresh, e.newToken)
  {
    var p := Read(w.graph, e.req);
    MintKeepsInv(w, p.applicationID, e.newRefresh, p, e.newToken, e.now, {e.newRefresh, e.newToken});
  }

  lemma IssueKeepsInv(w: World, e: Event)
    requires Inv(w) && Enabled(w, e) && e.Tokens? && e.current == ""
    ensures Inv(Step(w, e))
  {
    MintedReserved(w, e);
    OpenKeepsInv(Minted(w, e), Read(w.graph, e.req), e.newRefresh, e.newToken, e.now);
    assert Step(w, e) == Opened(Minted(w, e), Read(w.graph, e.req), e.newRefresh, e.newToken, e.now);
  }

  /** The world after the record to be rotated has been taken out of service. */
  function Retired(w: World, e: Event): World
    requires e.Tokens? && Known(w.graph, e.req) && WellFormed(w.graph) && e.current in w.graph.refreshers
  {
    World(Retire(Minted(w, e).graph, e.current), Minted(w, e).hist)
  }

  lemma RetiredCanRekey(w: World, e: Event)
    requires Inv(w) && Enabled(w, e) && e.Tokens? && e.current != "" && e.current in w.graph.refreshers
    ensures Inv(Retired(w, e)) && CanRekey(Retired(w, e), e.req.grant, e.newRefresh, e.newToken)
  {
    MintedReserved(w, e);
    RetireKeepsInv(Minted(w, e), e.current);
  }

  lemma RotationKeepsInv(w: World, e: Event)
    requires Inv(w) && Enabled(w, e) && e.Tokens? && e.current != ""
    ensures Inv(Step(w, e))
  {
    if e.current !in w.graph.refreshers {
      MintedReserved(w, e);
      assert Step(w, e) == Minted(w, e);
    } else {
      RetiredCanRekey(w, e);
      if Succeeds(w.graph, e) {
        RekeyKeepsInv(Retired(w, e), e.req.grant, e.newRefresh, e.newToken, e.now);
        assert Step(w, e) == Rekeyed(Retired(w, e), e.req.grant, e.newRefresh, e.newToken, e.now);
      } else {
        assert Step(w, e) == Retired(w, e);
      }
    }
  }

  lemma RevokeKeepsInv(w: World, e: Event)
    requires Inv(w) && Enabled(w, e) && e.RevokeOne?
    ensures Inv(Step(w, e))
  {
    if e.id in w.graph.tokens {
      RevokeAccessKeepsInv(w, e.id);
    } else if e.id in w.graph.refreshers {
      RetireKeepsInv(w, e.id);
      assert Step(w, e) == w || Step(w, e) == World(Retire(w.graph, e.id), w.hist);
    }
  }

  lemma StepKeepsInv(w: World, e: Event)
    requires Inv(w) && Enabled(w, e)
    ensures Inv(Step(w, e))
  {
    match e
    case AccessOnly(req, newToken, now) =>
      var client := if req.FromAuth? then req.applicationID else "";
      MintKeepsInv(w, client, "", Read(w.graph, req), newToken, now, {newToken});
    case Tokens(_, current, _, _, _) =>
      if current == "" { IssueKeepsInv(w, e); } else { RotationKeepsInv(w, e); }
    case Fetch(current) =>
      if current in w.graph.refreshers { FetchKeepsInv(w, current); }
    case CheckScopes(_, grant, scopes) => CheckKeepsInv(w, grant, scopes);
    case Narrow(grant, scopes) => NarrowKeepsInv(w, grant, scopes);
    case RevokeOne(_, _) => RevokeKeepsInv(w, e);
    case EndSession(user, client) => EndSessionKeepsInv(w, user, client);
  }
}
