/** What the token graph guarantees over every legal run. */
module TokenSafety {
  import opened Common
  import opened TokenGraph
  import opened TokenRuns

  /** Every step of the run honours its caller's obligations. */
  ghost predicate Legal(w: World, es: seq<Event>)
    requires Inv(w)
    decreases |es|
  {
    es == [] || (Enabled(w, es[0]) && (StepKeepsInv(w, es[0]); Legal(Step(w, es[0]), es[1..])))
  }

  /** The world a legal run leads to; the invariant holds there. */
  ghost function Run(w: World, es: seq<Event>): (w': World)
    requires Inv(w) && Legal(w, es)
    ensures Inv(w')
    decreases |es|
  {
    if es == [] then w else StepKeepsInv(w, es[0]); Run(Step(w, es[0]), es[1..])
  }

  ghost predicate Reaches(w: World, es: seq<Event>, w': World) {
    Inv(w) && Legal(w, es) && Run(w, es) == w'
  }

  lemma OneStep(w: World, e: Event, w': World)
    requires Inv(w) && Enabled(w, e) && w' == Step(w, e)
    ensures Reaches(w, [e], w')
  {
    StepKeepsInv(w, e);
  }

  /** A world that some legal run of a new storage leads to. */
  ghost predicate Reachable(w: World)
    ensures Reachable(w) ==> Inv(w)
  {
    exists es :: Reaches(INIT, es, w)
  }

  lemma FirstGrantOpens(req: Request, refresh: Id, token: Id, now: Time)
    requires !req.FromRefresh? && refresh != "" && token != "" && refresh != token
    ensures var e := Tokens(req, "", refresh, token, now);
            && Inv(INIT) && Enabled(INIT, e)
            && var issued := Step(INIT, e);
            && refresh in issued.graph.refreshers && issued.graph.refreshers[refresh] < |issued.graph.records|
            && issued.graph.records[issued.graph.refreshers[refresh]].applicationID == Read(EMPTY, req).applicationID
            && issued.graph.records[issued.graph.refreshers[refresh]].accessTokenID == token
            && token in issued.graph.tokens && token in issued.hist.owner
  {
    InitInv();
  }

  /** Any request can open the first grant of a new storage, and its refresh token can be revoked from there. */
  lemma FirstGrantIsReachable(req: Request, refresh: Id, token: Id, now: Time) returns (issued: World, revoked: World)
    requires !req.FromRefresh? && refresh != "" && token != "" && refresh != token
    ensures Reaches(INIT, [Tokens(req, "", refresh, token, now)], issued) && Reachable(issued)
    ensures refresh in issued.graph.refreshers && token in issued.graph.tokens && token in issued.hist.owner
    ensures Reaches(issued, [RevokeOne(refresh, Read(EMPTY, req).applicationID)], revoked)
    ensures refresh !in revoked.graph.refreshers && token !in revoked.graph.tokens
  {
    FirstGrantOpens(req, refresh, token, now);
    var e := Tokens(req, "", refresh, token, now);
    issued := Step(INIT, e);
    OneStep(INIT, e, issued);
    RevokingRefreshRetires(issued, refresh, Read(EMPTY, req).applicationID);
    revoked := World(Retire(issued.graph, refresh), issued.hist);
    OneStep(issued, RevokeOne(refresh, Read(EMPTY, req).applicationID), revoked);
  }

  /** The shape of the two maps, in every reachable state. */
  lemma TokenGraphIsSound(w: World)
    requires Reachable(w)
    ensures Keyed(w.graph) && Paired(w.graph)
    ensures forall r1, r2 | r1 in w.graph.refreshers && r2 in w.graph.refreshers && r1 != r2 ::
              w.graph.refreshers[r1] != w.graph.refreshers[r2]
  {
  }

  // ----- at most one live access token per grant -------------------------------

  lemma AtMostOneLiveAccessToken(w: World, t1: Id, t2: Id)
    requires Reachable(w)
    requires t1 in w.hist.owner && t2 in w.hist.owner && w.hist.owner[t1] == w.hist.owner[t2]
    requires t1 in w.graph.tokens && t2 in w.graph.tokens
    ensures t1 == t2
    ensures var n := w.hist.owner[t1];
            LiveGrant(w.graph, n) && w.graph.records[n].accessTokenID == t1
  {
  }

  // ----- spent ids --------------------------------------------------------------

  lemma SpentStep(w: World, e: Event, id: Id)
    requires Inv(w) && Enabled(w, e) && id in w.hist.drawn
    ensures id in Step(w, e).hist.drawn
    ensures id !in w.graph.refreshers ==> id !in Step(w, e).graph.refreshers
    ensures id !in w.graph.tokens ==> id !in Step(w, e).graph.tokens
    ensures id !in w.hist.owner ==> id !in Step(w, e).hist.owner
  {
  }

  /** An id that has been drawn and is in neither map is gone for good. */
  lemma {:induction false} SpentIdsStaySpent(w: World, es: seq<Event>, id: Id)
    requires Inv(w) && Legal(w, es) && id in w.hist.drawn
    ensures id in Run(w, es).hist.drawn
    ensures id !in w.graph.refreshers ==> id !in Run(w, es).graph.refreshers
    ensures id !in w.graph.tokens ==> id !in Run(w, es).graph.tokens
    ensures id !in w.hist.owner ==> id !in Run(w, es).hist.owner
    decreases |es|
  {
    if es != [] {
      StepKeepsInv(w, es[0]);
      SpentStep(w, es[0], id);
      SpentIdsStaySpent(Step(w, es[0]), es[1..], id);
    }
  }

  /** How many rotations of `refresh` succeed along a run, whoever makes them. */
  ghost function Wins(w: World, es: seq<Event>, refresh: Id): nat
    requires Inv(w) && Legal(w, es)
    decreases |es|
  {
    if es == [] then 0 else
      StepKeepsInv(w, es[0]);
      (if es[0].Tokens? && es[0].current == refresh && Succeeds(w.graph, es[0]) then 1 else 0)
      + Wins(Step(w, es[0]), es[1..], refresh)
  }

  lemma {:induction false} NoWinsOnceSpent(w: World, es: seq<Event>, refresh: Id)
    requires Inv(w) && Legal(w, es)
    requires refresh in w.hist.drawn && refresh !in w.graph.refreshers
    ensures Wins(w, es, refresh) == 0
    decreases |es|
  {
    if es != [] {
      StepKeepsInv(w, es[0]);
      SpentStep(w, es[0], refresh);
      assert refresh != "";
      NoWinsOnceSpent(Step(w, es[0]), es[1..], refresh);
    }
  }

  /** A refresh token is exchanged at most once, however many callers fetched it and in any schedule. */
  lemma {:induction false} RefreshIsExactlyOnce(w: World, es: seq<Event>, refresh: Id)
    requires Inv(w) && Legal(w, es) && refresh != ""
    ensures Wins(w, es, refresh) <= 1
    ensures Wins(w, es, refresh) == 1 ==> refresh !in Run(w, es).graph.refreshers
    decreases |es|
  {
    if es != [] {
      StepKeepsInv(w, es[0]);
      var w' := Step(w, es[0]);
      if es[0].Tokens? && es[0].current == refresh && Succeeds(w.graph, es[0]) {
        assert refresh in w'.hist.drawn && refresh !in w'.graph.refreshers;
        NoWinsOnceSpent(w', es[1..], refresh);
        SpentIdsStaySpent(w', es[1..], refresh);
      } else {
        RefreshIsExactlyOnce(w', es[1..], refresh);
      }
    }
  }

  // ----- revocation of a whole grant ---------------------------------------------

  /** A grant whose record has left the refresh map never comes back, and no token of it is live. */
  lemma {:induction false} DeadGrantStaysDead(w: World, es: seq<Event>, n: Grant)
    requires Inv(w) && Legal(w, es) && n < |w.graph.records| && !LiveGrant(w.graph, n)
    ensures !LiveGrant(Run(w, es).graph, n)
    ensures forall t | t in Run(w, es).hist.owner && Run(w, es).hist.owner[t] == n :: t !in Run(w, es).graph.tokens
    decreases |es|
  {
    if es != [] {
      StepKeepsInv(w, es[0]);
      DeadStep(w, es[0], n);
      DeadGrantStaysDead(Step(w, es[0]), es[1..], n);
    }
  }

  lemma DeadStep(w: World, e: Event, n: Grant)
    requires Inv(w) && Enabled(w, e) && n < |w.graph.records| && !LiveGrant(w.graph, n)
    ensures n < |Step(w, e).graph.records| && !LiveGrant(Step(w, e).graph, n)
  {
    assert forall r | r in w.graph.refreshers :: w.graph.refreshers[r] != n;
    var g' := Step(w, e).graph;
    assert forall r | r in g'.refreshers :: g'.refreshers[r] != n;
  }

  /** What a token was handed out for is never rewritten. */
  lemma {:induction false} OwnersAreKept(w: World, es: seq<Event>, t: Id)
    requires Inv(w) && Legal(w, es) && t in w.hist.owner
    ensures t in Run(w, es).hist.owner && Run(w, es).hist.owner[t] == w.hist.owner[t]
    decreases |es|
  {
    if es != [] {
      StepKeepsInv(w, es[0]);
      OwnersAreKept(Step(w, es[0]), es[1..], t);
    }
  }

  /** A revocation by the wrong client, or of an unknown id, changes nothing; otherwise it reaches one grant's
      tokens at most, and an access token only on its own. */
  lemma RevocationIsTargeted(w: World, id: Id, client: Id)
    requires Inv(w)
    ensures var g := w.graph;
            var (g', answer) := Revoke(g, id, client);
            && (answer.WrongClient? <==>
                  || (id in g.tokens && g.tokens[id].applicationID != client)
                  || (id in g.refreshers && g.records[g.refreshers[id]].applicationID != client))
            && (answer.WrongClient? || (id !in g.tokens && id !in g.refreshers) ==> g' == g)
            && (answer.Accepted? && id in g.tokens ==> g'.refreshers == g.refreshers && g'.tokens == g.tokens - {id})
            && (answer.Accepted? && id in g.refreshers ==>
                  && g'.refreshers == g.refreshers - {id}
                  && (forall t | t in g.tokens :: t in g'.tokens <==> g.tokens[t].refreshID != id)
                  && (forall t | t in g'.tokens :: t in g.tokens && g'.tokens[t] == g.tokens[t]))
            && g'.records == g.records
  {
    if id !in w.graph.tokens && id in w.graph.refreshers {
      var t0 := w.graph.records[w.graph.refreshers[id]].accessTokenID;
      assert t0 in w.graph.tokens ==> w.graph.tokens[t0].refreshID == id;
    }
  }

  lemma RevokingRefreshRetires(w: World, refresh: Id, client: Id)
    requires Inv(w) && refresh in w.graph.refreshers
    requires w.graph.records[w.graph.refreshers[refresh]].applicationID == client
    ensures Step(w, RevokeOne(refresh, client)) == World(Retire(w.graph, refresh), w.hist)
    ensures Revoke(w.graph, refresh, client).1 == Accepted
    ensures !LiveGrant(Retire(w.graph, refresh), w.graph.refreshers[refresh])
  {
  }

  /** Section 2.1 of RFC 7009: revoking the current refresh token ends every access token ever handed out
      for its grant, at once and in every continuation. */
  lemma RevokingRefreshEndsGrant(w: World, refresh: Id, client: Id, es: seq<Event>, w': World)
    requires Inv(w)
    requires refresh in w.graph.refreshers
    requires w.graph.records[w.graph.refreshers[refresh]].applicationID == client
    requires Reaches(Step(w, RevokeOne(refresh, client)), es, w')
    ensures var n := w.graph.refreshers[refresh];
            && Revoke(w.graph, refresh, client).1 == Accepted
            && !LiveGrant(w'.graph, n)
            && (forall t | t in w.hist.owner && w.hist.owner[t] == n :: t !in w'.graph.tokens)
            && (forall t | t in w'.hist.owner && w'.hist.owner[t] == n :: t !in w'.graph.tokens)
  {
    var n := w.graph.refreshers[refresh];
    var w1 := Step(w, RevokeOne(refresh, client));
    RevokingRefreshRetires(w, refresh, client);
    DeadGrantStaysDead(w1, es, n);
    forall t | t in w.hist.owner && w.hist.owner[t] == n
      ensures t !in w'.graph.tokens
    {
      OwnersAreKept(w1, es, t);
    }
  }

  // ----- identity and scope along a chain -----------------------------------------

  /** The particulars a grant was first issued for are a fixed point of every run. */
  lemma {:induction false} OriginsAreKept(w: World, es: seq<Event>)
    requires Inv(w) && Legal(w, es)
    ensures w.hist.origins <= Run(w, es).hist.origins
    decreases |es|
  {
    if es != [] {
      StepKeepsInv(w, es[0]);
      OriginsAreKept(Step(w, es[0]), es[1..]);
    }
  }

  /** However often a grant rotates and whatever narrowings interleave, its record and its live access
      token keep the user, client, audience, auth time and AMR of the first issue, and their scopes stay
      within the first scopes. */
  lemma ChainIsFaithful(w: World, e: Event, w1: World, es: seq<Event>, w': World)
    requires Inv(w) && Enabled(w, e) && e.Tokens? && e.current == "" && w1 == Step(w, e)
    requires Reaches(w1, es, w')
    ensures var first := Read(w.graph, e.req);
            var n := |w.graph.records|;
            && n < |w'.graph.records|
            && FaithfulRecord(w'.graph.records[n], first)
            && (forall t | t in w'.hist.owner && w'.hist.owner[t] == n && t in w'.graph.tokens ::
                  FaithfulToken(w'.graph.tokens[t], first))
  {
    OriginsAreKept(w1, es);
  }

  // ----- accepted issues and rotations ------------------------------------------------

  /** A new grant: one token and one record appear, paired, with the lifetimes the storage promises. */
  lemma IssueFrame(w: World, e: Event)
    requires Inv(w) && Enabled(w, e) && e.Tokens? && e.current == ""
    ensures var g, g' := w.graph, Step(w, e).graph;
            var p := Read(g, e.req);
            var n := |g.records|;
            && CreateTokens(g, e.req, "", e.newRefresh, e.newToken, e.now).response
               == Issued(e.newToken, e.newRefresh, e.now + 15 * 60 * 1_000_000_000)
            && e.newToken !in g.tokens && e.newRefresh !in g.refreshers
            && g'.tokens - {e.newToken} == g.tokens && g'.refreshers - {e.newRefresh} == g.refreshers
            && g'.records[..n] == g.records && |g'.records| == n + 1
            && LiveGrant(g', n) && g'.records[n].id == e.newRefresh && g'.records[n].accessTokenID == e.newToken
            && g'.records[n].expiration == e.now + 24 * 60 * 60 * 1_000_000_000
            && g'.tokens[e.newToken].refreshID == e.newRefresh
            && g'.tokens[e.newToken].expiration == e.now + 15 * 60 * 1_000_000_000
            && g'.records[n].scopes == g'.tokens[e.newToken].scopes == p.scopes
            && FaithfulRecord(g'.records[n], p) && FaithfulToken(g'.tokens[e.newToken], p)
  {
  }

  /** The token is for the user, audience and scopes of the request: an authorization request's user and its client
      alone, what a refresh request's record says, and whatever any other request says. */
  predicate Honours(t: Token, g: Graph, req: Request)
    requires Known(g, req)
  {
    match req
    case FromAuth(client, subject, _, _, scopes) =>
      t.subject == subject && t.audience == [client] && t.scopes == scopes
    case FromRefresh(n) =>
      t.subject == g.records[n].userID && t.audience == g.records[n].audience && t.scopes == g.records[n].scopes
    case FromOther(subject, audience, scopes) =>
      t.subject == subject && t.audience == audience && t.scopes == scopes
  }

  /** What the first access token and the record of a grant say, by the request they answer. */
  lemma FirstTokensHonourRequest(w: World, e: Event)
    requires Inv(w) && Enabled(w, e) && e.Tokens? && e.current == ""
    ensures var g, g' := w.graph, Step(w, e).graph;
            && e.newToken in g'.tokens && |g'.records| == |g.records| + 1
            && var t, r := g'.tokens[e.newToken], g'.records[|g.records|];
            && Honours(t, g, e.req) && Agrees(t, r) && r.scopes == t.scopes
            && (e.req.FromAuth? ==>
                  && t.applicationID == e.req.applicationID
                  && r.authTime == e.req.authTime && r.amr == if e.req.done then ["none"] else [])
            && (e.req.FromRefresh? ==>
                  var parent := g.records[e.req.grant];
                  && t.applicationID == parent.applicationID
                  && r.authTime == parent.authTime && r.amr == parent.amr)
            && (e.req.FromOther? ==> t.applicationID == "" && r.authTime == ZERO_TIME && r.amr == [])
  {
  }

  /** An access token on its own: exactly one token appears, with no refresh id, for 15 minutes. It honours the request,
      but only an authorization request gives it a client. */
  lemma LoneTokenFrame(w: World, e: Event)
    requires Inv(w) && Enabled(w, e) && e.AccessOnly?
    ensures var g, g' := w.graph, Step(w, e).graph;
            && g'.refreshers == g.refreshers && g'.records == g.records
            && e.newToken !in g.tokens && e.newToken in g'.tokens && g'.tokens - {e.newToken} == g.tokens
            && var t := g'.tokens[e.newToken];
            && t.id == e.newToken && t.refreshID == "" && t.expiration == e.now + 15 * 60 * 1_000_000_000
            && t.applicationID == (if e.req.FromAuth? then e.req.applicationID else "")
            && Honours(t, g, e.req)
  {
  }

  lemma OneMoreGrant(w: World, req: Request, refresh: Id, token: Id, now: Time) returns (w': World)
    requires Inv(w) && !req.FromRefresh?
    requires Fresh(w.hist, refresh) && Fresh(w.hist, token) && refresh != token
    ensures var e := Tokens(req, "", refresh, token, now);
            Enabled(w, e) && w' == Step(w, e) && Reaches(w, [e], w') && Inv(w')
    ensures w'.hist.drawn == w.hist.drawn + {refresh, token}
    ensures var n := |w.graph.records|;
            && w'.graph.refreshers == w.graph.refreshers[refresh := n]
            && |w'.graph.records| == n + 1 && w'.graph.records[..n] == w.graph.records
            && w'.graph.records[n].id == refresh && FaithfulRecord(w'.graph.records[n], Read(EMPTY, req))
  {
    w' := Step(w, Tokens(req, "", refresh, token, now));
    OneStep(w, Tokens(req, "", refresh, token, now), w');
  }

  /** Nothing ties a request to one issue: presented twice it opens two grants, live side by side. */
  lemma TwoIssuesTwoGrants(w: World, req: Request, r1: Id, t1: Id, r2: Id, t2: Id, now: Time)
    returns (once: World, twice: World)
    requires Inv(w) && !req.FromRefresh?
    requires Fresh(w.hist, r1) && Fresh(w.hist, t1) && Fresh(w.hist, r2) && Fresh(w.hist, t2)
    requires r1 != t1 && r2 != t2 && {r1, t1} !! {r2, t2}
    ensures Reaches(w, [Tokens(req, "", r1, t1, now)], once) && once == Step(w, Tokens(req, "", r1, t1, now))
    ensures Enabled(once, Tokens(req, "", r2, t2, now))
    ensures Reaches(once, [Tokens(req, "", r2, t2, now)], twice) && twice == Step(once, Tokens(req, "", r2, t2, now))
    ensures var n := |w.graph.records|;
            var g := twice.graph;
            var p := Read(EMPTY, req);
            && |g.records| == n + 2
            && LiveGrant(g, n) && g.records[n].id == r1 && FaithfulRecord(g.records[n], p)
            && LiveGrant(g, n + 1) && g.records[n + 1].id == r2 && FaithfulRecord(g.records[n + 1], p)
  {
    once := OneMoreGrant(w, req, r1, t1, now);
    twice := OneMoreGrant(once, req, r2, t2, now);
    assert twice.graph.records[|w.graph.records|] == once.graph.records[|w.graph.records|];
  }

  /** A rotation succeeds only for the grant its request was fetched for, while that is live and unexpired. */
  lemma OnlyLiveGrantsRotate(w: World, e: Event)
    requires Inv(w) && Enabled(w, e) && e.Tokens? && e.current != "" && Succeeds(w.graph, e)
    ensures var g := w.graph;
            && e.current in g.refreshers && g.records[g.refreshers[e.current]].expiration >= e.now
            && e.req == FromRefresh(g.refreshers[e.current])
            && CreateTokens(g, e.req, e.current, e.newRefresh, e.newToken, e.now).response
               == Issued(e.newToken, e.newRefresh, e.now + 15 * 60 * 1_000_000_000)
  {
  }

  lemma RotationTradesIds(w: World, e: Event)
    requires Inv(w) && Enabled(w, e) && e.Tokens? && e.current != "" && Succeeds(w.graph, e)
    ensures var g, g' := w.graph, Step(w, e).graph;
            && e.current in g.refreshers
            && var n := g.refreshers[e.current];
            && g'.refreshers - {e.newRefresh} == g.refreshers - {e.current}
            && g'.tokens - {e.newToken} == g.tokens - {g.records[n].accessTokenID}
            && |g'.records| == |g.records|
            && (forall m | 0 <= m < |g.records| && m != n :: g'.records[m] == g.records[m])
            && e.newRefresh in g'.refreshers && g'.refreshers[e.newRefresh] == n
  {
  }

  /** An accepted rotation: the grant trades its refresh id and its access token for new ones and is renewed;
      every other grant and token is left alone. */
  lemma RotationFrame(w: World, e: Event)
    requires Inv(w) && Enabled(w, e) && e.Tokens? && e.current != "" && Succeeds(w.graph, e)
    ensures var g, g' := w.graph, Step(w, e).graph;
            && e.current in g.refreshers && g.records[g.refreshers[e.current]].expiration >= e.now
            && var n := g.refreshers[e.current];
            && e.req == FromRefresh(n)
            && g'.refreshers - {e.newRefresh} == g.refreshers - {e.current}
            && g'.tokens - {e.newToken} == g.tokens - {g.records[n].accessTokenID}
            && |g'.records| == |g.records|
            && (forall m | 0 <= m < |g.records| && m != n :: g'.records[m] == g.records[m])
            && LiveGrant(g', n) && g'.records[n].id == e.newRefresh && g'.records[n].accessTokenID == e.newToken
            && g'.records[n].expiration == e.now + 24 * 60 * 60 * 1_000_000_000
            && e.newToken in g'.tokens && g'.tokens[e.newToken].refreshID == e.newRefresh
            && g'.tokens[e.newToken].expiration == e.now + 15 * 60 * 1_000_000_000
            && Agrees(g'.tokens[e.newToken], g'.records[n])
  {
    OnlyLiveGrantsRotate(w, e);
    RotationTradesIds(w, e);
  }

  /** What a request that is neither an authorization nor a refresh request gets, a device flow's say, belongs to
      no client: along every run no named client can revoke the grant's tokens or end their session. */
  lemma OtherTokensHaveNoClient(w: World, e: Event, w1: World, es: seq<Event>, w': World, client: Id, user: string)
    requires Inv(w) && Enabled(w, e) && e.Tokens? && e.current == "" && w1 == Step(w, e)
    requires Reaches(w1, es, w')
    requires e.req.FromOther? && client != ""
    ensures var n := |w.graph.records|;
            var g' := w'.graph;
            && (forall t | t in w'.hist.owner && w'.hist.owner[t] == n && t in g'.tokens ::
                  && Revoke(g', t, client) == (g', WrongClient)
                  && t in Terminate(g', user, client).tokens)
            && (forall r | r in g'.refreshers && g'.refreshers[r] == n ::
                  && Revoke(g', r, client) == (g', WrongClient)
                  && r in Terminate(g', user, client).refreshers)
  {
    ChainIsFaithful(w, e, w1, es, w');
    EndSessionIsExact(w', user, client);
    forall t | t in w'.hist.owner && w'.hist.owner[t] == |w.graph.records| && t in w'.graph.tokens
      ensures w'.graph.tokens[t].applicationID == ""
    {
      assert FaithfulToken(w'.graph.tokens[t], Read(w.graph, e.req));
    }
  }

  lemma StoredTokenStep(w: World, e: Event, t: Id)
    requires Inv(w) && Enabled(w, e) && t in w.hist.drawn
    ensures t in Step(w, e).graph.tokens ==> t in w.graph.tokens && Step(w, e).graph.tokens[t] == w.graph.tokens[t]
  {
  }

  /** A stored access token is never rewritten. */
  lemma {:induction false} StoredTokensAreKept(w: World, es: seq<Event>, t: Id)
    requires Inv(w) && Legal(w, es) && t in w.hist.drawn
    ensures t in Run(w, es).graph.tokens ==> t in w.graph.tokens && Run(w, es).graph.tokens[t] == w.graph.tokens[t]
    decreases |es|
  {
    if es != [] {
      StepKeepsInv(w, es[0]);
      SpentStep(w, es[0], t);
      StoredTokenStep(w, es[0], t);
      StoredTokensAreKept(Step(w, es[0]), es[1..], t);
    }
  }

  /** An access token made without a refresh token knows its client only if an authorization request asked for it;
      made for any other request, a refresh request included, it is beyond every named client for as long as it lives. */
  lemma LoneTokenHasNoClient(w: World, e: Event, w1: World, es: seq<Event>, w': World, client: Id, user: string)
    requires Inv(w) && Enabled(w, e) && e.AccessOnly? && w1 == Step(w, e)
    requires Reaches(w1, es, w')
    requires !e.req.FromAuth? && client != ""
    ensures e.newToken in w'.graph.tokens ==>
              && Revoke(w'.graph, e.newToken, client) == (w'.graph, WrongClient)
              && e.newToken in Terminate(w'.graph, user, client).tokens
  {
    assert e.newToken in w1.hist.drawn && w1.graph.tokens[e.newToken].applicationID == "";
    StoredTokensAreKept(w1, es, e.newToken);
  }

  // ----- refused rotations -----------------------------------------------------------

  /** An unknown refresh id: the refresh map, the records and every earlier token stay, and one token appears. */
  lemma UnknownRefreshFrame(w: World, e: Event)
    requires Inv(w) && Enabled(w, e) && e.Tokens? && e.current != "" && e.current !in w.graph.refreshers
    ensures var g, g' := w.graph, Step(w, e).graph;
            && g'.refreshers == g.refreshers
            && g'.records == g.records
            && e.newToken !in g.tokens && e.newToken in g'.tokens
            && g'.tokens - {e.newToken} == g.tokens
            && g'.tokens[e.newToken].refreshID == e.newRefresh
            && CreateTokens(g, e.req, e.current, e.newRefresh, e.newToken, e.now).response == InvalidRefreshToken
  {
  }

  /** An expired refresh id: exactly its key and its paired access token go, and one token appears. */
  lemma ExpiredRefreshFrame(w: World, e: Event)
    requires Inv(w) && Enabled(w, e) && e.Tokens? && e.current != "" && e.current in w.graph.refreshers
    requires !Succeeds(w.graph, e)
    ensures var g, g' := w.graph, Step(w, e).graph;
            && g.records[g.refreshers[e.current]].expiration < e.now
            && CreateTokens(g, e.req, e.current, e.newRefresh, e.newToken, e.now).response == ExpiredRefreshToken
            && g'.refreshers == g.refreshers - {e.current}
            && g'.records == g.records
            && e.newToken !in g.tokens && e.newToken in g'.tokens
            && g'.tokens - {e.newToken} == g.tokens - {g.records[g.refreshers[e.current]].accessTokenID}
            && g'.tokens[e.newToken].refreshID == e.newRefresh
  {
  }

  lemma RefusalLeavesOrphan(w: World, e: Event)
    requires Inv(w) && Enabled(w, e) && e.Tokens? && e.current != "" && !Succeeds(w.graph, e)
    ensures var w' := Step(w, e);
            && e.newToken in w'.hist.drawn && e.newToken !in w'.hist.owner
            && e.newRefresh in w'.hist.drawn && e.newRefresh !in w'.graph.refreshers
  {
  }

  /** The token left behind by a refusal is returned to no one, and its refresh id is never live. */
  lemma OrphanStaysUnreachable(w: World, e: Event, w1: World, es: seq<Event>, w': World)
    requires Inv(w) && Enabled(w, e) && e.Tokens? && e.current != "" && !Succeeds(w.graph, e) && w1 == Step(w, e)
    requires Reaches(w1, es, w')
    ensures && e.newToken !in w'.hist.owner
            && e.newRefresh !in w'.graph.refreshers
            && (forall n | 0 <= n < |w'.graph.records| && LiveGrant(w'.graph, n) ::
                  w'.graph.records[n].accessTokenID != e.newToken)
  {
    RefusalLeavesOrphan(w, e);
    SpentIdsStaySpent(w1, es, e.newToken);
    SpentIdsStaySpent(w1, es, e.newRefresh);
    assert Tethered(w');
  }

  lemma CheckFirstAgrees(g: Graph, p: Particulars, current: Id, newRefresh: Id, newToken: Id, now: Time)
    requires WellFormed(g) && newToken !in g.tokens
    requires current in g.refreshers ==> g.records[g.refreshers[current]].accessTokenID != newToken
    ensures var code := Rotate(g, p, current, newRefresh, newToken, now);
            var checked := RotateCheckFirst(g, p, current, newRefresh, newToken, now);
            && checked.response == code.response
            && checked.graph.refreshers == code.graph.refreshers
            && checked.graph.records == code.graph.records
            && checked.graph.tokens ==
               (if code.response.Issued? then code.graph.tokens else code.graph.tokens - {newToken})
  {
  }

  /** Refusals happen in ordinary runs: of two callers that fetched the same refresh id the second is refused, and
      the token minted for it stays stored though it was handed to no one. */
  lemma SecondCallerLeavesOrphan(w: World, refresh: Id, r1: Id, t1: Id, r2: Id, t2: Id, now: Time)
    returns (fetched: World, won: World, lost: World)
    requires Inv(w) && refresh in w.graph.refreshers
    requires w.graph.records[w.graph.refreshers[refresh]].expiration >= now
    requires Fresh(w.hist, r1) && Fresh(w.hist, t1) && Fresh(w.hist, r2) && Fresh(w.hist, t2)
    requires r1 != t1 && r2 != t2 && {r1, t1} !! {r2, t2}
    ensures var n := w.graph.refreshers[refresh];
            && Reaches(w, [Fetch(refresh)], fetched)
            && Reaches(fetched, [Tokens(FromRefresh(n), refresh, r1, t1, now)], won)
            && Reaches(won, [Tokens(FromRefresh(n), refresh, r2, t2, now)], lost)
            && t1 in lost.graph.tokens && t1 in lost.hist.owner && lost.hist.owner[t1] == n
            && t2 in lost.graph.tokens && t2 !in lost.hist.owner
  {
    var n := w.graph.refreshers[refresh];
    fetched := World(w.graph, w.hist.(fetched := w.hist.fetched + {(refresh, n)}));
    OneStep(w, Fetch(refresh), fetched);
    var first := Tokens(FromRefresh(n), refresh, r1, t1, now);
    FirstRotationSucceeds(fetched, refresh, r1, t1, now);
    won := Step(fetched, first);
    OneStep(fetched, first, won);
    WinnerTakesAll(fetched, first);
    var second := Tokens(FromRefresh(n), refresh, r2, t2, now);
    lost := Step(won, second);
    OneStep(won, second, lost);
    UnknownRefreshFrame(won, second);
    RefusalLeavesOrphan(won, second);
    OwnerStep(won, second, t1);
  }

  lemma WinnerTakesAll(w: World, e: Event)
    requires Inv(w) && Enabled(w, e) && e.Tokens? && e.current != "" && Succeeds(w.graph, e)
    ensures var won := Step(w, e);
            && e.current !in won.graph.refreshers && e.newToken in won.graph.tokens
            && e.newToken in won.hist.owner && won.hist.owner[e.newToken] == w.graph.refreshers[e.current]
            && won.hist.drawn == w.hist.drawn + {e.newRefresh, e.newToken} && won.hist.fetched == w.hist.fetched
            && |won.graph.records| == |w.graph.records|
  {
  }

  lemma OwnerStep(w: World, e: Event, t: Id)
    requires Inv(w) && Enabled(w, e) && t in w.hist.owner
    ensures t in Step(w, e).hist.owner && Step(w, e).hist.owner[t] == w.hist.owner[t]
  {
  }

  /** Checking first gives the same answers and the same graph, short of the orphan; on an unknown id it
      changes nothing at all. */
  lemma CheckFirstIsAtomic(w: World, e: Event)
    requires Inv(w) && Enabled(w, e) && e.Tokens? && e.current != ""
    ensures var g := w.graph;
            var code := Rotate(g, Read(g, e.req), e.current, e.newRefresh, e.newToken, e.now);
            var checked := RotateCheckFirst(g, Read(g, e.req), e.current, e.newRefresh, e.newToken, e.now);
            && checked.response == code.response
            && checked.graph.refreshers == code.graph.refreshers
            && checked.graph.records == code.graph.records
            && checked.graph.tokens ==
               (if code.response.Issued? then code.graph.tokens else code.graph.tokens - {e.newToken})
            && (e.current !in g.refreshers ==> checked.graph == g)
  {
    CheckFirstAgrees(w.graph, Read(w.graph, e.req), e.current, e.newRefresh, e.newToken, e.now);
  }

  // ----- ending a session ----------------------------------------------------------------

  /** TerminateSession removes exactly the access tokens of the user at the client. It touches no other session's
      refresh record, and of the session's own keeps exactly those whose access token was revoked alone. */
  lemma EndSessionIsExact(w: World, user: string, client: Id)
    requires Inv(w)
    ensures var g, g' := w.graph, Terminate(w.graph, user, client);
            && (forall t | t in g.tokens ::
                  t !in g'.tokens <==> g.tokens[t].applicationID == client && g.tokens[t].subject == user)
            && (forall t | t in g'.tokens :: t in g.tokens && g'.tokens[t] == g.tokens[t])
            && g'.records == g.records
            && (forall r | r in g.refreshers ::
                  r !in g'.refreshers <==>
                    && g.records[g.refreshers[r]].applicationID == client
                    && g.records[g.refreshers[r]].userID == user
                    && g.refreshers[r] !in w.hist.detached)
            && (forall r | r in g'.refreshers :: r in g.refreshers && g'.refreshers[r] == g.refreshers[r])
  {
    var g, h := w.graph, w.hist;
    var g' := Terminate(g, user, client);
    forall r | r in g.refreshers
      ensures r !in g'.refreshers <==>
                && g.records[g.refreshers[r]].applicationID == client
                && g.records[g.refreshers[r]].userID == user
                && g.refreshers[r] !in h.detached
    {
      var t := g.records[g.refreshers[r]].accessTokenID;
      if t in g.tokens {
        assert g.tokens[t].refreshID == r;
        assert Agrees(g.tokens[t], g.records[g.refreshers[r]]);
      }
    }
  }

  /** No step of the run takes a returned access token away on its own. Refused revocations are free, and so are
      those of tokens that belong to no grant. */
  ghost predicate NoAccessRevoked(w: World, es: seq<Event>)
    requires Inv(w) && Legal(w, es)
    decreases |es|
  {
    es == [] || (!(es[0].RevokeOne? && es[0].id in w.graph.tokens && es[0].id in w.hist.owner
                   && w.graph.tokens[es[0].id].applicationID == es[0].client)
                 && (StepKeepsInv(w, es[0]); NoAccessRevoked(Step(w, es[0]), es[1..])))
  }

  lemma {:induction false} NothingDetaches(w: World, es: seq<Event>)
    requires Inv(w) && Legal(w, es) && NoAccessRevoked(w, es)
    ensures Run(w, es).hist.detached <= w.hist.detached
    decreases |es|
  {
    if es != [] {
      StepKeepsInv(w, es[0]);
      NothingDetaches(Step(w, es[0]), es[1..]);
    }
  }

  /** Where access tokens are only ever revoked through their refresh token, logging out is complete. */
  lemma LogoutIsComplete(es: seq<Event>, w: World, user: string, client: Id)
    requires Reaches(INIT, es, w) && NoAccessRevoked(INIT, es)
    ensures var g' := Terminate(w.graph, user, client);
            && (forall t | t in g'.tokens :: !(g'.tokens[t].applicationID == client && g'.tokens[t].subject == user))
            && (forall r | r in g'.refreshers ::
                  && g'.refreshers[r] < |g'.records|
                  && var rt := g'.records[g'.refreshers[r]];
                  !(rt.applicationID == client && rt.userID == user))
  {
    NothingDetaches(INIT, es);
    EndSessionIsExact(w, user, client);
  }

  lemma ShieldedRecordSurvives(w: World, refresh: Id)
    requires Inv(w) && refresh in w.graph.refreshers && w.graph.refreshers[refresh] !in w.hist.detached
    ensures var n := w.graph.refreshers[refresh];
            var rt := w.graph.records[n];
            var revoked := Revoke(w.graph, rt.accessTokenID, rt.applicationID).0;
            && Inv(World(Terminate(revoked, rt.userID, rt.applicationID),
                         w.hist.(detached := w.hist.detached + {n})))
            && n < |Terminate(revoked, rt.userID, rt.applicationID).records|
            && LiveGrant(Terminate(revoked, rt.userID, rt.applicationID), n)
            && Terminate(revoked, rt.userID, rt.applicationID).records == w.graph.records
  {
    var n := w.graph.refreshers[refresh];
    var rt := w.graph.records[n];
    RevokeAccessKeepsInv(w, rt.accessTokenID);
    var w1 := World(w.graph.(tokens := w.graph.tokens - {rt.accessTokenID}),
                    w.hist.(detached := w.hist.detached + {n}));
    assert Revoke(w.graph, rt.accessTokenID, rt.applicationID).0 == w1.graph;
    EndSessionKeepsInv(w1, rt.userID, rt.applicationID);
    EndSessionIsExact(w1, rt.userID, rt.applicationID);
  }

  /** A caller that fetched a live, unexpired refresh id and is first to rotate it gets its tokens. */
  lemma FirstRotationSucceeds(w: World, refresh: Id, newRefresh: Id, newToken: Id, now: Time)
    requires Inv(w) && refresh in w.graph.refreshers && (refresh, w.graph.refreshers[refresh]) in w.hist.fetched
    requires w.graph.records[w.graph.refreshers[refresh]].expiration >= now
    requires Fresh(w.hist, newRefresh) && Fresh(w.hist, newToken) && newRefresh != newToken
    ensures var n := w.graph.refreshers[refresh];
            var e := Tokens(FromRefresh(n), refresh, newRefresh, newToken, now);
            && Enabled(w, e)
            && Succeeds(w.graph, e)
            && newToken in Step(w, e).graph.tokens
            && Step(w, e).graph.tokens[newToken].subject == w.graph.records[n].userID
            && newRefresh in Step(w, e).graph.refreshers && Step(w, e).graph.refreshers[newRefresh] == n
  {
  }

  lemma ShieldedRunIsLegal(w: World, refresh: Id) returns (fetched: World, revoked: World, ended: World)
    requires Inv(w) && refresh in w.graph.refreshers && w.graph.refreshers[refresh] !in w.hist.detached
    ensures var n := w.graph.refreshers[refresh];
            var rt := w.graph.records[n];
            && Reaches(w, [Fetch(refresh)], fetched)
            && Reaches(fetched, [RevokeOne(rt.accessTokenID, rt.applicationID)], revoked)
            && Reaches(revoked, [EndSession(rt.userID, rt.applicationID)], ended)
            && ended.graph.records == w.graph.records && LiveGrant(ended.graph, n)
            && (refresh, n) in ended.hist.fetched && ended.hist.drawn == w.hist.drawn
  {
    var n := w.graph.refreshers[refresh];
    var rt := w.graph.records[n];
    fetched := World(w.graph, w.hist.(fetched := w.hist.fetched + {(refresh, n)}));
    OneStep(w, Fetch(refresh), fetched);
    ShieldedRecordSurvives(fetched, refresh);
    revoked := World(Revoke(w.graph, rt.accessTokenID, rt.applicationID).0,
                     fetched.hist.(detached := fetched.hist.detached + {n}));
    OneStep(fetched, RevokeOne(rt.accessTokenID, rt.applicationID), revoked);
    ended := World(Terminate(revoked.graph, rt.userID, rt.applicationID), revoked.hist);
    OneStep(revoked, EndSession(rt.userID, rt.applicationID), ended);
  }

  /** The restriction is needed: revoke a grant's access token, end the session, and the refresh token
      still rotates into a new access token for the same user. */
  lemma RevokedAccessTokenShieldsRefresh(w: World, refresh: Id, newRefresh: Id, newToken: Id, now: Time)
    returns (fetched: World, revoked: World, ended: World, after: World)
    requires Inv(w) && refresh in w.graph.refreshers
    requires w.graph.refreshers[refresh] !in w.hist.detached
    requires w.graph.records[w.graph.refreshers[refresh]].expiration >= now
    requires Fresh(w.hist, newRefresh) && Fresh(w.hist, newToken) && newRefresh != newToken
    ensures var n := w.graph.refreshers[refresh];
            var rt := w.graph.records[n];
            && Reaches(w, [Fetch(refresh)], fetched)
            && Reaches(fetched, [RevokeOne(rt.accessTokenID, rt.applicationID)], revoked)
            && Reaches(revoked, [EndSession(rt.userID, rt.applicationID)], ended)
            && Reaches(ended, [Tokens(FromRefresh(n), refresh, newRefresh, newToken, now)], after)
            && newToken in after.graph.tokens && after.graph.tokens[newToken].subject == rt.userID
            && newRefresh in after.graph.refreshers && after.graph.refreshers[newRefresh] == n
  {
    var n := w.graph.refreshers[refresh];
    fetched, revoked, ended := ShieldedRunIsLegal(w, refresh);
    FirstRotationSucceeds(ended, refresh, newRefresh, newToken, now);
    after := Step(ended, Tokens(FromRefresh(n), refresh, newRefresh, newToken, now));
    OneStep(ended, Tokens(FromRefresh(n), refresh, newRefresh, newToken, now), after);
  }
}
