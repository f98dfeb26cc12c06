/** All parts together: from a login to what a token says about its user. */
module EndToEnd {
  import opened Common
  import opened Clients
  import opened Directory
  import G = TokenGraph
  import T = TokenRuns
  import opened TokenSafety
  import A = AuthFlow
  import D = DeviceFlow
  import opened Registry
  import opened Claims
  import opened Userinfo

  datatype System = System(auth: A.World, devices: D.World, tokens: T.World)

  datatype Event = OnAuth(a: A.Event) | OnDevices(d: D.Event) | OnTokens(t: T.Event)

  function RequestOf(r: A.AuthRecord): G.Request {
    G.FromAuth(r.applicationID, r.userID, r.authTime, r.done, r.scopes)
  }

  /** Tokens are issued for done authorization requests, held or stored, for completed device flows, and for
      refresh requests. The storage reads an authorization request's auth time and AMR before it takes the lock,
      so they may be those of another moment. */
  ghost predicate Backed(s: System, req: G.Request) {
    match req
    case FromAuth(client, subject, _, _, scopes) =>
      exists id | id in s.auth.hist.held ::
        var r := s.auth.hist.held[id];
        r.done && r.applicationID == client && r.userID == subject && r.scopes == scopes
    case FromRefresh(_) => true
    case FromOther(subject, _, _) =>
      exists c | c in s.devices.devices.entries ::
        s.devices.devices.entries[c].state.done && s.devices.devices.entries[c].state.subject == subject
  }

  ghost predicate Enabled(s: System, e: Event) {
    match e
    case OnAuth(a) => A.Enabled(s.auth, a)
    case OnDevices(d) => D.Enabled(s.devices, d)
    case OnTokens(t) => T.Enabled(s.tokens, t) && (t.AccessOnly? || t.Tokens? ==> Backed(s, t.req))
  }

  /** Every identity that was chosen so far, at a login or in approving a device. */
  ghost function Chosen(s: System): set<string> {
    (set l | l in s.auth.hist.logins :: l.1) + s.devices.approved
  }

  /** Every token and every refresh record names one of these. */
  ghost predicate NamesOf(g: G.Graph, chosen: set<string>) {
    && (forall t | t in g.tokens :: g.tokens[t].subject in chosen)
    && (forall n | 0 <= n < |g.records| :: g.records[n].userID in chosen)
  }

  /** What a grant was first issued for stems from a request made at /authorize and a login into it, unless the grant
      has no client. */
  ghost predicate Stems(a: A.World, o: G.Particulars) {
    o.applicationID == "" ||
    exists id | id in a.hist.held ::
      && a.hist.held[id].applicationID == o.applicationID && Within(o.scopes, a.hist.held[id].scopes)
      && (id, o.subject) in a.hist.logins
  }

  ghost predicate AllStem(s: System) {
    forall n | 0 <= n < |s.tokens.hist.origins| :: Stems(s.auth, s.tokens.hist.origins[n])
  }

  ghost predicate Inv(s: System) {
    A.Inv(s.auth) && D.Inv(s.devices) && T.Inv(s.tokens) && NamesOf(s.tokens.graph, Chosen(s)) && AllStem(s)
  }

  function Step(s: System, e: Event): System
    requires G.WellFormed(s.tokens.graph)
    requires e.OnTokens? ==> T.Meaningful(s.tokens.graph, e.t)
  {
    match e
    case OnAuth(a) => s.(auth := A.Step(s.auth, a))
    case OnDevices(d) => s.(devices := D.Step(s.devices, d))
    case OnTokens(t) => s.(tokens := T.Step(s.tokens, t))
  }

  lemma AccessOnlyKeepsNames(g: G.Graph, e: T.Event, chosen: set<string>)
    requires G.WellFormed(g) && T.Meaningful(g, e) && NamesOf(g, chosen)
    requires e.AccessOnly? && G.Read(g, e.req).subject in chosen
    ensures NamesOf(T.GraphStep(g, e), chosen)
  {
  }

  lemma IssuingKeepsNames(g: G.Graph, p: G.Particulars, newRefresh: Id, newToken: Id, now: Time, chosen: set<string>)
    requires NamesOf(g, chosen) && p.subject in chosen
    ensures NamesOf(G.Issue(g, p, newRefresh, newToken, now), chosen)
  {
  }

  lemma MintingKeepsNames(g: G.Graph, client: Id, refreshID: Id, p: G.Particulars, newToken: Id, now: Time,
                          chosen: set<string>)
    requires NamesOf(g, chosen) && p.subject in chosen
    ensures NamesOf(G.Mint(g, client, refreshID, p, newToken, now), chosen)
  {
  }

  lemma RekeyingKeepsNames(g: G.Graph, n: G.Grant, newRefresh: Id, newToken: Id, now: Time, chosen: set<string>)
    requires NamesOf(g, chosen) && n < |g.records|
    ensures NamesOf(G.Rekey(g, n, newRefresh, newToken, now), chosen)
  {
  }

  lemma RotatingKeepsNames(g: G.Graph, p: G.Particulars, current: Id, newRefresh: Id, newToken: Id, now: Time,
                           chosen: set<string>)
    requires G.WellFormed(g) && NamesOf(g, chosen) && p.subject in chosen
    ensures NamesOf(G.Rotate(g, p, current, newRefresh, newToken, now).graph, chosen)
  {
    MintingKeepsNames(g, p.applicationID, newRefresh, p, newToken, now, chosen);
    if current in g.refreshers {
      var retired := G.Retire(G.Mint(g, p.applicationID, newRefresh, p, newToken, now), current);
      assert NamesOf(retired, chosen);
      RekeyingKeepsNames(retired, g.refreshers[current], newRefresh, newToken, now, chosen);
    }
  }

  lemma OtherStepsKeepNames(g: G.Graph, e: T.Event, chosen: set<string>)
    requires G.WellFormed(g) && T.Meaningful(g, e) && NamesOf(g, chosen)
    requires !(e.AccessOnly? || e.Tokens?)
    ensures NamesOf(T.GraphStep(g, e), chosen)
  {
  }

  lemma BackedNamesChosen(s: System, req: G.Request)
    requires Inv(s) && G.Known(s.tokens.graph, req) && Backed(s, req)
    ensures G.Read(s.tokens.graph, req).subject in Chosen(s)
  {
    if req.FromAuth? {
      var id :| id in s.auth.hist.held && s.auth.hist.held[id].done && s.auth.hist.held[id].userID == req.subject;
      assert (id, req.subject) in s.auth.hist.logins;
    }
  }

  lemma TokenStepKeepsNames(s: System, t: T.Event)
    requires Inv(s) && Enabled(s, OnTokens(t))
    ensures NamesOf(T.GraphStep(s.tokens.graph, t), Chosen(s))
  {
    var g, chosen := s.tokens.graph, Chosen(s);
    match t
    case AccessOnly(req, _, _) =>
      BackedNamesChosen(s, req);
      AccessOnlyKeepsNames(g, t, chosen);
    case Tokens(req, current, newRefresh, newToken, now) =>
      BackedNamesChosen(s, req);
      IssuingKeepsNames(g, G.Read(g, req), newRefresh, newToken, now, chosen);
      RotatingKeepsNames(g, G.Read(g, req), current, newRefresh, newToken, now, chosen);
    case _ => OtherStepsKeepNames(g, t, chosen);
  }

  /** A choice once made stays on record. */
  lemma ChosenGrows(s: System, e: Event)
    requires A.Inv(s.auth)
    requires e.OnAuth? ==> A.Enabled(s.auth, e.a)
    requires G.WellFormed(s.tokens.graph) && (e.OnTokens? ==> T.Meaningful(s.tokens.graph, e.t))
    ensures Chosen(s) <= Chosen(Step(s, e))
    ensures e.OnTokens? ==> Chosen(s) == Chosen(Step(s, e))
  {
    match e
    case OnAuth(a) => A.StepKeeps(s.auth, a);
    case OnDevices(d) => assert s.devices.approved <= D.Step(s.devices, d).approved;
    case OnTokens(_) =>
  }

  /** Authorization requests are never rewritten in what was sent, so whatever stems from one goes on to. */
  lemma StemsAreKept(a: A.World, a': A.World, o: G.Particulars)
    requires A.Keeps(a, a') && Stems(a, o)
    ensures Stems(a', o)
  {
    if o.applicationID != "" {
      var id :| id in a.hist.held && a.hist.held[id].applicationID == o.applicationID
                && Within(o.scopes, a.hist.held[id].scopes) && (id, o.subject) in a.hist.logins;
      var r := a'.hist.held[id];
      assert A.AsSent(r).applicationID == o.applicationID && A.AsSent(r).scopes == a.hist.held[id].scopes;
    }
  }

  lemma AuthStepKeepsStems(s: System, a: A.Event)
    requires Inv(s) && A.Enabled(s.auth, a)
    ensures AllStem(Step(s, OnAuth(a)))
  {
    A.StepKeeps(s.auth, a);
    forall n | 0 <= n < |s.tokens.hist.origins|
      ensures Stems(A.Step(s.auth, a), s.tokens.hist.origins[n])
    {
      StemsAreKept(s.auth, A.Step(s.auth, a), s.tokens.hist.origins[n]);
    }
  }

  lemma BackedStems(s: System, req: G.Request)
    requires Inv(s) && G.Known(s.tokens.graph, req) && Backed(s, req)
    ensures Stems(s.auth, G.Read(s.tokens.graph, req))
  {
    match req
    case FromAuth(client, subject, _, _, scopes) =>
      var id :| id in s.auth.hist.held && s.auth.hist.held[id].done && s.auth.hist.held[id].applicationID == client
                && s.auth.hist.held[id].userID == subject && s.auth.hist.held[id].scopes == scopes;
      assert Within(scopes, s.auth.hist.held[id].scopes);
    case FromRefresh(n) =>
      var o := s.tokens.hist.origins[n];
      assert T.FaithfulRecord(s.tokens.graph.records[n], o) && Stems(s.auth, o);
    case FromOther(_, _, _) =>
  }

  lemma TokenStepKeepsStems(s: System, t: T.Event)
    requires Inv(s) && Enabled(s, OnTokens(t))
    ensures AllStem(Step(s, OnTokens(t)))
  {
    if t.Tokens? && t.current == "" {
      BackedStems(s, t.req);
    }
    assert Step(s, OnTokens(t)).tokens.hist.origins == s.tokens.hist.origins
           || (t.Tokens? && Step(s, OnTokens(t)).tokens.hist.origins ==
                            s.tokens.hist.origins + [G.Read(s.tokens.graph, t.req)]);
  }

  lemma StepKeepsInv(s: System, e: Event)
    requires Inv(s) && Enabled(s, e)
    ensures Inv(Step(s, e))
  {
    ChosenGrows(s, e);
    match e
    case OnAuth(a) =>
      A.StepKeepsInv(s.auth, a);
      AuthStepKeepsStems(s, a);
    case OnDevices(d) => D.StepKeepsInv(s.devices, d);
    case OnTokens(t) =>
      T.StepKeepsInv(s.tokens, t);
      TokenStepKeepsNames(s, t);
      TokenStepKeepsStems(s, t);
  }

  ghost predicate Legal(s: System, es: seq<Event>)
    requires Inv(s)
    decreases |es|
  {
    es == [] || (Enabled(s, es[0]) && (StepKeepsInv(s, es[0]); Legal(Step(s, es[0]), es[1..])))
  }

  ghost function Run(s: System, es: seq<Event>): (s': System)
    requires Inv(s) && Legal(s, es)
    ensures Inv(s')
    decreases |es|
  {
    if es == [] then s else StepKeepsInv(s, es[0]); Run(Step(s, es[0]), es[1..])
  }

  ghost function Init(clients: map<Id, Client>): (s: System)
    ensures Inv(s)
  {
    T.InitInv();
    System(A.Init(clients), D.INIT, T.INIT)
  }

  lemma ChosenAreBuiltIn(s: System, subject: string)
    requires A.Inv(s.auth) && D.Inv(s.devices) && subject in Chosen(s)
    ensures IsBuiltIn(subject)
  {
  }

  /** In every reachable state every stored token and every live refresh record names a built-in identity, so a token
      answers: userinfo fails only for a missing or expired one, and introspection besides only for a client outside its
      audience, whatever clients are registered by the time they are asked for. Both speak for the token's own user by
      the token's own scopes. */
  lemma LiveTokensAnswer(clients: map<Id, Client>, es: seq<Event>, s: System,
                         registered: set<Id>, info: UserInfo, token: Id, client: Id, now: Time)
    requires Legal(Init(clients), es) && s == Run(Init(clients), es)
    ensures forall t | t in s.tokens.graph.tokens :: IsBuiltIn(s.tokens.graph.tokens[t].subject)
    ensures forall r | r in s.tokens.graph.refreshers ::
              s.tokens.graph.refreshers[r] < |s.tokens.graph.records|
              && IsBuiltIn(s.tokens.graph.records[s.tokens.graph.refreshers[r]].userID)
    ensures var tokens := s.tokens.graph.tokens;
            var described := Describe(Lookup(tokens, token), registered, info, now);
            var introspected := Introspect(Lookup(tokens, token), registered, client, now);
            var usable := token in tokens && tokens[token].expiration >= now;
            && (described.Asserted? <==> usable)
            && (usable ==> SpeaksFor(described.info, info, tokens[token], registered))
            && (introspected.Active? <==> usable && client in tokens[token].audience)
            && (introspected.Active? ==>
                  && SpeaksFor(introspected.info, BLANK, tokens[token], registered)
                  && introspected.scopes == tokens[token].scopes
                  && introspected.clientID == tokens[token].applicationID
                  && introspected.expiration == tokens[token].expiration)
  {
    assert T.Keyed(s.tokens.graph);
    forall subject | subject in Chosen(s) ensures IsBuiltIn(subject) {
      ChosenAreBuiltIn(s, subject);
    }
    DescriptionIsExact(Lookup(s.tokens.graph.tokens, token), registered, info, now);
    IntrospectionIsExact(Lookup(s.tokens.graph.tokens, token), registered, client, now);
  }

  // ----- the parts of a run ------------------------------------------------------------------

  function AuthOf(es: seq<Event>): seq<A.Event> {
    if es == [] then []
    else (if es[0].OnAuth? then [es[0].a] else []) + AuthOf(es[1..])
  }

  function DevicesOf(es: seq<Event>): seq<D.Event> {
    if es == [] then []
    else (if es[0].OnDevices? then [es[0].d] else []) + DevicesOf(es[1..])
  }

  /** The first step of a run, as each part sees it. */
  lemma FirstStep(s: System, es: seq<Event>) returns (s1: System)
    requires Inv(s) && Legal(s, es) && es != []
    ensures Inv(s1) && Legal(s1, es[1..]) && Run(s, es) == Run(s1, es[1..])
    ensures if es[0].OnAuth? then A.Enabled(s.auth, es[0].a) && s1.auth == A.Step(s.auth, es[0].a)
            else s1.auth == s.auth
    ensures if es[0].OnDevices? then D.Enabled(s.devices, es[0].d) && s1.devices == D.Step(s.devices, es[0].d)
            else s1.devices == s.devices
  {
    StepKeepsInv(s, es[0]);
    s1 := Step(s, es[0]);
  }

  lemma AuthFromFirst(w: A.World, w1: A.World, es: seq<Event>)
    requires es != []
    requires if es[0].OnAuth? then A.Enabled(w, es[0].a) && w1 == A.Step(w, es[0].a) else w1 == w
    requires A.Legal(w1, AuthOf(es[1..]))
    ensures A.Legal(w, AuthOf(es)) && A.Run(w, AuthOf(es)) == A.Run(w1, AuthOf(es[1..]))
  {
    if es[0].OnAuth? {
      A.RunFromFirst(w, es[0].a, AuthOf(es[1..]));
    } else {
      assert AuthOf(es) == AuthOf(es[1..]);
    }
  }

  lemma DevicesFromFirst(w: D.World, w1: D.World, es: seq<Event>)
    requires es != []
    requires if es[0].OnDevices? then D.Enabled(w, es[0].d) && w1 == D.Step(w, es[0].d) else w1 == w
    requires D.Legal(w1, DevicesOf(es[1..]))
    ensures D.Legal(w, DevicesOf(es)) && D.Run(w, DevicesOf(es)) == D.Run(w1, DevicesOf(es[1..]))
  {
    if es[0].OnDevices? {
      D.RunFromFirst(w, es[0].d, DevicesOf(es[1..]));
    } else {
      assert DevicesOf(es) == DevicesOf(es[1..]);
    }
  }

  /** The authorization part of a run is a legal run of its own. */
  lemma {:induction false} AuthRuns(s: System, es: seq<Event>)
    requires Inv(s) && Legal(s, es)
    ensures A.Legal(s.auth, AuthOf(es)) && Run(s, es).auth == A.Run(s.auth, AuthOf(es))
    decreases |es|
  {
    if es != [] {
      var s1 := FirstStep(s, es);
      AuthRuns(s1, es[1..]);
      AuthFromFirst(s.auth, s1.auth, es);
    }
  }

  /** So is the device part. */
  lemma {:induction false} DevicesRun(s: System, es: seq<Event>)
    requires Inv(s) && Legal(s, es)
    ensures D.Legal(s.devices, DevicesOf(es)) && Run(s, es).devices == D.Run(s.devices, DevicesOf(es))
    decreases |es|
  {
    if es != [] {
      var s1 := FirstStep(s, es);
      DevicesRun(s1, es[1..]);
      DevicesFromFirst(s.devices, s1.devices, es);
    }
  }

  lemma {:induction false} AuthEventOccurs(es: seq<Event>, k: nat) returns (i: nat)
    requires k < |AuthOf(es)|
    ensures i < |es| && es[i] == OnAuth(AuthOf(es)[k])
    decreases |es|
  {
    if es[0].OnAuth? && k == 0 {
      i := 0;
    } else {
      i := AuthEventOccurs(es[1..], if es[0].OnAuth? then k - 1 else k);
      i := i + 1;
    }
  }

  lemma {:induction false} AuthEventsOccurInOrder(es: seq<Event>, k: nat, l: nat) returns (i: nat, j: nat)
    requires k < l < |AuthOf(es)|
    ensures i < j < |es| && es[i] == OnAuth(AuthOf(es)[k]) && es[j] == OnAuth(AuthOf(es)[l])
    decreases |es|
  {
    if es[0].OnAuth? && k == 0 {
      i := 0;
      j := AuthEventOccurs(es[1..], l - 1);
      j := j + 1;
    } else if es[0].OnAuth? {
      i, j := AuthEventsOccurInOrder(es[1..], k - 1, l - 1);
      i, j := i + 1, j + 1;
    } else {
      i, j := AuthEventsOccurInOrder(es[1..], k, l);
      i, j := i + 1, j + 1;
    }
  }

  lemma {:induction false} DeviceEventOccurs(es: seq<Event>, k: nat) returns (i: nat)
    requires k < |DevicesOf(es)|
    ensures i < |es| && es[i] == OnDevices(DevicesOf(es)[k])
    decreases |es|
  {
    if es[0].OnDevices? && k == 0 {
      i := 0;
    } else {
      i := DeviceEventOccurs(es[1..], if es[0].OnDevices? then k - 1 else k);
      i := i + 1;
    }
  }

  // ----- whom tokens name --------------------------------------------------------------------

  /** The event chooses an identity: a login, or the approval of a device. */
  predicate Chooses(e: Event, subject: string) {
    || (e.OnAuth? && e.a.DoComplete? && e.a.subject == subject)
    || (e.OnDevices? && e.d.DoComplete? && e.d.subject == subject)
  }

  lemma ChoiceWasMade(a: A.World, d: D.World, es: seq<Event>, subject: string) returns (i: nat)
    requires A.Inv(a) && A.Legal(a, AuthOf(es)) && D.Legal(d, DevicesOf(es))
    requires a.hist.logins == {} && d.approved == {}
    requires subject in D.Run(d, DevicesOf(es)).approved
             || exists l | l in A.Run(a, AuthOf(es)).hist.logins :: l.1 == subject
    ensures i < |es| && Chooses(es[i], subject)
  {
    if subject in D.Run(d, DevicesOf(es)).approved {
      var k := D.ApprovalWasMade(d, DevicesOf(es), subject);
      i := DeviceEventOccurs(es, k);
    } else {
      var l :| l in A.Run(a, AuthOf(es)).hist.logins && l.1 == subject;
      var k := A.LoginWasMade(a, AuthOf(es), l.0, subject);
      i := AuthEventOccurs(es, k);
    }
  }

  /** No token names anyone who was not chosen: for every stored token and every refresh record, of whatever grant, the
      run holds a login or a device approval that chose its user. */
  lemma TokensNameTheChosen(clients: map<Id, Client>, es: seq<Event>, s: System)
    requires Legal(Init(clients), es) && s == Run(Init(clients), es)
    ensures forall t | t in s.tokens.graph.tokens ::
              exists i | 0 <= i < |es| :: Chooses(es[i], s.tokens.graph.tokens[t].subject)
    ensures forall n | 0 <= n < |s.tokens.graph.records| ::
              exists i | 0 <= i < |es| :: Chooses(es[i], s.tokens.graph.records[n].userID)
  {
    AuthRuns(Init(clients), es);
    DevicesRun(Init(clients), es);
    forall subject | subject in Chosen(s)
      ensures exists i | 0 <= i < |es| :: Chooses(es[i], subject)
    {
      var i := ChoiceWasMade(A.Init(clients), D.INIT, es, subject);
    }
  }

  // ----- where grants come from --------------------------------------------------------------

  predicate LogsInto(e: Event, id: Id, subject: string) {
    e.OnAuth? && A.Chooses(e.a, id, subject)
  }

  /** The event makes a request at /authorize for the grant's client, and the scopes of the grant's record and of its
      live tokens lie within those sent. */
  ghost predicate IsAuthorizeFor(e: Event, w: T.World, n: G.Grant)
    requires n < |w.graph.records|
  {
    && e.OnAuth? && e.a.DoCreate?
    && e.a.ar.clientID == w.graph.records[n].applicationID
    && Within(w.graph.records[n].scopes, e.a.ar.scopes)
    && (forall t | t in w.hist.owner && w.hist.owner[t] == n && t in w.graph.tokens ::
          && w.graph.tokens[t].subject == w.graph.records[n].userID
          && w.graph.tokens[t].applicationID == e.a.ar.clientID && Within(w.graph.tokens[t].scopes, e.a.ar.scopes))
  }

  lemma GrantStemsFromRequest(s: System, n: G.Grant) returns (id: Id)
    requires Inv(s) && n < |s.tokens.graph.records| && s.tokens.graph.records[n].applicationID != ""
    ensures id in s.auth.hist.held && (id, s.tokens.graph.records[n].userID) in s.auth.hist.logins
    ensures forall e: Event | e.OnAuth? && A.Creates(e.a, id, s.auth.hist.held[id]) :: IsAuthorizeFor(e, s.tokens, n)
  {
    var o := s.tokens.hist.origins[n];
    assert T.FaithfulRecord(s.tokens.graph.records[n], o) && Stems(s.auth, o);
    id :| id in s.auth.hist.held && s.auth.hist.held[id].applicationID == o.applicationID
          && Within(o.scopes, s.auth.hist.held[id].scopes) && (id, o.subject) in s.auth.hist.logins;
    var r := s.auth.hist.held[id];
    forall e: Event | e.OnAuth? && A.Creates(e.a, id, r) ensures IsAuthorizeFor(e, s.tokens, n) {
      var created := A.AsSent(A.FromOidc(e.a.ar, e.a.userID, id));
      assert created.applicationID == A.AsSent(r).applicationID && created.scopes == A.AsSent(r).scopes;
    }
  }

  lemma LoginIntoRequest(a: A.World, es: seq<Event>, id: Id, subject: string) returns (i: nat, j: nat)
    requires A.Inv(a) && A.Legal(a, AuthOf(es)) && id !in a.hist.held
    requires id in A.Run(a, AuthOf(es)).hist.held && (id, subject) in A.Run(a, AuthOf(es)).hist.logins
    ensures i < j < |es| && LogsInto(es[j], id, subject)
    ensures es[i].OnAuth? && A.Creates(es[i].a, id, A.Run(a, AuthOf(es)).hist.held[id])
  {
    var k, l := A.LoginFollowsRequest(a, AuthOf(es), id, subject);
    i, j := AuthEventsOccurInOrder(es, k, l);
  }

  /** However often it was rotated or re-issued, a grant that names a client goes back to a request made at /authorize
      in the same run for that very client and, after it, to a login into that very request that chose the grant's user;
      its scopes lie within those sent there. */
  lemma GrantsStemFromAuthorize(clients: map<Id, Client>, es: seq<Event>, s: System)
    requires Legal(Init(clients), es) && s == Run(Init(clients), es)
    ensures forall n | 0 <= n < |s.tokens.graph.records| && s.tokens.graph.records[n].applicationID != "" ::
              exists i, j | 0 <= i < j < |es| ::
                && IsAuthorizeFor(es[i], s.tokens, n)
                && LogsInto(es[j], es[i].a.newID, s.tokens.graph.records[n].userID)
  {
    AuthRuns(Init(clients), es);
    forall n | 0 <= n < |s.tokens.graph.records| && s.tokens.graph.records[n].applicationID != ""
      ensures exists i, j | 0 <= i < j < |es| ::
                && IsAuthorizeFor(es[i], s.tokens, n)
                && LogsInto(es[j], es[i].a.newID, s.tokens.graph.records[n].userID)
    {
      var id := GrantStemsFromRequest(s, n);
      var i, j := LoginIntoRequest(A.Init(clients), es, id, s.tokens.graph.records[n].userID);
      assert IsAuthorizeFor(es[i], s.tokens, n) && es[i].a.newID == id;
    }
  }

  /** A code is good for as many grants as it is looked up for before its request is deleted: two exchanges that both
      found it, the second also after the first was answered, leave two live grants for the same client and user. */
  lemma OneCodeTwoGrants(s: System, code: string, id: Id, r1: Id, t1: Id, r2: Id, t2: Id, now: Time)
    returns (once: System, twice: System)
    requires Inv(s) && A.LookupAtomic(s.auth.auth, code) == A.Found(id) && s.auth.auth.requests[id].done
    requires T.Fresh(s.tokens.hist, r1) && T.Fresh(s.tokens.hist, t1)
    requires T.Fresh(s.tokens.hist, r2) && T.Fresh(s.tokens.hist, t2)
    requires r1 != t1 && r2 != t2 && {r1, t1} !! {r2, t2}
    ensures var req := RequestOf(s.auth.auth.requests[id]);
            && Enabled(s, OnTokens(T.Tokens(req, "", r1, t1, now)))
            && once == Step(s, OnTokens(T.Tokens(req, "", r1, t1, now)))
            && A.LookupAtomic(once.auth.auth, code) == A.Found(id)
            && Inv(once) && Enabled(once, OnTokens(T.Tokens(req, "", r2, t2, now)))
            && twice == Step(once, OnTokens(T.Tokens(req, "", r2, t2, now)))
    ensures var r := s.auth.auth.requests[id];
            var g := twice.tokens.graph;
            var n := |s.tokens.graph.records|;
            && Inv(twice) && |g.records| == n + 2
            && T.LiveGrant(g, n) && g.records[n].id == r1
            && T.LiveGrant(g, n + 1) && g.records[n + 1].id == r2
            && g.records[n].userID == g.records[n + 1].userID == r.userID
            && g.records[n].applicationID == g.records[n + 1].applicationID == r.applicationID
  {
    var req := RequestOf(s.auth.auth.requests[id]);
    assert s.auth.hist.held[id] == s.auth.auth.requests[id];
    var tokens1, tokens2 := TwoIssuesTwoGrants(s.tokens, req, r1, t1, r2, t2, now);
    once := s.(tokens := tokens1);
    StepKeepsInv(s, OnTokens(T.Tokens(req, "", r1, t1, now)));
    twice := once.(tokens := tokens2);
    StepKeepsInv(once, OnTokens(T.Tokens(req, "", r2, t2, now)));
  }

  /** Which ids a list of accepted files leaves registered. */
  lemma RegisteredIDs(seed: map<Id, Client>, loads: seq<seq<Client>>, id: Id)
    ensures id in Reloads(seed, loads)
            <==> id in seed || (loads != [] && Declares(loads[|loads| - 1], id))
  {
    if loads != [] {
      ReloadsClosedForm(seed, loads);
      LastEntryWins(loads[|loads| - 1], id);
    }
  }

  /** Over any files, whichever were accepted, an identity may enter its own apps, every seeded app, and every app
      the last accepted file declares, and no other. */
  lemma EntitledApps(seed: map<Id, Client>, files: seq<Content>, info: UserInfo, subject: string,
                     scopes: seq<string>, app: Id)
    requires IsBuiltIn(subject)
    ensures var loads := Accepted(files);
            var r := CoarseUserInfo(IDENTITIES, info, subject, scopes, Reloads(seed, loads).Keys);
            && r.Some? && Increasing(r.value.claims[APPS])
            && (app in r.value.claims[APPS] <==>
                  || app in Find(IDENTITIES, subject).value.apps
                  || app in seed
                  || (loads != [] && Declares(loads[|loads| - 1], app)))
  {
    var loads := Accepted(files);
    AppsClaimIsExact(IDENTITIES, info, subject, scopes, Reloads(seed, loads).Keys);
    RegisteredIDs(seed, loads, app);
  }
}
