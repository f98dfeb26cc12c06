/**
  Authorization requests and codes as values: what each critical section of
  storage.go does to `authRequests` and `codes`, over any run of them.
 */
module AuthFlow {
  import opened Common
  import opened Clients
  import opened Directory

  const S256: string := "S256"
  const PLAIN: string := "plain"

  datatype Challenge = Challenge(value: string, scheme: string)

  /** The /authorize parameters. */
  datatype OidcRequest = OidcRequest(
    clientID: Id,
    redirectURI: string,
    state: string,
    nonce: string,
    scopes: seq<string>,
    responseType: string,
    responseMode: string,
    prompt: seq<string>,
    codeChallenge: string,
    codeChallengeMethod: string)

  /** The fields of one stored request at one moment. */
  datatype AuthRecord = AuthRecord(
    id: Id,
    applicationID: Id,
    callbackURI: string,
    state: string,
    nonce: string,
    scopes: seq<string>,
    responseType: string,
    responseMode: string,
    prompt: seq<string>,
    codeChallenge: Option<Challenge>,
    userID: string,
    authTime: Time,
    done: bool)

  const KNOWN_PROMPTS: set<string> := {"none", "login", "consent", "select_account"}

  /** The prompts the IdP knows, in the order they were sent. */
  function KnownPrompts(prompt: seq<string>): seq<string> {
    if prompt == [] then []
    else IfKnown(prompt[0]) + KnownPrompts(prompt[1..])
  }

  function IfKnown(p: string): seq<string> {
    if p in KNOWN_PROMPTS then [p] else []
  }

  lemma {:induction false} KnownPromptsAppend(prompt: seq<string>, p: string)
    ensures KnownPrompts(prompt + [p]) == KnownPrompts(prompt) + IfKnown(p)
    decreases |prompt|
  {
    var all := prompt + [p];
    if prompt == [] {
      assert all[0] == p && all[1..] == [];
    } else {
      assert all[0] == prompt[0] && all[1..] == prompt[1..] + [p];
      KnownPromptsAppend(prompt[1..], p);
      assert KnownPrompts(all) == IfKnown(prompt[0]) + (KnownPrompts(prompt[1..]) + IfKnown(p));
    }
  }

  /** What is kept of a list of prompts, by its parts: the four known ones stay, each where it stood. */
  lemma {:induction false} KnownPromptsByParts(a: seq<string>, b: seq<string>, p: string)
    ensures KnownPrompts([]) == []
    ensures KnownPrompts([p]) == if p in {"none", "login", "consent", "select_account"} then [p] else []
    ensures KnownPrompts(a + b) == KnownPrompts(a) + KnownPrompts(b)
    decreases |a|
  {
    if a == [] {
      assert a + b == b && KnownPrompts(a) == [];
      assert [p][1..] == [];
    } else {
      assert (a + b)[0] == a[0] && (a + b)[1..] == a[1..] + b;
      KnownPromptsByParts(a[1..], b, p);
    }
  }

  /** oidcPromptToInternal. */
  method OidcPromptToInternal(prompt: seq<string>) returns (out: seq<string>)
    ensures out == KnownPrompts(prompt)
  {
    out := [];
    for i := 0 to |prompt|
      invariant out == KnownPrompts(prompt[..i])
    {
      KnownPromptsAppend(prompt[..i], prompt[i]);
      assert prompt[..i + 1] == prompt[..i] + [prompt[i]];
      if prompt[i] in {"none", "login", "consent", "select_account"} {
        out := out + [prompt[i]];
      }
    }
    assert prompt[..|prompt|] == prompt;
  }

  /** The challenge authRequestFromOIDC records: any method other than S256 counts as plain. */
  function RecordedChallenge(ar: OidcRequest): Option<Challenge> {
    if ar.codeChallenge == "" then None
    else Some(Challenge(ar.codeChallenge, if ar.codeChallengeMethod == S256 then S256 else PLAIN))
  }

  /** authRequestFromOIDC, with the id the storage assigns. */
  function FromOidc(ar: OidcRequest, userID: string, id: Id): AuthRecord {
    AuthRecord(id, ar.clientID, ar.redirectURI, ar.state, ar.nonce, ar.scopes, ar.responseType,
               ar.responseMode, KnownPrompts(ar.prompt), RecordedChallenge(ar), userID, ZERO_TIME, false)
  }

  /** A new request holds what was sent, each parameter in its place, and is not done. A challenge is kept under S256
      or, whatever else was named, under plain. */
  lemma RequestHoldsWhatWasSent(ar: OidcRequest, userID: string, id: Id)
    ensures var r := FromOidc(ar, userID, id);
            && r.id == id && r.applicationID == ar.clientID && r.callbackURI == ar.redirectURI
            && r.state == ar.state && r.nonce == ar.nonce && r.scopes == ar.scopes
            && r.responseType == ar.responseType && r.responseMode == ar.responseMode
            && r.prompt == KnownPrompts(ar.prompt)
            && r.userID == userID && r.authTime == ZERO_TIME && !r.done
            && (r.codeChallenge.None? <==> ar.codeChallenge == "")
            && (ar.codeChallenge != "" ==>
                  && r.codeChallenge.value.value == ar.codeChallenge
                  && r.codeChallenge.value.scheme == (if ar.codeChallengeMethod == "S256" then "S256" else "plain"))
  {
  }

  datatype Pkce = PkceOk | ChallengeMissing | MethodNotS256

  /** requirePKCES256. */
  function RequirePkceS256(c: Client, ar: OidcRequest): Pkce {
    if !c.IsPublic() then PkceOk
    else if ar.codeChallenge == "" then ChallengeMissing
    else if ar.codeChallengeMethod != S256 then MethodNotS256
    else PkceOk
  }

  // ----- the critical sections ---------------------------------------------------------

  datatype Auth = Auth(clients: map<Id, Client>, requests: map<Id, AuthRecord>, codes: map<string, Id>)

  datatype Creation = Created(id: Id) | LoginRequired | ClientUnknown | InvalidRequest(reason: Pkce)

  /** CreateAuthRequest's answer. */
  function Admission(clients: map<Id, Client>, ar: OidcRequest, newID: Id): Creation {
    if ar.prompt == ["none"] then LoginRequired
    else if ar.clientID !in clients then ClientUnknown
    else
      var pkce := RequirePkceS256(clients[ar.clientID], ar);
      if pkce != PkceOk then InvalidRequest(pkce) else Created(newID)
  }

  function Create(a: Auth, ar: OidcRequest, userID: string, newID: Id): Auth {
    if Admission(a.clients, ar, newID).Created? then
      a.(requests := a.requests[newID := FromOidc(ar, userID, newID)])
    else a
  }

  /** Every refusal by its cause. */
  lemma RefusedExactlyWhen(clients: map<Id, Client>, ar: OidcRequest, newID: Id)
    ensures var r := Admission(clients, ar, newID);
            var known := ar.prompt != ["none"] && ar.clientID in clients;
            && (r.LoginRequired? <==> ar.prompt == ["none"])
            && (r.ClientUnknown? <==> ar.prompt != ["none"] && ar.clientID !in clients)
            && (r == InvalidRequest(ChallengeMissing) <==>
                  known && clients[ar.clientID].authMethod == "none" && ar.codeChallenge == "")
            && (r == InvalidRequest(MethodNotS256) <==>
                  && known && clients[ar.clientID].authMethod == "none"
                  && ar.codeChallenge != "" && ar.codeChallengeMethod != "S256")
            && (r.Created? <==>
                  known && (clients[ar.clientID].authMethod == "none" ==>
                              ar.codeChallenge != "" && ar.codeChallengeMethod == "S256"))
            && (r.Created? ==> r.id == newID)
  {
  }

  /** A request that is admitted is stored under its own id, and nothing else changes; a refusal changes nothing. */
  lemma CreationFrame(a: Auth, ar: OidcRequest, userID: string, newID: Id)
    ensures var a' := Create(a, ar, userID, newID);
            && a'.clients == a.clients && a'.codes == a.codes
            && a'.requests - {newID} == a.requests - {newID}
            && (Admission(a.clients, ar, newID).Created? ==>
                  && newID in a'.requests && LookupRequest(a', newID) == Found(newID)
                  && a'.requests[newID].id == newID && a'.requests[newID].applicationID == ar.clientID
                  && a'.requests[newID].userID == userID && !a'.requests[newID].done)
            && (!Admission(a.clients, ar, newID).Created? ==> a' == a)
  {
  }

  datatype Completion = Completed | UnknownIdentity | RequestNotFound

  function CompletionAnswer(a: Auth, id: Id, subject: string): Completion {
    if !IsBuiltIn(subject) then UnknownIdentity
    else if id !in a.requests then RequestNotFound
    else Completed
  }

  /** CompleteAuthRequest. */
  function Complete(a: Auth, id: Id, subject: string, now: Time): Auth {
    if CompletionAnswer(a, id, subject).Completed? then
      a.(requests := a.requests[id := a.requests[id].(userID := subject, authTime := now, done := true)])
    else a
  }

  /** Whom a login binds: the request chosen, and only it, is done, for the identity chosen and at the time of the
      login. An identity that is not built in, or a request that is not stored, is refused, and nothing changes. */
  lemma LoginBinds(a: Auth, id: Id, subject: string, now: Time)
    ensures var a' := Complete(a, id, subject, now);
            var answer := CompletionAnswer(a, id, subject);
            && (answer.Completed? <==> IsBuiltIn(subject) && id in a.requests)
            && (answer.UnknownIdentity? <==> !IsBuiltIn(subject))
            && (answer.Completed? ==>
                  && id in a'.requests
                  && a'.requests[id].userID == subject && a'.requests[id].authTime == now && a'.requests[id].done
                  && AsSent(a'.requests[id]) == AsSent(a.requests[id]))
            && (!answer.Completed? ==> a' == a)
            && a'.requests - {id} == a.requests - {id} && a'.codes == a.codes && a'.clients == a.clients
  {
  }

  /** SaveAuthCode. */
  function Save(a: Auth, id: Id, code: string): Auth {
    a.(codes := a.codes[code := id])
  }

  function CodesOf(codes: map<string, Id>, id: Id): set<string> {
    set c | c in codes && codes[c] == id
  }

  /** DeleteAuthRequest. */
  function Delete(a: Auth, id: Id): Auth {
    a.(requests := a.requests - {id}, codes := a.codes - CodesOf(a.codes, id))
  }

  datatype Lookup = Found(id: Id) | CodeInvalid | RequestGone

  /** The first critical section of AuthRequestByCode. */
  function LookupCode(a: Auth, code: string): Lookup {
    if code in a.codes then Found(a.codes[code]) else CodeInvalid
  }

  /** AuthRequestByID, its second critical section. */
  function LookupRequest(a: Auth, id: Id): Lookup {
    if id in a.requests then Found(id) else RequestGone
  }

  /** AuthRequestByCode, its first section run in one state and its second in another. */
  function LookupAcross(first: Auth, second: Auth, code: string): Lookup {
    match LookupCode(first, code)
    case Found(id) => LookupRequest(second, id)
    case other => other
  }

  /** The lookup it is meant to be: both maps read at once. */
  function LookupAtomic(a: Auth, code: string): Lookup {
    LookupAcross(a, a, code)
  }

  /** What the lookup finds: the request a code is saved for, while both are stored. */
  lemma LookupFindsExactly(a: Auth, code: string, id: Id)
    ensures LookupAtomic(a, code) == Found(id) <==> code in a.codes && a.codes[code] == id && id in a.requests
    ensures LookupAtomic(a, code) == CodeInvalid <==> code !in a.codes
    ensures LookupAtomic(a, code).Found? || code !in a.codes || a.codes[code] !in a.requests
  {
  }

  /** A code saved for a stored request is found from then on, and every other code as before. */
  lemma SavedCodeIsFound(a: Auth, id: Id, code: string, other: string)
    requires id in a.requests && other != code
    ensures var a' := Save(a, id, code);
            && LookupAtomic(a', code) == Found(id)
            && LookupAtomic(a', other) == LookupAtomic(a, other)
            && a'.requests == a.requests && a'.clients == a.clients
  {
  }

  // ----- runs ------------------------------------------------------------------------------

  datatype Event =
    | DoCreate(ar: OidcRequest, userID: string, newID: Id)
    | DoComplete(id: Id, subject: string, now: Time)
    | DoSave(id: Id, code: string)
    | DoDelete(id: Id)
    | SetClients(clients: map<Id, Client>)   // any change of the registry

  /** Ghost bookkeeping. `held` is every request object ever created, as callers that kept it see it. */
  datatype History = History(
    drawn: set<Id>,
    bound: map<string, Id>,        // every code ever saved
    logins: set<(Id, string)>,     // every login that was accepted: the request and the identity chosen
    held: map<Id, AuthRecord>,
    publicOf: map<Id, string>)     // requests made for a then-public client, with the challenge sent

  datatype World = World(auth: Auth, hist: History)

  function Init(clients: map<Id, Client>): World {
    World(Auth(clients, map[], map[]), History({}, map[], {}, map[], map[]))
  }

  /** Callers draw fresh ids and save fresh codes for live requests. */
  predicate Enabled(w: World, e: Event) {
    match e
    case DoCreate(_, _, newID) => newID != "" && newID !in w.hist.drawn
    case DoSave(id, code) => id in w.auth.requests && code !in w.hist.bound
    case _ => true
  }

  function AuthStep(a: Auth, e: Event): Auth {
    match e
    case DoCreate(ar, userID, newID) => Create(a, ar, userID, newID)
    case DoComplete(id, subject, now) => Complete(a, id, subject, now)
    case DoSave(id, code) => Save(a, id, code)
    case DoDelete(id) => Delete(a, id)
    case SetClients(clients) => a.(clients := clients)
  }

  function HistoryStep(w: World, e: Event): History {
    var a, h := w.auth, w.hist;
    match e
    case DoCreate(ar, userID, newID) =>
      var h := h.(drawn := h.drawn + {newID});
      if !Admission(a.clients, ar, newID).Created? then h
      else h.(held := h.held[newID := FromOidc(ar, userID, newID)],
              publicOf := if a.clients[ar.clientID].IsPublic() then h.publicOf[newID := ar.codeChallenge]
                          else h.publicOf)
    case DoComplete(id, subject, now) =>
      if CompletionAnswer(a, id, subject).Completed? then
        h.(held := h.held[id := Complete(a, id, subject, now).requests[id]], logins := h.logins + {(id, subject)})
      else h
    case DoSave(id, code) => h.(bound := h.bound[code := id])
    case DoDelete(_) => h
    case SetClients(_) => h
  }

  function Step(w: World, e: Event): World {
    World(AuthStep(w.auth, e), HistoryStep(w, e))
  }

  ghost predicate Inv(w: World) {
    var a, h := w.auth, w.hist;
    && (forall id | id in a.requests :: id in h.held && h.held[id] == a.requests[id] && a.requests[id].id == id)
    && (forall id | id in h.held :: id in h.drawn && (h.held[id].done ==> (id, h.held[id].userID) in h.logins))
    && (forall l | l in h.logins :: l.0 in h.held && IsBuiltIn(l.1))
    && (forall c | c in a.codes :: c in h.bound && h.bound[c] == a.codes[c] && a.codes[c] in a.requests)
    && (forall c | c in h.bound :: h.bound[c] in h.drawn
                                   && (h.bound[c] in a.requests ==> c in a.codes))
    && (forall id | id in h.publicOf ::
          && id in h.held
          && h.publicOf[id] != ""
          && h.held[id].codeChallenge == Some(Challenge(h.publicOf[id], S256)))
  }

  lemma RefusedCreateKeepsInv(w: World, e: Event)
    requires Inv(w) && Enabled(w, e) && e.DoCreate? && !Admission(w.auth.clients, e.ar, e.newID).Created?
    ensures Inv(Step(w, e))
  {
  }

  lemma CreateKeepsInv(w: World, e: Event)
    requires Inv(w) && Enabled(w, e) && e.DoCreate? && Admission(w.auth.clients, e.ar, e.newID).Created?
    ensures Inv(Step(w, e))
  {
    var r := FromOidc(e.ar, e.userID, e.newID);
    assert Step(w, e).auth == w.auth.(requests := w.auth.requests[e.newID := r]);
    assert Step(w, e).hist.held == w.hist.held[e.newID := r];
  }

  lemma CompleteKeepsInv(w: World, e: Event)
    requires Inv(w) && Enabled(w, e) && e.DoComplete?
    ensures Inv(Step(w, e))
  {
  }

  lemma StepKeepsInv(w: World, e: Event)
    requires Inv(w) && Enabled(w, e)
    ensures Inv(Step(w, e))
  {
    match e
    case DoCreate(ar, _, newID) =>
      if Admission(w.auth.clients, ar, newID).Created? {
        CreateKeepsInv(w, e);
      } else {
        RefusedCreateKeepsInv(w, e);
      }
    case DoComplete(_, _, _) => CompleteKeepsInv(w, e);
    case _ =>
  }

  ghost predicate Legal(w: World, es: seq<Event>)
    decreases |es|
  {
    es == [] || (Enabled(w, es[0]) && Legal(Step(w, es[0]), es[1..]))
  }

  ghost function Run(w: World, es: seq<Event>): World
    decreases |es|
  {
    if es == [] then w else Run(Step(w, es[0]), es[1..])
  }

  /** Some legal run leads from one world to the other. */
  ghost predicate Leads(w1: World, w2: World) {
    exists es :: Legal(w1, es) && w2 == Run(w1, es)
  }

  ghost predicate Reachable(w: World) {
    exists clients :: Leads(Init(clients), w)
  }

  /** What was sent to /authorize and the id, without what login adds. */
  function AsSent(r: AuthRecord): AuthRecord {
    r.(userID := "", authTime := ZERO_TIME, done := false)
  }

  /** What no legal step takes back. */
  ghost predicate Keeps(w1: World, w2: World) {
    && w1.hist.drawn <= w2.hist.drawn
    && (forall id | id in w1.hist.drawn && id !in w1.auth.requests :: id !in w2.auth.requests)
    && (forall c | c in w1.hist.bound :: c in w2.hist.bound && w2.hist.bound[c] == w1.hist.bound[c])
    && w1.hist.logins <= w2.hist.logins
    && (forall id | id in w1.hist.publicOf ::
          id in w2.hist.publicOf && w2.hist.publicOf[id] == w1.hist.publicOf[id])
    && (forall id | id in w1.hist.held :: id in w2.hist.held && AsSent(w2.hist.held[id]) == AsSent(w1.hist.held[id]))
  }

  lemma StepKeeps(w: World, e: Event)
    requires Inv(w) && Enabled(w, e)
    ensures Keeps(w, Step(w, e))
  {
  }

  /** Request objects come into being only by creation. */
  lemma OnlyCreateMakesRequests(w: World, e: Event, id: Id)
    requires Inv(w) && Enabled(w, e) && id !in w.hist.held && id in Step(w, e).hist.held
    ensures e.DoCreate? && e.newID == id && Step(w, e).hist.held[id] == FromOidc(e.ar, e.userID, id)
  {
  }

  /** A login is on record only if it was made, for a request stored at the time. */
  lemma OnlyCompletionLogsIn(w: World, e: Event, id: Id, subject: string)
    requires Inv(w) && Enabled(w, e) && (id, subject) !in w.hist.logins && (id, subject) in Step(w, e).hist.logins
    ensures e.DoComplete? && e.id == id && e.subject == subject && id in w.auth.requests
  {
  }

  lemma KeepsIsTransitive(w1: World, w2: World, w3: World)
    requires Keeps(w1, w2) && Keeps(w2, w3)
    ensures Keeps(w1, w3)
  {
  }

  lemma RunFromFirst(w: World, e: Event, es: seq<Event>)
    ensures Legal(w, [e] + es) <==> Enabled(w, e) && Legal(Step(w, e), es)
    ensures Run(w, [e] + es) == Run(Step(w, e), es)
  {
    assert ([e] + es)[1..] == es;
  }

  lemma {:induction false} RunKeeps(w: World, es: seq<Event>)
    requires Inv(w) && Legal(w, es)
    ensures Inv(Run(w, es)) && Keeps(w, Run(w, es))
    decreases |es|
  {
    if es != [] {
      StepKeepsInv(w, es[0]);
      StepKeeps(w, es[0]);
      RunKeeps(Step(w, es[0]), es[1..]);
      KeepsIsTransitive(w, Step(w, es[0]), Run(w, es));
    }
  }

  lemma ReachableInv(w: World)
    requires Reachable(w)
    ensures Inv(w)
  {
    var clients :| Leads(Init(clients), w);
    var es :| Legal(Init(clients), es) && w == Run(Init(clients), es);
    RunKeeps(Init(clients), es);
  }

  lemma LeadsKeeps(w1: World, w2: World)
    requires Inv(w1) && Leads(w1, w2)
    ensures Inv(w2) && Keeps(w1, w2)
  {
    var es :| Legal(w1, es) && w2 == Run(w1, es);
    RunKeeps(w1, es);
  }

  /** AuthRequestByCode drops the lock between its sections, yet whatever runs in between, its answer is that
      of one atomic lookup: of the first moment if it fails there, and otherwise of the second.  A success is
      the atomic answer at both. */
  lemma LookupIsLinearizable(w1: World, w2: World, code: string)
    requires Reachable(w1) && Leads(w1, w2)
    ensures var r := LookupAcross(w1.auth, w2.auth, code);
            && (r.CodeInvalid? ==> LookupAtomic(w1.auth, code) == CodeInvalid)
            && (r.RequestGone? ==> LookupAtomic(w2.auth, code) == CodeInvalid)
            && (r.Found? ==> LookupAtomic(w1.auth, code) == r && LookupAtomic(w2.auth, code) == r)
  {
    ReachableInv(w1);
    LeadsKeeps(w1, w2);
  }

  /** Exactly what deleting a request removes. */
  lemma DeleteFrame(w: World, id: Id)
    requires Inv(w)
    ensures var a, a' := w.auth, Delete(w.auth, id);
            && a'.clients == a.clients
            && (forall i | i in a.requests :: i in a'.requests <==> i != id)
            && (forall i | i in a'.requests :: i in a.requests && a'.requests[i] == a.requests[i])
            && (forall c | c in a.codes :: c in a'.codes <==> w.hist.bound[c] != id)
            && (forall c | c in a'.codes :: c in a.codes && a'.codes[c] == a.codes[c])
  {
  }

  /** Section 4.1.2 of RFC 6749: once a request is deleted every code ever bound to it is dead, in every
      continuation, also for a lookup whose first section still found the code. */
  lemma CodesDieWithTheirRequest(w: World, id: Id, w1: World, w2: World, code: string)
    requires Reachable(w)
    requires Leads(Step(w, DoDelete(id)), w1) && Leads(w1, w2)
    requires code in w.hist.bound && w.hist.bound[code] == id
    ensures code !in w1.auth.codes
    ensures LookupAcross(w1.auth, w2.auth, code) == CodeInvalid
    ensures !LookupAcross(w.auth, w1.auth, code).Found?
  {
    ReachableInv(w);
    StepKeepsInv(w, DoDelete(id));
    LeadsKeeps(Step(w, DoDelete(id)), w1);
  }

  lemma CodeStep(w: World, e: Event, code: string, id: Id)
    requires Inv(w) && Enabled(w, e) && LookupAtomic(w.auth, code) == Found(id)
    ensures e != DoDelete(id) ==> LookupAtomic(Step(w, e).auth, code) == Found(id)
    ensures e == DoDelete(id) ==> var w' := Step(w, e);
                                  id in w'.hist.drawn && id !in w'.auth.requests
                                  && code in w'.hist.bound && w'.hist.bound[code] == id
  {
  }

  /** A code is found again and again until its request is deleted: along any run the lookup still succeeds exactly
      if the run does not delete the request. */
  lemma {:induction false} CodeIsFoundExactlyUntilDelete(w: World, es: seq<Event>, code: string, id: Id)
    requires Inv(w) && Legal(w, es) && LookupAtomic(w.auth, code) == Found(id)
    ensures LookupAtomic(Run(w, es).auth, code) == (if DoDelete(id) in es then CodeInvalid else Found(id))
    decreases |es|
  {
    if es != [] {
      StepKeepsInv(w, es[0]);
      CodeStep(w, es[0], code, id);
      if es[0] == DoDelete(id) {
        RunKeeps(Step(w, es[0]), es[1..]);
      } else {
        CodeIsFoundExactlyUntilDelete(Step(w, es[0]), es[1..], code, id);
        assert DoDelete(id) in es <==> DoDelete(id) in es[1..];
      }
    }
  }

  /** Section 4.3 of RFC 7636, over whole runs: a request made for a client that was public at the time keeps the
      challenge it sent, under S256, through completion, code binding, lookup and any change of the registry. */
  lemma PkceIsKept(w1: World, ar: OidcRequest, userID: string, newID: Id, w2: World)
    requires Reachable(w1) && Enabled(w1, DoCreate(ar, userID, newID))
    requires ar.clientID in w1.auth.clients && w1.auth.clients[ar.clientID].IsPublic()
    requires Admission(w1.auth.clients, ar, newID).Created?
    requires Leads(Step(w1, DoCreate(ar, userID, newID)), w2)
    ensures ar.codeChallenge != "" && newID in w2.hist.held
    ensures w2.hist.held[newID].codeChallenge == Some(Challenge(ar.codeChallenge, S256))
    ensures newID in w2.auth.requests ==>
              w2.auth.requests[newID].codeChallenge == Some(Challenge(ar.codeChallenge, S256))
  {
    ReachableInv(w1);
    StepKeepsInv(w1, DoCreate(ar, userID, newID));
    LeadsKeeps(Step(w1, DoCreate(ar, userID, newID)), w2);
  }

  /** Nothing that was sent to /authorize is ever rewritten: client, redirect URI, state, nonce, scopes and
      challenge of a request are those of its creation in every later state. */
  lemma SentParametersAreFixed(w1: World, ar: OidcRequest, userID: string, newID: Id, w2: World)
    requires Reachable(w1) && Enabled(w1, DoCreate(ar, userID, newID))
    requires Admission(w1.auth.clients, ar, newID).Created?
    requires Leads(Step(w1, DoCreate(ar, userID, newID)), w2)
    ensures newID in w2.hist.held && AsSent(w2.hist.held[newID]) == AsSent(FromOidc(ar, userID, newID))
    ensures newID in w2.auth.requests ==> w2.auth.requests[newID] == w2.hist.held[newID]
  {
    ReachableInv(w1);
    StepKeepsInv(w1, DoCreate(ar, userID, newID));
    LeadsKeeps(Step(w1, DoCreate(ar, userID, newID)), w2);
  }

  predicate LogsIn(e: Event, id: Id) {
    e.DoComplete? && e.id == id && IsBuiltIn(e.subject)
  }

  lemma LoginStep(w: World, e: Event, id: Id)
    requires Inv(w) && Enabled(w, e) && id in w.auth.requests && e != DoDelete(id)
    ensures id in Step(w, e).auth.requests
    ensures var r, r' := w.auth.requests[id], Step(w, e).auth.requests[id];
            if LogsIn(e, id) then r'.userID == e.subject && r'.authTime == e.now && r'.done else r' == r
  {
  }

  lemma {:induction false} WithoutLoginNothingChanges(w: World, es: seq<Event>, id: Id)
    requires Inv(w) && Legal(w, es) && id in w.auth.requests
    requires DoDelete(id) !in es && forall e | e in es :: !LogsIn(e, id)
    ensures id in Run(w, es).auth.requests && Run(w, es).auth.requests[id] == w.auth.requests[id]
    decreases |es|
  {
    if es != [] {
      StepKeepsInv(w, es[0]);
      LoginStep(w, es[0], id);
      WithoutLoginNothingChanges(Step(w, es[0]), es[1..], id);
    }
  }

  /** Along every run, a stored request belongs to whom the last login into it chose, as of that login. */
  lemma {:induction false} LastLoginDecides(w: World, es: seq<Event>, id: Id, i: nat)
    requires Inv(w) && Legal(w, es) && id in w.auth.requests && DoDelete(id) !in es
    requires i < |es| && LogsIn(es[i], id) && forall e | e in es[i + 1..] :: !LogsIn(e, id)
    ensures id in Run(w, es).auth.requests
    ensures var r := Run(w, es).auth.requests[id];
            r.userID == es[i].subject && r.authTime == es[i].now && r.done
    decreases |es|
  {
    StepKeepsInv(w, es[0]);
    LoginStep(w, es[0], id);
    if i == 0 {
      WithoutLoginNothingChanges(Step(w, es[0]), es[1..], id);
    } else {
      assert es[1..][i..] == es[i + 1..];
      LastLoginDecides(Step(w, es[0]), es[1..], id, i - 1);
    }
  }

  /** A public client is admitted exactly with a challenge and the S256 method; a confidential one always,
      with its challenge recorded as sent unless its method is neither "S256" nor "plain". */
  lemma AdmittedExactlyWhen(clients: map<Id, Client>, ar: OidcRequest, newID: Id)
    requires ar.clientID in clients && ar.prompt != ["none"]
    ensures Admission(clients, ar, newID).Created?
            <==> (clients[ar.clientID].IsPublic() ==> ar.codeChallenge != "" && ar.codeChallengeMethod == "S256")
    ensures FromOidc(ar, "", newID).codeChallenge == Some(Challenge(ar.codeChallenge, ar.codeChallengeMethod))
            <==> ar.codeChallenge != "" && ar.codeChallengeMethod in {"S256", "plain"}
  {
  }

  /** A done request, live or only held by a caller, names a built-in identity. */
  lemma DoneRequestsNameIdentities(w: World, id: Id)
    requires Reachable(w) && id in w.hist.held && w.hist.held[id].done
    ensures IsBuiltIn(w.hist.held[id].userID)
    ensures id in w.auth.requests ==> w.auth.requests[id] == w.hist.held[id]
  {
    ReachableInv(w);
  }

  // ----- which events a request and a login go back to -------------------------------------

  /** The event is the /authorize request that made a request object, with everything the object has of it. */
  predicate Creates(e: Event, id: Id, r: AuthRecord) {
    e.DoCreate? && e.newID == id && AsSent(FromOidc(e.ar, e.userID, id)) == AsSent(r)
  }

  predicate Chooses(e: Event, id: Id, subject: string) {
    e.DoComplete? && e.id == id && e.subject == subject
  }

  lemma {:induction false} LoginWasMade(w: World, es: seq<Event>, id: Id, subject: string) returns (j: nat)
    requires Inv(w) && Legal(w, es)
    requires (id, subject) !in w.hist.logins && (id, subject) in Run(w, es).hist.logins
    ensures j < |es| && Chooses(es[j], id, subject)
    decreases |es|
  {
    StepKeepsInv(w, es[0]);
    if (id, subject) in Step(w, es[0]).hist.logins {
      OnlyCompletionLogsIn(w, es[0], id, subject);
      j := 0;
    } else {
      j := LoginWasMade(Step(w, es[0]), es[1..], id, subject);
      j := j + 1;
    }
  }

  lemma LoginAfterCreation(w: World, es: seq<Event>, id: Id, subject: string) returns (j: nat)
    requires Inv(w) && Legal(w, es) && es != []
    requires id !in w.hist.held && id in Step(w, es[0]).hist.held
    requires (id, subject) in Run(w, es).hist.logins
    ensures id in Run(w, es).hist.held && Creates(es[0], id, Run(w, es).hist.held[id])
    ensures 0 < j < |es| && Chooses(es[j], id, subject)
  {
    StepKeepsInv(w, es[0]);
    OnlyCreateMakesRequests(w, es[0], id);
    RunKeeps(Step(w, es[0]), es[1..]);
    j := LoginWasMade(Step(w, es[0]), es[1..], id, subject);
    j := j + 1;
  }

  /** A login on record was made in the run, and before it the request it went into. */
  lemma {:induction false} LoginFollowsRequest(w: World, es: seq<Event>, id: Id, subject: string)
    returns (i: nat, j: nat)
    requires Inv(w) && Legal(w, es) && id !in w.hist.held && id in Run(w, es).hist.held
    requires (id, subject) in Run(w, es).hist.logins
    ensures i < j < |es| && Creates(es[i], id, Run(w, es).hist.held[id]) && Chooses(es[j], id, subject)
    decreases |es|
  {
    StepKeepsInv(w, es[0]);
    if id in Step(w, es[0]).hist.held {
      i := 0;
      j := LoginAfterCreation(w, es, id, subject);
    } else {
      var i', j' := LoginFollowsRequest(Step(w, es[0]), es[1..], id, subject);
      i, j := i' + 1, j' + 1;
    }
  }
}
