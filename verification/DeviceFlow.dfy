/** The device grant (RFC 8628) as values: two maps that must stay each other's inverse. */
module DeviceFlow {
  import opened Common
  import opened Directory

  /** The fields of a flow's state object; the object itself is named by its device code. */
  datatype DeviceState = DeviceState(
    clientID: Id,
    scopes: seq<string>,
    expires: Time,
    subject: string,
    authTime: Time,
    amr: seq<string>,
    done: bool,
    denied: bool)

  datatype Entry = Entry(deviceCode: string, userCode: string, state: DeviceState)

  datatype Devices = Devices(entries: map<string, Entry>, userCodes: map<string, string>)

  datatype Storing = Stored | ClientUnknown | DuplicateUserCode

  function StoreAnswer(d: Devices, clients: set<Id>, clientID: Id, userCode: string): Storing {
    if clientID !in clients then ClientUnknown
    else if userCode in d.userCodes then DuplicateUserCode
    else Stored
  }

  /** StoreDeviceAuthorization. */
  function Store(d: Devices, clients: set<Id>, clientID: Id, deviceCode: string, userCode: string,
                 expires: Time, scopes: seq<string>): Devices
  {
    if StoreAnswer(d, clients, clientID, userCode) != Stored then d
    else Devices(
           d.entries[deviceCode := Entry(deviceCode, userCode,
                                         DeviceState(clientID, scopes, expires, "", ZERO_TIME, [], false, false))],
           d.userCodes[userCode := deviceCode])
  }

  /** Reading a Go map: a missing user code reads as the empty device code. */
  function DeviceCodeOf(d: Devices, userCode: string): string {
    if userCode in d.userCodes then d.userCodes[userCode] else ""
  }

  /** The flow GetDeviceAuthorizatonState reaches. */
  function ByDeviceCode(d: Devices, clientID: Id, deviceCode: string): Option<string> {
    if deviceCode in d.entries && d.entries[deviceCode].state.clientID == clientID then Some(deviceCode) else None
  }

  /** The flow GetDeviceAuthorizationByUserCode reaches. */
  function ByUserCode(d: Devices, userCode: string): Option<string> {
    if DeviceCodeOf(d, userCode) in d.entries then Some(DeviceCodeOf(d, userCode)) else None
  }

  datatype Approval = Approved | UnknownIdentity | UserCodeNotFound

  function ApprovalAnswer(d: Devices, userCode: string, subject: string): Approval {
    if !IsBuiltIn(subject) then UnknownIdentity
    else if ByUserCode(d, userCode).None? then UserCodeNotFound
    else Approved
  }

  function WithState(d: Devices, deviceCode: string, state: DeviceState): Devices
    requires deviceCode in d.entries
  {
    d.(entries := d.entries[deviceCode := d.entries[deviceCode].(state := state)])
  }

  /** CompleteDeviceAuthorization. */
  function Complete(d: Devices, userCode: string, subject: string, now: Time): Devices {
    if ApprovalAnswer(d, userCode, subject) != Approved then d
    else
      var code := DeviceCodeOf(d, userCode);
      WithState(d, code, d.entries[code].state.(subject := subject, authTime := now, amr := ["none"], done := true))
  }

  /** DenyDeviceAuthorization. */
  function Deny(d: Devices, userCode: string): Devices {
    if ByUserCode(d, userCode).None? then d
    else
      var code := DeviceCodeOf(d, userCode);
      WithState(d, code, d.entries[code].state.(denied := true))
  }

  // ----- what one call does ------------------------------------------------------------

  /** A flow is stored exactly for a registered client under a new user code. The client that stored it, and no other,
      then finds it by its device code, its user code leads to it, and it holds what was given, undecided. */
  lemma StoredFlowIsFound(d: Devices, clients: set<Id>, clientID: Id, deviceCode: string, userCode: string,
                          expires: Time, scopes: seq<string>, client: Id)
    ensures var answer := StoreAnswer(d, clients, clientID, userCode);
            var d' := Store(d, clients, clientID, deviceCode, userCode, expires, scopes);
            && (answer == Stored <==> clientID in clients && userCode !in d.userCodes)
            && (answer == ClientUnknown <==> clientID !in clients)
            && (answer != Stored ==> d' == d)
            && (answer == Stored ==>
                  && ByDeviceCode(d', client, deviceCode) == (if client == clientID then Some(deviceCode) else None)
                  && ByUserCode(d', userCode) == Some(deviceCode)
                  && deviceCode in d'.entries
                  && d'.entries[deviceCode].userCode == userCode
                  && var state := d'.entries[deviceCode].state;
                  && state.clientID == clientID && state.scopes == scopes && state.expires == expires
                  && !state.done && !state.denied && state.subject == "" && state.authTime == ZERO_TIME
                  && d'.entries - {deviceCode} == d.entries - {deviceCode}
                  && d'.userCodes - {userCode} == d.userCodes)
  {
  }

  /** An approval is refused exactly for an unknown identity or a user code that leads nowhere. */
  lemma ApprovedExactlyWhen(d: Devices, userCode: string, subject: string, now: Time)
    ensures var answer := ApprovalAnswer(d, userCode, subject);
            && (answer == Approved <==> IsBuiltIn(subject) && ByUserCode(d, userCode).Some?)
            && (answer == UnknownIdentity <==> !IsBuiltIn(subject))
            && (answer != Approved ==> Complete(d, userCode, subject, now) == d)
  {
  }

  // ----- the bijection ----------------------------------------------------------------

  /** `userCodes` and the user codes of `entries` are inverse to each other. */
  ghost predicate Bijection(d: Devices) {
    && (forall c | c in d.entries :: d.entries[c].deviceCode == c)
    && (forall u | u in d.userCodes :: d.userCodes[u] in d.entries && d.entries[d.userCodes[u]].userCode == u)
    && (forall c | c in d.entries :: d.entries[c].userCode in d.userCodes && d.userCodes[d.entries[c].userCode] == c)
  }

  /** Storing a flow keeps the bijection exactly if its device code is not in use. */
  lemma StoreKeepsBijectionExactlyWhen(d: Devices, clients: set<Id>, clientID: Id, deviceCode: string,
                                       userCode: string, expires: Time, scopes: seq<string>)
    requires Bijection(d) && StoreAnswer(d, clients, clientID, userCode) == Stored
    ensures Bijection(Store(d, clients, clientID, deviceCode, userCode, expires, scopes))
            <==> deviceCode !in d.entries
  {
    var d' := Store(d, clients, clientID, deviceCode, userCode, expires, scopes);
    if deviceCode in d.entries {
      var earlier := d.entries[deviceCode].userCode;
      assert earlier in d'.userCodes && d'.userCodes[earlier] == deviceCode;
    }
  }

  /** Where it is in use, the user code of the earlier flow now approves the later one. */
  lemma ReusedDeviceCodeCrossesFlows(d: Devices, clients: set<Id>, clientID: Id, deviceCode: string,
                                     userCode: string, expires: Time, scopes: seq<string>)
    requires Bijection(d) && StoreAnswer(d, clients, clientID, userCode) == Stored && deviceCode in d.entries
    ensures var d' := Store(d, clients, clientID, deviceCode, userCode, expires, scopes);
            ByUserCode(d', d.entries[deviceCode].userCode) == ByUserCode(d', userCode) == Some(deviceCode)
  {
  }

  /** An unknown user code fails exactly as long as the empty string is no device code. */
  lemma UnknownUserCodeFailsExactlyWhen(d: Devices, userCode: string)
    requires userCode !in d.userCodes
    ensures ByUserCode(d, userCode).None? <==> "" !in d.entries
  {
  }

  // ----- runs -----------------------------------------------------------------------------

  datatype Event =
    | DoStore(clients: set<Id>, clientID: Id, deviceCode: string, userCode: string, expires: Time, scopes: seq<string>)
    | DoComplete(userCode: string, subject: string, now: Time)
    | DoDeny(userCode: string)

  /** Ghost bookkeeping: every device code ever presented for storing, and every identity ever approved. */
  datatype World = World(devices: Devices, used: set<string>, approved: set<string>)

  const INIT: World := World(Devices(map[], map[]), {}, {})

  /** Device codes are drawn fresh and are not empty. */
  predicate Enabled(w: World, e: Event) {
    e.DoStore? ==> e.deviceCode != "" && e.deviceCode !in w.used
  }

  function Step(w: World, e: Event): World {
    match e
    case DoStore(clients, clientID, deviceCode, userCode, expires, scopes) =>
      w.(devices := Store(w.devices, clients, clientID, deviceCode, userCode, expires, scopes),
         used := w.used + {deviceCode})
    case DoComplete(userCode, subject, now) =>
      w.(devices := Complete(w.devices, userCode, subject, now),
         approved := if ApprovalAnswer(w.devices, userCode, subject) == Approved then w.approved + {subject}
                     else w.approved)
    case DoDeny(userCode) => w.(devices := Deny(w.devices, userCode))
  }

  ghost predicate Inv(w: World) {
    && Bijection(w.devices)
    && "" !in w.devices.entries
    && w.devices.entries.Keys <= w.used
    && (forall c | c in w.devices.entries && w.devices.entries[c].state.done ::
          w.devices.entries[c].state.subject in w.approved)
    && (forall s | s in w.approved :: IsBuiltIn(s))
  }

  lemma StoreKeepsInv(w: World, e: Event)
    requires Inv(w) && Enabled(w, e) && e.DoStore?
    ensures Inv(Step(w, e))
  {
    if StoreAnswer(w.devices, e.clients, e.clientID, e.userCode) == Stored {
      StoreKeepsBijectionExactlyWhen(w.devices, e.clients, e.clientID, e.deviceCode, e.userCode, e.expires, e.scopes);
    }
  }

  lemma WithStateKeepsBijection(d: Devices, deviceCode: string, state: DeviceState)
    requires Bijection(d) && deviceCode in d.entries
    ensures Bijection(WithState(d, deviceCode, state))
    ensures WithState(d, deviceCode, state).entries.Keys == d.entries.Keys
  {
  }

  lemma ApprovalKeepsInv(w: World, e: Event)
    requires Inv(w) && Enabled(w, e) && e.DoComplete?
    ensures Inv(Step(w, e))
  {
    if ApprovalAnswer(w.devices, e.userCode, e.subject) == Approved {
      var code := DeviceCodeOf(w.devices, e.userCode);
      WithStateKeepsBijection(w.devices, code, Step(w, e).devices.entries[code].state);
    }
  }

  lemma DenialKeepsInv(w: World, e: Event)
    requires Inv(w) && Enabled(w, e) && e.DoDeny?
    ensures Inv(Step(w, e))
  {
    if ByUserCode(w.devices, e.userCode).Some? {
      var code := DeviceCodeOf(w.devices, e.userCode);
      WithStateKeepsBijection(w.devices, code, Step(w, e).devices.entries[code].state);
    }
  }

  lemma StepKeepsInv(w: World, e: Event)
    requires Inv(w) && Enabled(w, e)
    ensures Inv(Step(w, e))
  {
    match e
    case DoStore(_, _, _, _, _, _) => StoreKeepsInv(w, e);
    case DoComplete(_, _, _) => ApprovalKeepsInv(w, e);
    case DoDeny(_) => DenialKeepsInv(w, e);
  }

  ghost predicate Legal(w: World, es: seq<Event>)
    decreases |es|
  {
    es == [] || (Enabled(w, es[0]) && Legal(Step(w, es[0]), es[1..]))
  }

  ghost function Run(w: World, es: seq<Event>): World
    decreases |es|
  {
    if es == [] then w else Run(Step(w, es[0]), es[1..])
  }

  lemma RunFromFirst(w: World, e: Event, es: seq<Event>)
    ensures Legal(w, [e] + es) <==> Enabled(w, e) && Legal(Step(w, e), es)
    ensures Run(w, [e] + es) == Run(Step(w, e), es)
  {
    assert ([e] + es)[1..] == es;
  }

  lemma {:induction false} RunKeepsInv(w: World, es: seq<Event>)
    requires Inv(w) && Legal(w, es)
    ensures Inv(Run(w, es))
    decreases |es|
  {
    if es != [] {
      StepKeepsInv(w, es[0]);
      RunKeepsInv(Step(w, es[0]), es[1..]);
    }
  }

  /** In every reachable state the two ways of looking a flow up reach the same state object, and a user code
      that was never stored reaches none, though it is looked up under the empty device code. */
  lemma LookupsAgree(es: seq<Event>, userCode: string, deviceCode: string)
    requires Legal(INIT, es)
    ensures var d := Run(INIT, es).devices;
            && (ByUserCode(d, userCode) == Some(deviceCode)
                <==> deviceCode in d.entries && d.entries[deviceCode].userCode == userCode)
            && (forall client :: ByDeviceCode(d, client, deviceCode) ==
                                   if deviceCode in d.entries && d.entries[deviceCode].state.clientID == client
                                   then Some(deviceCode) else None)
            && (userCode !in d.userCodes ==> ByUserCode(d, userCode) == None)
            && (deviceCode in d.entries && d.entries[deviceCode].state.done ==>
                  IsBuiltIn(d.entries[deviceCode].state.subject))
  {
    RunKeepsInv(INIT, es);
  }

  /** Completing or denying a flow changes that flow's state and nothing else; a refusal changes nothing. */
  lemma ApprovalTouchesOneFlow(w: World, userCode: string, subject: string, now: Time)
    requires Inv(w)
    ensures var d := w.devices;
            var completed := Complete(d, userCode, subject, now);
            var denied := Deny(d, userCode);
            && completed.userCodes == denied.userCodes == d.userCodes
            && completed.entries.Keys == denied.entries.Keys == d.entries.Keys
            && (forall c | c in d.entries && d.entries[c].userCode != userCode ::
                  completed.entries[c] == denied.entries[c] == d.entries[c])
            && (forall c | c in d.entries && d.entries[c].userCode == userCode ::
                  && denied.entries[c].userCode == completed.entries[c].userCode == userCode
                  && denied.entries[c].deviceCode == completed.entries[c].deviceCode == c
                  && denied.entries[c].state == d.entries[c].state.(denied := true)
                  && completed.entries[c].state ==
                       (if IsBuiltIn(subject) then
                          d.entries[c].state.(subject := subject, authTime := now, amr := ["none"], done := true)
                        else d.entries[c].state))
            && (userCode !in d.userCodes ==> completed == denied == d)
  {
  }

  // ----- a flow's fate ----------------------------------------------------------------------

  predicate Approves(e: Event, userCode: string) {
    e.DoComplete? && e.userCode == userCode && IsBuiltIn(e.subject)
  }

  /** What was stored of a flow, and what its user code has decided of it so far. */
  ghost predicate Follows(f: Entry, e: Event, f': Entry) {
    && f'.userCode == f.userCode
    && f'.state.clientID == f.state.clientID
    && f'.state.scopes == f.state.scopes && f'.state.expires == f.state.expires
    && (f'.state.denied <==> f.state.denied || e == DoDeny(f.userCode))
    && (f'.state.done <==> f.state.done || Approves(e, f.userCode))
    && f'.state.subject == (if Approves(e, f.userCode) then e.subject else f.state.subject)
    && f'.state.authTime == (if Approves(e, f.userCode) then e.now else f.state.authTime)
  }

  lemma OneFlowPerUserCode(d: Devices, userCode: string, c: string)
    requires Bijection(d) && "" !in d.entries && c in d.entries
    ensures ByUserCode(d, userCode) == Some(c) <==> d.entries[c].userCode == userCode
  {
  }

  lemma ApprovalStep(d: Devices, e: Event, c: string)
    requires Bijection(d) && "" !in d.entries && e.DoComplete? && c in d.entries
    ensures var d' := Complete(d, e.userCode, e.subject, e.now);
            c in d'.entries && Follows(d.entries[c], e, d'.entries[c])
  {
    OneFlowPerUserCode(d, e.userCode, c);
  }

  lemma DenialStep(d: Devices, e: Event, c: string)
    requires Bijection(d) && "" !in d.entries && e.DoDeny? && c in d.entries
    ensures var d' := Deny(d, e.userCode);
            c in d'.entries && Follows(d.entries[c], e, d'.entries[c])
  {
    OneFlowPerUserCode(d, e.userCode, c);
  }

  lemma FlowStep(w: World, e: Event, c: string)
    requires Bijection(w.devices) && "" !in w.devices.entries && w.devices.entries.Keys <= w.used
    requires Enabled(w, e) && c in w.devices.entries
    ensures c in Step(w, e).devices.entries
    ensures Follows(w.devices.entries[c], e, Step(w, e).devices.entries[c])
  {
    match e
    case DoStore(_, _, _, _, _, _) =>
    case DoComplete(_, _, _) => ApprovalStep(w.devices, e, c);
    case DoDeny(_) => DenialStep(w.devices, e, c);
  }

  /** A stored flow keeps its user code, client, scopes and expiry for good. It is denied exactly if it was or a denial
      of its user code is in the run, and done exactly if it was or an approval for a built-in identity is. */
  lemma {:induction false} FlowIsDecidedByItsUserCode(w: World, es: seq<Event>, c: string)
    requires Inv(w) && Legal(w, es) && c in w.devices.entries
    ensures var f := w.devices.entries[c];
            && c in Run(w, es).devices.entries
            && var f' := Run(w, es).devices.entries[c];
            && f'.userCode == f.userCode
            && f'.state.clientID == f.state.clientID
            && f'.state.scopes == f.state.scopes && f'.state.expires == f.state.expires
            && (f'.state.denied <==> f.state.denied || DoDeny(f.userCode) in es)
            && (f'.state.done <==> f.state.done || exists e | e in es :: Approves(e, f.userCode))
    decreases |es|
  {
    if es != [] {
      StepKeepsInv(w, es[0]);
      FlowStep(w, es[0], c);
      FlowIsDecidedByItsUserCode(Step(w, es[0]), es[1..], c);
      assert forall e :: e in es <==> e == es[0] || e in es[1..];
    }
  }

  lemma {:induction false} WithoutApprovalNothingDecides(w: World, es: seq<Event>, c: string)
    requires Inv(w) && Legal(w, es) && c in w.devices.entries
    requires forall e | e in es :: !Approves(e, w.devices.entries[c].userCode)
    ensures c in Run(w, es).devices.entries
    ensures Run(w, es).devices.entries[c].state.subject == w.devices.entries[c].state.subject
    ensures Run(w, es).devices.entries[c].state.authTime == w.devices.entries[c].state.authTime
    decreases |es|
  {
    if es != [] {
      StepKeepsInv(w, es[0]);
      FlowStep(w, es[0], c);
      WithoutApprovalNothingDecides(Step(w, es[0]), es[1..], c);
    }
  }

  /** Whom a flow is approved for, and when: the last approval of its user code in the run decides. */
  lemma {:induction false} LastApprovalDecides(w: World, es: seq<Event>, c: string, i: nat)
    requires Inv(w) && Legal(w, es) && c in w.devices.entries
    requires i < |es| && Approves(es[i], w.devices.entries[c].userCode)
    requires forall e | e in es[i + 1..] :: !Approves(e, w.devices.entries[c].userCode)
    ensures c in Run(w, es).devices.entries
    ensures Run(w, es).devices.entries[c].state.subject == es[i].subject
    ensures Run(w, es).devices.entries[c].state.authTime == es[i].now
    decreases |es|
  {
    StepKeepsInv(w, es[0]);
    FlowStep(w, es[0], c);
    var w1 := Step(w, es[0]);
    assert w1.devices.entries[c].userCode == w.devices.entries[c].userCode;
    if i == 0 {
      WithoutApprovalNothingDecides(w1, es[1..], c);
    } else {
      assert es[1..][i..] == es[i + 1..];
      LastApprovalDecides(w1, es[1..], c, i - 1);
    }
  }

  lemma OnlyCompletionApproves(w: World, e: Event, subject: string)
    requires subject !in w.approved && subject in Step(w, e).approved
    ensures e.DoComplete? && e.subject == subject
  {
  }

  /** An approval on record was made in the run. */
  lemma {:induction false} ApprovalWasMade(w: World, es: seq<Event>, subject: string) returns (j: nat)
    requires Legal(w, es) && subject !in w.approved && subject in Run(w, es).approved
    ensures j < |es| && es[j].DoComplete? && es[j].subject == subject
    decreases |es|
  {
    if subject in Step(w, es[0]).approved {
      OnlyCompletionApproves(w, es[0], subject);
      j := 0;
    } else {
      j := ApprovalWasMade(Step(w, es[0]), es[1..], subject);
      j := j + 1;
    }
  }
}
