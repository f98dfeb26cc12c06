# A verified model of the devedge-idp storage

devedge-idp is a development-only OpenID Provider. Everything it remembers sits in
one in-memory `Storage`: authorization requests and their codes, access tokens and
refresh records, device flows, and a client registry that a watcher keeps in step
with a clients file. An OpenID library calls the storage from many goroutines; the
storage takes one lock per critical section. This project models that state machine
in Dafny and proves what it keeps over every run.

## How it is built

The model has two layers.

*Values.* `TokenGraph`, `AuthFlow`, `DeviceFlow`, `Registry`, `Watcher`, `Claims` and
`Userinfo` describe each critical section as a function from one state to the next.
`TokenRuns`, `TokenSafety`, `TokenScopes` and the second halves of the other modules put these
functions into runs: any sequence of critical sections, so any number of concurrent
callers under any schedule. A `History` records what the code itself does not keep
(ids ever drawn, tokens ever handed out, codes ever saved, logins ever made) and never
influences a step. `EndToEnd` runs the parts together.

*The running storage.* `StorageState` has the classes of the program, with maps that
are updated in place, loops that delete from a map while ranging over it, and records
that callers hold pointers to. Each method is proved to do to the maps and records
exactly what its value function does to values, so what is proved about runs holds
for the methods. `ClientsFileWatcher` does the same for the polling loop.

A refresh record is one heap object for the whole life of a grant: rotation re-keys
it in place and every outstanding refresh request points to it. The value layer names
such an object by a grant number, its index in the list of all records ever allocated;
`StorageState.SetCurrentScopes` shows the aliasing on the heap.

What the caller owes is written as the `Enabled` predicate of each run: UUIDs and
authorization codes are fresh, codes are saved for live requests, a rotation presents
the refresh id its request was fetched with, and scopes are narrowed only after a
subset check (which may be arbitrarily old by the time it is applied). A theorem that
assumes `Inv` of a state covers every reachable state: `Inv` holds of a new storage and
every enabled step keeps it.

## Where the code and its documentation differ

The model follows the code.

- `ReplaceFileClients` is documented to never touch seeded clients. A file entry with a
  seeded id overwrites the seeded client, and dropping the entry later does not restore
  it (`Registry.RedeclaredSeedSticks`, `Registry.SeedSurvivesExactlyWhen`).
- The watcher is documented to reload whenever the modification time changes. An edit
  that restores the recorded time, or one between the initial load and the initial
  stat, is not picked up until another edit is (`Watcher.RestoredStampIsMissed`,
  `Watcher.StartupEditIsSeenExactlyWhen`; `Watcher.EditTakesExactlyWhen` has the exact
  condition).
- A refused rotation reports an error but leaves a stored access token behind
  (`TokenSafety.SecondCallerLeavesOrphan`, `TokenSafety.UnknownRefreshFrame`,
  `TokenSafety.ExpiredRefreshFrame`).
- Narrowing the scopes of one refresh persists in the grant, where section 6 of RFC 6749
  has the new refresh token keep the scope of the old one
  (`TokenScopes.NarrowedRotationLosesScopes`; `TokenScopes.RotationKeepsScopesExactlyWhen`
  has the exact condition).
- Ending a session leaves the refresh token of a grant whose access token was revoked
  on its own (`TokenSafety.RevokedAccessTokenShieldsRefresh`).
- Tokens of the device grant carry no client id, so no named client can revoke them
  (`TokenSafety.OtherTokensHaveNoClient`).
- Section 4.1.2 of RFC 6749 has a code be used once. The storage finds a code until its
  request is deleted, so this rests on the library deleting the request before a second
  lookup (`AuthFlow.CodeIsFoundExactlyUntilDelete`, `EndToEnd.OneCodeTwoGrants`).
- A confidential client's challenge with an unknown method is recorded as `plain`, not as
  sent (`AuthFlow.AdmittedExactlyWhen`, `AuthFlow.RequestHoldsWhatWasSent`).

## Model

| member | source | states |
|---|---|---|
| TokenSafety.TokenGraphIsSound | internal/idp/storage.go:328-445 | in every reachable state each key of the two token maps is its record's id, "" is no key, no id is in both maps, no record sits under two keys, and a token whose refresh id is live is the one that record names and agrees with it on user, client and audience |
| TokenRuns.StepKeepsInv | internal/idp/storage.go:342-445 | the whole token invariant, history included, survives access-only issue, new grant, rotation (accepted, unknown, expired), fetch, scope check, narrowing, revocation and logout |
| TokenRuns.MintKeepsInv | internal/idp/storage.go:328-340 | storing a token before anything is checked keeps the invariant, because no record names it yet |
| TokenRuns.RetireKeepsInv | internal/idp/storage.go:383-384 | deleting a refresh id together with the token its record names keeps the invariant and ends the grant |
| TokenRuns.RekeyKeepsInv | internal/idp/storage.go:388-391 | re-keying the surviving record in place keeps the invariant |
| TokenRuns.OpenKeepsInv | internal/idp/storage.go:361-372 | putting a new record into service keeps the invariant |
| TokenSafety.FirstGrantIsReachable | internal/idp/storage.go:358-374 | any request opens the first grant of a new storage, and revoking its refresh token from there removes both tokens |
| TokenSafety.AtMostOneLiveAccessToken | internal/idp/storage.go:353-393 | over every run at most one access token ever returned for a grant is live, and it is the one the grant's live refresh record names |
| TokenSafety.RevokingRefreshEndsGrant | internal/idp/storage.go:427-445 | section 2.1 of RFC 7009: revoking the current refresh token kills every access token ever returned for its grant, in every continuation, and the grant never comes back |
| TokenSafety.DeadGrantStaysDead | internal/idp/storage.go:376-393 | a grant without a live refresh id stays without one forever and none of its returned tokens is live |
| TokenSafety.RevocationIsTargeted | internal/idp/storage.go:427-445 | a revocation is refused exactly for a token of another client, changes nothing then or for an unknown id, and otherwise removes one access token alone or one refresh id with exactly the tokens that carry it |
| TokenSafety.RefreshIsExactlyOnce | internal/idp/storage.go:376-403 | in every schedule of fetches, narrowings and rotations by any number of callers at most one rotation of a refresh id succeeds, and the id is gone afterwards |
| TokenSafety.SpentIdsStaySpent | internal/idp/storage.go:376-393 | an id once drawn that is no refresh token, no access token, or was never handed out, never becomes one again |
| TokenSafety.FirstRotationSucceeds | internal/idp/storage.go:376-393 | a caller that fetched a live, unexpired refresh id and rotates it first gets tokens for the record's user |
| TokenSafety.IssueFrame | internal/idp/storage.go:358-374 | a new grant adds exactly one token and one record, paired, for 15 minutes and 24 hours, both with the request's scopes, and answers with their ids |
| TokenSafety.FirstTokensHonourRequest | internal/idp/storage.go:353-374 | the first token and record of a grant carry the user, client, audience, scopes, auth time and AMR of the request, kind by kind: of an authorization request, of the record behind a refresh request, or of any other request, which has no client |
| TokenSafety.LoneTokenFrame | internal/idp/storage.go:342-351 | an access token on its own is the one change; it is for the request's user, audience and scopes, for 15 minutes, without a refresh id, and names a client only for an authorization request |
| TokenSafety.RotationFrame | internal/idp/storage.go:376-393 | an accepted rotation is one of the grant its request was fetched for, trades exactly that grant's two ids for new ones, renews it for 24 hours and leaves every other token and record alone |
| TokenSafety.OnlyLiveGrantsRotate | internal/idp/storage.go:379-392 | tokens are answered only for a live, unexpired grant, and the answer is the two new ids and 15 minutes |
| TokenSafety.ChainIsFaithful | internal/idp/storage.go:376-403 | however often a grant rotates and whatever narrowings interleave, user, client, audience, auth time and AMR stay those of the first issue, and scopes stay within the first scopes |
| TokenScopes.OnlyNarrowingMovesScopes | internal/idp/storage.go:376-403 | along every run, whatever issues, rotations and revocations it holds, a grant's scopes are those of the last narrowing of it, or unchanged |
| TokenScopes.LastNarrowingDecides | internal/idp/authrequest.go:99 | the last narrowing by position in the run decides, and without one the scopes stay |
| TokenScopes.NarrowFrame | internal/idp/authrequest.go:99 | narrowing writes the scopes of one record and changes no token, no key, no other field and no other record |
| TokenScopes.RotationKeepsScopesExactlyWhen | internal/idp/storage.go:376-393 | a rotation hands out and keeps the scopes the grant had at any earlier moment exactly if the last narrowing of the grant since then, by any request, set those scopes or there was none |
| TokenScopes.NarrowedRotationLosesScopes | internal/idp/storage.go:376-403 | the run fetch, check, narrow, rotate ends with the new refresh token's record and access token at the narrowed scopes |
| TokenScopes.LaterNarrowingWins | internal/idp/authrequest.go:99 | of two narrowings that both passed their check the later one applied stays, also where it widens the earlier |
| TokenSafety.OtherTokensHaveNoClient | internal/idp/storage.go:675-683 | along every run, all tokens of a grant opened by a request that is neither an authorization nor a refresh request are beyond the revocation and logout of every named client |
| TokenSafety.LoneTokenHasNoClient | internal/idp/storage.go:342-351 | an access token made without a refresh token for anything but an authorization request is, for as long as it lives, beyond the revocation and logout of every named client |
| TokenSafety.StoredTokensAreKept | internal/idp/storage.go:306-340 | along every run a stored access token is removed or left exactly as it was minted |
| TokenSafety.TwoIssuesTwoGrants | internal/idp/storage.go:358-374 | a request presented twice opens two grants that are live side by side |
| TokenSafety.UnknownRefreshFrame | internal/idp/storage.go:377-382 | an unknown refresh id is answered as invalid, leaves refresh map, records and earlier tokens as they were and adds exactly one token |
| TokenSafety.ExpiredRefreshFrame | internal/idp/storage.go:383-387 | an expired refresh id is answered as expired, loses exactly its key and its paired access token, and exactly one token is added |
| TokenSafety.SecondCallerLeavesOrphan | internal/idp/storage.go:376-403 | of two callers that fetched the same refresh id the second is refused, and the token minted for it stays stored though no one was given it |
| TokenSafety.OrphanStaysUnreachable | internal/idp/storage.go:377-387 | the token a refused rotation leaves is returned to no one, named by no live record, and its refresh id is live in no later state |
| TokenSafety.CheckFirstIsAtomic | internal/idp/storage.go:376-392 | the same rotation with the check first gives the same answers and graph without the orphan, and on an unknown id changes nothing |
| TokenSafety.EndSessionIsExact | internal/idp/storage.go:405-415 | logout removes an access token exactly if its client and subject are the given ones, and a refresh id exactly if its record's are and its access token was not revoked on its own; whatever stays is unchanged |
| TokenSafety.LogoutIsComplete | internal/idp/storage.go:405-415 | in every run where no returned access token is taken away by a revocation of its own (refused revocations and tokens without a grant are free), logout leaves no access token and no refresh record with that client and user |
| TokenSafety.RevokedAccessTokenShieldsRefresh | internal/idp/storage.go:405-436 | that restriction is needed: after revoking the access token alone and logging out, the refresh token still yields a new access token for the user |
| AuthFlow.StepKeepsInv | internal/idp/storage.go:137-302 | every code names a live request, codes and requests keep their bindings, a done request belongs to someone who logged in to it, and PKCE challenges stay, through create, complete, save, delete and any registry change |
| AuthFlow.LoginBinds | internal/idp/storage.go:137-151 | for a built-in identity and a stored request, and for nothing else, login is accepted; it makes exactly that request done, for that identity and at that time, keeps what was sent, and a refusal changes nothing |
| AuthFlow.LastLoginDecides | internal/idp/storage.go:137-151 | along every run that does not delete it, a request belongs to whom the last login into it chose, as of that login |
| AuthFlow.LookupFindsExactly | internal/idp/storage.go:265-283 | a code finds the request it is bound to exactly if both are stored, and is invalid exactly if it is not |
| AuthFlow.SavedCodeIsFound | internal/idp/storage.go:275-290 | a code saved for a stored request is found, and every other code is as before |
| AuthFlow.CreationFrame | internal/idp/storage.go:226-244 | an admitted request is stored under its own id with the given client and user hint, not done, and nothing else changes; a refusal changes nothing |
| AuthFlow.RefusedExactlyWhen | internal/idp/storage.go:226-263 | each refusal at /authorize by its cause, in order: prompt none alone, an unknown client, a public client without a challenge, or with another method than S256 |
| AuthFlow.RequestHoldsWhatWasSent | internal/idp/authrequest.go:32-53 | a new request has each sent parameter in its place, is not done, and keeps a challenge under S256 or, for any other method, under plain |
| AuthFlow.LookupIsLinearizable | internal/idp/storage.go:275-283 | the two-section lookup by code fails only if an atomic lookup fails at its first section, or at its second where it reports a vanished request and the atomic one an invalid code; a success is the very answer of the atomic lookup at both |
| AuthFlow.CodesDieWithTheirRequest | internal/idp/storage.go:292-302 | section 4.1.2 of RFC 6749: after a request is deleted every code ever bound to it fails in every continuation, also for a lookup begun before |
| AuthFlow.CodeIsFoundExactlyUntilDelete | internal/idp/storage.go:275-302 | along every run a code that was found is found again exactly if the run does not delete its request |
| AuthFlow.DeleteFrame | internal/idp/storage.go:292-302 | deleting a request removes that request and its codes and nothing else |
| AuthFlow.PkceIsKept | internal/idp/storage.go:226-263 | section 4.3 of RFC 7636: a request made for a then-public client carries the sent challenge with S256 in every later state, whatever becomes of the client |
| AuthFlow.SentParametersAreFixed | internal/idp/authrequest.go:32-53 | client, redirect URI, state, nonce, scopes, prompts and challenge of a request never change after creation |
| AuthFlow.AdmittedExactlyWhen | internal/idp/storage.go:246-263 | a public client is admitted exactly with a challenge and S256, a confidential one always; a challenge is recorded as sent exactly for the two known methods |
| AuthFlow.DoneRequestsNameIdentities | internal/idp/storage.go:137-151 | a done request, stored or only held by a caller, names a built-in identity |
| AuthFlow.OidcPromptToInternal | internal/idp/authrequest.go:55-64 | the loop keeps exactly the four known prompts, in order |
| AuthFlow.KnownPromptsByParts | internal/idp/authrequest.go:55-64 | of any list of prompts the four known ones stay where they stood and the rest goes |
| DeviceFlow.StepKeepsInv | internal/idp/storage.go:594-672 | with fresh, non-empty device codes the two device maps stay inverse to each other and a completed flow names an identity that was approved |
| DeviceFlow.LookupsAgree | internal/idp/storage.go:616-637 | in every reachable state a user code leads to the flow stored with it and to no other, a device code to its flow for its client alone, and an unknown user code fails |
| DeviceFlow.StoredFlowIsFound | internal/idp/storage.go:594-627 | a flow is stored exactly for a registered client under a new user code; its client alone then finds it by its device code, its user code leads to it, it has the given scopes and expiry and is undecided; nothing else changes, and a refusal changes nothing |
| DeviceFlow.FlowIsDecidedByItsUserCode | internal/idp/storage.go:646-672 | along every run a flow keeps client, scopes and expiry, is denied exactly if a denial of its user code occurs, and done exactly if an approval of it for a built-in identity does |
| DeviceFlow.LastApprovalDecides | internal/idp/storage.go:646-661 | along every run a flow is for the identity the last approval of its user code named, as of that approval |
| DeviceFlow.ApprovedExactlyWhen | internal/idp/storage.go:646-656 | an approval is refused exactly for an unknown identity or a user code that leads nowhere, and then changes nothing |
| DeviceFlow.ApprovalTouchesOneFlow | internal/idp/storage.go:646-672 | completing or denying writes the named fields of the flow of that user code and nothing else, completing only for a built-in identity, and a refusal changes nothing |
| DeviceFlow.StoreKeepsBijectionExactlyWhen | internal/idp/storage.go:594-614 | storing keeps the maps inverse exactly if the device code is not in use |
| DeviceFlow.ReusedDeviceCodeCrossesFlows | internal/idp/storage.go:603-612 | with a reused device code the earlier user code reaches the later flow |
| DeviceFlow.UnknownUserCodeFailsExactlyWhen | internal/idp/storage.go:629-637 | the lookup through Go's zero value fails closed exactly as long as the empty string is no device code |
| Clients.LoadClientsFile | internal/idp/clientsfile.go:78-110 | the loading loop yields every entry built in order, or the complaint about the first bad entry |
| Clients.LoadingIsAllOrNothing | internal/idp/clientsfile.go:78-110 | a file loads exactly if every entry is acceptable; each loaded client is named, has what its entry says, the three grant types, and the method its secret calls for; otherwise the error is the file's or that of its first bad entry |
| Clients.AcceptableMeans | internal/idp/clientsfile.go:52-68 | which pairs of method and secret an entry may have, and the method each makes |
| Clients.ComplaintNamesTheFault | internal/idp/clientsfile.go:52-95 | what is reported of a bad entry, by its cause: an empty name first, then a missing secret, a secret on a public client, or an unsupported method |
| Clients.SeedIsTheExample | internal/idp/clients.go:134-155 | the seed is one confidential client with its known secret, its redirect URIs and the three grant types |
| Registry.ReloadsClosedForm | internal/idp/storage.go:101-112 | after any reloads, unseeded ids come from the last accepted file alone and a seeded id holds the latest declaration any file made of it |
| Registry.LastEntryWins | internal/idp/storage.go:109-111 | a file declares exactly the ids of its entries, and the last entry of an id counts |
| Registry.EarlierFilesAreForgotten | internal/idp/storage.go:96-112 | while no file redeclares a seeded id the registry is the seed overlaid with the last accepted file |
| Registry.SeedSurvivesExactlyWhen | internal/idp/storage.go:41-45 | seeded ids are never lost; a seeded client keeps its definition exactly if the latest declaration of it, if any, is that definition |
| Registry.RedeclaredSeedSticks | internal/idp/storage.go:104-111 | a file that redeclares a seeded client, after any other files and at any entry, replaces it, and later files that leave the id out do not restore it |
| Registry.AuthorizedExactlyWhen | internal/idp/storage.go:196-214 | over the shipped seed and any files, a secret authenticates exactly a registered confidential client whose own non-empty secret it is |
| Registry.RefusedExactlyWhen | internal/idp/storage.go:196-214 | each refusal of a secret by its cause: unknown client, public client, wrong secret |
| Watcher.OneQuietTickConverges | internal/idp/clientsfile.go:121-157 | over every interleaving of arbitrary edits with the split ticks, one tick over an unchanged file brings the registry to it, or keeps the last good one if it cannot be loaded, exactly if the run's last edit was noticeable or loads to what was in force; the registry is always what the accepted files make of the seed, and further ticks change nothing |
| Watcher.ConvergedRegistry | internal/idp/clientsfile.go:112-157 | the converged registry is the seed overlaid with the file, while the last edit takes and no accepted file redeclares a seeded client |
| Watcher.RegistryIsLastGood | internal/idp/clientsfile.go:139-154 | in every run, with no condition on the edits, the registry is what the files accepted so far make of the seed, and no accepted file is taken back |
| Watcher.EditTakesExactlyWhen | internal/idp/clientsfile.go:121-157 | from any state, an edit followed by any steps but no other edit is in force after a quiet tick exactly if it was noticeable when made or loads to what was in force then |
| Watcher.LastGoodStep | internal/idp/clientsfile.go:139-154 | at every step the registry is what the accepted files make of the seed |
| Watcher.FreshStampIsNoticeable | internal/idp/clientsfile.go:140-144 | a modification time the file never had is always noticeable once watching has begun |
| Watcher.RestoredStampIsMissed | internal/idp/clientsfile.go:140-145 | restoring a file with its time between the stat and the load of a tick leaves the intermediate file in force for good |
| Watcher.StartupEditIsSeenExactlyWhen | internal/idp/clientsfile.go:125-130 | an edit between the initial load and the initial stat takes effect exactly if it loads to what was read |
| Claims.StoredProfileIsNeverAsserted | internal/idp/storage.go:454-484 | directories equal in subject, name, email and apps give the same userinfo whatever tenant, roles and groups are, for scope lists with the same elements |
| Claims.OnlyEmittedClaims | internal/idp/storage.go:21-29 | a fresh assertion has the documented claims alone, name and email exactly when their scopes ask |
| Claims.AssertionFrame | internal/idp/storage.go:454-484 | on any userinfo object an assertion writes the subject, name and email as their scopes ask, the verified mark with an email, and the apps claim, and leaves everything else; it fails exactly for a subject without an entry |
| Claims.PrecedesMeans | internal/idp/storage.go:510 | the order sorted by is the lexicographic one: a proper prefix first, and otherwise the first difference |
| Claims.AppsClaimIsExact | internal/idp/storage.go:471-483 | the apps claim is strictly increasing and holds exactly the identity's own apps and all registered clients |
| Claims.UnionSorted | internal/idp/storage.go:500-512 | the dedup loop and sort give the one increasing list of the union of both inputs |
| Directory.IdentityBySubject | internal/idp/identities.go:72-79 | the loop finds the first identity with the subject |
| Directory.FirstEntryIsFound | internal/idp/identities.go:72-79 | of several entries with the subject the first is the one found |
| Directory.BuiltInIdentities | internal/idp/identities.go:41-69 | exactly alice, bob and carol can log in, each with its own entry, an email and the example app |
| Userinfo.DescriptionIsExact | internal/idp/storage.go:523-534 | userinfo fails for a missing token, an expired one, or an unknown identity, each with its own answer, and otherwise asserts the token's own user by the token's own scopes |
| Userinfo.IntrospectionIsExact | internal/idp/storage.go:536-560 | each refusal of introspection by its cause; an active answer has the token's scopes, client and expiration and the claims of the token's own user by those scopes |
| EndToEnd.LiveTokensAnswer | internal/idp/storage.go:523-560 | with tokens issued only for done requests and completed flows, every stored token and every live refresh record names a built-in identity, userinfo fails only for a missing or expired token, introspection besides only outside the audience, and both speak for the token's own user by its own scopes, whatever clients are registered by then |
| EndToEnd.GrantsStemFromAuthorize | internal/idp/storage.go:137-393 | over every run, a grant that names a client goes back to a request made at /authorize in that run for that client and to a later login into that request that chose the grant's user, and its record's and live tokens' scopes lie within those sent |
| EndToEnd.TokensNameTheChosen | internal/idp/storage.go:137-661 | over every run, each stored token and each refresh record, of whatever kind of request, names someone a login or a device approval of that run chose |
| EndToEnd.OneCodeTwoGrants | internal/idp/storage.go:275-374 | two exchanges that look one code up before its request is deleted leave two live grants for the same client and user |
| EndToEnd.EntitledApps | internal/idp/storage.go:471-498 | over any clients files an identity may enter exactly its own apps, the seeded apps and the apps of the last accepted file |
| StorageState.Storage.constructor | internal/idp/storage.go:61-85 | a new storage is empty but for its seeded clients |
| StorageState.Storage.ReplaceFileClients | internal/idp/storage.go:101-112 | the two loops replace the file-sourced clients as the registry model says |
| StorageState.Storage.AuthorizeClientIDSecret | internal/idp/storage.go:196-214 | the four answers to a presented secret; in a registry where exactly the public clients have none, it authenticates exactly a confidential client's own non-empty secret |
| StorageState.Storage.CreateAuthRequest | internal/idp/storage.go:226-244 | the answer and the new state of a /authorize request, refusals included |
| StorageState.Storage.CompleteAuthRequest | internal/idp/storage.go:137-151 | the login writes to the stored object in place what AuthFlow.LoginBinds says, answer included |
| StorageState.Storage.AuthRequestByCode | internal/idp/storage.go:275-283 | run without interference the two sections are the atomic lookup |
| StorageState.Storage.DeleteAuthRequest | internal/idp/storage.go:292-302 | the delete-while-ranging loop removes exactly the request and its codes |
| StorageState.Storage.CreateAccessToken | internal/idp/storage.go:342-351 | an access token without a grant; only an authorization request gives it a client |
| StorageState.Storage.CreateTokensLocked | internal/idp/storage.go:355-392 | the critical section of issue and rotation takes the step of the token graph on the maps and the aliased record, answer included, with auth time and AMR as they were read at any earlier moment |
| StorageState.Storage.CreateAccessAndRefreshTokens | internal/idp/storage.go:353-393 | with nothing running between the reads and the lock, issue and rotation take the step of the token graph for the request as it stands |
| StorageState.Storage.TokenRequestByRefreshToken | internal/idp/storage.go:395-403 | the answer is a pointer to the stored record |
| StorageState.SetCurrentScopes | internal/idp/authrequest.go:99 | writing scopes through a refresh request changes the record the storage holds |
| StorageState.Storage.TerminateSession | internal/idp/storage.go:405-415 | the delete-while-ranging loop takes the logout step that TokenSafety.EndSessionIsExact pins |
| StorageState.Storage.RevokeToken | internal/idp/storage.go:427-445 | revocation takes the step of the token graph, answer included |
| StorageState.Storage.SetCoarseUserinfo | internal/idp/storage.go:454-484 | the loop over scopes asserts what the set of scopes calls for, and nothing for an unknown subject |
| StorageState.Storage.AllClientIDs | internal/idp/storage.go:488-497 | whatever order the map is ranged in, the increasing list of registered client ids |
| StorageState.Storage.DescribeFound | internal/idp/storage.go:527-533 | the answer for a token found at an earlier moment, with the clients registered now, and the userinfo object it leaves |
| StorageState.Storage.SetUserinfoFromToken | internal/idp/storage.go:523-534 | with nothing running between its two lock sections, the answer for a stored token |
| StorageState.Storage.IntrospectFound | internal/idp/storage.go:540-559 | the audience loop gives the answer Userinfo.IntrospectionIsExact speaks of, for a token found at an earlier moment and the clients registered now |
| StorageState.Storage.SetIntrospectionFromToken | internal/idp/storage.go:536-560 | with nothing running between its two lock sections, the answer for a stored token |
| StorageState.Storage.StoreDeviceAuthorization | internal/idp/storage.go:594-614 | the answer and the new maps, with a state object of its own, are those DeviceFlow.StoredFlowIsFound speaks of |
| StorageState.Storage.GetDeviceAuthorizatonState | internal/idp/storage.go:616-627 | the state object of a device code, for its own client |
| StorageState.Storage.GetDeviceAuthorizationByUserCode | internal/idp/storage.go:629-637 | the state object a user code leads to |
| StorageState.Storage.CompleteDeviceAuthorization | internal/idp/storage.go:646-661 | approval writes to one flow's state object |
| StorageState.Storage.DenyDeviceAuthorization | internal/idp/storage.go:663-672 | denial writes to one flow's state object |
| StorageState.ClientsFileWatcher.InitialLoad | internal/idp/clientsfile.go:125-129 | the load before the loop takes its step of the watcher, and an error ends the watch |
| StorageState.ClientsFileWatcher.InitialStat | internal/idp/clientsfile.go:130 | the stat before the loop takes its step of the watcher |
| StorageState.ClientsFileWatcher.Poll | internal/idp/clientsfile.go:140-144 | the stat of a tick takes its step of the watcher |
| StorageState.ClientsFileWatcher.Reload | internal/idp/clientsfile.go:145-152 | the load of a tick takes its step of the watcher |

## Left out

- HTTP handlers, login and launchpad pages, cookies and the TypeScript frontend: plumbing around the storage.
- The OpenID library: an environment that calls the storage in any order that keeps the obligations above; redirect matching, the PKCE verifier check and JWT signing are not part of this model.
- The signing key and JWKS: one RSA key generated at boot, never changed.
- UUID generation: a source of ids never drawn before and never empty; that is assumed of runs, not of the methods.
- The clock: each call reads it once, where the code reads it up to three times, and nothing proved needs it to be monotonic.
- Reading and parsing the clients file: a read yields unreadable, unparseable, or a list of entries.
- Error texts: each error return is a constructor of an answer datatype.
- The nil pointer and nil slice: an absent challenge or AMR is `None` or the empty list.
- Strings: sequences of characters compared by code, as Go compares bytes.
- `sort.Strings`: an insertion sort stands in for it; only the sorted result matters.
- `GetClientByClientID`, `ClientTiles`, `GetRefreshTokenInfo`'s callers, `ValidateJWTProfileScopes`, `Health` and the constant hooks: easy members.
- `RegisterClient` beside a running watcher: exported for the future and not called, so the watcher's registry is changed by files alone.
- TokenSafety.LogoutIsComplete: covers runs in which no returned access token is revoked on its own; EndSessionIsExact has the exact outcome for all runs.
- DeviceFlow.StepKeepsInv: assumes device codes are fresh and not empty; StoreKeepsBijectionExactlyWhen and UnknownUserCodeFailsExactlyWhen are exact without it.
