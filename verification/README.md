# A verified model of rust-op's stateful core

rust-op is an OpenID Provider. This project models the parts of it whose correctness does not follow from
reading one function: the token life cycle on the in-memory store, the compare-and-set protocols on
Firestore, the calendar code behind every stored expiry, the replay and rate windows, and four parsers.
Run `dafny verify dfyconfig.toml`.

## What is modelled, and how

* **The document store** (`Documents`). `Db` gives each Firestore request its meaning on a value: read,
  create-if-absent, conditional write, conditional delete, under one version counter. `DocumentServer` is the
  server object with the client's calls on it. Every concurrent protocol is a state machine over `Db`:
  a call in flight is a value that remembers what it has read, one event is one store request (or the start
  of a call), and a run is any sequence of events. Nothing bounds the number of calls or events.
* **Protocols on it**: the administrators (`AdminRegistry`), refresh rotation (`RefreshRotation`),
  backchannel requests (`Ciba`), code redemption (`CodeRedemption`), dynamic registration
  (`RegistrationRules`, `Registration`). Each state machine carries bookkeeping that no call reads.
* **The in-memory provider**: the store object (`MemoryStore`), the code and refresh grants and the
  revocation endpoint as methods on it (`TokenGrants`), whole runs of all handlers (`HandlerRuns`), and two
  theorems about those runs: cleaning is invisible (`SweepTransparency`), reuse ends a family
  (`FamilyRevocation`, with the walk itself in `FamilyWalk`).
* **Timestamps**: `CivilCalendar` (day numbers and dates), `Rfc3339` (the text and its parser) and
  `TimestampRange` (exactly which seconds survive).
* **Windows**: `Replay` (single use of DPoP proofs, client assertions and request objects),
  `RateLimiter`.
* **Parsers**: `Localize`, `AcceptLanguage`, `Tpm`, and the host check in `RegistrationRules`.
* `Text` holds what the parsers share. `Tokens` holds the refresh token record, its document form, scope words, and the checks made before a
  presented refresh token is used.

Code that changes state in the source is a class with methods here, each proved against a function of the
old state; the theorems are about those functions and about runs of them.

## Assumptions

* Drawn ids (tokens, codes, request ids, client ids, hashes of initial access tokens) are fresh.
* One store request is atomic; a Firestore error other than a lost condition is not modelled.
* The clock never goes back, and one call reads it once.
* The JSON text of administrators, clients and constraints loses nothing; signatures, hashes and CBOR are
  inputs (`genuine`, `canSign`, `verifierHash`).
* Document fields are an enumeration rather than strings. Collections that no property is about
  (audit log, histories, accounts) appear only as writes that move the version counter.

## Where the code falls short of its own description

* A refused refresh is meant to leave the victim's tokens alone. It does, except for a detected reuse, and
  except when the client's registered algorithm has no signing key: the token is already marked used and an
  access token saved before the signer is looked up. `TokenGrants.RefusedRefreshTouchesNothing` gives the
  exact condition and `HandlerRuns.RefusedButTouched` a run; `TokenGrants.RefusedCodeTouchesNothing` and
  `HandlerRuns.RefusedExchangeTouched` are the same for codes.
* `rfc3339` prints five-digit years from second 253402300800 on. `TimestampRange.RoundTripEndsAtYear10000`
  proves, for every 64-bit second, that writing and reading it back gives it again exactly before that one
  (unsigned 64-bit arithmetic wraps in the model as it does in release builds);
  `TimestampRange.FiveDigitYearIsMisread` shows what the first of the rest is read as.
* Text put into a template is kept by `localize` exactly when the outcome nowhere spells the placeholder
  `__LANG__`, which is replaced last (`Localize.TemplatesAreLocalized`); `Localize.PlaceholderIsReplaced` is
  a text that is not kept.
* `take_code` hands a code to one caller only while its document is not deleted between mark and link. If the
  store's expiry deletes it there, linking brings back a document that has lost its used flag, and a second
  caller is handed that. `CodeRedemption.OneHolderUnlessTorn` says it takes such a deletion,
  `CodeRedemption.TornMakesTwoHolders` that a deletion still open at the link is enough, and
  `CodeRedemption.TwoHolders` is a run. The second document names no client, so tokens are still issued once
  (`CodeRedemption.TokensIssuedOncePerCode`).
* A replay revokes the linked tokens exactly when the document it reads is still stored and marked used
  (`CodeRedemption.LaterPresentationRevokes`), as it is until the code is deleted
  (`CodeRedemption.UndeletedShowsUse`); after that the tokens stay
  (`CodeRedemption.DeletedCodeRevokesNothing`).
* A replayed code takes back only the tokens linked to it. If its refresh token was rotated meanwhile, the one
  at the end of its line can still be redeemed: `FamilyRevocation.ReplayTakesBackOneToken` says exactly when,
  `HandlerRuns.ReplayLeavesSuccessor` is a run.
* `https_host` cuts a host at "/" and ":" only, and administrators may allow any host text. The host checked is
  the host the target has by section 3.2.2 of RFC 3986 exactly when it holds no "?" and no backslash and, where
  it opens an address in brackets that is closed later, is that whole address
  (`RegistrationRules.CheckedHostIsUriHost`). An access token lets no target be spoofed exactly when each of
  its hosts that can match at all is plain and, if it opens a bracket, closes it at its end and only there
  (`RegistrationRules.NeverSpoofedExactlyWhenSafe`). `RegistrationRules.QuestionMarkInHost` and
  `RegistrationRules.AddressInBrackets` are targets that are spoofed.
* `decide_revoke` guards the length of the list but removes every match. Only because no account is listed
  twice does the guard suffice (`AdminRegistry.RevokeEmptiesOnlyDuplicates`).

## Model

| member | source | states |
|---|---|---|
| CivilCalendar.CivilStep | src/firestore.rs:86-97 | For every day number, negative ones included, the result is a real date and the next day number gives the Gregorian calendar's next date (4/100/400 leap rule) |
| CivilCalendar.CivilFromDaysIsTheCalendar | src/firestore.rs:86-97 | Day n is the n-th calendar successor of 1970-01-01 |
| CivilCalendar.DaysOfCivil | src/firestore.rs:113-121 | days_from_civil undoes civil_from_days on every day number |
| CivilCalendar.CivilOfDays | src/firestore.rs:113-121 | civil_from_days undoes days_from_civil on every real date |
| CivilCalendar.LaterDayIsLaterDate | src/firestore.rs:86-97 | A later day number is a later date |
| TimestampRange.PrintedYearHasFourDigits | src/firestore.rs:76-84 | The printed year has four digits, and the text twenty characters, exactly before second 253402300800 |
| Rfc3339.RoundTrip | src/firestore.rs:76-121 | Every time up to the end of year 9999 is printed and parsed back unchanged |
| Rfc3339.TimeOrderIsStringOrder | src/firestore.rs:76-97 | Through year 9999 a time is earlier exactly when its text is lexicographically smaller |
| Rfc3339.PrintedLayout | src/firestore.rs:76-84 | Before year 10000 the text is YYYY-MM-DDThh:mm:ssZ, each mark at its place, its date the calendar's and its clock fields the second of the day |
| TimestampRange.RoundTripEndsAtYear10000 | src/firestore.rs:76-121 | For every 64-bit second: printed and parsed back it is unchanged if and only if it lies before second 253402300800 |
| TimestampRange.FiveDigitYearIsMisread | src/firestore.rs:100-111 | Witness: what the first second of year 10000 is read as, a second of the year 1000 wrapped to 64 bits |
| Rfc3339.NumberOfPadded | src/firestore.rs:76-84 | Zero-padded fields have their fixed width and read back as the number |
| Documents.VersionsNeverRecur | src/firestore.rs:679-681 | Over any requests, a document with an old version was there untouched throughout; delete and recreate never brings a version back |
| Documents.ConditionMeansUntouched | src/firestore.rs:720-780 | A version condition holds exactly when nobody touched the document at any point in between |
| Documents.CounterGrows | src/firestore.rs:679-681 | The version counter never decreases and stays above every stored version |
| Documents.DocumentServer.GetDoc | src/firestore.rs:706-718 | A read returns the stored document and its version, or nothing |
| Documents.DocumentServer.PatchDoc | src/firestore.rs:720-760 | Which precondition failure is answered, the whole new state on success with or without an update mask, no change on failure |
| Documents.DocumentServer.DeleteDoc | src/firestore.rs:762-780 | Conditional and unconditional delete, the whole new state |
| Documents.DocumentServer.SetDoc | src/firestore.rs:235-257 | An unconditional write always stores, under a new version |
| Documents.DocumentServer.MergeDoc | src/firestore.rs:610-632 | A masked write always stores, under a new version, the caller's merge with what was stored |
| Documents.DocumentServer.SetDocIfUnchanged | src/firestore.rs:327-355 | True exactly when the version was current; then and only then the document is replaced |
| Documents.DocumentServer.CreateDocIfAbsent | src/firestore.rs:360-383 | True exactly when the document was absent; then and only then it is created |
| Documents.DocumentServer.DeleteDocIfUnchanged | src/firestore.rs:386-412 | True exactly when the version was current; then and only then the document is deleted |
| AdminRegistry.NeverEmptied | src/admin_store.rs:80-139 | Over all interleavings of grants and revokes: once there is an administrator there always is one, none is listed twice, and the "inconsistent state" branch is never reached |
| AdminRegistry.CommitIsAtomic | src/admin_store.rs:80-139 | Each success is one set operation on the list of that moment: adds an absent account, or removes a present one and leaves others; anything else changes nothing |
| AdminRegistry.RevokeEmptiesOnlyDuplicates | src/admin_store.rs:112-139 | Exactly when a permitted revoke would empty the list: all entries name the revoked account, which duplicates alone allow |
| AdminRegistry.GrantAlone | src/admin_store.rs:80-108 | One call alone: exactly an account not listed is appended, with grantor and time |
| AdminRegistry.RevokeAlone | src/admin_store.rs:112-139 | One call alone: not listed, the only entry, or removed, the other entries kept |
| AdminRegistry.GrantAdmin | src/admin_store.rs:80-108 | Run alone, grants exactly when the account is not listed; new state as in the state machine |
| AdminRegistry.RevokeAdmin | src/admin_store.rs:125-139 | Run alone, the decision's result and the state machine's new state |
| Tokens.FieldsRoundTrip | src/firestore_store.rs:289-314 | A refresh token read back from the fields written for it is the same token, with the same expiry text |
| Tokens.MarkUsedFields | src/firestore_store.rs:324-342 | Marking changes the flag and the successor of the stored token and nothing else |
| Tokens.SuccessorIsHeir | src/grants.rs:315-359 | The token saved by a rotation keeps client, account, resource, key, acr, auth time and family, with a scope no wider |
| Tokens.WordsOfJoined | src/grants.rs:34-36 | Scope words are what blanks separate, blanks before them skipped |
| FamilyWalk.WalkRemovesPrefix | src/store.rs:264-275 | On every link graph, cyclic ones included, the bounded walk removes exactly the first min(limit, n) tokens of the chain |
| FamilyWalk.ChainFollowsPath | src/store.rs:264-275 | A repetition-free path of stored links that ends is the chain the walk follows |
| RefreshRotation.OneUnusedTokenPerFamily | src/grants.rs:258-371 | Over all interleavings of read, mark, save and walk steps, a family never has two unused tokens |
| RefreshRotation.MarkedByOneHandler | src/firestore_store.rs:324-342 | Two handlers never both mark the same token used |
| RefreshRotation.OnePredecessor | src/firestore_store.rs:324-342 | At most one stored token names a given successor |
| RefreshRotation.LinksAreAcyclic | src/firestore_store.rs:324-342 | A path along successor links never repeats a token |
| RefreshRotation.Provenance | src/grants.rs:277-359 | Every stored token inherits all its attributes from a first token that was really issued, scope only narrowed; links stay in the family |
| RefreshRotation.ReuseAlone | src/grants.rs:302-313 | One handler alone, from any state: a stored, unexpired, used token presented by its client with its key ends with exactly the first min(64, n) tokens of its chain deleted |
| RefreshRotation.RotateAlone | src/grants.rs:315-371 | One handler alone, from any state: an unused one for no wider scope ends used and linked, its successor stored, unused, true to it in all but name and scope, for 14 days |
| RefreshRotation.UnsignedAlone | src/grants.rs:330-342 | One handler alone with no signing key: the token is used all the same, and nothing else changes |
| RefreshRotation.RefusedAlone | src/grants.rs:268-327 | One handler alone, from any state: an unknown or expired token, a wrong client or key or a wider scope is refused and changes nothing |
| RefreshRotation.SaveRefreshToken | src/firestore_store.rs:289-314 | The stored token is the one saved |
| RefreshRotation.MarkRefreshUsed | src/firestore_store.rs:324-342 | True exactly when the token was stored and unused; only its flag and link change |
| RefreshRotation.RevokeRefreshFamily | src/firestore_store.rs:344-362 | Terminates on any stored links; removes exactly the first min(64, n) of the chain |
| CodeRedemption.OneWinnerPerCode | src/firestore_store.rs:162-204 | Over all interleavings, deletions of codes included, at most one presentation is handed a document that still names the code's client, and gets the code as it was saved |
| CodeRedemption.TokensIssuedOncePerCode | src/grants.rs:160-240 | Over all interleavings, deletions of codes included, at most one presentation of a code goes on to issue tokens |
| CodeRedemption.OneHolderUnlessTorn | src/firestore_store.rs:162-212 | Two presentations are handed anything for one code only if the code was deleted between its mark and its link |
| CodeRedemption.TornMakesTwoHolders | src/firestore_store.rs:206-212 | The other half: in any run where the winner is about to link a code that is not stored, linking and one more presentation make two holders, the second of a document that names no client |
| CodeRedemption.TwoHolders | src/firestore_store.rs:206-212 | Witness: a whole run of that kind |
| CodeRedemption.LaterPresentationRevokes | src/firestore_store.rs:162-186 | A presentation that reads a code whose tokens are linked revokes exactly those tokens if and only if the document it reads is stored and marked used; once it is denied both are gone for good, whatever is deleted before or after |
| CodeRedemption.TakeAlone | src/firestore_store.rs:162-188 | One presentation alone, from any state: a stored unused code is handed out and marked |
| CodeRedemption.IssueAlone | src/grants.rs:200-240 | One presentation alone: its tokens are stored and both linked to the code, everything else kept |
| CodeRedemption.RefusedAlone | src/grants.rs:168-214 | A handler that refuses what it was handed, or was handed a document that names no client, stores nothing |
| CodeRedemption.ReplayAlone | src/firestore_store.rs:162-186 | One presentation alone: a used code is refused and exactly the tokens linked to it deleted |
| CodeRedemption.UndeletedShowsUse | src/firestore_store.rs:162-212 | A linked code not deleted so far is stored and marked used |
| CodeRedemption.DeletedCodeRevokesNothing | src/firestore_store.rs:162-186 | Witness: after a linked code is deleted, a replay finds nothing and the linked token stays |
| CodeRedemption.TakeCode | src/firestore_store.rs:162-204 | Run alone: returned exactly when stored and unused; otherwise exactly the linked tokens go |
| CodeRedemption.LinkIssuedTokens | src/firestore_store.rs:206-212 | The links join the stored document, whose other fields are kept, or make a document of their own |
| Ciba.DecodeEncode | src/ciba.rs:76-110 | A request survives its document form, empty details becoming none |
| Ciba.OneDecisionOneGrant | src/ciba.rs:321-348 | Over all interleavings, one decision leaves Pending and one poll consumes, per request |
| Ciba.BindingIntegrity | src/grants.rs:389-446 | Tokens are issued only after a winning approval by the request's own account, to the requesting client, from exactly what was created |
| Ciba.GrantedInTime | src/grants.rs:389-446 | Over all runs: who is granted tokens read the request, and was approved by a call that read it with a verified passkey, each no later than 300 seconds after the request was made |
| Ciba.PollAlone | src/grants.rs:389-446 | One poll alone, from any state: expired and denied requests are deleted, pending ones left, only an approved, unexpired one of the client's own granted, and deleted with that |
| Ciba.ApproveAlone | src/web/ciba.rs:396-471 | One approval alone: wins exactly on the account's own pending, unexpired request with a verified passkey; only the status changes |
| Ciba.RejectAlone | src/web/ciba.rs:473-504 | One rejection alone: wins exactly on a pending, unexpired request |
| Ciba.SweepPicksTheDue | src/ciba.rs:378-392 | One sweep: picks exactly the account's pending requests past their expiry |
| Ciba.StampsInRange | src/firestore.rs:76-121 | The hypothesis of both results holds of the real timestamp text through year 9999 |
| Ciba.TransitionIfPending | src/ciba.rs:321-332 | Wins exactly on a stored pending request; then only its status changes |
| Ciba.ConsumeIfApproved | src/ciba.rs:334-348 | Returns exactly a stored approved request, and deletes it |
| Ciba.SweepExpired | src/ciba.rs:378-392 | Removes exactly the account's expired pending requests and returns their number |
| RegistrationRules.HttpsHostIsTheHost | src/dcr.rs:335-351 | The text found is h exactly when the target reads https, h up to the first "/" or ":", optional port, optional path, with no userinfo and no fragment |
| RegistrationRules.CheckedHostIsUriHost | src/dcr.rs:335-351 | For every target with a host: the host found is the host of its authority by sections 3.2 and 3.2.2 of RFC 3986 (a backslash ending the authority too) if and only if it is free of "/", "?", "#" and backslash and, where it opens a bracket that the authority closes, it closes it at its end and only there |
| RegistrationRules.NeverSpoofedExactlyWhenSafe | src/dcr.rs:202-218 | For every list of allowed hosts: all accepted targets have the host they were accepted for if and only if each listed host that can match a target is free of those characters and, if it opens a bracket, closes it at its end and only there |
| RegistrationRules.AcceptedTargetGoesToAllowedHost | src/dcr.rs:335-351 | An accepted target's authority never carries userinfo; under such hosts its host, an address in brackets included, is an allowed one |
| RegistrationRules.QuestionMarkInHost | src/dcr.rs:335-351 | Witness: a target whose host found is not its authority's |
| RegistrationRules.AddressInBrackets | src/dcr.rs:335-351 | Witness: a target with an address in brackets, of which only the beginning is found |
| RegistrationRules.AcceptedMeansWithinLimits | src/dcr.rs:189-291 | A request is accepted exactly within the token's hosts, grants and key rule; authentication follows the token's profile |
| RegistrationRules.AcceptedClientIsAsRequested | src/dcr.rs:218-291 | An accepted client has exactly the requested targets and grants (authorization_code alone by default) and, by profile, the authentication method, secret, keys and flags |
| RegistrationRules.RefusalNamesItsCause | src/dcr.rs:194-256 | Each refusal names an offending target, host or grant, in the order redirect, logout, grants, keys |
| RegistrationRules.FirstBadUriIsFirst | src/dcr.rs:202-218 | The offending target found is the first |
| RegistrationRules.SameHostMeans | src/dcr.rs:202-218 | Hosts are equal exactly when their characters are, the case of ASCII letters aside |
| RegistrationRules.NoBadUriMeansWithin | src/dcr.rs:202-218 | The scan finds nothing exactly when every target is https on an allowed host; otherwise it finds an offending one |
| RegistrationRules.AdminEditStaysWithin | src/dcr.rs:312-333 | An accepted edit stays within any host limits its client's redirect targets were within |
| RegistrationRules.AdminMaySetExactly | src/dcr.rs:312-333 | An edit is accepted exactly when each target is https on the host of one of the client's redirect targets |
| Registration.ClientsStayWithinTheirToken | src/dcr_store.rs:59-92 | Over all interleavings of mints, registrations, edits and revocations, a stored client keeps all hosts within those of the token it was drawn under |
| Registration.RegisteredUnderItsToken | src/web/oidc.rs:804-883 | The token a successful registration presented is the one its client is bound to |
| Registration.OneRegistrationPerSingleUseToken | src/dcr_store.rs:166-178 | Two calls never both succeed with a single-use token |
| Registration.OneClientPerSingleUseToken | src/dcr_store.rs:166-178 | A single-use token has at most one stored client |
| Registration.RegisterAlone | src/web/oidc.rs:804-883 | One call of the state machine alone, from any state: the same, with the stored client as requested |
| Registration.EditAlone | src/web/admin.rs:671-694 | One edit alone, from any state: only admissible logout targets are set, and nothing else changes |
| Registration.RegisterClient | src/web/oidc.rs:804-883 | Run alone: succeeds exactly on a known, unexpired token within the rate limit, with a well-formed request the token admits, and stores that client as requested; a refused request spends nothing |
| Registration.SetPostLogoutUris | src/web/admin.rs:671-694 | Run alone: only the post-logout targets of the client change, and only if admissible |
| MemoryStore.MemoryStore.ConsumeInteraction | src/store.rs:134-140 | Wins exactly on an unexpired interaction, which is gone afterwards either way |
| MemoryStore.MemoryStore.TakeCode | src/store.rs:172-200 | Unused code: marked and returned; used: its linked tokens deleted and unlinked; expired: dropped |
| MemoryStore.MemoryStore.LinkIssuedTokens | src/store.rs:201-206 | The links are recorded on the stored code, expired or not |
| MemoryStore.MemoryStore.GetRefreshToken | src/store.rs:239-249 | Returns exactly an unexpired token and drops an expired one |
| MemoryStore.MemoryStore.MarkRefreshUsed | src/store.rs:253-262 | Wins exactly on an unexpired unused token, whose flag and link change |
| MemoryStore.MemoryStore.RevokeRefreshFamily | src/store.rs:264-275 | Terminates on any links; removes exactly the first min(64, n) of the chain |
| MemoryStore.MemoryStore.ConsumeMandateIfUnused | src/store.rs:225-234 | Wins exactly once on an unexpired access token |
| MemoryStore.MemoryStore.SweepExpired | src/store.rs:282-288 | All five maps keep exactly their unexpired entries |
| TokenGrants.HandleCode | src/grants.rs:151-245 | The handler's answer and whole new store, in the source's order of effects |
| TokenGrants.HandleRefresh | src/grants.rs:258-371 | The handler's answer and whole new store, in the source's order of effects |
| TokenGrants.HandleRevoke | src/web/oidc.rs:529-542 | Only the caller's own live tokens of that name go |
| TokenGrants.CodeIsRedeemedExactly | src/grants.rs:151-245 | Tokens are issued exactly for a live unused code with matching client, redirect target, verifier and key, when they can be signed for |
| TokenGrants.CodeIssuesWhatWasAuthorized | src/grants.rs:41-140 | Issued tokens carry the authorized client, account, scope, resource, acr and auth time and the presented key, the access token for 900 seconds, the refresh token for 14 days in a family of its own; the code is spent and remembers them |
| TokenGrants.RefreshIsRotatedExactly | src/grants.rs:258-342 | A rotation happens exactly for a live unused token with matching client and key and no wider scope, when it can be signed for |
| TokenGrants.RefreshIssuesAnHeir | src/grants.rs:315-371 | The old token is used and links to an unused heir under a drawn name |
| TokenGrants.RotationCarries | src/grants.rs:315-359 | The scope granted is the one asked for or else the old one; the access token carries it, the presented key and the old token's client, account, resource, acr and auth time, for 900 seconds |
| TokenGrants.CodeRefusedFor | src/grants.rs:151-214 | Which refusal a code exchange answers, check by check in order |
| TokenGrants.PresentedCodeIsSpent | src/grants.rs:161-166 | Any presentation of a live code spends it, whatever it is refused for |
| TokenGrants.RefreshRefusedFor | src/grants.rs:268-327 | Which refusal a refresh answers, check by check in order; only a reuse rightly presented deletes, the first min(64, n) of the chain |
| TokenGrants.RevocationTakesOwn | src/web/oidc.rs:529-542 | Of the live tokens of that name, those of the calling client go and no others |
| TokenGrants.LiveUntilExpiry | src/store.rs:36-38 | An entry is live through the second before its expiry and not from it on |
| TokenGrants.RefusedRefreshTouchesNothing | src/grants.rs:277-359 | A refused refresh changes a live token exactly when it was a reuse, or passed every check with no signing key |
| TokenGrants.RefusedCodeTouchesNothing | src/grants.rs:151-240 | A refused exchange changes a live token exactly when a replayed code still had live linked tokens, or a redeemable one could not be signed for |
| HandlerRuns.RunKeepsOk | src/store.rs:235-275 | In every reachable state expiry is nondecreasing along successor links and links stay within the family |
| HandlerRuns.CodeRedeemedAtMostOnce | src/store.rs:172-200 | Over any run of handlers, a code saved once is redeemed at most once |
| HandlerRuns.TokenRotatedAtMostOnce | src/store.rs:253-262 | Over any run of handlers, a refresh token rotates at most once |
| HandlerRuns.MandateConsumedAtMostOnce | src/store.rs:225-234 | Over any run of handlers, the mandate of an access token stored once is consumed at most once |
| HandlerRuns.MandateConsumedFirst | src/store.rs:225-234 | A consumption wins exactly on an unexpired token whose mandate is unused |
| HandlerRuns.LoginsLast | src/store.rs:23-24 | An interaction is answered for 3600 seconds, a session for seven days |
| HandlerRuns.ConsumedIsGone | src/store.rs:134-140 | A consumed interaction is never answered again |
| HandlerRuns.RefusedButTouched | src/grants.rs:330-342 | A run of three calls: a code saved, redeemed, and its refresh token presented with no signing key; the call is refused and the token named is used from then on, linked to a token never saved |
| HandlerRuns.OfflineScope | src/grants.rs:34-36 | The scope that run needs exists: the word offline_access alone |
| HandlerRuns.RefusedExchangeTouched | src/grants.rs:151-222 | A run of two calls: a code saved and presented with no signing key; the call is refused, the code is used and an unanswered access token is live |
| HandlerRuns.ReplayLeavesSuccessor | src/store.rs:180-198 | Witness: a code saved, redeemed, its refresh token rotated and the code replayed; the token that replaced it can still be redeemed |
| HandlerRuns.SweepIsCleaning | src/store.rs:282-288 | The active sweep is the cleaning event that names every key |
| HandlerRuns.ServeCall | src/store.rs:117-288 | The object's calls do exactly what the runs below are made of |
| SweepTransparency.SweepsAreInvisible | src/store.rs:117-288 | Two runs of the same calls give the same answers, however sweeps, partial cleanings and lazy removals differ |
| SweepTransparency.SamePerform | src/store.rs:117-288 | One call answers alike on stores that differ only in expired entries, and leaves them so |
| SweepTransparency.SameRevoked | src/store.rs:264-275 | The family walk, which ignores expiry, deletes the same tokens in both |
| FamilyRevocation.RunKeepsLines | src/grants.rs:277-371 | In every reachable state an intact family is one line of tokens: used and linked up to the last, no gap after a live one, no token outside it |
| FamilyRevocation.ReuseEndsTheFamily | src/grants.rs:302-313 | Presenting a used live token deletes exactly the first min(64, n) tokens from it on; one of the family stays redeemable exactly when the last was and lies further |
| FamilyRevocation.ReplayTakesBackOneToken | src/store.rs:180-198 | A replayed code deletes exactly the refresh token linked to it; one of that token's intact family stays redeemable exactly when the linked token is not the last of its line and the last is redeemable |
| Replay.KeysDoNotMix | src/dpop.rs:123-127 | Prefixed keys are equal only for the same kind and jti |
| Replay.AcceptedAtMostOnce | src/nonce.rs:33-64 | Over any history, in memory or remote, the same DPoP proof, assertion or request object is never accepted twice |
| Replay.MemoryOutlivesWindow | src/client_auth.rs:187-210 | A claim outlasts the window in which its proof is timely, whole-second rounding included |
| Replay.TimelyMeans | src/client_auth.rs:185-209 | Per kind and in numbers, which times are accepted and how long the jti is remembered |
| Replay.KindsDoNotInterfere | src/request_object.rs:102-108 | Each kind gets the answers it would get with a store of its own |
| Replay.NonceStore.Claim | src/nonce.rs:33-64 | Whether the key was free and the whole new map, for both backends; an unreachable store refuses |
| Replay.NonceStore.Verify | src/dpop.rs:114-127 | Accepts, per kind and in numbers, exactly a genuine proof with a free key and times within the bounds; nothing is claimed for an untimely one |
| RateLimiter.CibaRateLimiter.CheckAndRecord | src/ciba.rs:248-266 | The answer and the key's new queue; other keys untouched |
| RateLimiter.AtMostMaxPerWindow | src/ciba.rs:248-266 | Any closed interval as long as the window holds at most max admitted calls of a key |
| RateLimiter.RefusedExactlyWhenFull | src/ciba.rs:248-266 | A call is refused exactly when max admitted calls lie in the window ending with it |
| Localize.LocalizeTemplate | src/web/i18n.rs:74-97 | The loop equals a position-by-position rewriting, then the language placeholder |
| Localize.TranslateIsFirst | src/web/i18n.rs:108-110 | The catalog's first entry for a key is its translation |
| Localize.ShownMeans | src/web/i18n.rs:86-97 | Japanese shows the translation, English the key; the placeholder becomes the language's code |
| Localize.TextThenMarker | src/web/i18n.rs:74-95 | Before the placeholder is replaced: text without a closing and not ending in an open bracket is kept, and the next known marker is still translated |
| Localize.TemplatesAreTranslated | src/web/i18n.rs:74-95 | Before the placeholder is replaced: a whole template of such texts and known markers keeps every text and translates every marker |
| Localize.TemplatesAreLocalized | src/web/i18n.rs:74-97 | The whole function keeps every text and translates every marker of such a template if and only if the outcome nowhere spells the placeholder |
| Localize.PlaceholderIsReplaced | src/web/i18n.rs:96-96 | Witness: a text without brackets that is not kept |
| Localize.UnclosedIsKept | src/web/i18n.rs:79-83 | Text without a closing is unchanged |
| Localize.NothingToReplace | src/web/i18n.rs:96-96 | Text that never mentions the placeholder is unchanged by it |
| AcceptLanguage.ParseQIsExact | src/web/i18n.rs:60-72 | Accepts exactly the weight grammar of section 12.4.2 of RFC 9110, and gives a thousand times the decimal value |
| AcceptLanguage.FromAcceptLanguage | src/web/i18n.rs:33-57 | The loop and the sort select what the list of wanted ranges selects |
| AcceptLanguage.ReadItem | src/web/i18n.rs:36-53 | One element: language of the primary subtag, last weight wins, a malformed or zero weight drops it |
| AcceptLanguage.LangOfMeans | src/web/i18n.rs:38-45 | A tag names a language exactly when its part before any hyphen is "en" or "ja" in any case of letters |
| AcceptLanguage.LastWeightCounts | src/web/i18n.rs:46-51 | A malformed weight drops the element, otherwise the last one given counts |
| AcceptLanguage.TrimMeans | src/web/i18n.rs:39-49 | Trimming takes away all blanks at both ends and nothing else |
| AcceptLanguage.SortIsStable | src/web/i18n.rs:55-55 | The sort is by descending weight, and the choices of each weight are all kept in the order they came in |
| AcceptLanguage.SelectedIsEarliest | src/web/i18n.rs:33-57 | The earliest supported element of greatest positive weight decides; English if there is none |
| AcceptLanguage.HeaderSelects | src/web/i18n.rs:33-57 | The same for a header printed from ranges, through splitting, trimming and parsing |
| Tpm.PubAreaRoundTrip | src/fido/tpm.rs:80-113 | Every RSA public area, in all variants, is read back with whatever follows it |
| Tpm.ParsePubAreaRsa | src/fido/tpm.rs:80-113 | Succeeds exactly on buffers that start with a public area, and gives that area's key |
| Tpm.AttestRoundTrip | src/fido/tpm.rs:122-138 | Every attestation is read back with whatever follows it |
| Tpm.ParseCertInfo | src/fido/tpm.rs:122-138 | Succeeds exactly on buffers that start with an attestation, and gives its fields |
| Tpm.Reader.TakeBytes | src/fido/tpm.rs:33-40 | The cursor never leaves the buffer; a failed read does not move it |
| Tpm.TrimmedEqualMeansSameNumber | src/fido/tpm.rs:55-61 | Trimmed byte strings are equal exactly when they write the same number |
| Tpm.KeyMatches | src/fido/tpm.rs:221-226 | The key comparison is exactly equality of modulus and exponent as numbers |

## Left out

- Routing, pages, mail, push, KMS, key and revocation list fetching, configuration: input and output.
- Signatures, hashes, base64, CBOR, X.509 and JSON: their results are inputs here.
- Equality of the two stores: at `expires_at == now` the in-memory store says expired and Firestore says alive, and Firestore's mark and take do not look at expiry, so it does not hold.
- FamilyRevocation.ReuseEndsTheFamily: speaks of families that lost no live token before (by the revocation endpoint, a replayed code or an earlier reuse) and of handlers run one at a time; beyond 64 links the code leaves the rest, and the theorem says when that matters.
- SweepTransparency.SweepsAreInvisible: grants by code and refresh run whole, one at a time; a sweep inside a handler is not modelled.
- CodeRedemption.LaterPresentationRevokes: deletion of a code by expiry is an event that may come at any time, not only once its expiry has passed.
- Ciba.OneDecisionOneGrant: the in-memory request store (the same transitions under one lock) and the de-duplication of pending requests are left out; the latter looks up by login hint what is stored by account.
- Ciba.BindingIntegrity: the passkey check before an approval is an arbitrary outcome of the step.
- Registration.ClientsStayWithinTheirToken: static clients stored by the migration command (src/main.rs:756-790) are drawn under no access token; the model has no such event.
- RegistrationRules.CheckedHostIsUriHost: percent-encoding, internationalised names and the stripping of blanks and controls are not decoded.
- Registration.RegisterClient: the rate limit's answer and the parsed body are inputs, and so is the secret's random draw.
- Replay.AcceptedAtMostOnce: the window check and the claim use one clock reading; 64-bit overflow of extreme claim values is not modelled; a store error refuses and is taken to leave the store as it was.
- RateLimiter.AtMostMaxPerWindow: calls are sequential with nondecreasing times; the source reads its clock before it takes the lock.
- AcceptLanguage.FromAcceptLanguage: the standard library's stable sort is modelled by insertion.
- Localize.LocalizeTemplate: the catalog is a parameter; that its keys contain no double bracket and do not end in one is the hypothesis `Sound`.
- Tpm.ParsePubAreaRsa: the certificate checks and the signature after the key comparison.
- Listing, paging and queries of the document store.
- A code or refresh request without its parameter, and the claims copied out of a request object: single-branch facts.
- Malformed stored documents, which the source replaces by defaults.
- Prompt policy, resource checks, claim lists, PKCE method: single-branch facts.
