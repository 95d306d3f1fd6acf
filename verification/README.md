# Identity, sessions, limits, audit trail and stored secrets: a verified model

A Dafny model of the deciding code of an identity backend and of the browser extension beside it, with
proofs of what that code promises. `dafny verify dfyconfig.toml` checks everything.

* **Sessions.** Refresh-token rotation (section 10.4 of RFC 6749) as programs that interleave store call by
  store call: `Store` (the atomic calls), `Rotation` and `RotationSafety` (programs, invariants, results over
  runs), `MemoryStore`, `SessionService` and `AccountService` (the code, proved to be those programs); what the calls
  answer and leave behind, said without the programs: `SessionAnswers`.
* **Identities.** Sign-in, link and unlink under the same kind of interleaving: `Identity`, `IdentitySafety`,
  `BootstrapFate`, `BootstrapSecrecy`, `IdentityRuns`, `IdentityService`; the
  answers in `IdentityAnswers`; addresses in `EmailAddress`.
* **Google challenges.** Callback, exchange and link completion: `Challenges`, `GoogleAuth`, `GoogleExchange`,
  `GoogleOverlap`, `GoogleRuns`; what a session or link rests on in `GoogleProvenance`, a flow from end to end in
  `GoogleJourney`. Runs that are written out draw their names from `Naming`.
* **Schema.** One descriptor read by a table engine and by a DDL renderer: `Schema`, `Engine`, `EngineSafety`,
  `Ddl`, `DdlReplay`, `DdlCoverage`, `DdlAgreement`, `SchemaAgreement`; the five typed tables as rows of it and
  the typed writes as the engine's: `Devices`, `StoreSchema`, `StoreEmbedding`, `ChallengeEmbedding`; all services
  over one database: `Server`, `StoreSafety`; where the engine falls short: `SchemaGaps`.
* **Codes and limits.** `RateLimiter`, `Otp`, `OtpStore`, their composition `EmailAuth`, and that a code sent is good: `EmailDelivery`.
* **Audit trail.** `Json`, `AuditRecord`, `AuditTrail`, `AuditSafety`, `AuditRetention`, `AuditDetection`, `AuditLog`, and the
  width arithmetic in `Boundaries`.
* **Tokens and stored secrets.** `Base64`, `Utf8`, `AccessToken`, `Envelope`, `ProtectExisting`.

Where the code works by assignment and loops the model does too: a class with the same fields, or a method
with the same loop, proved against a function; the results are then proved about that function.

## How a run is modelled

One store call is one atomic step, because the in-memory adapter has no `await` inside a call; anything may
happen between two calls. A caller is the name of its next call with the values it has read. Identifiers,
tokens and digests are drawn fresh. In `Rotation` a caller may stop for good at any point except between
inserting a successor and acting on the re-read that follows it. `SessionService.RotateSession` takes
the tables as they are at each of its calls as an argument, so its contract covers every interference. `Server`
lets the programs of `Rotation`, `Identity` and `GoogleAuth` and the device calls interleave over all five tables.

## Where the code does less than it says

Each of these comes with an input on which the promise fails, and with a lemma that says when it holds.

* Two exchanges of one Google code that overlap both create a session (`GoogleRuns.OneCodeTwoSessions`, a run from
  empty tables), exactly when both are let on at the count and accepted (`GoogleOverlap.TwoSessionsExactly`).
* A bootstrap session stays unrevoked when it had expired by the time its own flow came to verify it
  (`IdentityRuns.ExpiryLeavesASession`), and for no other reason as long as whatever is done to an account is done
  through a session that was handed out (`BootstrapSecrecy.OnlyTheClock`); `BootstrapFate.SurvivesExactly` decides it
  with no such condition on the calls.
* The restated check on address domains passes a capitalised word without `@` that the rendered check refuses
  (`EmailAddress.TwinsAgreeExactly`, `EmailAddress.TwinsDisagree`), and a Google subject that nobody holds is
  refused as if somebody did when the address that comes with it is only `@` and a capitalised domain
  (`IdentitySafety.AttachRefusedExactly`, `IdentityRuns.FreeSubjectRefused`).
* An update does not look at foreign keys again, and a delete not at the rows that lead to it
  (`EngineSafety.UpdateKeepsSoundExactly`, `EngineSafety.DeleteKeepsSoundExactly`, `SchemaGaps.SmallDangles`).
* The engine stores a revocation reason without a revocation; the rendered table does not
  (`SchemaAgreement.SchemaAgreement`, `SchemaGaps.ReasonAdmitted`).
* With record times out of order an append can leave a trail the checker calls a gap
  (`AuditDetection.AppendSoundExactly`, `AuditDetection.ExpiryOutOfOrderLooksLikeAGap`).
* Text in a numeric audit field passes the shape check and can break the width bound
  (`Boundaries.ValueWidthExactly`, `Boundaries.RecordFitsExactly`, `Boundaries.TextInNumericField`).
* A key id with a bar in it can be confused with part of a storage key (`Envelope.EditedKeyId`,
  `Envelope.ConfusedKeyId`); restoring changes what a record reads as when its sealed value is shaped like an
  envelope (`ProtectExisting.RevertingKeepsWorthExactly`, `ProtectExisting.SealedEnvelopeLost`).

## Model

| member | source | states |
|---|---|---|
| Rotation.StepKeepsInv | server/app/session-service.ts:145-258 | Every step of every caller keeps: one unrotated row or one open claim per family, snapshots stale only in harmless ways, one owner and provenance per family |
| RotationSafety.NeverForks | server/app/session-service.ts:172-250 | At every moment of every run a family has at most one place: an unrotated row, or a claim whose row is on its way |
| RotationSafety.OneSuccessor | server/db/memory-store.ts:320-330 | No row is ever given two successors, whoever presents its token and however often |
| RotationSafety.NothingUndone | server/db/memory-store.ts:162-185 | Over any stretch of a run session and account rows stay, write-once columns keep their values, and rotation, revocation and deletion are not undone |
| RotationSafety.RevocationIsComplete | server/app/session-service.ts:192-250 | Once a revocation has reached a family, every later settled state has all its rows revoked, successors inserted after the revocation included |
| RotationSafety.UnlinkingWins | server/app/identity-service.ts:280-310 | Unlinking leaves no unrevoked descendant of the sessions the identity had established |
| RotationSafety.DeletingFirstRevokesNothing | server/app/identity-service.ts:292-303 | With the two writes swapped the revocation would select nothing |
| RotationSafety.ReuseRevokesTheFamily | server/app/session-service.ts:151-206 | A caller shown a rotated row, or beaten to the claim, ends with the whole family revoked |
| SessionService.SessionService.RotateSession | server/app/session-service.ts:145-258 | The code makes exactly the store calls of the rotation program, each on whatever tables it then finds, and ends with its outcome |
| SessionAnswers.LiveRowIsExchanged | server/app/session-service.ts:145-258 | Left alone a token is exchanged if and only if its row is unrotated, unrevoked and unexpired, its account is open, and the drawn names are free |
| SessionAnswers.RotationHandsOver | server/app/session-service.ts:208-258 | What that leaves: the digest of the new token finds one row and no other, in the family of the old one, for its account and identity, for thirty days; the old row is rotated, nothing else changes |
| SessionAnswers.NewTokenWorks | server/app/session-service.ts:208-258 | The new token is exchanged again exactly within those thirty days, while the account is open and there is room for the next row |
| SessionAnswers.OldTokenRevokes | server/app/session-service.ts:151-163 | The old token presented again issues nothing and revokes the family, the new row included |
| SessionAnswers.IssuedUnderInterference | server/app/session-service.ts:145-258 | Whatever others write between the calls: a token is issued if and only if each of the five calls finds what it looks for, and then the stored row is a new session of that family |
| SessionAnswers.UnknownAndExpired | server/app/session-service.ts:146-171 | `AUTH_REQUIRED`, and nothing changed, exactly for a token without a row and for one whose live row has expired |
| SessionAnswers.CreatedExactly | server/app/session-service.ts:85-123 | A session is created exactly for an open account, through no identity or one of its own, where the names are free; otherwise nothing changes |
| SessionAnswers.FirstTokenWorks | server/app/session-service.ts:85-123 | Its token is exchanged exactly within thirty days, in any later tables that have its row as it was left |
| SessionAnswers.LogoutEndsOne | server/app/session-service.ts:281-288 | A logout revokes the row it names and changes no other row of any table |
| SessionAnswers.LogoutEverywhereEndsAll | server/app/session-service.ts:291-299 | A sign-out everywhere revokes every session of the account and touches no other |
| SessionAnswers.LoggedOutForGood | server/app/session-service.ts:281-288 | Over any run a session logged out is revoked in every later state, and its token gets no further than the first read |
| MemoryStore.MemoryStore.FindSessionByDigest | server/db/memory-store.ts:316-318 | The scan returns a row with the digest, or there is none |
| MemoryStore.MemoryStore.InsertSession | server/db/memory-store.ts:308-310 | Stores the row exactly when primary key, unique digest and both foreign keys allow it |
| MemoryStore.MemoryStore.ClaimSessionRotation | server/db/memory-store.ts:320-330 | Stamps an unrotated row and says so, or changes nothing |
| MemoryStore.MemoryStore.RevokeWhere | server/db/memory-store.ts:355-361 | Marks every selected unrevoked row, leaves all others, and counts them |
| MemoryStore.MemoryStore.DeleteIdentity | server/db/memory-store.ts:293-304 | Clears the provenance of the identity's sessions and removes it |
| MemoryStore.MemoryStore.InsertIdentity | server/db/memory-store.ts:260-262 | Stores the identity exactly when key, restated check, partial uniques and owner allow it |
| MemoryStore.MemoryStore.FindIdentity | server/db/memory-store.ts:268-283 | The scan returns a row of the kind with the subject, or with the verified address, or there is none |
| AccountService.AccountService.CreateAccount | server/app/account-service.ts:34-44 | Adds one open account and nothing else |
| AccountService.AccountService.MarkAccountDeleted | server/app/account-service.ts:70-82 | Refuses an absent or closed account; otherwise it is closed and none of its sessions is left unrevoked |
| AccountService.ClosingCloses | server/app/account-service.ts:70-82 | After both writes a deleted account has its date and no unrevoked session |
| AccountService.ClosingIsTheProgram | server/app/account-service.ts:70-82 | The steps of the interleaving model, left alone, end in those tables |
| IdentitySafety.StepKeepsInv | server/app/identity-service.ts:187-255 | Every step of every sign-in and link keeps one row per key, results that stand, and every bootstrap session accounted for |
| IdentitySafety.OneOwner | server/app/identity-service.ts:134-180 | A subject, or a verified address of a kind without subjects, has one row and so one owner |
| IdentitySafety.OwnerNeverChanges | server/db/schema.ts:249-307 | A row there at two moments has the same owner, kind, subject and address, however it was unlinked or linked in between |
| IdentitySafety.SignInsAgree | server/app/google-auth-service.ts:511-554 | Two callers that proved the same thing and succeeded were told the same account and identity |
| IdentityAnswers.ClosedIsRefused | server/app/google-auth-service.ts:515-523 | Over any run: who has not looked for the owner, or not checked its account, when an account is closed is never signed in or linked to it |
| IdentityAnswers.KnownResolvesExactly | server/app/email-auth-service.ts:533-545 | A known identity resolves, to its owner and itself, if and only if the owner is there and open at the read; a closed one is answered as such |
| IdentityAnswers.KnownSignInExactly | server/app/google-auth-service.ts:515-523 | The same of a returning sign-in from its start |
| IdentityAnswers.OwnSessionCheckedExactly | server/app/session-service.ts:267-273 | A flow gets past the check of its own session exactly if that is there, unrevoked and unexpired |
| IdentityAnswers.AccountCheckedExactly | server/app/identity-service.ts:187-210 | Wherever an account is looked at, the flow goes on exactly if it is there and open |
| IdentityAnswers.FirstSignInExactly | server/app/google-auth-service.ts:525-553 | A first sign-in resolves if and only if the proof is usable, its bootstrap session has not expired and the table takes the identity; then to a new open account with exactly that identity, every column named; its session is revoked whatever it answers, the clock apart |
| IdentityAnswers.AttachExactly | server/app/identity-service.ts:187-255 | A link resolves if and only if the proof is usable, the account open, and the identity is its own already or nobody's and storable; the row stored is named column by column, and any other answer changes nothing |
| IdentityAnswers.OnlyVerifiedAddresses | server/app/identity-service.ts:319-334 | No run ever stores an identity with an address that was not verified or is not in its compared form |
| IdentitySafety.LosersWriteNothing | server/app/identity-service.ts:211-255 | A refused caller has inserted no identity row |
| BootstrapFate.SurvivesExactly | server/app/email-auth-service.ts:546-573 | Over any run, whatever comes from outside, when all callers are through a bootstrap session is unrevoked if and only if its flow was refused by the clock or on a closed account and no outside revocation ever covered it |
| BootstrapSecrecy.OnlyTheClock | server/app/session-service.ts:260-278 | A principal comes from a session only; so where closings, links, revocations and further sessions come by way of sessions that were handed out, a bootstrap session is unrevoked in a quiet state if and only if its own check met the clock |
| IdentityRuns.ExpiryLeavesASession | server/app/session-service.ts:267-278 | A run that ends so: one first sign-in, resumed when its bootstrap session has expired |
| IdentitySafety.AttachRefusedExactly | server/app/identity-service.ts:222-249 | An attach is refused at the write exactly when the key is taken, or the address is a bare domain with capitals |
| IdentityRuns.FreeSubjectRefused | server/app/identity-service.ts:222-249 | A run that reaches the second case with no identity stored: a Google assertion for `@EXAMPLE.COM` |
| IdentityService.IdentityService.AttachIdentity | server/app/identity-service.ts:187-255 | The code is the attach program: same outcome, same tables |
| IdentityService.IdentityService.DetachIdentity | server/app/identity-service.ts:280-310 | Refuses a stranger's or the last identity and changes nothing; otherwise revokes, then removes, and the account can still be signed in to |
| EmailAddress.NormaliseTwice | server/app/identity-service.ts:88-95 | Normalising is settled after one go |
| EmailAddress.MergesExactly | server/app/identity-service.ts:45-95 | Any two addresses become one exactly when once trimmed they are the same, or both split and have identical local parts and domains that differ in case at most |
| EmailAddress.NormalisesTo | server/app/identity-service.ts:88-95 | An address with any space around it becomes its local part as it is and its domain in lower case |
| EmailAddress.OthersAreTrimmed | server/app/identity-service.ts:89-93 | What has not two sides of an `@` is trimmed and nothing else |
| EmailAddress.UsableMeetsTheCheckExactly | server/app/identity-service.ts:319-334 | A usable address meets the table's check unless it is only `@` and a domain with capitals |
| EmailAddress.TwinsAgreeExactly | server/db/schema.ts:348-361 | The two statements of that check agree exactly on addresses with an `@` or without capitals |
| EmailAddress.TwinsDisagree | server/db/schema.ts:113-117 | An input on which they do not |
| EmailAddress.DeliverableIsStorable | server/app/email-auth-service.ts:139-153 | Every address a code is sent to is usable and passes both statements |
| EmailAddress.DeliverableExactly | server/app/email-auth-service.ts:139-153 | A code is sent exactly to at most 254 visible ASCII characters that are a name, an `@` and a domain of two labels or more, none empty |
| Challenges.ChallengeStore.Insert | server/db/memory-store.ts:369-371 | Stores the row exactly when primary key, unique state, unique digest and the account's foreign key allow it |
| Challenges.ChallengeStore.Consume | server/db/memory-store.ts:392-399 | Only the call that finds the row unspent spends it and is told so |
| Challenges.ChallengeStore.FindByDigest | server/db/memory-store.ts:381-383 | The scan finds the one row with the digest |
| Challenges.ChallengeStore.PurgeExpired | server/db/memory-store.ts:455-461 | Exactly the rows past their life go, and are counted |
| GoogleAuth.StepKeepsInv | server/app/google-auth-service.ts:196-496 | Every step of every callback, exchange and link completion keeps the rows of the two flows apart and the spent rows spent |
| GoogleAuth.SpentOnce | server/app/google-auth-service.ts:219-222 | In any interleaving a challenge is redeemed by one callback |
| GoogleAuth.FlowsNeverMix | server/app/google-auth-service.ts:244-306 | No row carries both outcomes; an exchange completes sign-in rows only, a link link rows only |
| GoogleProvenance.LinkIsBound | server/app/google-auth-service.ts:463-466 | Over any run a link is only let through for the challenge that was presented and for the account that started it |
| GoogleProvenance.SessionIsProven | server/app/google-auth-service.ts:196-389 | Over any run a session is for the account and identity resolved by the one callback that spent the challenge and minted the code presented, in a flow started for a sign-in |
| GoogleProvenance.LinkIsProven | server/app/google-auth-service.ts:196-496 | The same of a link: started by the account that completes it, for the subject Google proved to that callback |
| GoogleProvenance.LinkedExactly | server/app/google-auth-service.ts:456-490 | In any run a link that has ended is completed if and only if it was let on at the count (fewer than three attempts, its own account, something proved) and the identity was attached |
| GoogleJourney.CallbackExactly | server/app/google-auth-service.ts:196-306 | When a callback redirects and every column it leaves; a challenge that could be spent is spent whatever Google says, otherwise nothing changes |
| GoogleJourney.CodeExactly | server/app/google-auth-service.ts:331-372 | When a code gives a session, in any rows, and for whom |
| GoogleJourney.LinkExactly | server/app/google-auth-service.ts:438-496 | When a code completes a link, and which account and subject |
| GoogleJourney.RightCodeLeaves | server/app/google-auth-service.ts:331-372 | The rows after the right code, in every case |
| GoogleJourney.RightLinkCodeLeaves | server/app/google-auth-service.ts:446-472 | The same of a link; presented by another account the challenge is gone |
| GoogleJourney.WrongCodeCounts | server/app/google-auth-service.ts:326-330 | A wrong code counts one attempt against the challenge it was aimed at and changes nothing else |
| GoogleJourney.SignInComesThrough | server/app/google-auth-service.ts:196-389 | From the callback to the session: the code handed over works exactly for two minutes, in the life of the challenge, within three attempts |
| GoogleJourney.LinkComesThrough | server/app/google-auth-service.ts:196-496 | From the callback to the link, and for no other account |
| GoogleExchange.GoogleAuthService.Exchange | server/app/google-auth-service.ts:316-389 | The code computes `Exchanging`: same rows, same outcome |
| GoogleExchange.AloneIsExchanging | server/app/google-auth-service.ts:316-389 | The exchange program of the interleaving model, left alone, does the same |
| GoogleExchange.OneSessionEach | server/app/google-auth-service.ts:365-372 | Over any run of serial exchanges a challenge gives at most one session |
| GoogleExchange.ExchangeExactly | server/app/google-auth-service.ts:331-363 | A code gives a session if and only if it is that challenge's, for a sign-in, in time, resolved, accepted, and fewer than three attempts were counted before |
| GoogleExchange.OverlappingExchanges | server/app/google-auth-service.ts:350-372 | Two overlapping exchanges of one code both end with a session |
| GoogleOverlap.TwoSessionsMeanOverlap | server/app/google-auth-service.ts:326-372 | In any interleaving two callers get a session from one challenge only if both had found it before either was through |
| GoogleOverlap.ThroughExactly | server/app/google-auth-service.ts:344-372 | In any run an exchange that has ended gave a session if and only if, at some moment each, it found the row gone or with fewer than three attempts when it counted, and its session was accepted |
| GoogleOverlap.TwoSessionsExactly | server/app/google-auth-service.ts:326-372 | Two that have ended both gave one from the same challenge if and only if both were under way together and each was let on and accepted |
| GoogleRuns.OneCodeTwoSessions | server/app/google-auth-service.ts:142-389 | A run from empty tables in which two exchanges of one code both end with a session |
| RateLimiter.CompositeUnique | server/app/rate-limiter.ts:106-106 | No name lands in another bucket's counter |
| RateLimiter.MemoryRateLimiter.Consume | server/app/rate-limiter.ts:104-132 | The code computes `Consumed` and its answer |
| RateLimiter.MemoryRateLimiter.Prune | server/app/rate-limiter.ts:174-178 | Exactly the counters whose own window is over go |
| RateLimiter.ConsumeFits | server/app/rate-limiter.ts:121-132 | There are never more counters than the capacity |
| RateLimiter.LiveCountersStay | server/app/rate-limiter.ts:121-128 | No call drops or changes a live counter other than its own |
| RateLimiter.RetryIsExact | server/app/rate-limiter.ts:104-132 | Over any run, whatever other keys do in between: after a refusal that is not saturation the key is refused until the told time, and from then on permitted unless memory is full |
| RateLimiter.AnswerExactly | server/app/rate-limiter.ts:104-132 | Over any run every answer follows from the key's permitted events: in an open window one more is permitted exactly if fewer than the limit were; otherwise a new window opens, unless the key has no counter and memory is full |
| RateLimiter.ResetIsFresh | server/app/rate-limiter.ts:158-160 | A key that was reset starts afresh |
| RateLimiter.PeekForetells | server/app/rate-limiter.ts:141-155 | A look tells what a use would answer, saturation apart |
| RateLimiter.BoundedMatchesUnbounded | server/app/rate-limiter.ts:104-178 | Over any run every answer is the one an unbounded limiter would give, or says that memory is full |
| RateLimiter.IntervalBound | server/app/rate-limiter.ts:104-132 | Events kept in disjoint windows of at most `limit`: an interval of `n` windows holds at most `(n + 1) * limit` |
| RateLimiter.BurstBound | server/app/rate-limiter.ts:104-132 | Over any run without resets of a key that bound holds for its permitted events; twice the limit in one window's length |
| RateLimiter.OneIsACooldown | server/app/email-auth-service.ts:100-108 | A limit of one is a minimum distance of a whole window |
| Otp.TimingSafeEqual | server/app/token.ts:64-71 | The xor-and-or loop decides equality of strings |
| Otp.OtpMatches | server/app/otp.ts:83-86 | True exactly for the same six digits |
| Otp.NewOtpCode | server/app/otp.ts:57-68 | The first draw below the ceiling decides the code; it has the shape of one |
| Otp.CodesAreEquallyLikely | server/app/otp.ts:44-68 | Every code comes from exactly 4294 of the accepted draws |
| Otp.WithoutRejectionBiased | server/app/otp.ts:44-56 | Without rejection the low 967 296 codes would have one draw more |
| OtpStore.MemoryOtpChallengeStore.Issue | server/app/otp-challenge-store.ts:155-171 | The code computes `Issuing`: expired and own-address challenges go, then room is checked |
| OtpStore.MemoryOtpChallengeStore.Attempt | server/app/otp-challenge-store.ts:188-224 | The code computes `Attempting`, removal of finished challenges included |
| OtpStore.MemoryOtpChallengeStore.PruneExpired | server/app/otp-challenge-store.ts:240-249 | Exactly the challenges past their life go, and are counted |
| OtpStore.RunIsGood | server/app/otp-challenge-store.ts:150-249 | Over any run open challenges have distinct addresses and fit, each is tried at most `maxAttempts` times and verified at most once |
| OtpStore.AttemptExactly | server/app/otp-challenge-store.ts:188-224 | Each answer as an if-and-only-if on the history; the first `exhausted` branch is never taken |
| OtpStore.AtCapacityRemovesNothingLive | server/app/otp-challenge-store.ts:155-171 | A refusal for want of room removes no challenge at all |
| EmailAuth.EmailAuthService.Start | server/app/email-auth-service.ts:246-293 | Gate, three limits in order, then issue: the code computes `Starting` |
| EmailAuth.EmailAuthService.Verify | server/app/email-auth-service.ts:335-437 | One limit, one counted attempt, the purpose, then account and session; a success gives the address its allowance back |
| EmailAuth.EmailAuthService.CompleteLink | server/app/email-auth-service.ts:455-514 | The same for a link, bound to the account that started it |
| EmailAuth.SignsInExactly | server/app/email-auth-service.ts:341-407 | In any state a run reaches, a code signs in if and only if it is the right one of an open challenge for a sign-in, the source is within its limit, and account and session are had; the code is spent either way |
| EmailAuth.LinksExactly | server/app/email-auth-service.ts:463-501 | A code links if and only if its challenge is for a link and was started by the same account |
| EmailAuth.DeskIsTheService | server/app/email-auth-service.ts:246-366 | The runs below run those two functions |
| EmailAuth.AddressIsProtected | server/app/email-auth-service.ts:77-109 | In a run without a reset for an address its codes are 30 s apart, one is open at a time, and any 20 minutes see at most 75 attempts on them |
| EmailDelivery.MintedExactly | server/app/email-auth-service.ts:246-293 | A code is minted if and only if the address is deliverable, the three limits permit it one after the other, and fewer than 10 000 live challenges of other addresses are open; each other answer says which failed |
| EmailDelivery.MintedIsStored | server/app/otp-challenge-store.ts:155-171 | Then the store has it under its id as it was asked for, untried, alone for its address, the live ones of other addresses as they were |
| EmailDelivery.CodeComesThrough | server/app/email-auth-service.ts:246-514 | Over any run the code works for ten minutes, until somebody starts again for the address, it is discarded or has been missed four times: it signs in, or links the account that asked and no other |
| EmailDelivery.VerifyAnswers | server/app/email-auth-service.ts:341-437 | Which answer is given for which outcome, and that only a sign-in changes a counter |
| EmailDelivery.SuccessGivesBack | server/app/email-auth-service.ts:417-423 | After a sign-in the next code for the address can be had at once, memory permitting |
| Engine.MemoryTable.Insert | server/db/memory-store.ts:141-152 | The loops decide `Admits`; an admitted row is stored under its key, any other changes nothing |
| Engine.MemoryTable.Update | server/db/memory-store.ts:162-181 | The loops decide `Accepts`; an absent row is left absent |
| Engine.MemoryTable.ValidateShape | server/db/memory-store.ts:77-93 | True exactly for the declared columns, with a value where one is needed |
| Engine.MemoryTable.ValidateUnique | server/db/memory-store.ts:112-125 | True exactly when no stored row the constraint applies to has the key |
| Engine.MemoryTable.ValidateForeignKeys | server/db/memory-store.ts:95-110 | True exactly when each key has a null part or a target |
| Engine.MemoryTable.ValidateChecks | server/db/memory-store.ts:134-139 | True exactly when every restated check holds |
| EngineSafety.InsertKeepsSound | server/db/memory-store.ts:141-152 | An admitted row leaves the whole database sound under any descriptor |
| EngineSafety.OnlyAdmittedRowsFit | server/db/memory-store.ts:141-152 | A refused row would have broken a rule or replaced a row |
| EngineSafety.UpdateKeepsSoundExactly | server/db/memory-store.ts:162-181 | An accepted update keeps the database sound exactly when the patched row's foreign keys still find targets |
| EngineSafety.UpdateRefusedExactly | server/db/memory-store.ts:162-181 | An update of a stored row is refused if and only if it names a fixed or undeclared column, or leaves the row out of shape, against a check or with the key of another |
| EngineSafety.OrdinaryUpdatesAreSafe | server/db/memory-store.ts:162-181 | A patch that leaves foreign keys alone or empties them is safe |
| EngineSafety.DeleteKeepsSoundExactly | server/db/memory-store.ts:183-185 | A delete keeps it sound exactly when no other row leads to the deleted one |
| DdlReplay.MigrationsMatchTheDescriptor | server/db/sql.ts:192-232 | For any descriptor its migrations cover, rendering and executing them succeeds and declares each table exactly |
| DdlReplay.TableRuns | server/db/sql.ts:75-103 | The statements rendered for a table execute and declare it without the columns added later |
| DdlReplay.AddRuns | server/db/sql.ts:192-215 | The statements rendered for an added column execute and leave no default behind |
| DdlCoverage.MigrationsMatchTheSchema | server/db/sql.ts:133-177 | The three migrations declare all five tables exactly |
| DdlAgreement.WhereIsApplies | server/db/sql.ts:38-51 | On type-correct rows the rendered predicate selects exactly the rows the engine applies the constraint to |
| DdlAgreement.AdmissionExactly | server/db/memory-store.ts:112-152 | The rendered table admits a type-correct row exactly when the engine does and no check is false |
| DdlAgreement.EmailTwinFollows | server/db/schema.ts:348-361 | The restated check refuses nothing more, and the same exactly for addresses with an `@` or without capitals |
| SchemaAgreement.SchemaAgreement | server/db/schema.ts:757-763 | For each of the five tables after migration: DDL admits if and only if the engine admits and no check is false |
| SchemaAgreement.DeclaredKeys | server/db/schema.ts:200-757 | Primary keys and the targets of foreign keys are write-once, and are the same columns |
| SchemaAgreement.DeclaredIsComparable | server/db/schema.ts:309-327 | Every nullable key column is required by its constraint; names differ; keys are not null |
| SchemaAgreement.ReasonWithoutRevocation | server/db/schema.ts:488-494 | For every admitted unrevoked session, the same row with a reason is admitted by the engine and refused by the check |
| SchemaGaps.ReasonAdmitted | server/db/schema.ts:488-494 | One such row |
| SchemaGaps.UpdateCanDangle | server/db/memory-store.ts:162-181 | In any lawful database the engine attributes a session to an identity that is not there |
| SchemaGaps.DeleteCanDangle | server/db/memory-store.ts:183-185 | Removing the account of a session, or its identity without clearing its provenance, leaves the database unsound |
| SchemaGaps.SmallDangles | server/db/memory-store.ts:162-185 | One database on which all three happen |
| StoreEmbedding.SessionAdmission | server/db/memory-store.ts:308-310 | The typed guard of a session insert is the engine's admission under the declared table |
| StoreEmbedding.IdentityAdmission | server/db/memory-store.ts:260-262 | The same for identities: the two partial indexes together say that authoritative keys differ |
| StoreEmbedding.SessionInserted | server/db/memory-store.ts:308-310 | What the typed insert stores is what the engine stores |
| StoreEmbedding.IdentityInserted | server/db/memory-store.ts:260-262 | The same for identities |
| StoreEmbedding.ClaimIsUpdate | server/db/memory-store.ts:320-330 | The typed claim is the engine's update |
| StoreEmbedding.MarkIsUpdate | server/db/memory-store.ts:355-361 | The typed revocation mark is the engine's update |
| StoreEmbedding.OrphanIsUpdate | server/db/memory-store.ts:293-304 | Clearing provenance is the engine's update |
| StoreEmbedding.UnlinkIsDelete | server/db/memory-store.ts:293-304 | With provenance cleared, removing an identity is the engine's delete |
| StoreEmbedding.TouchIsUpdate | server/db/memory-store.ts:289-291 | The use stamp is the engine's update, on any id |
| StoreEmbedding.UserInserted | server/db/memory-store.ts:246-248 | The typed account insert is the engine's |
| StoreEmbedding.CloseIsUpdate | server/db/memory-store.ts:254-256 | Marking an account deleted is the engine's update, on any id |
| ChallengeEmbedding.ChallengeAdmission | server/db/memory-store.ts:369-371 | The typed guard of a challenge insert is the engine's admission |
| ChallengeEmbedding.ChallengeInserted | server/db/memory-store.ts:369-371 | What the typed insert stores is what the engine stores |
| ChallengeEmbedding.DropIsDelete | server/db/memory-store.ts:451-453 | Removing a challenge is the engine's delete |
| ChallengeEmbedding.ConsumeIsUpdate | server/db/memory-store.ts:392-399 | Spending a challenge is the engine's update |
| ChallengeEmbedding.AttachIsUpdate | server/db/memory-store.ts:401-419 | Recording an outcome is the engine's update if and only if no other challenge has the digest |
| ChallengeEmbedding.AttachLinkIsUpdate | server/db/memory-store.ts:421-439 | The same for a link's outcome |
| ChallengeEmbedding.CountIsUpdate | server/db/memory-store.ts:441-449 | Counting an attempt is the engine's update |
| ChallengeEmbedding.PurgeIsDeletes | server/db/memory-store.ts:455-461 | The sweep is the engine's delete of every expired row |
| ChallengeEmbedding.DeviceInserted | server/db/memory-store.ts:465-467 | A device insert, refused or not, is the engine's |
| ChallengeEmbedding.RetireIsUpdate | server/db/memory-store.ts:477-489 | Retiring and reactivating a device are the engine's update |
| ChallengeEmbedding.SeenIsUpdate | server/db/memory-store.ts:491-495 | The device's use stamp is the engine's update, on any key |
| StoreSafety.LawfulIsSound | server/db/memory-store.ts:77-152 | Five lawful typed tables meet every rule of the declared schema the engine knows |
| StoreSafety.StepKeepsInv | server/db/memory-store.ts:254-492 | Every step of every session, identity, Google and device program keeps all five tables lawful |
| StoreSafety.StartedIsAdmitted | server/app/google-auth-service.ts:142-173 | A challenge that is started is one the table admits |
| StoreSafety.ReachableStatesMeetTheSchema | server/db/schema.ts:200-757 | Every state of every interleaving of all the services meets the whole schema in all five tables, the checks no restatement enforces included |
| StoreSafety.OutcomeIsStored | server/app/google-auth-service.ts:294-305 | In every such state recording an outcome under a freshly drawn code is an update the engine accepts |
| StoreSafety.LinkOutcomeIsStored | server/app/google-auth-service.ts:249-267 | The same for a link's outcome |
| Json.ScanEscape | src/audit/boundaries.ts:110-112 | Reading a string literal back gives the string, lone surrogates and controls included |
| Json.ObjectUnique | src/audit/audit-log.ts:889-895 | No two lists of fields share a JSON text |
| AuditRecord.CanonicalExactly | src/audit/audit-log.ts:889-895 | Two records have one canonical form if and only if they agree in everything but `prevDigest`, in whatever order their keys come |
| AuditRecord.HashOfCanonical | src/audit/audit-log.ts:889-899 | So a collision-free hash of that form tells records apart in every hashed field, which is what the results on detection ask of a digest |
| AuditTrail.JudgeExactly | src/audit/audit-log.ts:1209-1284 | The checker answers `ok` or `truncated` exactly when all records are readable, numbered consecutively and chained |
| AuditLog.AuditLog.Append | src/audit/audit-log.ts:1098-1182 | The code computes `Appended`, cut to its byte bound |
| AuditLog.AuditLog.TrimToBytes | src/audit/audit-log.ts:1185-1191 | The trimming loop ends and computes `WithinBytes` |
| AuditLog.AuditLog.VerifyIntegrity | src/audit/audit-log.ts:1209-1284 | The loop computes the verdict of `Judge` |
| AuditSafety.EvictionCutsTail | src/audit/audit-log.ts:1113-1128 | Survivors and evicted records are the two parts of the trail, with two places free |
| AuditSafety.MarkerExact | src/audit/audit-log.ts:1140-1160 | A marker counts and spans exactly the removed numbers, up to just below the oldest survivor or the marker |
| AuditRetention.AppendKeepsExactly | src/audit/audit-log.ts:1113-1173 | For any trail: an append keeps exactly the newest unexpired records, all of them where there is room for two more and otherwise nine tenths of the bound or all but two; then the marker if something went, then the caller's record with the caller's type and fields |
| AuditRetention.NothingIsEvicted | src/audit/audit-log.ts:1121-1128 | With nothing expired and room for two, the record is put in front and that is all |
| AuditRetention.CutOnlyToFit | src/audit/audit-log.ts:1185-1191 | The byte bound cuts only what does not fit, nine tenths at a time |
| AuditRetention.CompactionKeeps | src/audit/audit-log.ts:1193-1198 | A compaction keeps the newest half of the bound, or everything |
| AuditRetention.OldestFaultDecides | src/audit/audit-log.ts:1209-1284 | The oldest record out of order decides the verdict, and what is wrong with it says which |
| AuditSafety.AppendKeepsGood | src/audit/audit-log.ts:1098-1182 | An append keeps the trail sound, bounded, dated in order and its ids minted from time and number |
| AuditSafety.WithinBytesIsHead | src/audit/audit-log.ts:1185-1191 | Trimming keeps a non-empty head that fits, or one record |
| AuditSafety.ProducerSatisfiesChecker | src/audit/audit-log.ts:1098-1284 | Over any run with ascending times the checker finds no fault, the trail stays within `maxEvents`, and ids are distinct |
| AuditSafety.RetentionAccounted | src/audit/audit-log.ts:1113-1173 | While nothing is trimmed or compacted, records held and the `removedCount` of all markers ever written add up to the highest number |
| AuditDetection.DeletionNoticed | src/audit/audit-log.ts:1209-1284 | Deleting an interior record is reported |
| AuditDetection.DuplicationNoticed | src/audit/audit-log.ts:1209-1284 | Duplicating a record is reported |
| AuditDetection.SwapNoticed | src/audit/audit-log.ts:1209-1284 | Swapping two records is reported |
| AuditDetection.ReplacementExactly | src/audit/audit-log.ts:1209-1284 | Exactly when a replaced record goes unnoticed |
| AuditDetection.ChangeNoticed | src/audit/audit-log.ts:889-899 | Changing any hashed field of a record that is not the newest is reported |
| AuditDetection.NewestIsUnprotected | src/audit/audit-log.ts:1209-1284 | The newest record can be changed unnoticed |
| AuditDetection.AppendSoundExactly | src/audit/audit-log.ts:1113-1173 | An append keeps a sound trail sound exactly when no expired record stands among the newest it keeps |
| AuditDetection.ExpiryOutOfOrderLooksLikeAGap | src/audit/audit-log.ts:1113-1173 | A trail with times out of order on which it does not |
| Boundaries.AssertAuditShape | src/audit/audit-log.ts:592-643 | The loops decide `ShapeOk`: every string and list within its limit, the record within its bytes |
| Boundaries.RecordWidth | src/audit/boundaries.ts:250-265 | The loop adds the width of each field but the type to the fixed parts |
| Boundaries.ValueWidthExactly | src/audit/boundaries.ts:224-239 | An accepted value is no wider than its field allows if and only if text or a number in a field of another type is short enough |
| Boundaries.RecordFitsExactly | src/audit/boundaries.ts:250-265 | Any record, typed as declared or not, fits its width if and only if the overruns of its fields add up to no more than the slack |
| Boundaries.StoredRecordFits | src/audit/boundaries.ts:241-265 | In particular an accepted record whose values fit their fields, as those of the declared types do, the log's own fields added |
| Boundaries.TextInNumericField | src/audit/boundaries.ts:187-201 | Accepted text in a numeric field exceeds that |
| Base64.AtobBtoa | src/crypto/envelope.ts:189-206 | Decoding what was encoded gives the bytes back, for all byte strings |
| Base64.StrictExactly | src/crypto/envelope.ts:195-206 | The strict reader accepts exactly what the writer writes |
| Base64.UrlBack | server/app/access-token.ts:65-84 | The same for the URL alphabet without padding |
| Base64.UrlIgnoresSpareBits | server/app/access-token.ts:71-84 | That reader takes several spellings of one byte |
| Base64.ReadBase64 | src/crypto/envelope.ts:195-206 | The code computes the strict reader |
| Base64.ReadUrl | server/app/access-token.ts:71-84 | The code computes the URL reader |
| Utf8.DecodeEncode | server/app/access-token.ts:86-87 | Well-formed text survives encoding and decoding |
| Utf8.ObjectIsWellFormed | server/app/access-token.ts:111-112 | Stringified objects are well formed, whatever strings they hold |
| AccessToken.SignedVerifies | server/app/access-token.ts:109-143 | A signed token verifies to its claims exactly until it expires |
| AccessToken.VerifiesExactly | server/app/access-token.ts:116-143 | Whatever JSON the parser takes, what verifies is the one token of a payload whose four fields are unexpired claims, and nothing else |
| Envelope.OpensExactly | src/crypto/envelope.ts:118-176 | A sealed value opens under its own key at its own place and fails authentication anywhere else |
| Envelope.EditedFields | src/crypto/envelope.ts:85-109 | With version, algorithm or nonce edited it does not open; each is refused as itself, and a nonce passes only in the spelling it was sealed with |
| Envelope.EditedKeyId | src/crypto/envelope.ts:178-187 | Under an edited key id it opens exactly where the two joined texts agree |
| Envelope.ConfusedKeyId | src/crypto/envelope.ts:178-187 | One id and place that are taken for another |
| Envelope.BarlessIdsAreBound | src/crypto/envelope.ts:178-187 | Key ids without a bar bind both id and place |
| Envelope.NeedsAKeyId | src/crypto/envelope.ts:95-103 | What is sealed under an empty key id cannot be opened |
| ProtectExisting.StorageArea.ProtectExistingRecords | src/crypto/protect-existing.ts:56-104 | Wherever it stops, only plain records have changed, each into its own seal; given enough calls it ends, and then a record is left plain only without a key or where the write did not take, and the four counters are the sizes of the four classes |
| ProtectExisting.StorageArea.UnprotectExistingRecords | src/crypto/protect-existing.ts:113-134 | Given enough calls it ends: it refuses and changes nothing exactly when a record cannot be read, and otherwise every record becomes what it read as |
| ProtectExisting.RerunConverts | src/crypto/protect-existing.ts:18-24 | Stopping and running again any number of times adds up to one run |
| ProtectExisting.ConvertingKeepsWorth | src/crypto/protect-existing.ts:26-31 | No record reads differently at any stop, and no envelope is sealed into another |
| ProtectExisting.RevertingKeepsWorthExactly | src/crypto/protect-existing.ts:106-134 | However far a restore got, a record reads as before exactly when it was not reached or the value inside is not shaped like an envelope |
| ProtectExisting.RestoringKeepsAllExactly | src/crypto/protect-existing.ts:106-134 | A finished restore keeps every record's value exactly when no readable envelope holds one shaped like an envelope |
| ProtectExisting.SealedEnvelopeLost | src/crypto/protect-existing.ts:106-134 | A record on which it does not |
| ProtectExisting.NothingShapedLeftExactly | src/crypto/protect-existing.ts:106-134 | A finished restore leaves no envelope exactly when no value inside is shaped like one |
| ProtectExisting.OnThenOff | src/crypto/protect-existing.ts:56-134 | On then off is the identity on plain records |

## Left out

- Timing, log lines, error wording, mail and HTTP: no state here depends on them.
- The device service: its store calls are modelled and may come in any order, the refusals around them are not.
- Cryptography: digests and MACs are functions, collision-free only where a lemma says so; AES-GCM is an ideal
  cipher; Google's token verification is an oracle, and PKCE is opaque.
- DDL text: statements are trees. Names of constraints, comments and layout are not modelled, nor is the SQL of
  adding a column to a table that already has rows.
- Case folding is for ASCII letters; other scripts appear in addresses unchanged.
- Challenges: `method` is always `google`, `state`, nonce and verifier are never null.
- Outage and retry handling around the audit log (`record`, `prepare`, redaction, export, paging).
- EmailAuth.AddressIsProtected: each `start` and each `verify` reads the clock once, and the limiter's sweep and
  the store's calls are one step; a failed delivery is a separate later step.
- EmailAuth.EmailAuthService.Verify: whether the account resolves and the session is issued is drawn from outside, since that
  is decided in other tables (`Identity`, `Rotation`); the use stamp and the device call that follow touch only those.
- AuditLog.AuditLog.Append: on trails whose records this build can read. The code also appends to others, and then drops a
  record whose `at` is not a number without a marker. The checker is modelled on any trail.
- AuditSafety.ProducerSatisfiesChecker: `maxEvents` is at least 2, and `floor(0.9 * n)` is taken as `9 * n / 10`
  without the rounding of binary floating point.
- AccessToken.SignedVerifies: `JSON.parse` is any function that reads back what `JSON.stringify` wrote from claims;
  numbers are integers.
- Boundaries.StoredRecordFits: numbers are integers of at most 20 characters, field names and type names need no
  escaping, and the log's own fields have the widths their literals show.
- GoogleAuth.StepKeepsInv: resolving an account and attaching a link are drawn from outside, since they touch other tables.
- GoogleExchange.OneSessionEach: exchanges are serial; `GoogleOverlap` has what holds when they are not.
- IdentityService.IdentityService.DetachIdentity: stated without interference, because two detaches that overlap can remove
  the last two identities.
- Utf8.DecodeEncode: replacement of malformed bytes is not the standard's, only well-formed input matters here.
