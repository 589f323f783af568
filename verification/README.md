# Orgistry: a verified model of credentials, retention and rate limiting

This project models the stateful core of the Orgistry API server in Dafny and proves what that core
promises. `dafny verify dfyconfig.toml` checks all of it.

## What is modelled

**Credentials.** `Schema` holds the tables with their unique and foreign keys. `CredentialOps` says what each
transaction does to them, error paths included; a violated constraint aborts and changes nothing.
`Repositories` and `AuthServices` are the classes that run those transactions statement by statement and are
proved against `CredentialOps`. `CredentialTheorems` says what single transactions mean, and `CredentialAnswers`
which answer each gives and which rows it writes, in terms of stored columns alone. `CredentialRuns`
turns every transaction and every single-statement write into a step and lets any number of requests and
retention batches interleave; login, reuse handling, logout and session revocation are sequences of steps
that anything may interrupt. `RotationChains`, `SessionLifetimes`, `CredentialGuarantees`, `OneTimeUse` and
`VerificationHistory` prove invariants and promises over all such runs; `LoginPasswords` follows which password a
session was opened with, and `MailboxProofs` which mailbox a verified address was proven from. `Generations` is the
retire-then-insert discipline that reset tokens, verification tokens and pending registrations share.
`WorkflowRuns` ties the runs back to the service methods, and `IssuanceProtocol` takes the discipline apart into
statements under READ COMMITTED, each update with the snapshot it started from, to show what the locks are for.

**Retention.** `RetentionPolicy` is the catalog with its cutoffs, the session predicate and one batch;
`RetentionExecutor` is the batch loop and the category loop; `RetentionSafety` relates the loops to a one-shot
set specification and shows that a sweep is invisible to live credentials; `RetentionWindows` says in days and
columns what may go and what remains; `RetentionCli` is the argument parser and the command, `CommandLine` its
literal flags and numbers.

**Rate limiting.** `RateLimit` has the Redis limiter command by command, with every command free to be lost,
delayed or repeated, and the in-memory limiter; `RateLimitWindows` says exactly which calls are limited.
`ApiKeyAuthentication` is the external API authenticator, whose durable failure events and warnings are
bounded by that limiter.

**Smaller kernels.** `Keyset` is the pagination both the session list and the audit list use, `Sanitizer` the
metadata sanitizer with `SanitizedPaths` for what it stores where, `ApiKeySecret` and `Alphabet` the API key format
and its sampling.

## Assumptions

- Digests are injective, so a digest stands for its secret; identifiers and minted secrets are new.
- The clock does not go back, and `now` is one value per step. PostgreSQL's `now()` default and the process
  clock are taken to be the same clock.
- A transaction is one step, except in `IssuanceProtocol`. Row locks and serialisation inside the other
  transactions are taken to make them atomic.
- Redis drops a key once its expiry instant is reached; INCR and EXPIRE of one call carry the same instant
  unless the history says otherwise.
- Cursors, JSON and base64url decode to what was encoded. Page limits are at least one
  (`packages/contracts/src/pagination.ts:18-23`). Lower-casing is an arbitrary function.
- A character is one UTF-16 code unit of the original. Command-line numbers beyond 2^53 are rejected by both.

## Where the code differs from its documentation

The model follows the code. Each point is a lemma in the table.

- Issuing an email verification token takes no lock (`apps/api/src/modules/auth/email-verification.repo.ts:35-56`),
  so two concurrent issuances can leave two usable tokens, against the comment at line 39.
- `emailVerifiedAt` is documented as never cleared (`packages/db/src/schema/auth.ts:60`); an email change clears it.
- An email change is said to leave nothing minted for the old address (`apps/api/src/modules/auth/auth.service.ts:819-823`),
  but the verification service mails a token before it inserts the row, so a change in between lets the old mailbox
  verify the new address. `MailboxProofs` has the run and the exact condition.
- A login that passed its password check before a reset may insert its session after it; `LoginPasswords` has the run
  and the exact condition.
- `truncated` is also true when the cap is reached exactly as the backlog runs out.
- `--category=expired_sessions` alone can fail on a foreign key that a run with `security_events` first never meets;
  `RetentionExecutor.FailsIffBlocked` and its neighbours say exactly when, on a concrete database too.
- A lost EXPIRE leaves a rate-limit counter that never expires, and its key limited for good.
- The documented bound for a fixed window is L per window; across a window boundary 2L - 1 calls can fall into
  one window's length, and that many really can.
- The pagination cursor carries milliseconds while the database stores microseconds, so a row in the same
  millisecond as a page boundary can be skipped.
- An own key `__proto__` of metadata is neither kept nor forbidden; assignment drops it.
- The alphabet guard looks at the length only: it accepts a biased alphabet with repeated characters and
  refuses a uniform one.

## Model

| member | source | states |
|---|---|---|
| CredentialGuarantees.FamiliesAreLinear | apps/api/src/modules/auth/auth.repo.ts:95-174 | In every state any interleaving of login, refresh, logout, revocation, password change, reset, registration, verification, email change and sweep batches reaches: every family is one linear chain (next row); tokens of a family share a session, parent and replacement links agree and neither fork nor join, `usedAt` is set exactly with `replacementTokenId`, and at most one token of the family is unexchanged. |
| CredentialGuarantees.FamiliesAreChains | apps/api/src/modules/auth/auth.repo.ts:147-170 | The positions of that chain: one for every stored row of the family, no two alike; neighbours are linked both ways and a link leads exactly one position on, so there is no cycle; a row has no parent exactly at position 0, and an unexchanged row is the last. |
| CredentialGuarantees.OneExchangeableTokenPerSession | apps/api/src/modules/auth/auth.repo.ts:117-160 | Two unconsumed tokens of one session are the same token, in every reachable state. |
| CredentialGuarantees.AtMostOneSuccessor | apps/api/src/modules/auth/auth.repo.ts:95-174 | Over any legal run a presented digest is exchanged at most once, however many requests present it. |
| CredentialGuarantees.DeathIsPermanent | apps/api/src/modules/auth/auth.repo.ts:117-146 | A session that is revoked, expired or deleted stays unusable after any further run: no rotation of any of its tokens, including one a slow login inserts later, and no access token bound to it authenticates. |
| CredentialGuarantees.RevocationKills | apps/api/src/modules/auth/auth.repo.ts:200-211 | The session write of logout, user revocation or reuse handling makes the session dead at that step. |
| CredentialGuarantees.FamilyRevocationFreezes | apps/api/src/modules/auth/auth.repo.ts:176-187 | The family write of reuse handling freezes the family before the session itself is revoked. |
| CredentialGuarantees.FrozenIsFinal | apps/api/src/modules/auth/auth.service.ts:570-592 | After the family is frozen no run adds a token to its chain and no rotation ever succeeds in it. |
| CredentialGuarantees.ReuseHandlingIsFinal | apps/api/src/modules/auth/auth.service.ts:570-592 | After both writes of reuse handling, over any further run, the chain is unchanged and the session is unusable. |
| CredentialGuarantees.NoRotationOutlivesSession | apps/api/src/modules/auth/auth.repo.ts:117-146 | A rotation in a reachable state happens strictly before the expiry its session was created with, although each successor token carries its own later expiry. |
| CredentialGuarantees.ResetOutlastsEverything | apps/api/src/modules/auth/password-recovery.repo.ts:71-165 | After a completed reset, over any further run, every usable session of the user was inserted after the reset. |
| LoginPasswords.OldPasswordDiesIffNoneInFlight | apps/api/src/modules/auth/auth.service.ts:436-500 | Over all runs after a completed reset: no live session of the user was opened with a password older than the reset, if and only if no login of that user stood between its check against another password and its session insert when the reset committed. |
| LoginPasswords.FlightLands | apps/api/src/modules/auth/auth.service.ts:338-363 | If one did, the run that ends with such a session, from any reachable state. |
| LoginPasswords.RunTraced | apps/api/src/modules/auth/auth.service.ts:436-500 | The invariant behind it: over any run each new session of a user was opened with a password the user had at some point of that run. |
| CredentialGuarantees.PasswordChangeOutlastsOthers | apps/api/src/modules/auth/auth.repo.ts:251-297 | After a password change, over any further run, every usable session of the user is the caller's or was inserted since. |
| RotationChains.StepKeepsInv | apps/api/src/modules/auth/auth.repo.ts:43-211 | Every enabled step keeps the chain invariant: stored rows stand where the minted chain says, chains and births agree, keys hold, unfinished workflows own what they think they own. |
| RotationChains.RunKeepsInv | apps/api/src/modules/auth/auth.repo.ts:43-211 | The invariant holds after every legal run from an empty database. |
| SessionLifetimes.StepEvolves | apps/api/src/modules/auth/auth.repo.ts:147-211 | Every step only evolves the state: lifecycle marks are set once and keep their value, owners and expiries never move, chains only grow and frozen chains do not, deleted rows do not return. |
| SessionLifetimes.RunEvolves | apps/api/src/modules/auth/auth.repo.ts:147-211 | The same between the two ends of any run. |
| CredentialTheorems.RotatesIffRotatable | apps/api/src/modules/auth/auth.repo.ts:95-174 | With a new successor, rotation succeeds if and only if the presented digest belongs to an unconsumed, unexpired token whose session is live. |
| CredentialTheorems.RotationEffect | apps/api/src/modules/auth/auth.repo.ts:147-170 | A rotation inserts one successor linked both ways in the same family and session, marks the presented row, touches its session's `updatedAt`, and moves nothing else. |
| CredentialTheorems.FailedRotationWritesNothing | apps/api/src/modules/auth/auth.repo.ts:98-146 | Reuse, expiry, unknown token and a failed insert leave every table unchanged. |
| CredentialAnswers.RotationAnswers | apps/api/src/modules/auth/auth.repo.ts:112-146 | For a token that exists, which of reuse, expired, failed insert and rotated is answered, each if and only if its own columns say so: reuse exactly if `usedAt`, `revokedAt` or `replacementTokenId` is set or the session is missing, revoked or over, with the row's own family and session and the session's owner. |
| CredentialAnswers.UnknownTokenIff | apps/api/src/modules/auth/auth.repo.ts:98-108 | Not found exactly if no row carries the digest. |
| CredentialAnswers.RotationRows | apps/api/src/modules/auth/auth.repo.ts:147-170 | The three rows a rotation writes, in full. |
| CredentialTheorems.PasswordChangeKeepsOnlyCaller | apps/api/src/modules/auth/auth.repo.ts:251-297 | Of the user's row only the hash and `updatedAt` change; the caller's session and its tokens are untouched, all the user's other sessions and their tokens are revoked, other users' rows do not move. |
| CredentialTheorems.PasswordChangeRotations | apps/api/src/modules/auth/auth.repo.ts:251-297 | After the change a digest is exchangeable if and only if it was before and belongs to the caller's session or to another user. |
| CredentialAnswers.PasswordChangeRows | apps/api/src/modules/auth/auth.repo.ts:251-297 | Every row a password change leaves, with instant and reason of each new mark; earlier marks stay. |
| CredentialAnswers.PasswordChangeAuthentications | apps/api/src/modules/auth/auth.service.ts:399-434 | For every user, session and instant: an access token authenticates after the change if and only if it did before and its session is the caller's or another user's. |
| CredentialTheorems.ResetClosesEverything | apps/api/src/modules/auth/password-recovery.repo.ts:117-160 | After `reset` the user has no unrevoked session or refresh token and no open reset token, and the new password. |
| CredentialTheorems.ResetSparesOthers | apps/api/src/modules/auth/password-recovery.repo.ts:71-165 | Other users' rows are unchanged, and the presented token is the one consumed. |
| CredentialTheorems.ResetCompletesIff | apps/api/src/modules/auth/password-recovery.repo.ts:71-165 | A reset completes if and only if the token is open, unexpired and its user eligible; every other outcome leaves all tables unchanged. |
| CredentialAnswers.ResetAnswers | apps/api/src/modules/auth/password-recovery.repo.ts:71-115 | All five answers of a reset, each if and only if the columns of the token's row and of its owner say so. |
| CredentialAnswers.ResetRows | apps/api/src/modules/auth/password-recovery.repo.ts:117-160 | Every row a completed reset leaves, marks in full. |
| CredentialAnswers.ResetIssueRows | apps/api/src/modules/auth/password-recovery.repo.ts:38-69 | A reset token is issued exactly for an existing user and a new id and digest; the row it inserts, expiry included, and the marks on the rows it retires. |
| CredentialTheorems.VerificationCompletesIff | apps/api/src/modules/auth/email-verification.repo.ts:58-121 | The same for email verification. |
| CredentialTheorems.VerificationEffect | apps/api/src/modules/auth/email-verification.repo.ts:85-121 | Verification sets the timestamp once, keeps an earlier one, closes all the user's tokens and no one else's. |
| CredentialAnswers.VerificationAnswers | apps/api/src/modules/auth/email-verification.repo.ts:58-84 | All five answers of a verification. |
| CredentialAnswers.VerificationRows | apps/api/src/modules/auth/email-verification.repo.ts:85-121 | Every row a completed verification leaves. |
| CredentialAnswers.VerificationIssueRows | apps/api/src/modules/auth/email-verification.repo.ts:35-56 | As for reset tokens. |
| CredentialTheorems.EmailChangeClearsVerification | apps/api/src/modules/auth/auth.repo.ts:303-339 | An email change succeeds if and only if the address is free; it clears the verification timestamp and leaves nothing outstanding that could set it. |
| CredentialAnswers.EmailChangeRows | apps/api/src/modules/auth/auth.repo.ts:303-339 | The three answers of an email change, and every row it leaves. |
| CredentialTheorems.RegistrationAllOrNothing | apps/api/src/modules/auth/registration.repo.ts:130-281 | Completion either changes nothing, or creates user, workspace, Owner membership (under a new id, with exactly that user, organization and role), session and one token, closes every generation of that email, and keeps every older membership, event and accepted invitation. |
| CredentialTheorems.SavepointKeepsOnlyAcceptance | apps/api/src/modules/auth/registration.repo.ts:312-348 | Without an accepted invitation the savepoint leaves memberships (but for the Owner row), accepted invitations and events as they were; an accepted one adds exactly its membership, its mark and its two security events, all new. |
| CredentialTheorems.UnlistedErrorAborts | apps/api/src/modules/auth/registration.repo.ts:320-348 | An unlisted error, a crash or a violated key other than the membership's, from a matching invitation, rolls the whole registration back. |
| CredentialAnswers.RegistrationAnswers | apps/api/src/modules/auth/registration.repo.ts:130-348 | All answers of a completion, each if and only if: unknown, used or retired, expired, email taken; then an invitation accepted exactly if context and staged invitation agree, the seam accepts, the seat is free, the organization exists and the event ids are new; unavailable exactly if context is missing, the seat is taken or the seam gives one of the seven listed codes; none exactly if none was staged; aborted otherwise. |
| CredentialAnswers.RegistrationRows | apps/api/src/modules/auth/registration.repo.ts:166-259 | The rows of the new account in full, and the marks on every generation of its email. |
| CredentialAnswers.PendingIssueRows | apps/api/src/modules/auth/registration.repo.ts:82-119 | When a pending registration is issued, its row, and the rows it retires. |
| CredentialTheorems.RotateKeepsConsistent | packages/db/src/schema/auth.ts:108-135 | Rotation keeps every unique and foreign key. |
| CredentialTheorems.CompleteRegistrationKeepsConsistent | packages/db/src/schema/auth.ts:67-70 | Registration completion keeps every key, one user per normalized email included. |
| CredentialTheorems.IssuePendingKeepsConsistent | packages/db/src/schema/auth.ts:287-301 | Issuing a pending registration keeps the partial unique index on open rows. |
| Generations.IssueLeavesOneOpen | apps/api/src/modules/auth/password-recovery.repo.ts:47-68 | Retire-then-insert leaves the new row as its owner's only open one, marks nothing but open rows of that owner, and keeps digests unique. |
| Generations.SettleClosesOwner | apps/api/src/modules/auth/registration.repo.ts:245-270 | Consuming an open row closes every open sibling without marking it used, and moves no other owner's row. |
| IssuanceProtocol.CommitIsAtomicIssue | apps/api/src/modules/auth/password-recovery.repo.ts:38-69 | Under lock, at commit, the four interleaved statements have exactly the effect of the atomic retire-then-insert on the table as it stands then. |
| IssuanceProtocol.RunKeepsInv | apps/api/src/modules/auth/registration.repo.ts:82-119 | For a call site with the owner lock or the open-row index, every interleaving with other issuances, aborts, completions and sweeps keeps the protocol invariant. |
| IssuanceProtocol.UnprotectedRace | apps/api/src/modules/auth/email-verification.repo.ts:35-56 | Without lock and index there is a legal run of two issuances that ends with two open tokens of one owner. |
| IssuanceProtocol.OneOpenIffProtected | apps/api/src/modules/auth/email-verification.repo.ts:35-56 | At most one open generation per owner in every committed state of every run, if and only if the call site takes the lock or has the index. |
| IssuanceProtocol.CallSites | apps/api/src/modules/auth/email-verification.repo.ts:35-56 | At the three call sites: reset tokens (lock, no index) and pending registrations (lock and index) never have two open rows of one owner; verification tokens (neither) can. |
| OneTimeUse.StepAges | apps/api/src/modules/auth/password-recovery.repo.ts:38-165 | Every step keeps the identity of reset tokens, verification tokens and pending registrations, sets each mark at most once and never both, new rows included, and re-uses no digest. |
| OneTimeUse.RunAges | apps/api/src/modules/auth/password-recovery.repo.ts:38-165 | The same between the two ends of any run. |
| OneTimeUse.MarksExcludeEachOther | apps/api/src/modules/auth/password-recovery.repo.ts:38-165 | In every reachable state no reset token, verification token or pending registration is both used and invalidated. |
| OneTimeUse.AcceptanceBurns | apps/api/src/modules/auth/registration.repo.ts:130-281 | Accepting a credential requires it open and burns its digest for good. |
| OneTimeUse.AcceptedAtMostOnce | apps/api/src/modules/auth/password-recovery.repo.ts:71-165 | Over any run a reset token, verification token or pending registration is accepted at most once, and never once burnt. |
| OneTimeUse.EmailsStayUnique | packages/db/src/schema/auth.ts:67-70 | In every reachable state there is at most one user and at most one open pending registration per normalized email. |
| VerificationHistory.StepLogged | apps/api/src/modules/auth/email-verification.repo.ts:35-121 | Every step keeps the account of where each verified address got its proof. |
| VerificationHistory.VerifiedMeansProven | apps/api/src/modules/auth/auth.repo.ts:303-339 | In every reachable state a verified user either registered with the address and never changed it, or consumed a token whose row was inserted after the latest change of address. |
| MailboxProofs.VerifiedMailboxIff | apps/api/src/modules/auth/email-verification.service.ts:206-230 | With mailing and inserting as two steps that anything may separate: in every reachable scene a user verified by a token has the address that token was mailed to if and only if the user still had it when the row was inserted. |
| MailboxProofs.OldMailboxVerifies | apps/api/src/modules/auth/auth.service.ts:819-823 | From any reachable scene with a usable user and a free address: the run in which a token mailed to the old address is inserted after the address change and verifies the new one. |
| MailboxProofs.PlayKeepsScene | apps/api/src/modules/auth/email-verification.service.ts:206-230 | Every act keeps the invariant: the recorded addresses end in the present one, each stored token was mailed for its owner, each proof names a mailed token of its user. |
| Repositories.AuthRepository.InsertSession | apps/api/src/modules/auth/auth.repo.ts:43-54 | Inserts the row, or fails on the key and changes nothing. |
| Repositories.AuthRepository.InsertRefreshToken | apps/api/src/modules/auth/auth.repo.ts:65-77 | As above, with the unique digest and the session reference. |
| Repositories.AuthRepository.FindRefreshTokenByHash | apps/api/src/modules/auth/auth.repo.ts:79-93 | The row carrying the digest, if any; changes nothing. |
| Repositories.AuthRepository.RotateRefreshToken | apps/api/src/modules/auth/auth.repo.ts:95-174 | The classification ladder and the three writes leave the tables and answer of `CredentialOps.Rotate`, which `CredentialAnswers.RotationAnswers` and `RotationRows` give by columns; keys hold. |
| Repositories.AuthRepository.RevokeRefreshTokenFamily | apps/api/src/modules/auth/auth.repo.ts:176-187 | Marks exactly the unrevoked tokens of the family. |
| Repositories.AuthRepository.RevokeRefreshTokensForSession | apps/api/src/modules/auth/auth.repo.ts:188-199 | Marks exactly the unrevoked tokens of the session. |
| Repositories.AuthRepository.RevokeSession | apps/api/src/modules/auth/auth.repo.ts:200-211 | Marks the session if unrevoked. |
| Repositories.AuthRepository.ChangePasswordKeepingCurrentSession | apps/api/src/modules/auth/auth.repo.ts:251-297 | The statements in order leave the tables of `CredentialOps.ChangePassword`, which `CredentialAnswers.PasswordChangeRows` gives row by row. |
| Repositories.AuthRepository.ChangeEmail | apps/api/src/modules/auth/auth.repo.ts:303-339 | Writes user and tokens, or nothing when the unique index refuses. |
| Repositories.AuthRepository.InsertSecurityEvent | apps/api/src/modules/auth/auth.repo.ts:341-354 | Adds one event, or fails on a reference and changes nothing. |
| Repositories.PasswordRecoveryRepository.IssueResetToken | apps/api/src/modules/auth/password-recovery.repo.ts:38-69 | Lock, retire, insert: the atomic effect, or nothing. |
| Repositories.PasswordRecoveryRepository.CompleteReset | apps/api/src/modules/auth/password-recovery.repo.ts:71-165 | The ladder and the writes in order leave the tables and outcome of `CredentialOps.CompleteReset`. |
| Repositories.EmailVerificationRepository.IssueVerificationToken | apps/api/src/modules/auth/email-verification.repo.ts:35-56 | Retire, insert: the effect when run alone, or nothing. |
| Repositories.EmailVerificationRepository.CompleteVerification | apps/api/src/modules/auth/email-verification.repo.ts:58-121 | The ladder and the writes leave the tables and outcome of `CredentialOps.CompleteVerification`. |
| Repositories.RegistrationRepository.IssuePendingRegistration | apps/api/src/modules/auth/registration.repo.ts:82-119 | Lock, retire, insert: the atomic effect, or nothing. |
| Repositories.RegistrationRepository.SettleInvitation | apps/api/src/modules/auth/registration.repo.ts:312-348 | Runs the seam inside a savepoint: its writes are kept if it accepts, undone if it refuses with a listed code, and any other failure aborts; `CredentialAnswers.RegistrationAnswers` says exactly when each happens. |
| Repositories.RegistrationRepository.AcceptInvitation | apps/api/src/modules/invitations/invitation.acceptance.ts:218-275 | The seam's writes one by one, each checked against its keys: membership, mark, and the two security events; a taken membership is refused, another violated key crashes. |
| Repositories.RegistrationRepository.InsertAccount | apps/api/src/modules/auth/registration.repo.ts:166-232 | User, organization, Owner membership, session and token, one insert after the other, each failing on its own key, the email index first of all told apart. |
| Repositories.RegistrationRepository.CompleteRegistration | apps/api/src/modules/auth/registration.repo.ts:130-281 | Ladder, the five inserts, the savepoint and the closing updates, statement by statement, to the state and answer of `CredentialOps.CompleteRegistration`, given by columns in `CredentialAnswers.RegistrationAnswers` and `RegistrationRows`; a failure at any point restores the tables. |
| AuthServices.AuthService.IssueSession | apps/api/src/modules/auth/auth.service.ts:338-363 | Session row, then first token; both outcomes of both inserts. |
| AuthServices.SessionIssuedShape | apps/api/src/modules/auth/auth.service.ts:338-363 | A login succeeds if and only if the user exists and ids and digest are new; the session and token rows in full; a failed token insert leaves the session behind. |
| AuthServices.AuthService.Refresh | apps/api/src/modules/auth/auth.service.ts:531-605 | Rotation, then per classification the family and session revocations and the event; for every stored token that is presented, answer, rows and event by that token's columns. |
| AuthServices.RefreshAnswers | apps/api/src/modules/auth/auth.service.ts:543-605 | The answer mirrors the rotation's classification; apart from one event only a rotation or a reuse writes. |
| AuthServices.ReplayIsHandled | apps/api/src/modules/auth/auth.service.ts:570-592 | Presenting a consumed token, or one of a dead session, ends with reuse detected, every token of its family and its session revoked for that reason, and an event naming both; the event's failure alone turns the answer into an error. |
| AuthServices.RefreshByColumns | apps/api/src/modules/auth/auth.service.ts:531-605 | The same for every case of a refresh. |
| AuthServices.AuthService.HandleReuse | apps/api/src/modules/auth/auth.service.ts:570-592 | Family, then session, then event. |
| AuthServices.ReuseHandlingEffect | apps/api/src/modules/auth/auth.service.ts:570-592 | The whole family and the session are marked with instant and reason, earlier marks stay, nothing else moves, and no access token of the session authenticates. |
| AuthServices.AuthService.Logout | apps/api/src/modules/auth/auth.service.ts:607-634 | No cookie or an unknown token changes nothing; otherwise session, then its tokens, then an event: the marks and the event by columns. |
| AuthServices.AuthService.RevokeOwnSession | apps/api/src/modules/auth/auth.service.ts:676-707 | Another user's or a missing session is refused unchanged; an already revoked one succeeds unchanged. |
| AuthServices.SessionEndEffect | apps/api/src/modules/auth/auth.service.ts:618-623 | Ending a session revokes it and exactly its tokens. |
| AuthServices.SessionEndIsIdempotent | apps/api/src/modules/auth/auth.service.ts:687-696 | Ending it again, at any time, changes nothing. |
| WorkflowRuns.RefreshRun | apps/api/src/modules/auth/auth.service.ts:531-605 | The refresh steps of the interleaved system, run without interruption from any reachable state, end in exactly the database of `AuthService.Refresh`, with no task left. |
| WorkflowRuns.LogoutRun | apps/api/src/modules/auth/auth.service.ts:607-634 | The same for logout. |
| WorkflowRuns.RevocationRun | apps/api/src/modules/auth/auth.service.ts:676-707 | The same for a user's session revocation. |
| WorkflowRuns.LoginRun | apps/api/src/modules/auth/auth.service.ts:338-363 | The same for a login. |
| RetentionPolicy.BatchExists | apps/api/src/maintenance/retention-policy.ts:162-180 | The bounded oldest-first subselect always has an answer of size min(batch, eligible). |
| RetentionPolicy.BatchRemovesOnlyDue | apps/api/src/maintenance/retention-policy.ts:224-309 | Every row a batch removes, including tokens a session takes along, is strictly older than the cutoff of its own category. |
| RetentionPolicy.BatchKeepsKeys | apps/api/src/maintenance/retention-policy.ts:271-308 | A committed batch keeps every foreign and unique key. |
| RetentionPolicy.BatchIsSweepStep | apps/api/src/maintenance/retention-policy.ts:162-308 | Every committed batch is one of the sweep steps over which the credential guarantees above range. |
| RetentionPolicy.HoldsAreStable | apps/api/src/maintenance/retention-policy.ts:224-261 | Whether a session is still referred to by an unexpired-window row does not depend on what any category deletes. |
| RetentionPolicy.EligibleAfterOwn | apps/api/src/maintenance/retention-policy.ts:141-182 | Deleting eligible rows makes exactly those ineligible. |
| RetentionPolicy.EligibleAfterOther | apps/api/src/maintenance/retention-policy.ts:310-316 | Deleting eligible rows of another category leaves a category's backlog as it was, for every order but sessions before refresh tokens. |
| RetentionPolicy.OldestComposes | apps/api/src/maintenance/retention-policy.ts:162-180 | Oldest-first batches compose to an oldest-first prefix of the backlog. |
| RetentionPolicy.OnlyOldEventsBlock | apps/api/src/maintenance/retention-policy.ts:224-261 | Only an event past its own cutoff can make a session batch fail on the foreign key. |
| RetentionExecutor.Executor.DeleteBatch | apps/api/src/maintenance/retention-policy.ts:162-180 | One batch: the oldest eligible rows go, or the foreign key aborts it and nothing changes. |
| RetentionExecutor.Executor.RunApplyCategory | apps/api/src/maintenance/retention.ts:134-158 | The batch loop removes an oldest-first part of the backlog of size min(E, size*max); `truncated` exactly when E >= size*max, else E/size + 1 batches and nothing left; it fails only on a blocked session. |
| RetentionExecutor.ShortBatchResult | apps/api/src/maintenance/retention.ts:146-153 | After k full batches a short one means the backlog is clear and tells its size. |
| RetentionExecutor.CapResult | apps/api/src/maintenance/retention.ts:154-157 | At the cap exactly size*max rows are gone and the category is called truncated, also when nothing is left. |
| RetentionExecutor.FailsIffBlocked | apps/api/src/maintenance/retention.ts:134-158 | A category fails only on a blocked backlog; when the backlog fits the run's bounds it fails if and only if the backlog is blocked. |
| RetentionExecutor.FailsIffReachBlocked | apps/api/src/maintenance/retention.ts:134-158 | For any bounds, where no two due rows are equally old: it fails if and only if the oldest size*max rows are blocked. |
| RetentionExecutor.Executor.RunRetentionCleanup | apps/api/src/maintenance/retention.ts:165-215 | For any categories and any truncation: every event that went was older than `securityEventDays`, every refresh token and session past its expiry by `endedSessionDays`, every other token and pending registration by `expiredAuthTokenDays`, in days of 86 400 000 ms, and a session only if nothing inside its window refers to it. Dry run changes nothing and reports the counts of due rows; each unfailed category of an apply run deletes what such a count predicts; `expired_sessions` fails only if, and for a backlog within its bounds exactly if, an event the run leaves in place still refers to a session of that backlog; a complete run is the sweep of its categories in order; if a complete `security_events` came first nothing fails; totals are the sums of the results. |
| RetentionExecutor.DryRunThenApply | apps/api/src/maintenance/retention.ts:165-215 | A dry run followed by an apply run on the same database: the dry run deletes nothing, and each unfailed category then deletes, truncates and batches exactly as the dry run's count for it predicts. |
| RetentionExecutor.FullSweep | apps/api/src/maintenance/retention.ts:165-215 | After a full-catalog run without truncation or failure exactly the rows inside their windows remain, and the sessions that are unexpired or referred to from inside a window. |
| RetentionExecutor.SessionsAloneCanFail | apps/api/src/maintenance/retention-policy.ts:224-261 | If some event still refers to a due session and the backlog fits the bounds, the category fails; that event is itself past its cutoff, so a run with `security_events` first would not have met it. |
| RetentionExecutor.SessionsAlone | apps/api/src/maintenance/retention.ts:165-215 | The run of `expired_sessions` alone: within the bounds it fails if and only if its backlog is blocked. |
| RetentionExecutor.StaleSessionIsBlocked | apps/api/src/maintenance/retention-policy.ts:224-261 | A consistent two-row database, for any windows and instant, whose one due session is blocked by its one due event. |
| RetentionExecutor.StaleSessionsAlone | apps/api/src/maintenance/retention.ts:165-215 | On it the run of `expired_sessions` alone fails, whatever the bounds. |
| RetentionSafety.BatchIsSwept | apps/api/src/maintenance/retention-policy.ts:162-308 | Any batch removes only events and rows whose expiry lies before the run's `now`. |
| RetentionSafety.SweepKeepsSessionsWorking | apps/api/src/modules/auth/auth.repo.ts:131-146 | From `now` on, exactly the same refresh tokens rotate and the same access tokens authenticate after any part of a sweep as before it. |
| RetentionSafety.SweepKeepsResets | apps/api/src/modules/auth/password-recovery.repo.ts:71-165 | A password reset completes after it if and only if it would have before. |
| RetentionSafety.SweepKeepsVerifications | apps/api/src/modules/auth/email-verification.repo.ts:58-121 | The same for email verification. |
| RetentionSafety.SweepKeepsRegistrations | apps/api/src/modules/auth/registration.repo.ts:130-281 | Whatever registers before it registers after it with the same result, for any seam that reads the rows a sweep keeps; the converse holds unless the completion draws an id or digest of a row the sweep deleted. |
| RetentionWindows.CatalogByColumns | apps/api/src/maintenance/retention-policy.ts:316-376 | Clearing the catalog in order leaves exactly the rows inside their windows, in days and columns. |
| RetentionWindows.EligibleIsDue | apps/api/src/maintenance/retention-policy.ts:141-261 | Each category selects exactly its due rows. |
| RetentionWindows.BatchRemovesOnlyOutside | apps/api/src/maintenance/retention-policy.ts:162-308 | Any batch removes only rows outside their windows, the tokens a session takes along included. |
| RetentionWindows.OnlyDueGoneComposes | apps/api/src/maintenance/retention.ts:134-158 | Deletions compose: a row an earlier batch removed never held a session back. |
| RetentionSafety.SweepsAbsorb | apps/api/src/maintenance/retention-policy.ts:393-399 | A sweep at an earlier instant followed by one at a later instant equals the later one alone; sweeping is idempotent. |
| RetentionCli.ParseBoundedInteger | apps/api/src/maintenance/retention-cli.ts:77-93 | A value exactly for digit strings within bounds, otherwise one error appended. |
| RetentionCli.FindCategory | apps/api/src/maintenance/retention-policy.ts:379-383 | Finds the category of that name exactly if one exists. |
| RetentionCli.FilterCatalog | apps/api/src/maintenance/retention-cli.ts:178-184 | A selection keeps the catalog's order and exactly its members. |
| RetentionCli.ParseRetentionArgs | apps/api/src/maintenance/retention-cli.ts:96-188 | Help if and only if asked for anywhere; a run if and only if every argument is well formed and the modes do not conflict; then mode, categories, bounds and output mean what the literal arguments say; otherwise every error, in order. |
| RetentionCli.RetentionCommand | apps/api/src/maintenance/retention-command.ts:28-75 | The run is the one the command line means, with its batch size or the configured one. Without a literal `--apply` the database never changes; with it only rows outside their windows go and keys hold. Exit code 2 exactly if no argument asks for help and one is malformed or both modes are given; a summary exactly if neither that nor help; exit code 1 exactly for a failed category. |
| CommandLine.WellFormedIff | apps/api/src/maintenance/retention-cli.ts:96-170 | The arguments that cause no error, written out: six flags, six category names, and the two bounds with a printed number in range. |
| CommandLine.CategoriesAreNamed | apps/api/src/maintenance/retention-cli.ts:172-188 | An accepted line runs the categories it names, in catalog order, or all six. |
| CommandLine.BatchSizeIsLiteral | apps/api/src/maintenance/retention-cli.ts:77-93 | The batch size is the number printed in the last `--batch-size=`, 1 to 50 000; without one there is none. |
| CommandLine.MaxBatchesAreLiteral | apps/api/src/maintenance/retention-cli.ts:77-93 | The same for `--max-batches=`, 1 to 1000, and 1000 without one. |
| CommandLine.BoundedIffPrinted | apps/api/src/maintenance/retention-cli.ts:77-93 | A bound is read exactly from the printed form of a number in range behind any zeros. |
| RateLimit.EnforceStoreAvailability | apps/api/src/lib/rate-limit.ts:57-68 | A call proceeds exactly if allowed, or if the store is unavailable and the mode is open; 503 exactly if unavailable and closed. |
| RateLimit.RedisRateLimiter.Consume | apps/api/src/lib/rate-limit.ts:79-100 | Commands sent, counter left and decision for every fate of INCR and EXPIRE. |
| RateLimit.DecisionByColumns | apps/api/src/lib/rate-limit.ts:79-100 | Unavailable exactly if INCR failed, or EXPIRE did on a first hit; allowed exactly if the counter is then within the limit. |
| RateLimit.CounterByColumns | apps/api/src/lib/rate-limit.ts:84-92 | The counter and expiry instant a call leaves, for every fate of its commands. |
| RateLimit.GrantsPerInterval | apps/api/src/lib/rate-limit.ts:79-100 | However commands are lost, delayed or repeated, at most 2L - 1 calls of a key are allowed in any half-open interval of one window's length, none for L = 0. |
| RateLimit.StuckIffExpireMissing | apps/api/src/lib/rate-limit.ts:88-92 | A first hit leaves a counter without expiry exactly when INCR took effect and EXPIRE did not. |
| RateLimit.StuckForever | apps/api/src/lib/rate-limit.ts:88-92 | Such a counter keeps counting over any later calls and is never dropped. |
| RateLimit.StuckKeyIsLimitedForGood | apps/api/src/lib/rate-limit.ts:88-95 | So past the limit every answered call of that key is limited, however late. |
| RateLimit.InMemoryRateLimiter.Consume | apps/api/src/lib/rate-limit.ts:106-122 | New map and decision. |
| RateLimit.StoresAgree | apps/api/src/lib/rate-limit.ts:79-122 | Over any failure-free call sequence both stores hold the same counters and reset instants. |
| RateLimit.GrantsAgree | apps/api/src/lib/rate-limit.ts:79-122 | Hence both allow the same number of calls in every interval. |
| RateLimitWindows.LimitedIffOverInWindow | apps/api/src/lib/rate-limit.ts:106-122 | A call is limited if and only if its window, which began with a call for the key, holds more than L calls. |
| RateLimitWindows.EveryWindowGrantsItsLimit | apps/api/src/lib/rate-limit.ts:106-122 | Every window ever opened allows exactly its first L calls. |
| RateLimitWindows.NeverLimitedUnderTheRate | apps/api/src/lib/rate-limit.ts:106-122 | If no interval of one window's length holds more than L calls, none is limited. |
| RateLimitWindows.AllowedPerInterval | apps/api/src/lib/rate-limit.ts:106-122 | The 2L - 1 bound for the in-memory limiter. |
| RateLimitWindows.IntervalBoundIsReached | apps/api/src/lib/rate-limit.ts:106-122 | For every L >= 1 and window of two instants or more some call sequence reaches 2L - 1. |
| ApiKeyAuthentication.ApiKeyAuthenticator.RecordFailedAuthEventBounded | apps/api/src/modules/api-keys/api-key.authenticator.ts:167-201 | The event is written exactly if the limiter grants it; otherwise one warning exactly if the last is a window old; the shared bound and the warning spacing are kept. |
| ApiKeyAuthentication.ApiKeyAuthenticator.AcceptCredential | apps/api/src/modules/api-keys/api-key.authenticator.ts:204-277 | A row is accepted exactly if the key parses, is on file, unrevoked and unexpired and its organization active; otherwise the recorded reason is the first that applies, one column condition per reason. |
| ApiKeyAuthentication.ApiKeyAuthenticator.Authenticate | apps/api/src/modules/api-keys/api-key.authenticator.ts:204-359 | Every answer if and only if its columns and the limiter's answers say so: an actor exactly for a row in good standing whose organization is entitled, that has the scope, and for which both limiter answers let the call pass in the mode, and it carries that row's id, organization and scopes; 401, 403 and 429 likewise; the event of each answer and the stamp of an actor in full; the limiter is asked for that row's buckets. |
| ApiKeyAuthentication.VerdictByColumns | apps/api/src/modules/api-keys/api-key.authenticator.ts:204-359 | The ladder as a whole, column by column. |
| ApiKeyAuthentication.OneReason | apps/api/src/modules/api-keys/api-key.authenticator.ts:204-277 | A reason holds exactly if there is no row in good standing, and no two do. |
| ApiKeyAuthentication.ApiKeyAuthenticator.CheckLimits | apps/api/src/modules/api-keys/api-key.authenticator.ts:303-336 | The key's bucket, and the organization's exactly if the key's let the call pass. |
| ApiKeyAuthentication.DurableEventsPerInterval | apps/api/src/modules/api-keys/api-key.authenticator.ts:167-185 | Across processes sharing store and journal, at most 2A - 1 durable 401 events per source in any interval of one window's length, whatever the store does. |
| ApiKeyAuthentication.OthersMayUseTheStore | apps/api/src/modules/api-keys/api-key.authenticator.ts:174-181 | The bound survives any other traffic on the store. |
| ApiKeyAuthentication.TouchingKeepsVerdicts | apps/api/src/modules/api-keys/api-key.authenticator.ts:341-350 | Stamping last use changes no credential's verdict. |
| Keyset.PagesAreGood | apps/api/src/modules/audit/audit.service.ts:251-260 | A page holds admitted rows in order, has a cursor exactly if there is more, and misses an admitted row only if it comes after the page. |
| Keyset.NeverTwice | apps/api/src/modules/audit/audit.repo.ts:42-103 | Whatever happens to the table between pages the returned rows strictly descend, so none is returned twice. |
| Keyset.ReturnedIffNoCursorLosesIt | apps/api/src/modules/audit/audit.repo.ts:42-103 | A row that matches at every request of a finished traversal is returned if and only if every page boundary before it has a cursor that admits it. |
| Keyset.PresentThroughoutIsReturned | apps/api/src/modules/auth/auth.repo.ts:213-246 | With instants in whole milliseconds every such row is returned. |
| Keyset.CompleteIffSeamless | apps/api/src/modules/audit/audit.service.ts:251-260 | On a fixed table the pages concatenate to the sorted filtered table if and only if each boundary's cursor admits the next row. |
| Keyset.FixedTableComesBackWhole | apps/api/src/modules/auth/auth.service.ts:655-670 | With whole milliseconds they do, in the expected number of pages. |
| Keyset.PageCountIsCeiling | apps/api/src/modules/auth/auth.service.ts:655-670 | That number is the rounded-up quotient, and one for an empty table. |
| Keyset.TraversalEnds | apps/api/src/modules/auth/auth.service.ts:655-670 | Following cursors over a fixed table ends, for any starting cursor and any limit of at least one. |
| Keyset.SubMillisecondRowsAreLost | apps/api/src/modules/audit/audit.service.ts:253-260 | Two rows within one millisecond at a page boundary: the second is never returned. |
| Sanitizer.SanitizeValue | apps/api/src/lib/security-metadata.ts:77-94 | The recursive method computes the specified clean value and terminates on every tree. |
| Sanitizer.SanitizeObject | apps/api/src/lib/security-metadata.ts:96-108 | The loop with assignment by key computes the specified entries. |
| Sanitizer.TopLevelKeys | apps/api/src/lib/security-metadata.ts:68-108 | A top-level key survives if and only if it is present, not forbidden and not `__proto__`. |
| SanitizedPaths.StoredAt | apps/api/src/lib/security-metadata.ts:77-125 | The stored metadata path by path: a value is there if and only if the original had one, no key on the way is forbidden or `__proto__`, and it is at most five levels down; leaves are kept or cut to 1024 characters and an ellipsis, arrays keep their length, the fifth level is the truncation mark. |
| SanitizedPaths.ForbiddenIff | apps/api/src/lib/security-metadata.ts:20-77 | A key is forbidden exactly if, in lower case, it contains one of the thirteen words and is none of the sixteen identifiers, all written out. |
| Sanitizer.UnchangedIffStable | apps/api/src/lib/security-metadata.ts:77-108 | Exactly which values sanitizing leaves unchanged at a depth. |
| Sanitizer.SanitizingTwiceIsSanitizingOnce | apps/api/src/lib/security-metadata.ts:121-125 | Idempotence: sanitizing on read never alters what sanitizing on write stored. |
| Sanitizer.SanitizedIsSafe | apps/api/src/lib/security-metadata.ts:68-125 | No forbidden key at any depth, at most five levels, no string value over 1025 characters. |
| Sanitizer.HarmlessIsKept | apps/api/src/lib/security-metadata.ts:77-108 | Shallow, short metadata without forbidden or prototype keys is stored exactly as given. |
| ApiKeySecret.GenerateApiKeySecret | apps/api/src/modules/api-keys/api-key-secret.ts:64-73 | Parsing a generated key returns its display prefix and secret. |
| ApiKeySecret.DisplayAlphabetIsSound | apps/api/src/modules/api-keys/api-key-secret.ts:34-44 | 32 different characters, accepted by the guard, without the separator. |
| ApiKeySecret.PrintThenParse | apps/api/src/modules/api-keys/api-key-secret.ts:89-113 | Parse after print gives both parts back, also when the secret contains `_`. |
| ApiKeySecret.ParseThenPrint | apps/api/src/modules/api-keys/api-key-secret.ts:89-113 | Whatever parses is rebuilt exactly by prefix, `_` and secret. |
| ApiKeySecret.ParsesIffPrinted | apps/api/src/modules/api-keys/api-key-secret.ts:89-113 | The strings that parse are exactly the printed ones, each in one way. |
| Alphabet.RandomAlphabetString | packages/shared/src/random-alphabet.ts:50-56 | The loop maps each byte to its letter. |
| Alphabet.PreimagesAreExact | packages/shared/src/random-alphabet.ts:50-56 | The listed byte strings are exactly those that yield an output. |
| Alphabet.EveryStringEquallyLikely | packages/shared/src/random-alphabet.ts:35-56 | For an accepted alphabet of different characters every output of length k comes from exactly (256/n)^k byte strings. |
| Alphabet.AcceptedIffUniform | packages/shared/src/random-alphabet.ts:35-43 | Without repeated characters the guard accepts exactly the uniform alphabets. |
| Alphabet.AcceptedButRepeating | packages/shared/src/random-alphabet.ts:35-43 | An accepted alphabet with repeats is uniform if and only if all its characters occur equally often. |
| Alphabet.UniformIff | packages/shared/src/random-alphabet.ts:35-56 | For every alphabet, accepted or refused, repeats or not: it is uniform if and only if the whole passes plus the partial pass hit all its characters equally often. |
| Alphabet.CountBytesFor | packages/shared/src/random-alphabet.ts:50-56 | How many byte values below m yield a character: whole passes plus a partial one. |
| Alphabet.RepetitionIsNotNoticed | packages/shared/src/random-alphabet.ts:35-43 | The guard accepts `aaab`, where one character has weight 192 and the other 64. |
| Alphabet.RefusalIsNotBias | packages/shared/src/random-alphabet.ts:35-43 | The guard refuses `aaa`, which `UniformIff` calls uniform: refusal does not mean bias. |

## Left out

- Password and token hashing, JWT signing and verification, base64url, JSON and CSPRNG: digests, draws and decoded values are parameters.
- SQL planning, Drizzle, full PostgreSQL isolation and deadlocks: transactions are atomic steps, and nothing is claimed about deadlock freedom.
- `requireAuthenticatedSession` beyond its database check: `Authenticates` is the session and user condition; token parsing and its error codes are not modelled.
- The per-endpoint rate limits in front of the auth workflows, mail rendering and what becomes of a mail once sent, HTTP routes, cookies, headers and readiness probes.
- Quota evaluation and API-key quota ceilings, organization provisioning beyond one organization and one membership, and registration and invitation services: the acceptance seam decides arbitrarily whether it accepts, rejects with a code or crashes; accepting it writes one membership, one mark and two security events.
- The query filters of the two listings: a page is computed over the set of rows that match at that moment.
- The object model of JavaScript beyond own entries: values that are no JSON, and the prototype an own key `__proto__` sets.
- Event types, metadata and request ids of security events; their references and instants are kept.
- The printed form of a retention summary and of parser messages, and the durations in it.
- The web demo, configuration schema beyond the retention floors, static catalogs, and other copies of the keyset listing.
- RetentionExecutor.Executor.RunRetentionCleanup: for a category that fails it reports zero like the code, so its totals are not tied to rows that category's earlier batches removed.
- RetentionExecutor.Executor.DeleteBatch: the subselect may break ties between equal instants in any way, and concurrent writers between the two statements of a session batch are not modelled.
- Repositories.EmailVerificationRepository.IssueVerificationToken: states the effect of one issuance run alone; concurrent issuances are in `IssuanceProtocol`.
- AuthServices.AuthService.Refresh: runs without interference; `CredentialRuns` interleaves its writes.
- RetentionSafety.SweepKeepsRegistrations: the seam reads users, organizations, memberships and accepted invitations only, which no sweep touches; a seam that looks at events is not covered.
- RetentionExecutor.FailsIffBlocked: for a backlog beyond the bounds with equally old rows the outcome depends on how the subselect breaks the ties; `RetentionExecutor.FailsIffReachBlocked` covers the rest.
- Keyset.FixedTableComesBackWhole: for whole milliseconds only, which is where the code has the property; `Keyset.CompleteIffSeamless` is the exact condition.
