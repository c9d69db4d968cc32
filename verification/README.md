# A verified model of CounselReady

CounselReady keeps one person's family-court file: their cases, the filings in them as page text, a timeline,
and the account that guards it all. This project models the parts of it whose promises are about every run
rather than one call, and proves them in Dafny. `dafny verify dfyconfig.toml` checks everything.

| files | what they model |
|---|---|
| `Tokens`, `Sessions`, `SessionRuns`, `Revocations` | login sessions as families of refresh tokens; every interleaving of refreshes, logouts and replays, each split into its reads and its write, with logins and deletions |
| `Browser` | the browser's API client, composed with that server |
| `Text`, `Mfa`, `Logins`, `LoginRuns`, `FactorRuns` | TOTP steps, recovery codes, enrolment, and which factor pays for which session |
| `Limiter` | the sliding-window login limiter |
| `Documents`, `Ocr`, `Library`, `LibraryRuns` | ingest, OCR and deletion over two stores that must agree |
| `JobQueue`, `QueueRuns` | the job queue with several workers and crashes |
| `Sorting`, `Citations` | what a reader sees highlighted on a page |
| `Cascade`, `AccountDeletion` | what deleting an account removes, through every declared foreign key |
| `Timeline` | an append-only chronology with notes beside its entries |

Code that updates rows or variables in place is a class whose methods are proved against a function of the old
state; the same functions are the steps of the state machines the run lemmas are about. Refreshing, revoking,
ingesting and working off a job are split where another request can come between; every other request is one
step. A step that does not apply leaves the state as it is, so run lemmas hold of every sequence of steps.

SHA-256 is injective where digests identify tokens and codes, and an arbitrary function of the bytes where it
names documents. Tokens, ids, secrets and challenges are fresh when generated. A TOTP is any function from
secret and step to code, so different steps may show the same code. Times are integer seconds.

## Where the code and its documentation part

* **Replays and the request transaction.** `backend/app/auth/service.py:208-213` revokes the session of a
  replayed token and then raises, and `backend/app/db/session.py:47-55` runs a request as one transaction that
  an exception rolls back. A world of `SessionRuns` says whose transaction handlers write in, and a raising
  handler's writes stand or fall by that: in the caller's, a replay revokes its session
  (`Revocations.ReplayRevokesItsSession`); through the routes, a session nobody logs out is after any run with any
  number of replays exactly as revoked as before (`Revocations.ReplaysThroughTheRoutesRevokeNothing`).
* **Re-dated revocations.** A logout reads the session as unrevoked and later writes by primary key
  (`backend/app/auth/service.py:244-252`, `backend/app/api/auth.py:181-191`). That a session is revoked is never
  lost, but its time can still change exactly while another revocation that had read it earlier is yet to write:
  `Revocations.RevocationIsRedatedIff`.
* **Refresh against revocation.** A refresh past its check when its session is revoked can still rotate, though
  the session stays revoked: `Revocations.RevokedSessionRefreshesIff`.
* **Failures the limiter counts.** `backend/app/auth/service.py:144-153` records a failed attempt and raises. The
  limiter's properties hold of the trail the service works on; with the rollback, login requests add no failure
  to it: `Limiter.RolledBackFailuresDoNotCount`.
* **Purging blobs.** `backend/app/auth/deletion.py:71-76` says the purge follows the commit;
  `backend/app/api/auth.py:260-264` runs it in the handler, before the commit.
  `LibraryRuns.CommitFailingAfterPurge` says exactly when a failing commit still leaves every row its bytes.
* **Lost responses.** After a refresh whose answer was lost, the client's next one is taken for a replay exactly
  when the first had rotated and its session still exists: `Browser.LostResponseIsAReplayIff`.

## Model

| member | source | states |
|---|---|---|
| Sessions.SessionService.IssueSession | backend/app/auth/service.py:176-196 | a login adds exactly the account's own active session with the minted token's digest and thirty days, and an access token good for that account and session for fifteen minutes |
| Sessions.SessionService.RefreshSession | backend/app/auth/service.py:199-241 | rotates exactly when the digest is unspent and is the current one of an active session of an active account, changing two columns of that row and issuing for that row's account; a spent one revokes its own session and nothing else; any other refusal changes nothing |
| Sessions.RotatesIff | backend/app/auth/service.py:205-227 | a refresh goes through exactly for an unspent token that is current for an unrevoked, unexpired session of an active account |
| Sessions.SessionService.RefreshRoute | backend/app/api/auth.py:144-152 | the same inside its request transaction: every refusal leaves the tables as they were |
| Sessions.SessionService.RevokeSessionById | backend/app/auth/service.py:244-257 | logout revokes one session once and keeps an earlier revocation time |
| Sessions.LogoutEndsIt | backend/app/auth/service.py:244-257 | a logout shuts its session out for good, once, and touches nothing else |
| Revocations.LetInIff | backend/app/auth/service.py:260-273 | from its login on, whatever else runs, the gate lets a session in at a time exactly when its row is still there, no revocation of it has been written, and thirty days have not passed, however often it was refreshed |
| Revocations.SessionsStayTheirOwners | backend/app/auth/service.py:176-241 | whatever follows a login, its session is that account's: every refresh of it issues for that account, and a logout everywhere or a deletion of the account ends it |
| Sessions.SessionService.LogoutEverywhere | backend/app/api/auth.py:173-192 | the loop revokes every unrevoked session of the account, and no other session changes |
| Sessions.LogoutEverywhereEndsEach | backend/app/api/auth.py:173-192 | a logout everywhere does that to each of the account's sessions and to nobody else's |
| Sessions.DeletionEndsItsSessions | backend/app/models/session.py:21-64 | deleting an account leaves none of its sessions and their used tokens, and everybody else's as they were |
| SessionRuns.EveryInterleavingIsSound | backend/app/auth/service.py:199-241 | under every interleaving of split refreshes with logins, logouts, replays and deletions each token is rotated at most once, no session's token chain forks, each issued token is current or spent for its own session and never both, and current digests are distinct |
| SessionRuns.RunKeepsSound | backend/app/auth/service.py:176-257 | the invariant behind that holds of every state reached from a sound one |
| SessionRuns.WritersHoldTheTip | backend/app/models/session.py:24-59 | a write the unique index on used digests lets in presents its session's current token, however stale its reads |
| SessionRuns.SoundHasUniqueDigests | backend/app/models/session.py:24-27 | the digest lookup never has two answers |
| SessionRuns.LoginKeepsSound | backend/app/auth/service.py:176-196 | opening a session keeps the invariant over tokens, requests in flight and chains |
| SessionRuns.RotateKeepsTokens | backend/app/auth/service.py:229-234 | the rotating write keeps every issued token either current or spent for its own session |
| SessionRuns.RotateKeepsChains | backend/app/auth/service.py:229-234 | the rotating write extends one chain at its tip and rotates nothing twice |
| SessionRuns.RotationExtendsItsChain | backend/app/auth/service.py:229-234 | a rotation of a current token moves its own session's tip to the minted token and no other session's tip |
| SessionRuns.StepKeepsSound | backend/app/auth/service.py:176-257 | every step of every request keeps the invariant |
| Revocations.RevokedIffStamped | backend/app/auth/service.py:244-257 | over every run with revocations split into read and write, a session that still exists is revoked exactly when it was before or some revocation's write has come since: none is ever lost |
| Revocations.RevocationIsForGood | backend/app/auth/service.py:244-273 | once revoked, a session is never let in again, whatever refreshes and logouts were in flight |
| Revocations.StampersReadItUnrevoked | backend/app/auth/service.py:247-252 | a request comes to write a session's revocation only by reading it as unrevoked, for a logout of it, of all its account's sessions, or for a replay whose writes stand |
| Revocations.RevocationMovesIff | backend/app/auth/service.py:250-252 | a step changes a session's revocation time exactly when it is such a request's write, of another time |
| Revocations.RevocationIsRedatedIff | backend/app/auth/service.py:244-252 | a committed revocation's time can still change exactly while some request that read the session as unrevoked has yet to write |
| Revocations.OverlappingLogoutsRedate | backend/app/auth/service.py:244-252 | of two overlapping logouts the later write's time stays |
| Revocations.NobodyGetsPast | backend/app/auth/service.py:215-219 | no step brings a request past the check of a revoked session |
| Revocations.DeadSessionsNeverRefresh | backend/app/auth/service.py:208-219 | once revoked with no refresh past its check, no continuation ever rotates a token of the session |
| Revocations.RevokedSessionRefreshesIff | backend/app/auth/service.py:199-257 | some continuation still rotates a revoked session's token exactly when a request holding an unspent token is already past its check |
| Revocations.IssuedIsCurrentOrSpent | backend/app/models/session.py:24-64 | whatever follows, an issued token is its session's current one or recorded used for that session, never both |
| Revocations.SpentWhileItsSessionExists | backend/app/models/session.py:51-64 | a used token stays recorded for exactly as long as its session exists |
| Revocations.ReplayRevokesItsSession | backend/app/auth/service.py:205-213 | in its caller's transaction, presenting a spent token revokes exactly the session it was spent in |
| Revocations.ReplayEndsItsSessionIff | backend/app/auth/service.py:205-213 | after a replay its session is revoked exactly when the handler wrote in its caller's transaction or the session was revoked before |
| Revocations.RolledBackReplayRevokesNothing | backend/app/db/session.py:47-55 | in a request transaction a replay leaves the tables as it found them |
| Revocations.ReplaysThroughTheRoutesRevokeNothing | backend/app/api/auth.py:144-152 | over every run of the routes with any number of replays, a session nobody logs out is as revoked, and let in exactly as, before |
| SessionRuns.UninterruptedRefreshRotates | backend/app/auth/service.py:199-241 | the split protocol run without interruption has the effect of the service function |
| SessionRuns.UninterruptedLogoutRevokes | backend/app/auth/service.py:244-257 | so does a logout's read and write |
| SessionRuns.UninterruptedLogoutEverywhereRevokes | backend/app/api/auth.py:173-192 | and those of a logout everywhere |
| Browser.HeldIsNotUsed | frontend/src/api.ts:56-77 | a token the client holds is never a spent one |
| Browser.BenignStepKeepsHeld | frontend/src/api.ts:56-77 | nobody else's step can replace the token the client holds |
| Browser.BenignRun | frontend/src/api.ts:56-77 | the same over any number of others' steps interleaved with the client's own reads, with its minted tokens still unseen |
| Browser.RotationHandsOver | frontend/src/api.ts:66-73 | a rotation the server lets in hands the client the one token that is then current |
| Browser.RefreshedPairIsItsOwners | backend/app/auth/service.py:234-241 | what a silent refresh hands out is good for the very account and session the old pair was for, for fifteen minutes |
| Browser.RefusalLeavesTheRest | frontend/src/api.ts:66-75 | a refused refresh leaves the server's invariant and unseen tokens alone |
| Browser.LostResponseIsAReplayIff | frontend/src/api.ts:63-75 | after a refresh whose answer was lost and anything others do since, the old token is taken for a replay exactly when that refresh rotated and the session still exists |
| Browser.RefreshSucceedsIff | backend/app/auth/service.py:215-241 | a silent refresh, interleaved with others at each step, succeeds exactly when the session is live at its lookup, the account active at its check, and the session undeleted at its write |
| Browser.ApiClient.Fetch | frontend/src/api.ts:56-60 | an ordinary request, whatever others do meanwhile, keeps the client in step with the server |
| Browser.ApiClient.FetchRefresh | frontend/src/api.ts:66-71 | the refresh request, interleaved with others at each of its steps, is never taken for a replay and returns the token that is then current, with fifteen minutes of access for the same account and session |
| Browser.ApiClient.SilentRefresh | frontend/src/api.ts:65-75 | installs such a pair exactly when the session stays live through the refresh, and clears both tokens otherwise |
| Browser.ApiClient.Send | frontend/src/api.ts:56-77 | at most three requests; refreshes exactly on a 401 of a first try with a token; retries exactly when the session stayed live; both tokens set or both cleared; no replay |
| Browser.ApiClient.Login | frontend/src/api.ts:178-189 | success installs the server's current token and fifteen minutes of access for the account that signed in; otherwise the tokens are what the request itself left, and an owed second factor keeps only the challenge |
| Browser.ApiClient.VerifyMfa | frontend/src/api.ts:191-199 | refused without a pending challenge; the challenge is dropped exactly on success |
| Browser.ApiClient.Logout | frontend/src/api.ts:202-205 | the tokens are gone whatever the server answered |
| Mfa.MatchingCounter | backend/app/auth/mfa.py:131-146 | the earliest step of the window with this code, and none exactly when no step of the window has it or it is not digits |
| Mfa.UsedStepStaysRefused | backend/app/auth/mfa_service.py:131-140 | a used step's code is refused while any window contains the step, colliding neighbours included |
| Mfa.TotpAcceptedIff | backend/app/auth/mfa_service.py:124-144 | a code is accepted for a step exactly when that is the first of the three around now that shows it and is newer than the last one used |
| Mfa.RecoveryAcceptedIff | backend/app/auth/mfa_service.py:144-163 | a typed code no step around now shows is accepted exactly when it is an unused recovery code of the account |
| Mfa.PrintedCodeIsAccepted | backend/app/auth/mfa_service.py:147-163 | an unused code typed as it was printed, in either case, is accepted |
| Mfa.SpacesInACodeDoNotMatter | backend/app/auth/mfa.py:131-146 | spaces typed in a TOTP code make no difference |
| Mfa.EnrolmentLifecycle | backend/app/models/mfa.py:41-43 | a setup alone is no active enrolment, a disable ends it, and nobody else's changes |
| Mfa.UseTouchesOneRow | backend/app/auth/mfa_service.py:135-163 | using a factor writes that factor's row and no other |
| Mfa.SameRowIff | backend/app/auth/mfa.py:92-99 | two typed codes select the same row exactly when their letters and digits agree up to case |
| Mfa.SeparatorsDoNotMatter | backend/app/auth/mfa.py:98-99 | a dash or a space typed anywhere selects the same row |
| Mfa.CaseDoesNotMatter | backend/app/auth/mfa.py:98-99 | so does typing any letter in either case |
| Mfa.PrintedCodeNormalizes | backend/app/auth/mfa.py:86-99 | normalizing a printed code gives back exactly its twenty digits |
| Mfa.MfaService.StartEnrolment | backend/app/auth/mfa_service.py:66-101 | a restart replaces the secret and all recovery codes; refused once confirmed; a repeated code rolls it all back |
| Mfa.MfaService.ConfirmEnrolment | backend/app/auth/mfa_service.py:104-121 | activates exactly an unconfirmed enrolment on a matching code and uses that step up |
| Mfa.MfaService.VerifyCodeForLogin | backend/app/auth/mfa_service.py:124-163 | accepts a newer step or an unused recovery code, uses up exactly that, and changes nothing on refusal |
| Mfa.MfaService.DisableMfa | backend/app/auth/mfa_service.py:177-188 | removes the enrolment and each of its codes, and nothing of anyone else's |
| Logins.AuthApi.Authenticate | backend/app/auth/service.py:121-173 | throttles, refuses, hands out a challenge or opens a session, each exactly when it should; the password alone opens none while MFA is active; nobody else's rows change |
| Logins.PasswordDecides | backend/app/auth/service.py:121-173 | with fewer than ten recent failures, an active account of that email and exactly its stored password get a session if no enrolment is confirmed and a challenge if one is; nobody else gets either |
| Logins.DeletionDecides | backend/app/api/auth.py:229-258 | an account can be deleted exactly by its password, and while MFA is on by its password and an acceptable code |
| Logins.DisablingDecides | backend/app/api/mfa.py:171-198 | MFA goes exactly by its account's password and an acceptable code, and then wholly |
| Logins.WrongPasswordIsRefused | backend/app/api/auth.py:235-236 | the wrong password neither signs in, nor earns a challenge, nor disables MFA, nor deletes the account |
| Logins.AuthApi.LoginRoute | backend/app/api/auth.py:116-141 | the same inside its request transaction: a refusal leaves no trace |
| Logins.AuthApi.CompleteMfaLogin | backend/app/auth/service.py:276-285 | opens the session and records the success |
| Logins.AuthApi.Verify | backend/app/api/mfa.py:137-168 | opens a session exactly when the presented challenge decodes in time and a factor of the active account it names was used up; nobody else's rows change |
| Logins.AcceptedCodeSignsIn | backend/app/auth/service.py:276-285 | an active account's acceptable code opens a session of its own and is on record, provided the server has its key |
| Logins.InactiveAccountsStayOut | backend/app/api/mfa.py:145-151 | an inactive or deleted account is signed in by no password, code or passkey |
| Logins.AuthApi.Disable | backend/app/api/mfa.py:171-198 | succeeds exactly with the password and an acceptable factor; then neither enrolment nor codes are left, and nobody else's rows change |
| Logins.AuthApi.DeleteOwnAccount | backend/app/api/auth.py:216-258 | goes through exactly when acknowledged, with the password, and with an acceptable factor if MFA is on; then nothing of the account is left, and a refusal changes nothing |
| Logins.DeletionKeepsOthers | backend/app/auth/deletion.py:50-68 | nobody else's account, factors, passkeys or sessions change |
| Logins.DeletionLeavesNothing | backend/app/auth/deletion.py:50-68 | nothing of a deleted account is left to sign in with or be signed in as |
| Logins.AuthApi.LoginComplete | backend/app/api/passkeys.py:214-265 | succeeds exactly for a live challenge, a known credential of an active account and a verified assertion, and the challenge is gone afterwards |
| LoginRuns.EveryRunIsSound | backend/app/auth/mfa_service.py:66-188 | over every run of login, verify, passkey login, setup, confirm, disable and deletion no factor is used up twice; every open session was opened once, for its own account, with a factor of that account's if MFA was active; answers follow passwords; accepted steps increase; an enrolment has ten codes |
| LoginRuns.SpentForGood | backend/app/auth/mfa_service.py:135-163 | a used factor is never forgotten by any later step |
| LoginRuns.AcceptedIsAvailable | backend/app/auth/mfa_service.py:124-163 | whatever is accepted was still there to use and belongs to the account |
| LoginRuns.StepKeepsLogSound | backend/app/auth/mfa_service.py:104-163 | every step keeps the log of uses free of repetition and in step order |
| LoginRuns.StepKeepsSessionsLogged | backend/app/auth/service.py:176-196 | every step keeps each session opened once, by an entry of its own account |
| LoginRuns.StepKeepsAnswers | backend/app/auth/tokens.py:122-155 | every step keeps answers behind passwords and inside the challenge's lifetime |
| LoginRuns.StepChanges | backend/app/auth/mfa_service.py:66-188 | a step uses up one available factor, restarts, confirms or removes an enrolment, or touches neither table |
| FactorRuns.SessionsMapInjectivelyToFactors | backend/app/api/mfa.py:137-168 | the open sessions opened under active MFA map, each to exactly one factor, injectively, and codes to the session's own account |
| FactorRuns.BothFactorsWereGiven | backend/app/auth/service.py:159-173 | an open session opened with a code followed, within the challenge's five minutes, a password that was exactly its account's stored one |
| FactorRuns.PasswordSessionsKnewThePassword | backend/app/auth/service.py:142-173 | an open session opened without a factor was opened by presenting exactly its account's stored password, with MFA off |
| FactorRuns.PasskeySessionsWereVerified | backend/app/api/passkeys.py:244-254 | a session opened with a passkey was opened by an assertion that verified |
| FactorRuns.AcceptedStepStaysRefused | backend/app/auth/mfa_service.py:135-140 | in every reachable state a code that once paid for a step is refused while a window still contains the step |
| FactorRuns.AcceptedStepsIncrease | backend/app/auth/mfa_service.py:135-144 | the steps one enrolment accepts strictly increase and lie in the windows of their times |
| FactorRuns.AcceptancesAreBounded | backend/app/auth/mfa.py:121-146 | acceptances between two times number at most the steps between them plus three |
| LoginRuns.NoCodeSurvives | backend/app/auth/mfa_service.py:80-101 | after a setup the account's codes are the new ones, unused, and no others; after a disable there are none; other accounts keep theirs |
| LoginRuns.EnrolmentsAreGuarded | backend/app/auth/mfa_service.py:66-121 | a setup or confirmation never touches an active enrolment, and a confirmation takes a code of a step around now |
| LoginRuns.StepKeepsTenCodes | backend/app/auth/mfa_service.py:80-101 | every step keeps ten rows per enrolment and none without one |
| FactorRuns.RemainingPlusConsumedIsTen | backend/app/auth/mfa_service.py:147-174 | in every reachable state the codes left to an enrolment, none of which was ever accepted, and those the log shows accepted add up to ten |
| Limiter.NoWindowOverflows | backend/app/auth/service.py:107-153 | over every run no closed fifteen-minute window holds more than ten recorded failures of one email |
| Limiter.LetThroughIff | backend/app/auth/service.py:107-138 | an email is let through exactly while it has fewer than ten recorded failures in the last fifteen minutes |
| Limiter.AttemptsAreRecorded | backend/app/auth/service.py:144-173 | what is let through is recorded with its outcome, email and time, unless a second factor is still owed; what is not leaves no mark |
| Limiter.SpellingsShareACount | backend/app/auth/service.py:82-85 | blanks around an email and the case of its letters do not matter to its count |
| Limiter.AttemptAddsFailureIff | backend/app/auth/service.py:134-173 | a failure is added exactly by a refused, unthrottled password attempt for that very email |
| Limiter.ThrottlingEnds | backend/app/auth/service.py:107-138 | once the recorded failures have aged out the email is let through, however often it was tried while throttled |
| Limiter.OwnTrailAlone | backend/app/auth/service.py:107-153 | an attempt adds to an email's own trail what it would add to that trail alone, and nothing to any other |
| Limiter.EmailsAreIndependent | backend/app/auth/service.py:82-85 | one email's trail and throttling after any run are what they would be had nobody else tried |
| Limiter.RolledBackFailuresDoNotCount | backend/app/auth/service.py:144-153 | with the request transaction, a run of login requests changes nobody's throttling |
| Documents.ExtractTextLayer | backend/app/ingest/pdf.py:75-121 | for any caps, every page in order, a bad page blank and costing no other its text; refuses exactly when and as the checks say |
| Documents.PagesKeepTheirText | backend/app/ingest/pdf.py:98-118 | a readable page within the cap keeps its text exactly, a longer one its beginning, an unreadable one is blank |
| Documents.ReadIff | backend/app/ingest/pdf.py:75-121 | a document is read exactly when it is a PDF that opens, unlocks and has one to the cap's number of pages |
| Ocr.OcrKeeps | backend/app/ingest/ocr.py:92-135 | whatever the engine answers, pages with text keep text and confidence and an honest status stays honest |
| Ocr.BlankPagesTakeTheirReading | backend/app/ingest/ocr.py:107-125 | a blank page the engine read takes its last reading, text and confidence; one it did not read stays as it was |
| Ocr.FilledCountsEach | backend/app/ingest/ocr.py:109-125 | the count returned is the number of blank pages that were read |
| Ocr.OcrSucceedsIff | backend/app/ingest/ocr.py:73-135 | a job succeeds exactly when the bytes are there, the engine answers and the confidences are fractions; the status is then complete exactly when every page has text, and a failure changes no page |
| Ocr.CitedQuoteSurvives | backend/app/models/document.py:147-166 | a passage whose quote matched its page still matches, and the positions it covers still spell the quote |
| Library.StorageKeyInjective | backend/app/storage/base.py:45-52 | a storage key names one case and one digest |
| Library.LibraryService.IngestDocument | backend/app/ingest/service.py:44-101 | duplicates are found exactly, the blob precedes the row, row, pages and job come together or not at all, failing at any point leaves at most the blob |
| Library.IngestStoresTheDocument | backend/app/ingest/service.py:44-101 | after an ingest that goes through, the row's key holds these very bytes, every page is the one read, and there is a job exactly if some page is blank |
| Library.LibraryService.RunOcr | backend/app/ingest/ocr.py:73-135 | fills exactly the blank pages the engine read, counts them, and sets the status the pages bear out; each failure leaves the row as it should |
| Library.LibraryService.IndexByNumber | backend/app/ingest/ocr.py:107 | a repeated page number keeps its last reading |
| Library.LibraryService.FillBlankPages | backend/app/ingest/ocr.py:109-125 | the loop fills page by page what the specification fills, and counts it |
| Library.LibraryService.CollectStorageKeys | backend/app/auth/deletion.py:38-47 | one key per owned document and no other |
| Library.LibraryService.PurgeObjects | backend/app/auth/deletion.py:71-87 | each delete is attempted on its own; exactly the ones that did not fail are gone and counted |
| Library.LibraryService.DeleteOwnAccount | backend/app/api/auth.py:216-270 | rows first, then blobs; cases, documents and removed blobs are counted, and the last two agree exactly when no delete failed |
| Library.DeletionCountsAddUp | backend/app/auth/deletion.py:50-68 | the summary's counts and what is left add up to what there was |
| Library.DeletionTakesExactlyItsOwn | backend/app/auth/deletion.py:38-87 | a deletion takes every case, document and reachable blob of the account and nothing else |
| LibraryRuns.EveryRunIsSound | backend/app/ingest/service.py:44-101 | in every reachable state each row's key resolves to bytes with its hash and is its own, statuses are honest, text without confidence is the ingested text, and a document has one OCR job exactly when ingested needing OCR |
| LibraryRuns.RunKeepsSound | backend/app/ingest/service.py:44-101 | the same of every state reached from a sound one |
| LibraryRuns.CommitKeepsBytes | backend/app/models/document.py:72-77 | committing a row keeps every row resolvable and every key its own |
| LibraryRuns.PutKeepsSound | backend/app/ingest/service.py:60-63 | writing a blob over whatever was under its key harms no row |
| LibraryRuns.CommitKeepsSound | backend/app/ingest/service.py:65-101 | so does committing the row, its pages and its job, however late after its blob |
| LibraryRuns.PurgeSparesOthers | backend/app/auth/deletion.py:71-87 | a purge leaves alone every key under another account's case |
| LibraryRuns.DeleteKeepsSound | backend/app/auth/deletion.py:50-87 | deletion with any blob deletes failing keeps every remaining row its bytes |
| LibraryRuns.CommitFailingAfterPurge | backend/app/api/auth.py:260-264 | if the commit fails after the purge, every row still has its bytes exactly when nothing of the account's was purged |
| LibraryRuns.RunKeepsPages | backend/app/ingest/ocr.py:107-125 | a page with text keeps text and confidence over every run |
| LibraryRuns.ReadAfterRun | backend/app/api/cases.py:269-315 | after any run the viewer draws as cited every position of a passage that matched when recorded, and they spell its quote |
| Citations.Segments | frontend/src/App.tsx:671-683 | for any offsets, the runs are non-empty and spell exactly the page, and a position is cited exactly when the first passage reaching past it starts at or before it |
| Citations.SortedHighlightsWhatIsCovered | backend/app/models/document.py:156-159 | in start order and under the CHECK constraints, highlighted is exactly covered |
| Citations.PairNeedsOrderIff | backend/app/api/cases.py:305-311 | of any two passages every covered position is highlighted exactly when the earlier comes first |
| Citations.ServedInOrder | backend/app/api/cases.py:305-311 | what the server sends is ordered and covers what is stored |
| Citations.ReadAndHighlight | backend/app/api/cases.py:298-315 | whatever order the passages are stored in, exactly the union of their ranges clipped to the page is drawn as cited |
| JobQueue.BackoffIsTheCappedExponential | backend/app/jobs/queue.py:15-29 | for every integer the clamped computation equals the unclamped capped exponential and lies between 30 s and 30 min |
| JobQueue.BackoffIsMonotone | backend/app/jobs/queue.py:26-29 | more attempts never wait less |
| JobQueue.JobService.Enqueue | backend/app/jobs/queue.py:32-43 | adds one queued row, runnable now |
| JobQueue.JobService.ClaimNext | backend/app/jobs/queue.py:46-69 | takes an unlocked runnable row with the least run_after, or none exactly when there is none |
| JobQueue.JobService.MarkSucceeded | backend/app/jobs/queue.py:72-75 | settles the held row and releases it |
| JobQueue.JobService.MarkFailed | backend/app/jobs/queue.py:78-90 | settles the held row on its last attempt, else requeues it after its backoff |
| QueueRuns.FailedJobWaits | backend/app/jobs/queue.py:78-90 | a job that failed with budget left is queued again with its backoff, and is runnable from exactly then on |
| QueueRuns.RetriesWaitOutTheBackoff | backend/app/jobs/queue.py:46-90 | in every legal run, crashes included, no later claim of it comes before its backoff has passed |
| QueueRuns.SettledJobsStaySettled | backend/app/jobs/queue.py:72-86 | a success clears the error, a last failure fails the job for good, and neither is runnable again |
| QueueRuns.EnqueuedIsRunnable | backend/app/jobs/queue.py:32-43 | a new job is runnable from now on |
| QueueRuns.RunKeepsValid | backend/app/jobs/models.py:30-41 | with any workers and crashes no job is held twice, queued means fewer than five attempts, running one to five, failed exactly five |
| QueueRuns.StepKeepsValid | backend/app/jobs/queue.py:46-90 | each claim, mark and crash keeps that |
| QueueRuns.CrashErasesTheClaim | backend/app/jobs/queue.py:46-58 | whatever others do meanwhile, a crash leaves the queue exactly as if the claim had never happened |
| QueueRuns.StepSpendsBudget | backend/app/jobs/queue.py:66-90 | each committed claim-and-mark lowers the remaining budget, claims and crashes leave it, a new job adds five |
| QueueRuns.CommittedClaimsAreBounded | backend/app/jobs/models.py:30 | committed claims of a run number at most the budget at its start plus five per job added |
| QueueRuns.DrainedIff | backend/app/jobs/models.py:30-41 | no budget is left exactly when every job has succeeded or failed for good |
| QueueRuns.NeverStuck | backend/app/jobs/queue.py:46-69 | until then, with nobody at work and time enough, some job can be claimed |
| QueueRuns.StepShrinksAhead | backend/app/jobs/queue.py:32-69 | each step leaves the jobs due by a past time no more, and each claim one fewer |
| QueueRuns.NobodyStarves | backend/app/jobs/queue.py:46-90 | in a crash-free run, a due job waits for fewer claims of others than there were jobs due with it |
| QueueRuns.BackoffOverABudget | backend/app/jobs/queue.py:84-89 | over any run the times a job's row is put off to lie, added up, at most 450 seconds after its failures |
| Cascade.CascadeFrom | backend/app/auth/deletion.py:50-68 | following ON DELETE CASCADE ends at the least closed set of rows |
| Cascade.CascadeIsOwnershipIff | backend/app/auth/deletion.py:50-68 | the cascade takes exactly what the account owns if and only if no other account's row cascades from one of its rows |
| Cascade.DeleteRoot | backend/app/auth/deletion.py:50-68 | deleting an account removes exactly the rows it transitively owns and nulls what pointed at them |
| Cascade.NothingDangles | backend/app/auth/deletion.py:50-68 | afterwards every foreign key, NOT NULL and CHECK constraint still holds |
| Cascade.OthersAreUntouched | backend/app/auth/deletion.py:50-68 | exactly the owned rows are gone and every other account's row is as it was |
| Cascade.TrailSurvives | backend/app/models/audit.py:45-86 | an audit row survives with exactly its references to what still exists |
| Cascade.DeleteKeepsSound | backend/app/auth/deletion.py:50-68 | a deletion keeps the ownership invariant it relies on |
| Cascade.InsertKeepsSound | backend/app/models/event.py:90-170 | so does a new row that refers only to its own owner's rows |
| AccountDeletion.SchemaIsLawful | backend/app/models/event.py:68-172 | the declared foreign keys form no cycle |
| AccountDeletion.WrittenRowsReferWell | backend/app/api/events.py:178-232 | what each route writes meets every foreign key and CHECK of the schema |
| AccountDeletion.AuthorsAreOwners | backend/app/api/cases.py:72-83 | an entry or note written through the ownership lookup is authored by its case's owner |
| AccountDeletion.WrittenRowsAreOwned | backend/app/models/event.py:90-170 | every row an account writes belongs to it, and so goes with it; the sign-in and access trails are nobody's |
| AccountDeletion.EveryReachableStateIsSound | backend/app/models/event.py:68-172 | every state the routes can reach satisfies the constraints and the ownership invariant |
| AccountDeletion.RunKeepsSound | backend/app/models/event.py:68-172 | and so does every state reached from one that does |
| AccountDeletion.DeletionAfterAnyRun | backend/app/auth/deletion.py:50-68 | after any run, deleting an account leaves nothing dangling, removes exactly its rows, changes no other account's, and keeps every audit row with the references that still resolve as they were and the rest nulled |
| Sorting.OrderIsDeterminedIff | backend/app/api/events.py:152-159 | an ORDER BY of distinct rows is the same for every storage order exactly when no two rows tie |
| Timeline.TimelineApi.ListEvents | backend/app/api/events.py:144-175 | the owner gets the case's chronology and the access is recorded; anyone else is refused and nothing is |
| Timeline.ListingShowsRows | backend/app/api/events.py:111-121 | a listing shows the case's rows one by one, each with its own fields |
| Timeline.RowsAreTheCase | backend/app/api/events.py:152-159 | they are exactly the case's entries, earliest first, and as recorded where two share a date |
| Timeline.NotesAreItsOwn | backend/app/models/event.py:134-136 | beside an entry stand exactly its notes, oldest first, with their own words |
| Timeline.TimelineApi.CreateEvent | backend/app/api/events.py:178-211 | adds one entry in the owner's name and returns what every listing will show for it |
| Timeline.RecordedEntriesAreListed | backend/app/api/events.py:178-211 | what an account records is its own assertion, cites nothing, and is in the very next listing |
| Timeline.TimelineApi.CreateNote | backend/app/api/events.py:214-232 | adds one note beside an entry of the owner's case, and touches no entry |
| Timeline.OthersAddNothing | backend/app/api/events.py:124-138 | only a case's owner adds to it, and a note only to an entry of that case |
| Timeline.EarlierReadingsStand | backend/app/models/event.py:139-172 | over any run an earlier listing is a subsequence of every later one with all fields and citations unchanged and earlier notes a prefix of later ones |
| Timeline.EverySinceTheFirstStands | backend/app/api/events.py:144-232 | in particular of all readings since the first row was written |
| Timeline.RunGrows | backend/app/api/events.py:178-232 | over any run entries, notes and sources are only added, notes only behind those already there |
| Timeline.EntryIsCarried | backend/app/models/event.py:133-136 | an entry is shown later word for word as before, its notes extended only at the end |
| Timeline.StepGrows | backend/app/api/events.py:178-232 | no step changes or removes an entry, note or source |
| Timeline.StepKeepsSound | backend/app/models/event.py:71-88 | every write keeps the CHECK constraints and citations that resolve |
| Timeline.ReadingIsStable | backend/app/api/events.py:152-159 | a listing does not depend on how the rows are stored |
| Timeline.CitedIffDocumentary | backend/app/models/event.py:71-86 | an entry is shown with a citation exactly when it is document-derived, and then with its passage's quote, its page's number and its document's title |

## Left out

- Argon2, Fernet, PyJWT, WebAuthn, pypdf and SHA-256 themselves: library code, here oracles or injective functions.
- SecretDecryptionError: a stored secret that no longer decrypts; every route turns it into a refusal.
- Timing equality of refused logins, response wording and HTTP status mapping.
- Concurrent verification of one TOTP step or recovery code, and concurrent calls of one browser client: the code does not serialise them, so those properties are about one call after another.
- A fetch that rejects halfway: the client lemmas assume that the answer to a refresh arrives.
- Text outside ASCII: case mapping, whitespace and digits are the ASCII ones.
- UTF-16 offsets in the browser against code points in Python: one index space stands for both.
- Paths in LocalObjectStore and streaming uploads (`read_bounded`): the store is a map whose operations may fail.
- Document titles, kinds, dates and page_count, passkey sign counts and labels: no modelled branch reads them.
- The OCR worker loop: no code in the repository drives the queue; the queue lemmas let any number of workers claim, mark or crash in any order.
- `job` rows in account deletion: they have no foreign key and stay.
- Extraction: no code in the repository writes parties, passages, facts or document-derived entries. Timeline runs admit any such entry the constraints admit; in AccountDeletion the schema and the lemmas of Cascade cover those rows, the runs from the empty database do not write them.
- Transactions that overlap on one timeline: `created_at` is the start of the writing transaction, and the Timeline runs take creation times in the order of commits.
- Isolation anomalies other than those of refreshing, revoking, ingest and the queue: every other request is one step.
- Migrations, health checks, configuration checks, request logging and the user interface beyond `segments` and the API client.
