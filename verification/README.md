# The stateful core of allauth, in Dafny

This project models the parts of django-allauth that keep state between requests, and proves what
holds over all their runs: the sliding-window rate limiter over a shared cache, the email address
table with its denormalised `user.email`, the login stage pipeline stored in the session, the code
verification processes, the stash of social login states, and two compact algorithms (user codes
and resource containment). Cache, database and session are explicit stores; the clock, random
codes and ids, the outcome of password checks and of sends, and settings are parameters.
`dafny verify dfyconfig.toml` checks everything.

## Modules

- `RateHistory`: newest-first hit lists, the TTL entry, and the log that never forgets.
  `RateLimiter`: the limiter as a class over that cache, one request at a time. `RateDryRuns`: when
  a dry run can be trusted. `RateWorkers`: any number of workers interleaving lock, read, clock,
  write and unlock. `RateClock`: what a rollback takes back, depending on the clock. `LockWait`: the
  back-off loop. `LoginAttempts`: failed-login accounting.
- `EmailTables`: constraints and every operation as a relation on the tables. `EmailSteps`: what
  each operation does, row by row. `EmailAddresses`: the objects and flows that write them, in the
  order the code writes. `EmailRuns`: theorems over runs. `EmailWitnesses`: short runs that end
  where one would not expect. `EmailSignup`: the cleanup of claimed addresses and the setup of a
  new user.
- `LoginStages`: logins, their stored form, the pipeline and its journal. `LoginSessions`: the
  session as a class; every request is a method. `LoginPipelines`: the stages allauth ships.
- `UserCode`, `CodeLogs`, `CodeVerification`: codes, the budgets of a process, and the processes as
  requests on a session. `CodeOverlap`, `CodeMixes`: wrong guesses, and requests of every kind, that
  overlap.
- `StateStash`: the dictionary of social login states. `Resources`: resource indicators of RFC 8707.
  `Options`: a value that may be missing.

Ghost logs and journals record what happened; identifiers (`id`) that tell one process, login or
worker from another exist only in the model. A session is written back as Django does it: not at
all after an exception, unless something else marks it as modified; then it also picks up what the
request changed in the dictionaries it shares with the session. That choice is the `leak` of an
outcome.

## Where the code falls short of what one would expect

Each of these has a lemma with the exact condition unless it says otherwise, and most a witness.

- A rollback removes every hit with its timestamp, so it takes away one hit if and only if the stamp
  is unique (`RateClock.RollbackErasesIff`). With a strictly increasing clock it always is
  (`RateClock.RollbackTakesAtMostOne`); when two workers read the same tick it need not be
  (`RateClock.SharedTickErasesBoth`), and a success then erases a failure
  (`LoginAttempts.SharedTickErasesFailure`). A successful login leaves no trace if and only if its
  rollback gets every lock and its stamps are new (`LoginAttempts.SuccessLeavesNoTraceIff`), and the
  failures all stay counted if and only if no success gives back the stamp of one
  (`LoginAttempts.FailuresKeptIff`). The bound on granted hits needs no such clock.
- A dry run can be trusted if and only if the rates of the action differ in `per`
  (`RateDryRuns.TrustworthyIff`), where rates of one `per` are taken to be equal; rates of different
  durations that share an entry forget for one another (`RateDryRuns.SharedEntryForgetsIff`).
- A lock holder that outlives its lock may let a second worker in
  (`RateWorkers.StalledHolderBreaksExclusion`, a witness; that holders are on time is sufficient). The
  code documents this trade-off.
- In change-email mode the state of at most one verified and one pending address per user is left
  exactly by plain adding or syncing next to a pending address, and by a signup with two addresses
  of a kind (`EmailRuns.OneOfEachKeptIff`; `EmailWitnesses.SecondPendingAddress`,
  `EmailWitnesses.SignUpBreaksOneOfEach`).
- Adding a new address in change-email mode drops an unverified primary (`EmailRuns.PrimaryLostIff`,
  `EmailWitnesses.UnverifiedPrimaryDropped`); changing the address during signup leaves `user.email`
  in step with the primary if and only if no other primary remains (`EmailRuns.ChangeToSyncedIff`,
  `EmailWitnesses.ChangeLeavesPrimaryBehind`).
- `cleanup_email_addresses` alone may hand over a verified address that somebody else has verified,
  exactly when the session vouches for it (`EmailSignup.ClashIff`); its one caller,
  `setup_user_email`, takes the session's address out first, so no request gets there.
- A login whose start time is exactly zero restarts its clock when loaded, and one whose user was
  deleted comes back without a user (`LoginStages.RoundTripIff`, `LoginStages.EpochLoginRestarts`,
  `LoginStages.DeletedUserForgotten`).
- Overlapping requests lose counts of a code process. At every charge, that of the request that
  ends the process included, what was spent and what the copy still allows exceed a budget if and
  only if an earlier charge was passed over (`CodeMixes.ExcessIff`); a process none of whose
  charges passes another over stays within its budgets, to its end and beyond
  (`CodeMixes.BudgetsHold`). `CodeMixes.AllCountedIff` and `CodeMixes.OverrunIff` say the same of
  any version of the session that holds the process. Charges are passed over by requests that
  count at the same time (`CodeMixes.TwoResendsForOne`, `CodeMixes.TwoLastGuesses`), or by one
  that asks for nothing but is saved with an old copy of the session
  (`CodeMixes.SavedCopyWipesCount`). An ended process comes back if and only if a request loaded
  an unexpired copy from before the end, does not end it itself, and changes something in it or is
  saved anyway (`CodeMixes.RevivedIff`); its code can then be accepted again
  (`CodeMixes.AcceptedTwice`). Two right guesses at the same time are both accepted without that
  (`CodeMixes.AcceptedTwiceAtOnce`); a second acceptance for good always works on a copy built
  past the first (`CodeMixes.AcceptedAgainOnlyPast`). The deadline holds regardless
  (`CodeMixes.NothingAcceptedLate`, `CodeMixes.ExpiredStaysDead`).
- `unstash_last_state` hands out an expired state if and only if nothing younger is left
  (`StateStash.LastMayBeExpiredIff`), and does not take out the state it hands out if and only if that
  is stored under the empty id (`StateStash.LastIsGoneIff`, `StateStash.EmptyIdHandedOutAgain`). No
  shipped caller stores one there; an overridden `generate_state_param` or a `state_id` may. Such a
  state is also spared when one entry is too many (`StateStash.CollectedIff`), so that the number of
  states, bounded without one (`StateStash.RunBounded`), is not (`StateStash.EmptyIdUnbounded`); but
  it goes when it expires or is asked for by its id (`StateStash.EmptyIdGoes`).
- An empty list of resources in a chain of grants admits anything (`Resources.SafeIff`), and the
  empty path is not contained in the path `/` (`Resources.ContainedIff`).
- The Kelvin sign passes for a letter k in a user code (`UserCode.KelvinSignMatches`), and any other
  character outside ASCII makes the comparison raise an error (`UserCode.CompareIff`).

## Model

| member | source | states |
|---|---|---|
| `RateHistory.PrunedIsRecentIff` | allauth/core/internal/ratelimit.py:179-180 | Popping expired hits off the tail equals filtering the whole list exactly when no expired hit precedes a live one |
| `RateHistory.RollbackExactIff` | allauth/core/internal/ratelimit.py:62-67 | A rollback shortens the list by the multiplicity of its timestamp, so by one if and only if the stamp is unique |
| `RateHistory.RepresentsLater` | allauth/core/internal/ratelimit.py:203-211 | Whatever the cache drops at its TTL was already expired: the entry keeps standing for the full log as time passes |
| `RateHistory.GrantKeeps` | allauth/core/internal/ratelimit.py:203-211 | Storing an allowed hit with timeout `duration` keeps entry and full log in agreement, in order and bounded by the clock |
| `RateHistory.RollbackKeeps` | allauth/core/internal/ratelimit.py:62-67 | Rolling back on the visible list is rolling back on the full log |
| `RateHistory.WindowBound` | allauth/core/internal/ratelimit.py:172-184 | In a log built by allowed hits no half-open window of the rate's duration holds more than `amount` hits |
| `RateHistory.KeptStamps` | allauth/core/internal/ratelimit.py:62-67 | What is left of a list, by contents: every stamp that stays, as often as before, and no other |
| `RateLimiter.DistinctPerDistinctKeys` | allauth/core/internal/ratelimit.py:145-169 | Within one action two sources share a cache key if and only if they are the same address, the same user or the same hashed key |
| `RateLimiter.DistinctActionsDistinctKeys` | allauth/core/internal/ratelimit.py:145-169 | Different actions never share a cache key |
| `RateLimiter.ApplyRate` | allauth/core/internal/ratelimit.py:172-184 | Verdict and kept history of one rate; on an ordered history the verdict counts exactly the unexpired hits |
| `RateLimiter.Limiter.ConsumeSingle` | allauth/core/internal/ratelimit.py:187-216 | At any clock reading not before the last: grants exactly when the lock was obtained and fewer than `amount` hits of the full log lie in the window up to now; a dry run or a refusal changes nothing |
| `RateLimiter.Limiter.Consume` | allauth/core/internal/ratelimit.py:219-251 | Grants if and only if every rate has room, charging each once; a denial charges exactly the rates before the failing one; GET is free |
| `RateLimiter.Limiter.RollbackSingle` | allauth/core/internal/ratelimit.py:62-71 | Removes the stamp from the full log, and nothing when the lock is not obtained |
| `RateLimiter.Limiter.Rollback` | allauth/core/internal/ratelimit.py:74-80 | The log after undoing every usage in order |
| `RateLimiter.Limiter.Clear` | allauth/core/internal/ratelimit.py:278-286 | Starts the key's log anew, or does nothing without the lock |
| `RateLimiter.Limiter.NeverExceeded` | allauth/core/internal/ratelimit.py:187-216 | In every valid state no window of a rate's duration holds more than `amount` hits |
| `RateLimiter.Limiter.VisibleIsLog` | allauth/core/internal/ratelimit.py:203-211 | What the cache shows now or later is the unexpired part of the log that never forgets |
| `RateLimiter.GrantsExact` | allauth/core/internal/ratelimit.py:237-251 | The charged rates are the leading ones with room, and the next one has none |
| `RateLimiter.DryRunAgrees` | allauth/core/internal/ratelimit.py:237-251 | With one rate per `per`, a dry run at the same instants grants as many rates as the real run |
| `RateLimiter.DryRunNeedsDistinctKeys` | allauth/core/internal/ratelimit.py:237-251 | A witness: two rates sharing an entry, granted by the dry run and denied by the real one |
| `RateDryRuns.TrustworthyIff` | allauth/core/internal/ratelimit.py:219-251 | For rates that can grant at all, dry and real verdicts agree on every log if and only if the keys are distinct |
| `RateDryRuns.SharedEntryForgetsIff` | allauth/core/internal/ratelimit.py:168-184 | A hit at one duration leaves a rate of another duration on the same entry all it must see if and only if nothing lies in between |
| `RateDryRuns.SharedEntryForgets` | allauth/core/internal/ratelimit.py:168-184 | A witness: a hit within the minute is gone after consuming at ten seconds |
| `RateLimiter.RollbackUndoesConsume` | allauth/core/internal/ratelimit.py:62-80 | With a strictly increasing clock and all locks, rollback restores every rate's log exactly |
| `RateLimiter.RollbackUndoesConsumeIff` | allauth/core/internal/ratelimit.py:62-80 | Rollback restores every rate's log if and only if it gets every lock and no stamp was there before |
| `RateWorkers.AtMostOneInside` | allauth/core/internal/ratelimit.py:34-53 | In every interleaving with timely holders at most one worker is between lock and unlock of a key, under a lock that lasts ten seconds |
| `RateWorkers.HitsPerWindow` | allauth/core/internal/ratelimit.py:172-216 | In every interleaving, at a clock that never goes back, the hits granted since the last clear and not rolled back number at most `amount` in any half-open window |
| `RateWorkers.VerdictOfFullLog` | allauth/core/internal/ratelimit.py:203-205 | In every interleaving the verdict on the TTL cache equals the verdict on the log that never forgets |
| `RateWorkers.WriteKeeps` | allauth/core/internal/ratelimit.py:65-67 | A write by the one worker inside keeps every key's entry faithful to its log, for consume, rollback and clear |
| `RateWorkers.RunSafe` | allauth/core/internal/ratelimit.py:34-53 | The invariant behind these holds in every state of every timely run |
| `RateWorkers.StalledHolderBreaksExclusion` | allauth/core/internal/ratelimit.py:49-53 | A witness run in which a holder outlives its lock and two workers are inside |
| `RateClock.RollbackErasesIff` | allauth/core/internal/ratelimit.py:62-67 | A rollback erases its key's hits of that stamp and nothing else: one hit if and only if the stamp is unique |
| `RateClock.HitLeavesIff` | allauth/core/internal/ratelimit.py:62-67 | A hit leaves its key's log exactly when a rollback of that stamp, or a clear, is written |
| `RateClock.NotGivenBackIff` | allauth/core/internal/ratelimit.py:62-67 | The hits never given back are exactly those granted since the last clear whose stamp no rollback names |
| `RateClock.NotGivenBackBounded` | allauth/account/adapter.py:786-822 | In every interleaving the hits never given back, as those of failed attempts, stay within the amount in every window |
| `RateClock.RollbackTakesAtMostOne` | allauth/core/internal/ratelimit.py:62-67 | In every interleaving with a strictly increasing clock a rollback takes back at most one hit |
| `RateClock.SharedTickErasesBoth` | allauth/core/internal/ratelimit.py:62-67 | A witness run: two hits granted in one tick, both erased by one rollback |
| `LockWait.CacheLock` | allauth/core/internal/ratelimit.py:34-53 | At most 13 sleeps and 14 attempts, reached when nothing is late and the lock stays taken; giving up happens only past the deadline |
| `LoginAttempts.Adapter.PreAuthenticate` | allauth/account/adapter.py:791-800 | Charges the attempt at every rate, or refuses it |
| `LoginAttempts.Adapter.Authenticate` | allauth/account/adapter.py:802-822 | A failure keeps one hit per rate; a success leaves the log, and every unexpired history, as it was exactly when its rollback gets the locks and its stamps are new |
| `LoginAttempts.SuccessLeavesNoTrace` | allauth/account/adapter.py:786-819 | With a strictly increasing clock, a success whose rollback obtains its locks restores the log |
| `LoginAttempts.SuccessLeavesNoTraceIff` | allauth/account/adapter.py:786-819 | A success restores the log if and only if its rollback gets every lock and its stamps are new |
| `LoginAttempts.FailuresKeptIff` | allauth/account/adapter.py:786-822 | Whatever the clock does, the failures of a run stay among the hits of a key throughout if and only if no success gives back the stamp of one |
| `LoginAttempts.FailuresBounded` | allauth/account/adapter.py:786-822 | At a clock that never goes back, over any mix of successes, failures and refusals, failures per key and window stay within the amount, as long as no success gives back the stamp of a failure |
| `LoginAttempts.FailuresBoundedStrictly` | allauth/account/adapter.py:786-822 | So with a strictly increasing clock they always do |
| `LoginAttempts.SharedTickErasesFailure` | allauth/account/adapter.py:786-822 | A witness: a success in the tick of a failure takes the failure's hit with it |
| `EmailTables.WriteKeeps` | allauth/account/models.py:46-61 | A row that clashes with no other may be written without breaking a unique constraint |
| `EmailTables.VerifiedKeeps` | allauth/account/internal/flows/email_verification.py:57-84 | A verification keeps all constraints and `user.email` in step, in both modes |
| `EmailTables.RemovedKeeps` | allauth/account/models.py:116-129 | Removing a row never unsyncs `user.email` from a remaining primary |
| `EmailTables.SavedKeeps` | allauth/account/utils.py:221-223 | Every single save of a signup respects the constraints |
| `EmailTables.PrimaryLagIff` | allauth/account/models.py:97-105 | Between saving the row and writing `user.email`, `set_as_primary` leaves them in step if and only if the address already was `user.email` |
| `EmailTables.SignupLagIff` | allauth/account/utils.py:221-227 | After any number of saves of a signup `user.email` is in step if and only if no primary of another email was saved |
| `EmailTables.StepKeeps` | allauth/account/internal/flows/email_verification.py:47-91 | Every operation keeps at most one primary per user, no duplicate address, verified addresses unique, and `user.email` equal to the primary |
| `EmailSteps.VerifyMeans` | allauth/account/internal/flows/email_verification.py:47-91 | In both modes, over a step: unless somebody else has it verified, the address comes out verified; outside change-email mode no other row changes, it becomes primary exactly when there was none, and `user.email` moves exactly then |
| `EmailSteps.VerifyPendingMeans` | allauth/account/internal/flows/email_verification.py:47-91 | The same for an address that has no row yet |
| `EmailSteps.MarkMeans` | allauth/account/internal/flows/manage_email.py:73-113 | Over a step: a verified address, or any when none is verified, becomes the one primary and `user.email`; nothing else changes |
| `EmailSteps.DeleteMeans` | allauth/account/adapter.py:139-169 | Over a step: a sole address goes unless login is by email only, one of several unless it is primary; `user.email` moves to a remaining address, a verified one if there is any |
| `EmailSteps.AddMeans` | allauth/account/internal/flows/manage_email.py:247-255 | Over a step: one unverified row more, unless the account has the address |
| `EmailSteps.AddNewMeans` | allauth/account/managers.py:38-64 | Over a step: the new address takes the place of the latest unverified one; nothing happens when another row has it |
| `EmailSteps.SetUpMeans` | allauth/account/utils.py:221-228 | Over a step: the addresses are appended as they are, every other row stays, and `user.email` is the primary |
| `EmailAddresses.EmailAddress.SetVerified` | allauth/account/models.py:82-89 | Verifies exactly when no other row has the address verified, or uniqueness is off |
| `EmailAddresses.EmailAddress.SetAsPrimary` | allauth/account/models.py:91-106 | Leaves one primary and copies its email, every intermediate write being acceptable; a conditional call yields to an existing primary |
| `EmailAddresses.EmailAddress.Remove` | allauth/account/models.py:116-129 | Replaces `user.email` by another address, a verified one if there is one, exactly when it was the removed one |
| `EmailAddresses.Database.GetNew` | allauth/account/managers.py:32-36 | The unverified row with the largest key, or none exactly when all are verified |
| `EmailAddresses.VerifyEmail` | allauth/account/internal/flows/email_verification.py:47-91 | Verifies the address whenever nobody else has it verified: its row comes out verified, and what happens to the other rows, the primary and `user.email` in either mode, the removal loop included |
| `EmailAddresses.RemoveOthers` | allauth/account/internal/flows/email_verification.py:79-83 | The loop leaves the user the one row and does not touch `user.email` |
| `EmailAddresses.AddNewEmail` | allauth/account/managers.py:38-64 | The pending row makes way for the new one, even for the same address; rolled back exactly when another row has the address |
| `EmailAddresses.GetOrCreate` | allauth/account/internal/flows/manage_email.py:247-255 | Adds the row exactly when the account does not have the address |
| `EmailAddresses.DeleteEmail` | allauth/account/internal/flows/manage_email.py:22-56 | Deletes exactly what may be deleted and repairs `user.email` |
| `EmailAddresses.CanDeleteNow` | allauth/account/adapter.py:139-169 | A primary only as the sole address, never the last address under email-only login, and an unsaved one always |
| `EmailAddresses.MarkAsPrimary` | allauth/account/internal/flows/manage_email.py:73-113 | Promotes a verified address, or any when none is verified; an unsaved address never |
| `EmailRuns.RunGood` | allauth/account/models.py:46-61 | Every state of every run satisfies the constraints and has `user.email` in step, each spelled out |
| `EmailRuns.OneOfEachKeptIff` | allauth/account/managers.py:32-86 | In change-email mode a step of any operation keeps at most one verified and one pending address per user if and only if it neither adds a second pending one nor signs up with two of a kind |
| `EmailRuns.OneOfEachAlwaysIff` | allauth/account/managers.py:32-86 | A run of any operations stays there throughout if and only if none of its steps does |
| `EmailRuns.OneOfEachAlways` | allauth/account/managers.py:32-64 | So every run without such a step stays there |
| `EmailWitnesses.SignUpBreaksOneOfEach` | allauth/account/utils.py:186-228 | A witness: a signup with two verified addresses |
| `EmailWitnesses.SecondPendingAddress` | allauth/account/internal/flows/manage_email.py:247-255 | A witness run: adding or syncing next to a pending address |
| `EmailRuns.VerificationCollapses` | allauth/account/internal/flows/email_verification.py:65-84 | In change-email mode a verification leaves the user one row: verified, primary, and `user.email`; other users are untouched |
| `EmailRuns.PendingVerificationCollapses` | allauth/account/internal/flows/email_verification_by_code.py:71-93 | The same for an address known only to a code process: a new row is the user's only one, verified, primary and `user.email`; other users are untouched |
| `EmailRuns.PrimaryLostIff` | allauth/account/adapter.py:153-161 | A user loses a primary exactly by deleting it, which then was the sole address, or by replacing an unverified primary with a new pending one |
| `EmailWitnesses.UnverifiedPrimaryDropped` | allauth/account/managers.py:53-61 | A witness run: sign up, then change the address before verifying |
| `EmailRuns.VerifiedPrimaryStays` | allauth/account/internal/flows/manage_email.py:73-113 | A verified primary is never replaced by an unverified one |
| `EmailRuns.NeverStranded` | allauth/account/adapter.py:158-169 | With email-only login nobody deletes their last address |
| `EmailRuns.ChangeToSyncedIff` | allauth/account/internal/flows/email_verification_by_code.py:132-144 | Changing the address during signup keeps `user.email` in step if and only if no other primary remains |
| `EmailWitnesses.ChangeLeavesPrimaryBehind` | allauth/account/internal/flows/email_verification_by_code.py:132-144 | A witness run: a signup with two unverified addresses, then a change before the first login |
| `EmailSignup.CleanupEmailAddresses` | allauth/account/utils.py:113-183 | Every surviving email once, verified if any duplicate is, one primary: the first to reach the best merit |
| `EmailSignup.ClashIff` | allauth/account/utils.py:136-157 | An address verified elsewhere comes out verified exactly when the session vouches for it |
| `EmailSignup.VouchedAddressMayClash` | allauth/account/utils.py:143-157 | A witness for that in strict enumeration prevention |
| `EmailSignup.CleanedIsClean` | allauth/account/utils.py:136-157 | With nothing vouched for, the cleaned list can be saved as it is |
| `EmailSignup.NamesIff` | allauth/account/utils.py:129-149 | An address is dropped exactly when it is malformed, or unique addresses are asked for and it is in use (in strict mode: verified, and verified in use) |
| `EmailSignup.SourcesIff` | allauth/account/utils.py:196-220 | What is stored, and what comes out verified, by its source: the session, the user, or a claim |
| `EmailSignup.FirstIsPrimary` | allauth/account/utils.py:163-181 | Whoever is read first with the best merit becomes the primary |
| `EmailSignup.SetupUserEmail` | allauth/account/utils.py:186-228 | Every save is accepted. Stored is what the session, the user or a claim names; verified what the session or a verified claim names; the primary is the session's address, else a verified one, else the user's own, and `user.email` is the primary |
| `LoginStages.Deserialize` | allauth/account/models.py:312-344 | The stored login back with all it carries, its user looked up again; a missing key is a `ValueError`, but a missing user key a `KeyError` |
| `LoginStages.RoundTripIff` | allauth/account/models.py:263-342 | Storing and loading gives the same login if and only if its user exists and its start time is not zero |
| `LoginStages.DeletedUserForgotten` | allauth/account/models.py:317-320 | A witness: the user was deleted meanwhile |
| `LoginStages.EpochLoginRestarts` | allauth/account/models.py:285 | A witness: a start time of zero |
| `LoginStages.EnterIffPending` | allauth/account/stages.py:65-99 | In every reachable session a stage is current if and only if it is the first unhandled one |
| `LoginStages.ExitsBounded` | allauth/account/stages.py:43-47 | A login takes at most as many exits as there are stages |
| `LoginStages.StrictStagesAnswered` | allauth/account/stages.py:117-139 | Whoever was logged in exited every stage that never lets that login pass |
| `LoginStages.EarnedMeans` | allauth/account/stages.py:117-139 | Before a login is completed every stage of it was passed or exited, and it is completed once |
| `LoginStages.StagedMeans` | allauth/account/stages.py:81-139 | A stored login is at its first unhandled stage, and the stages before it are the handled ones |
| `LoginSessions.LoginSession.Handle` | allauth/account/stages.py:117-139 | Runs to the first stage that does not pass: challenged there and stashed, rejected and cleared, or complete with the stash cleared |
| `LoginSessions.LoginSession.Resume` | allauth/account/internal/flows/login.py:100-116 | Logs in exactly when no stage stopped and there is a user, the stash already cleared |
| `LoginSessions.LoginSession.PerformLogin` | allauth/account/internal/flows/login.py:90-97 | A new login from its first stage; a blocked one changes nothing |
| `LoginSessions.LoginSession.RequestCode` | allauth/account/internal/flows/login_by_code.py:138-160 | Stashes a login that is at the login-by-code stage, or nothing when the send fails |
| `LoginSessions.LoginSession.UnstashLogin` | allauth/account/internal/stagekit.py:39-56 | A login younger than the timeout, or none and the stale one dropped |
| `LoginSessions.LoginSession.Enter` | allauth/account/stages.py:65-79 | Yields the stage exactly when it is the pending one of a login created no longer than the timeout ago |
| `LoginSessions.LoginSession.GetPending` | allauth/account/internal/stagekit.py:16-23 | The first unhandled stage, for somebody not logged in |
| `LoginSessions.LoginSession.Exit` | allauth/account/stages.py:43-47 | The rest of the pipeline runs; a further challenge has strictly more stages handled; logged in exactly when the rest passes |
| `LoginSessions.LoginSession.Persist` | allauth/account/internal/flows/login_by_code.py:73-74 | A code process writes its own stage's data and nothing else |
| `LoginSessions.LoginSession.Serve` | allauth/account/stages.py:117-139 | Over any run of requests: handled stages are a prefix and the current one follows it, nobody is logged in before every stage was passed or exited, or twice by one login, exits are bounded |
| `LoginPipelines.StageKeysArePipeline` | allauth/account/adapter.py:870-884 | Which stages are shipped under which settings, and in which order; their keys are distinct and none is "current" |
| `LoginPipelines.LoginByCodeDecides` | allauth/account/stages.py:170-219 | A login code passes, turns away, fails or challenges: when each |
| `LoginPipelines.PhoneDecides` | allauth/account/stages.py:222-249 | The same for the verification of a number |
| `LoginPipelines.EmailDecides` | allauth/account/stages.py:142-167 | The same for the verification of an address |
| `LoginPipelines.SecondFactorDecides` | allauth/mfa/stages.py:17-39 | A second factor is asked of a user who has one, did not log in without a password, and sits at a browser that is not trusted; with any of these missing the stage passes |
| `LoginPipelines.TrustDecides` | allauth/mfa/stages.py:42-65 | Trust is offered after a second factor or a login code was asked for, where the setting allows it, and never to an app |
| `LoginPipelines.PasskeySignupDecides` | allauth/mfa/webauthn/stages.py:10-18 | A passkey is asked of a passkey signup |
| `LoginPipelines.SecondFactorStops` | allauth/mfa/stages.py:17-39 | A second factor that is due stops a new login at its stage, or one of the three before does |
| `LoginPipelines.DirectLoginIff` | allauth/account/stages.py:149-249 | All stages of a new login pass if and only if none has a reason to stop it, spelled out, the mail of optional verification at a signup included; trusting the browser is never one |
| `LoginPipelines.LogInDirectly` | allauth/account/internal/flows/login.py:90-116 | The first request logs in if and only if there is a user, no hook responds, and no stage has such a reason; never when a second factor is due, which is then asked for unless an earlier stage stops |
| `LoginPipelines.TrustNeedsData` | allauth/mfa/stages.py:46-65 | Trust is offered only on data left by a second factor or a login code |
| `LoginPipelines.RealSession` | allauth/mfa/stages.py:17-65 | Over any run: a login with a code, number, address or second factor due throughout is completed only after that stage was exited, and trust is offered only after an exited second factor or login code |
| `UserCode.PrintedCode` | allauth/core/internal/cryptokit.py:34-39 | At most two groups up to eight characters and three beyond, none empty, and stripping gives the code back (section 6.1 of RFC 8628) |
| `UserCode.PrintedIs` | allauth/core/internal/cryptokit.py:34-39 | A printed code in so many words: halves up to eight characters, thirds beyond, dashes in between |
| `UserCode.StripIsPlain` | allauth/core/internal/cryptokit.py:42-49 | Stripping removes every separator, only separators, and is idempotent |
| `UserCode.SeparatorIff` | allauth/core/internal/cryptokit.py:42-49 | The separators, spelled out |
| `UserCode.SameLetterIff` | allauth/core/internal/cryptokit.py:52-55 | Lower-casing makes equal exactly an ASCII letter with its other case, and the Kelvin sign with k |
| `UserCode.CompareIff` | allauth/core/internal/cryptokit.py:52-55 | Success exactly for inputs equal up to case, punctuation and white space, never for an empty code; an error exactly for characters outside ASCII |
| `UserCode.PrintedCodeMatches` | allauth/core/internal/cryptokit.py:19-55 | What matches a printed code is exactly what spells the same code in comparable characters, for any code and any typed text |
| `UserCode.KelvinSignMatches` | allauth/core/internal/cryptokit.py:52-55 | A witness that lower-casing reaches beyond ASCII |
| `CodeLogs.LogAppend` | allauth/account/internal/flows/code_verification.py:62-77 | One more permitted event keeps budgets, justification of acceptances, finality and the one start time |
| `CodeLogs.LogMeans` | allauth/account/internal/flows/code_verification.py:13-112 | What such a history says, event by event: counts within the budgets, an accepted code matched, in time and given out last, one acceptance for good, nothing after the end |
| `CodeVerification.Verification.Resume` | allauth/account/internal/flows/code_verification.py:70-77 | Loads a process exactly when it has not expired, and ends it otherwise |
| `CodeVerification.Verification.RecordInvalidAttempt` | allauth/account/internal/flows/code_verification.py:62-68 | Counts the guess; the last allowed one ends the process |
| `CodeVerification.Verification.Begin` | allauth/account/internal/flows/email_verification_by_code.py:98-107 | A fresh process replaces any other, with the code that was made, which is logged as given out; a failed send leaves everything as it was |
| `CodeVerification.Verification.TryGuess` | allauth/account/views.py:904-1010 | Which guesses are rejected, accepted or raise an error, and what each leaves stored and logged |
| `CodeVerification.Verification.SendAgain` | allauth/account/internal/flows/phone_verification.py:46-138 | Resends within the quota only; the new code replaces the stored one and is logged as given out; a failing send leaves the state, or what was changed by then, early or late |
| `CodeVerification.Verification.ChangeTo` | allauth/account/internal/flows/email_verification_by_code.py:119-144 | Changes within the quota, for a user who never logged in; the new target and code are stored, the code logged as given out; start time and failed attempts stay, also when it fails midway |
| `CodeVerification.NewCodeDecides` | allauth/account/internal/flows/login_by_code.py:167-177 | Once a code was given out to a user, by starting, resending or changing, guesses are accepted and rejected by that code |
| `CodeVerification.Verification.GiveOutAndGuess` | allauth/account/internal/flows/email_verification_by_code.py:146-153 | A code given out and guessed in time is accepted; another text is rejected |
| `CodeVerification.Verification.Finish` | allauth/account/internal/flows/password_reset_by_code.py:57-62 | A password is set only with a confirmed, unexpired process, which that ends |
| `CodeVerification.Verification.Serve` | allauth/account/internal/flows/code_verification.py:13-112 | Over any run of requests: rejected guesses, resends and changes within their budgets, no acceptance late or without the latest code, at most one for good, nothing after the end |
| `CodeVerification.Verification.Do` | allauth/account/internal/flows/code_verification.py:62-77 | Every request is the effect on the copy it loads, stored: the form that overlapping requests share |
| `CodeOverlap.OneByOneBounded` | allauth/account/internal/flows/code_verification.py:62-68 | One by one, every wrong guess is counted and the process ends exactly with the last allowed one |
| `CodeOverlap.AllAtOnceUnbounded` | allauth/account/internal/flows/code_verification.py:62-68 | Overlapping wrong guesses, however many, are all answered, and one is counted or, at the last allowed one, the process ends; for any state of the counter |
| `CodeOverlap.LateWriteRevives` | allauth/account/internal/flows/code_verification.py:62-68 | A witness in which a late write brings an exhausted process back |
| `CodeMixes.RevivedIff` | allauth/account/internal/flows/code_verification.py:62-77 | Where no process is, a request other than starting one brings one back if and only if its copy is from before the end and unexpired, it does not end the process itself, and it has something to store or is saved anyway; it is that very process |
| `CodeMixes.AcceptedTwice` | allauth/account/internal/flows/email_verification_by_code.py:85-93 | A witness: a late wrong guess brings an accepted process back and its code is accepted again |
| `CodeMixes.AcceptedAgainOnlyPast` | allauth/account/internal/flows/code_verification.py:62-77 | However requests overlap, a process accepts a code for good again only on a copy from before the first acceptance, or built on a version stored after it from a copy from before |
| `CodeMixes.AcceptedTwiceAtOnce` | allauth/account/internal/flows/email_verification_by_code.py:85-93 | A witness: two right guesses at the same time are both accepted, and no process comes back |
| `CodeMixes.StartNeverMoves` | allauth/account/internal/flows/code_verification.py:47-77 | However requests of every kind overlap, the start time of a process never moves |
| `CodeMixes.NothingAcceptedLate` | allauth/account/internal/flows/code_verification.py:70-77 | However they overlap, no code is accepted after the timeout of its process |
| `CodeMixes.ExpiredStaysDead` | allauth/account/internal/flows/code_verification.py:70-77 | However they overlap, a request that loads an expired process only takes it out |
| `CodeMixes.AllCountedIff` | allauth/account/internal/flows/code_verification.py:62-105 | However requests of every kind overlap or are saved, all counters of a process are right if and only if no version it builds upon was stored past a charge; they never run ahead |
| `CodeMixes.RepeatedIsRemaining` | allauth/account/internal/flows/code_verification.py:62-105 | One after the other, a request counts exactly as often as its counter leaves room |
| `CodeMixes.OverrunIff` | allauth/account/internal/flows/code_verification.py:62-105 | At every version that holds a process, what was spent and what is still allowed exceed some budget if and only if a charge was passed over on the way to it, and never fall short; versions after its end are the subject of `ExcessIff` |
| `CodeMixes.ExcessIff` | allauth/account/internal/flows/code_verification.py:62-105 | At every charge, also one that ends the process, what was spent and what the copy still allows never fall short of the budgets, and exceed one if and only if a charge was passed over on the way to the copy or since |
| `CodeMixes.BudgetsHold` | allauth/account/internal/flows/code_verification.py:62-105 | A process none of whose charges passes another over stays within each of its budgets, to its end and beyond |
| `CodeMixes.TwoLastGuesses` | allauth/account/internal/flows/code_verification.py:62-68 | A witness: two wrong guesses at the same time, each the last one allowed, are one too many |
| `CodeMixes.OneByOneKept` | allauth/account/internal/flows/code_verification.py:62-105 | Requests that each load what the one before stored pass nothing over |
| `CodeMixes.BeganFresh` | allauth/account/internal/flows/code_verification.py:41-60 | A process started on the way began with nothing spent |
| `CodeMixes.SavedCopyWipesCount` | allauth/account/internal/flows/code_verification.py:62-68 | A witness: a request that asks for nothing, saved with its old copy, wipes out a count |
| `CodeMixes.TwoResendsForOne` | allauth/account/internal/flows/login_by_code.py:167-177 | A witness: two resends where one is allowed |
| `StateStash.Session.GetOldest` | allauth/socialaccount/internal/statekit.py:17-31 | The first of the oldest, or of the newest, entries |
| `StateStash.Session.Gc` | allauth/socialaccount/internal/statekit.py:34-42 | Drops the expired entries, and then the oldest one if too many remain and its id is not empty |
| `StateStash.CollectMeans` | allauth/socialaccount/internal/statekit.py:34-42 | What stays is young enough; at most one young entry goes, the oldest, with an id, and only from more than ten |
| `StateStash.Session.StashState` | allauth/socialaccount/internal/statekit.py:52-61 | Collects first, then assigns; an id that is there keeps its place |
| `StateStash.Session.UnstashState` | allauth/socialaccount/internal/statekit.py:64-74 | Takes out the entry under the id and no other, and hands it over exactly if it is no older than 600 seconds |
| `StateStash.Session.UnstashLastState` | allauth/socialaccount/internal/statekit.py:77-82 | Hands over the newest entry |
| `StateStash.StashIsStack` | allauth/socialaccount/internal/statekit.py:17-82 | With rising timestamps and fresh ids the dictionary is a stack: the first entry is the oldest and the last is popped |
| `StateStash.RunOrdered` | allauth/socialaccount/internal/statekit.py:34-61 | Over any run with a rising clock and fresh ids that are not empty, the entries stay in the order of their age |
| `StateStash.RunBounded` | allauth/socialaccount/internal/statekit.py:34-82 | Over any run, at any clock and with ids used again, there are at most `MAX_STATES + 1` entries, as long as no state is stored under the empty id |
| `StateStash.EmptyIdUnbounded` | allauth/socialaccount/internal/statekit.py:34-61 | With one there is no bound: any number of states can be stashed at one moment, all of them kept |
| `StateStash.HandedOutOnce` | allauth/socialaccount/internal/statekit.py:64-82 | Over any run a state is handed out at most once and is then gone |
| `StateStash.Survives` | allauth/socialaccount/internal/statekit.py:34-61 | An unexpired state outlives the next `MAX_STATES` stashes unless it is handed out |
| `StateStash.LastMayBeExpiredIff` | allauth/socialaccount/internal/statekit.py:77-82 | The last state handed out is expired if and only if all are |
| `StateStash.CollectedIff` | allauth/socialaccount/internal/statekit.py:34-42 | When collecting gets down to `MAX_STATES` |
| `StateStash.LastIsGoneIff` | allauth/socialaccount/internal/statekit.py:77-82 | The newest entry is handed out, and is gone afterwards if and only if its id is not empty |
| `StateStash.EmptyIdHandedOutAgain` | allauth/socialaccount/internal/statekit.py:77-82 | While a state under the empty id is the newest, every request for the last state hands it out |
| `StateStash.EmptyIdGoes` | allauth/socialaccount/internal/statekit.py:34-74 | It goes when it expires or is asked for by its id |
| `StateStash.EmptyIdStays` | allauth/socialaccount/internal/statekit.py:77-82 | The shortest witness: handed out twice |
| `Resources.ValidIff` | allauth/idp/oidc/internal/resources.py:24-36 | Valid exactly when absolute, without fragment, and with no empty or dotted path segment, and which error otherwise (section 2 of RFC 8707) |
| `Resources.StripMeans` | allauth/idp/oidc/internal/resources.py:53 | Trailing slashes go, all of them and nothing else |
| `Resources.ContainedIff` | allauth/idp/oidc/internal/resources.py:48-54 | Containment is the same scheme and location and a prefix of path segments, but for the empty path under `/` |
| `Resources.ContainedTransitive` | allauth/idp/oidc/internal/resources.py:48-54 | Containment of valid resources is transitive |
| `Resources.SubsetIff` | allauth/idp/oidc/internal/resources.py:39-45 | A request is within a grant if and only if either is empty or every resource asked for extends the path of one granted under the same scheme and location |
| `Resources.NarrowingNeverWidens` | allauth/idp/oidc/internal/resources.py:39-45 | A chain of non-empty narrowings ends within its first grant: every last resource extends a first one |
| `Resources.SafeIff` | allauth/idp/oidc/internal/resources.py:39-45 | A list in between is safe if and only if it is not empty |

## Left out

- Views, forms, templates, signals, messages, mail and text messages: only the guard that precedes a
  transition is modelled, and a send is either made or fails.
- Cache eviction before the TTL, clock skew between workers, and memcached's truncation of
  timeouts to whole seconds: entries live exactly as long as asked, on one clock.
- A lock holder that outlives `CACHE_LOCK_TIMEOUT`: excluded by `Timely` in the theorems over runs,
  shown by witness to matter.
- RateLimiter.Limiter.Consume: two rates of one action with the same `per` share one rate here, as
  the rate is a function of the cache key; what their shared entry loses is stated beside it
  (`RateDryRuns.SharedEntryForgetsIff`).
- RateDryRuns.TrustworthyIff: does not weigh rates of one `per` with different amounts or durations.
- RateLimiter.Limiter.Consume: takes each critical section as one instant; the steps inside it are
  interleaved in `RateWorkers`.
- RateLimiter.Limiter.Consume: does not parse rate strings, truncate addresses or hash keys.
- EmailTables.StepKeeps: `user.email` may lag behind the primary between the two last writes of
  `set_as_primary`, and between the saves of `setup_user_email` and its last write, exactly as
  `EmailTables.PrimaryLagIff` and `EmailTables.SignupLagIff` say; it is in step whenever an operation
  ends, the constraints at every write.
- EmailAddresses.DeleteEmail: takes a stored address, as both its callers do (the page loads it, the
  headless view aborts the code process of an unsaved one instead); here that is `GiveUp`.
- EmailAddresses.GetOrCreate: adding an address ignores the limit on the number of addresses, which
  a form checks before.
- Case folding of addresses, the length of the field, admin edits and `make_verified`.
- LoginStages.RoundTripIff: takes the serialized signal arguments of a login, a social login among
  them, as a value that survives.
- Reauthentication, logging out (it clears the stash like an abort), `post_login` hooks, and
  sessions of the social account part.
- LoginSessions.LoginSession.Serve: custom stages may write data only of their own stage and only
  while they are open.
- CodeVerification.Verification.TryGuess: for the phone stage of a login the step by which the page
  clears the stash after the last attempt is included; the headless view, where `abort` does
  nothing, is not, nor is a headless password reset that checks the code again with the password.
- CodeVerification.Verification.SendAgain: a page treats a resend or change beyond its quota as a
  guess without a code, which here is a guess with an empty text; the headless views refuse it.
- CodeVerification.Verification.Serve: serves one request after the other; overlapping requests are
  the subject of `CodeOverlap` and `CodeMixes`.
- CodeMixes.OverrunIff: charges a resend or change that fails after its counter went up, when the
  session is saved nevertheless, as the stored counter does.
- CodeVerification.Verification.Begin: a first send that fails leaves nothing behind.
- UserCode.CompareIff: characters outside ASCII other than the Kelvin sign and the dotted capital I
  stand for themselves in lower case; any of them raises the error anyway.
- `urlparse`: a parsed URI is taken as a record whose path is empty or starts with a slash. The hook
  that lets an adapter refuse resources is absent.
- Generation of random codes, state ids and keys: given as arguments.
