# Verified models of the claude-bridge daemon

claude-bridge is a daemon that lets a remote client delegate work to a local workspace.
It runs on an event loop: the code between two awaits is one atomic step, and steps of
different requests, timers and child processes interleave freely. This project models
its small concurrent protocols and its exact algorithms in Dafny and proves what they
keep over every run.

Each protocol has one file. A datatype holds the state, a function `Step` says what each
atomic step does, and a class has the fields of the source and one method per atomic
step, each proved to do exactly what `Step` says. A run is a sequence of states and a
sequence of events; the theorems hold of every run and every reachable state.

| file | models |
|---|---|
| Consent.dfy | consent records, the decision timer and its awaiter, single-use authorization codes |
| TokenStore.dfy | the access-token store |
| GrantPipeline.dfy | `/token` over both: redeem, capture and mint in one step, revoke in a later one (section 4.1.3 of RFC 6749, section 4.6 of RFC 7636) |
| JobQueue.dfy, JobRunner.dfy | the FIFO job queue, its abstract scheduler, and the stub runner with its microtasks |
| Tunnel.dfy | the tunnel supervisor with its respawn limiter |
| AuditLog.dfy | the rotated log over an abstract directory |
| PendingApprovals.dfy, ApprovalGate.dfy | one-shot approvals, and the gate with its session bypass |
| WorkspaceIdentifier.dfy | the identifiers generated for workspaces |
| CanonicalJson.dfy | canonical JSON and the input hash |
| Base32.dfy | base32 over wrapping 32-bit integers, and job ids |
| WorkspacePath.dfy | canonical paths and identity keys |
| LineFraming.dfy | newline framing and message round trips |
| PathContainment.dfy | lexical containment of paths |
| Common.dfy, Separators.dfy | filtering of sequences; splitting and joining of texts |

`dafny verify dfyconfig.toml` checks everything.

## Assumptions

- Random ids, codes and tokens are new when they are drawn, and SHA-256 does not map a
  new token to the hash of an earlier one. SHA-256 is otherwise an arbitrary function.
- The clock does not go back (`GrantPipeline`, `Tunnel`, `AuditLog`, `JobRunner`); the consent desk does not
  need this.
- Writes to disk succeed. `mint` pushes before it writes, so a failed write would leave
  the new token in memory.
- `awaitDecision` is called at most once for a request.
- A token file read at start has distinct hashes and at most one unexpired token for each
  workspace; the provenance theorems start from an empty store.
- `toLowerCase` works between separators, makes none, erases nothing, is idempotent, is
  not affected by lowering a drive letter first, and is the usual one on ASCII
  (`WorkspacePath.IsCaseFold`).
- JSON texts have no raw newline and no outer white space and parse back to what they
  were made from (`LineFraming`).

## Where the code differs from what one might expect

- A consent can be approved after `stop` has settled its awaiter as timed out
  (`Consent.StopMayDivorceOutcome`); `Consent.DivorcedIffDecidedTooLate` says exactly when.
- `canonicalize` drops a key named `__proto__`, because assigning to it sets the
  prototype of the fresh object (`CanonicalJson.ProtoKeyIsDropped`). All other values
  meet the promise (`CanonicalJson.MeetsPromiseIffProtoFree`).
- A `restart` overtaken by a `stop` still brings up a child
  (`Tunnel.StopDuringRestartLeavesChild`). `Tunnel.StopIsFinalIffNoRestartPending`: this
  can happen exactly when a `restart` awaits the exit of its child at the moment `stop`
  is called.
- The suffix test of `cancelByWorkspace` can clear the bypass of another workspace if
  an identifier has a colon (`ApprovalGate.ClearsOtherIff`). No identifier is generated
  with one (`WorkspaceIdentifier.GeneratedHasNoColon`), but the schema of the workspaces
  file takes any identifier that is not empty.
- `append` after `stop` resolves without having written anything
  (`AuditLog.AppendAfterStopIsLost`), and a line written just before the process is
  restarted is in the log although its promise was never resolved
  (`AuditLog.RestartLeavesUnresolvedLine`). `AuditLog.FilesAreResolvedAppends` says that
  nothing else comes between files and resolved appends.
- `isUnder` does not find a directory under itself when only the parent is written with
  a trailing slash, and `resolveCwd` refuses every directory below the filesystem root
  (`PathContainment.IsUnderIff`, `PathContainment.ResolveCwdIff`).
- The drive letter is recognised among ASCII letters before the whole path is lowered,
  so a drive spelt with the Kelvin sign has another key than the same drive spelt with a
  k (`WorkspacePath.KelvinDriveDiffers`, `WorkspacePath.KeyIgnoresCaseIff`).

## Model

The first 49 rows are the main results. The other theorems follow, and last the methods, which tie the
fields of each class to the steps the theorems are about.

| member | source | states |
|---|---|---|
| `GrantPipeline.OldTokensAreCaptured` | packages/daemon/src/oauth/token-endpoint.ts:186-224 | in every interleaving an unexpired token of a workspace is in the captured set of an unfinished handler exactly when it is not the newest |
| `GrantPipeline.AtMostOneBinding` | packages/daemon/src/oauth/token-endpoint.ts:186-224 | once no handler is unfinished a workspace has at most one unexpired token |
| `GrantPipeline.TakeoverNeverUnbinds` | packages/daemon/src/oauth/token-endpoint.ts:207-224 | the revoke step of a takeover never leaves a bound workspace without an unexpired token |
| `GrantPipeline.TokenProvenance` | packages/daemon/src/oauth/token-endpoint.ts:147-206 | from an empty store, every token was minted by redeeming the code of one approval of the same client, redirect URI, challenge and workspace, later than the last unbind of that workspace |
| `GrantPipeline.ProvenanceIsInjective` | packages/daemon/src/oauth/token-endpoint.ts:147-206 | two tokens with the same approval are one token |
| `GrantPipeline.TokenMintedIff` | packages/daemon/src/oauth/token-endpoint.ts:107-206 | a request mints exactly when the grant type is `authorization_code`, no field is missing or empty, the client secret was right, the code is live and at most 60000 ms old, and client, redirect URI and S256 of the verifier are those of the code; the token is the client's, for its workspace, `per_call`, for thirty days |
| `GrantPipeline.UnfinishedIff` | packages/daemon/src/oauth/token-endpoint.ts:186-224 | a handler is unfinished exactly from a mint over an unexpired token of the same workspace until it resumes |
| `Consent.AwaiterSeesRecord` | packages/daemon/src/oauth/consent.ts:331-409 | until the desk stops, an awaited promise has settled exactly when the record has left `pending`, and with what the record says |
| `Consent.DivorcedIffDecidedTooLate` | packages/daemon/src/oauth/consent.ts:628-640 | after a stop too: a settled outcome differs from its record exactly when the consent was decided after its awaiter had been settled while it was pending |
| `Consent.RedeemedAtMostOnce` | packages/daemon/src/oauth/consent.ts:585-609 | no code is redeemed at two steps of a run |
| `Consent.FirstResolutionStands` | packages/daemon/src/oauth/consent.ts:434-510 | whatever resolves a pending consent first, the record says it forever: approved with code and workspace, denied, or timed out |
| `Consent.CodeIsAcceptedIff` | packages/daemon/src/oauth/consent.ts:585-609 | it is accepted exactly up to 60000 ms after the approval, if none of these has happened |
| `JobRunner.NoLostWakeup` | packages/daemon/src/jobs/runner.ts:70-99 | at every yield point the runner is busy exactly when a job runs, and a queued job implies a busy runner or a scheduled microtask |
| `JobRunner.RunnerTurnsAreBounded` | packages/daemon/src/jobs/runner.ts:86-113 | without new jobs, whatever is cancelled or swept in between, the number of runner turns is bounded by 3 per queued job, 2 if busy, 1 per microtask, and the updates left to publish |
| `JobRunner.QuiescentIffAllEnded` | packages/daemon/src/jobs/runner.ts:86-99 | when the runner has no turn left every retained job has ended; and when all have ended only turns that claim nothing are left |
| `JobRunner.ClaimsAreFifo` | packages/daemon/src/jobs/queue.ts:59-133 | over any run, the claimed jobs followed by the queued ones are the delegated jobs in order, less those cancelled while queued |
| `JobRunner.RunRefinesScheduler` | packages/daemon/src/jobs/queue.ts:59-209 | seen through the abstraction every run of queue and runner is a run of the FIFO scheduler under submit, dispatch, withdraw, finish, forget and stutter |
| `JobRunner.JobsAreConserved` | packages/daemon/src/jobs/queue.ts:196-209 | every delegated job is in exactly one of queued, running, ended and retained, removed by one of the sweeps of the run |
| `JobRunner.FinishEndsAsTold` | packages/daemon/src/jobs/runner.ts:115-133 | a job ends cancelled if it was cancelled while running and otherwise as configured, with time, report and error to match |
| `Tunnel.AtMostOneLiveChild` | packages/daemon/src/tunnel/manager.ts:109-205 | in every interleaving the children that run and were not told to stop are at most the current one |
| `Tunnel.SixRespawnsSpanAWindow` | packages/daemon/src/tunnel/manager.ts:207-234 | without a manual restart six automatic respawns take at least five minutes |
| `Tunnel.SuspendedUntilRestart` | packages/daemon/src/tunnel/manager.ts:207-284 | once suspended nothing is respawned until `restart` is called |
| `Tunnel.StopIsFinalIffNoRestartPending` | packages/daemon/src/tunnel/manager.ts:236-284 | whether a `stop` is final is decided when it is called: over all continuations in which nobody asks for a child none is ever live, exactly when no `restart` is then awaiting the exit of its child |
| `Tunnel.RespawnsIffBelowLimit` | packages/daemon/src/tunnel/manager.ts:207-234 | both halves of the limiter over runs: an attempt spawns exactly when fewer than 5 attempts since the last manual restart are less than 300000 ms old, and the manager becomes suspended exactly by an attempt with 5 such before it or by a failed restart |
| `Tunnel.SpawnsIff` | packages/daemon/src/tunnel/manager.ts:93-284 | exactly a start or restart without a child, a resumed restart, and an attempt within the limit bring up a child |
| `AuditLog.LogIsConserved` | packages/daemon/src/audit/log.ts:83-146 | over any run, process restarts included, everything ever archived in date order followed by the active file is exactly the lines written in order; the resolved appends, less those that found the log closed, are those lines less the ones whose promise never settled |
| `AuditLog.FilesAreResolvedAppends` | packages/daemon/src/audit/log.ts:116-146 | everything ever archived and the active file hold exactly the resolved appends, call by call, if and only if no append found the log closed, no written line was caught by a restart before its promise, and none is at that point now |
| `AuditLog.LineIsKept` | packages/daemon/src/audit/log.ts:116-201 | the retention law: a line written after a date check of some day is in the active file or in an archive until more than `retentionDays` days have passed since that day |
| `AuditLog.EarlierDayIsArchived` | packages/daemon/src/audit/log.ts:104-131 | at a date check of a later day a line written on an earlier day is no longer in the active file but in the archive of its day |
| `AuditLog.WrittenInCallOrder` | packages/daemon/src/audit/log.ts:116-146 | lines are written in the order of their calls, and all that an open log accepted are written or waiting |
| `PendingApprovals.SettlesExactlyOnce` | packages/daemon/src/approval/pending.ts:41-116 | in every interleaving of answer, timeout, cancel, cancel by workspace and stop, a registered promise is settled once if it is no longer pending and not at all while it is, and its timer is armed exactly while it is pending |
| `PendingApprovals.SettledByFirstEnding` | packages/daemon/src/approval/pending.ts:41-116 | and is settled as that first one says |
| `ApprovalGate.LetThroughOnlyIf` | packages/daemon/src/approval/gate.ts:186-227 | a delegation gets through only if its own call was clamped to `auto`, this request was approved, or, when it was made, an approved request (for colon-free identifiers of the same session and workspace) had opened the bypass and nothing had closed it since |
| `ApprovalGate.ClearsOtherIff` | packages/daemon/src/approval/gate.ts:114-132 | for all identifiers: exactly when cancelling one workspace clears a bypass of another |
| `ApprovalGate.BypassOpenedIff` | packages/daemon/src/approval/gate.ts:214-226 | a key is newly open exactly when a request with that key is answered by `approve_session`, or by `approve` after its call had resolved to `task` |
| `CanonicalJson.CanonicalIffSame` | packages/daemon/src/audit/hash.ts:18-31 | two values have one canonical form exactly when they are equal up to key order at every level, disregarding `__proto__` keys |
| `CanonicalJson.MeetsPromiseIffProtoFree` | packages/daemon/src/audit/hash.ts:18-31 | the promise holds of a value against all others exactly when it has no `__proto__` key |
| `CanonicalJson.CanonKeysInOrder` | packages/daemon/src/audit/hash.ts:27-29 | the keys of a canonical object are array indices in ascending order and then the others by UTF-16 code units, whatever order they went in |
| `WorkspacePath.KeyIffSamePath` | packages/shared/src/path.ts:100-106 | two inputs have one identity key exactly when they have the same components (up to letter case on win32, all of Unicode included), the same kind of beginning unless there are none, and on win32 both or neither are bare drives |
| `WorkspacePath.KeyIgnoresCaseIff` | packages/shared/src/path.ts:18-26 | exactly when letter case does not change a win32 key: the input is not one that only becomes a bare drive when it is lowered |
| `WorkspacePath.CanonicalizeIdempotent` | packages/shared/src/path.ts:58-90 | canonicalising twice is canonicalising once, on both platforms |
| `Base32.Base32Encode` | packages/daemon/src/jobs/id.ts:15-31 | the loops over a wrapping 32-bit accumulator compute the unpadded base32 of section 6 of RFC 4648 for every byte string |
| `Base32.JobIdIffFirstSixtyBits` | packages/daemon/src/jobs/id.ts:33-38 | two ids agree exactly when seven bytes and the high half of the eighth agree |
| `Base32.RecognisedIffOfAnId` | packages/daemon/src/jobs/transcript-orphan.ts:23-23 | the startup scan recognises exactly the files of ids that eight bytes can give |
| `LineFraming.MessagesArriveInOrder` | packages/daemon/src/ipc/server.ts:481-494 | at every moment of every chunking the emitted lines decode to the first messages sent, in order; at the end to all of them with nothing left over |
| `PathContainment.IsUnderIff` | packages/daemon/src/jobs/floor.ts:82-94 | for all paths: the test holds exactly when both are absolute or both relative, the components of the parent start those of the child, and not parent with and child without a trailing slash of equal components |
| `PathContainment.ResolveCwdIff` | packages/daemon/src/mcp/tools/delegate.ts:52-74 | a relative working directory is accepted exactly when it resolves to the workspace or below, except that nothing below the filesystem root is accepted |
| `PathContainment.ResolveCwdByNames` | packages/daemon/src/mcp/tools/delegate.ts:52-74 | a working directory of k times ".." and then plain names is accepted exactly when the workspace begins what it leads to, and is that path; below the filesystem root nothing is |
| `PathContainment.DetoursDoNotMatter` | packages/daemon/src/jobs/floor.ts:51-94 | a name followed by "..", and ".", change no normalised and no resolved path wherever they stand |
| `Consent.FirstWriteWins` | packages/daemon/src/oauth/consent.ts:434-461 | in every interleaving of decisions, timer, awaiter, redemption, expiry, revocation and stop, a record that has left `pending` is never written again |
| `Consent.ApprovedIffIssued` | packages/daemon/src/oauth/consent.ts:477-510 | a consent is approved exactly when it issued a code, and no two consents issued the same code |
| `Consent.AwaiterNotLost` | packages/daemon/src/oauth/consent.ts:331-371 | whoever awaits a decision stays registered until its promise has settled |
| `Consent.StopMayDivorceOutcome` | packages/daemon/src/oauth/consent.ts:628-640 | a concrete run in which that happens |
| `Consent.CodesMatchTimers` | packages/daemon/src/oauth/consent.ts:500-505 | until stop the live codes and the armed expiry timers are the same; afterwards every timer still has its code |
| `Consent.CodeOrigin` | packages/daemon/src/oauth/consent.ts:473-510 | a live code was minted by one earlier approval with the client, redirect URI and challenge that were asked for, and since then it was neither presented nor revoked with its workspace |
| `Consent.GoneForGood` | packages/daemon/src/oauth/consent.ts:585-609 | a code that has left the map never returns |
| `Consent.PresentedCodeIsGone` | packages/daemon/src/oauth/consent.ts:585-609 | presenting a code removes it, expired or not |
| `Consent.RedeemedWithinTtl` | packages/daemon/src/oauth/consent.ts:585-596 | a redeemed code was minted at most 60 seconds earlier |
| `Consent.ValidAt` | packages/daemon/src/oauth/consent.ts:648-680 | the consistency of records, codes, timers and awaiters holds in every reachable state |
| `TokenStore.NewestSurvivesFilter` | packages/daemon/src/oauth/token-store.ts:244-255 | a filter that spares the newest token of a workspace leaves the same token newest |
| `TokenStore.NewestWithGranularity` | packages/daemon/src/oauth/token-store.ts:286-301 | changing granularities does not change which token is newest |
| `TokenStore.FilterHashesDistinct` | packages/daemon/src/oauth/token-store.ts:156-165 | filtering keeps token hashes distinct |
| `GrantPipeline.MintedTokenSurvives` | packages/daemon/src/oauth/token-endpoint.ts:186-206 | a minted token stays the newest of its workspace until the workspace is unbound, everything is revoked, or it is granted again |
| `GrantPipeline.NewestKept` | packages/daemon/src/oauth/token-endpoint.ts:207-224 | nothing but minting for it, unbinding it or revoking everything changes the newest token of a workspace |
| `GrantPipeline.TakeoverAt` | packages/daemon/src/oauth/token-store.ts:228-255 | distinct hashes, the order of expiry and the captured sets are consistent in every reachable state |
| `GrantPipeline.LiveCodeProvenance` | packages/daemon/src/main.ts:588-599 | a live code bound to a workspace comes from an approval after the last unbind of the workspace |
| `GrantPipeline.ApprovalStays` | packages/daemon/src/oauth/consent.ts:434-510 | the approval behind a token stays on record as it was made |
| `GrantPipeline.DeskRun` | packages/daemon/src/oauth/token-endpoint.ts:147-184 | seen from the consent desk, every run of the pipeline is a run of the desk, so its theorems carry over |
| `GrantPipeline.RefusalBurnsCodeIffPresented` | packages/daemon/src/oauth/token-endpoint.ts:107-156 | a refused request leaves its code redeemable exactly when it failed a check before redemption |
| `JobQueue.EnqueueRefines` | packages/daemon/src/jobs/queue.ts:59-93 | enqueueing is submitting to an abstract FIFO scheduler, and keeps the invariant |
| `JobQueue.ClaimRefines` | packages/daemon/src/jobs/queue.ts:98-109 | claiming is dispatching; a job can be claimed exactly when none runs and one is queued |
| `JobQueue.CancelRefines` | packages/daemon/src/jobs/queue.ts:111-133 | cancelling a queued job withdraws it; cancelling a running one changes nothing the scheduler sees |
| `JobQueue.MarkRefines` | packages/daemon/src/jobs/queue.ts:165-183 | marking finishes the running job, and works for no other |
| `JobQueue.ProgressRefines` | packages/daemon/src/jobs/queue.ts:185-190 | progress is invisible to the scheduler |
| `JobQueue.SweepRefines` | packages/daemon/src/jobs/queue.ts:196-209 | sweeping forgets only finished jobs |
| `JobRunner.MarkNeverRaises` | packages/daemon/src/jobs/runner.ts:115-133 | the mark call of the runner always finds its job running |
| `JobRunner.TurnDecreasesMeasure` | packages/daemon/src/jobs/runner.ts:86-113 | each turn of the runner decreases 3 per queued job + 2 if busy + 1 per microtask, except that publishing an update decreases the updates left |
| `JobRunner.ResolvedIffEnded` | packages/daemon/src/jobs/queue.ts:249-263 | the terminal promise has been resolved exactly once if the job has ended and not at all otherwise |
| `JobRunner.EndedStays` | packages/daemon/src/jobs/queue.ts:249-263 | the record of an ended job is unchanged until it is swept, and never comes back |
| `JobRunner.LongPollSeesEnd` | packages/daemon/src/mcp/tools/poll.ts:38-46 | a poll woken by the promise finds an ended job with its report |
| `JobRunner.CancelledWhileRunningEndsCancelled` | packages/daemon/src/jobs/runner.ts:115-133 | under the stub runner, a job cancelled while it runs can only end cancelled |
| `JobRunner.GoneIffSwept` | packages/daemon/src/jobs/queue.ts:196-209 | the delegated jobs that are not on record are exactly those some sweep has removed |
| `JobRunner.SweptOnlyIfOverdue` | packages/daemon/src/jobs/queue.ts:196-209 | a job that is gone was swept when it had been over for more than a day |
| `JobRunner.PendingIsEnqueueOrder` | packages/daemon/src/jobs/queue.ts:98-133 | the queued ids are the delegated ids that are still queued, in delegation order |
| `JobRunner.QueuedPositionCountsEarlierJobs` | packages/daemon/src/jobs/queue.ts:150-156 | the position of a job is the number of earlier jobs that are still queued |
| `JobRunner.QueuedPositionNeverIncreases` | packages/daemon/src/jobs/queue.ts:150-156 | a queued job never moves back |
| `JobRunner.InvAt` | packages/daemon/src/jobs/runner.ts:70-99 | runner and queue agree in every reachable state |
| `Tunnel.RespawnsOnlyThere` | packages/daemon/src/tunnel/manager.ts:159-234 | a child is respawned automatically exactly when an exit or a timeout reaches the limiter and the limiter lets it through |
| `Tunnel.RespawnsRemembered` | packages/daemon/src/tunnel/manager.ts:207-234 | within one window and without a manual restart, the list of timestamps remembers every respawn, and there are at most five |
| `Tunnel.NoChildAfterStop` | packages/daemon/src/tunnel/manager.ts:236-253 | after `stop` no child is live until a start, a restart, or the resumption of a restart that was under way |
| `Tunnel.StopWithoutRestartIsFinal` | packages/daemon/src/tunnel/manager.ts:236-253 | a `stop` called while no `restart` awaits its child leaves no live child at any later moment before a start or restart is asked for |
| `Tunnel.RevivingRun` | packages/daemon/src/tunnel/manager.ts:255-284 | otherwise there is a continuation, the exit of the child and the resumption of the `restart`, that ends with a live child |
| `Tunnel.ChildReturnsIffRevived` | packages/daemon/src/tunnel/manager.ts:236-284 | step by step: of the events after a `stop`, exactly the first start, restart or resumed restart brings a live child |
| `Tunnel.StopDuringRestartLeavesChild` | packages/daemon/src/tunnel/manager.ts:255-284 | a concrete run in which a `restart` overtaken by `stop` brings up a child although the manager is stopped |
| `AuditLog.UnwrittenMetClosed` | packages/daemon/src/audit/log.ts:116-117 | the appends resolved without a write are exactly those called on a closed log |
| `AuditLog.AppendAfterStopIsLost` | packages/daemon/src/audit/log.ts:116-117 | a concrete run in which an append after `stop` is resolved and in no file |
| `AuditLog.RestartLeavesUnresolvedLine` | packages/daemon/src/audit/log.ts:131-134 | a concrete run in which a restart leaves a line in the file that was never resolved |
| `AuditLog.RenameNeverOverwrites` | packages/daemon/src/audit/log.ts:83-114 | no rotation overwrites or changes an archive, and what it adds is the active file |
| `AuditLog.ArchivesOnlyPruned` | packages/daemon/src/audit/log.ts:175-201 | an archive disappears only by pruning and only when more than `retentionDays` times 86400000 ms have passed since the start of its day |
| `AuditLog.RotationIsFresh` | packages/daemon/src/audit/log.ts:104-114 | the day being archived was never archived before, pruned archives included |
| `AuditLog.FlattenAdd` | packages/daemon/src/audit/log.ts:83-101 | an archive later than all others comes last in date order |
| `AuditLog.InvAt` | packages/daemon/src/audit/log.ts:104-146 | directory, handle and dates agree in every reachable state |
| `CanonicalJson.CanonicalIffEqualUpToOrder` | packages/daemon/src/audit/hash.ts:18-31 | for values without `__proto__` keys: one canonical form exactly when equal up to key order |
| `CanonicalJson.LosslessIffProtoFree` | packages/daemon/src/audit/hash.ts:18-31 | canonicalising keeps a value, up to key order, exactly when it has no `__proto__` key |
| `CanonicalJson.ProtoKeyIsDropped` | packages/daemon/src/audit/hash.ts:28-28 | an object with only a `__proto__` key and the empty object have one canonical form |
| `CanonicalJson.CanonIdempotent` | packages/daemon/src/audit/hash.ts:18-31 | canonicalising twice is canonicalising once |
| `CanonicalJson.CanonGet` | packages/daemon/src/audit/hash.ts:25-30 | a canonical object has every key but `__proto__`, with its canonical value |
| `CanonicalJson.SortedUnique` | packages/daemon/src/audit/hash.ts:27-27 | a sorted list of keys is determined by its elements |
| `CanonicalJson.SortKeysSorted` | packages/daemon/src/audit/hash.ts:27-27 | the keys are visited in the order of their UTF-16 code units |
| `CanonicalJson.HashIffSame` | packages/daemon/src/audit/hash.ts:33-42 | inputs have one hash exactly when both are `undefined` or both are values that are the same up to key order, unless stringify or SHA-256 collides on them |
| `CanonicalJson.Canonicalize` | packages/daemon/src/audit/hash.ts:18-31 | the recursion with its fresh object filled in a loop computes the canonical form |
| `PendingApprovals.SettledStays` | packages/daemon/src/approval/pending.ts:67-86 | a settled promise stays settled the same way |
| `PendingApprovals.ResolvedByAnswer` | packages/daemon/src/approval/pending.ts:67-73 | a promise resolved with a decision got it from an answer that found it pending |
| `PendingApprovals.EmptyAfterStop` | packages/daemon/src/approval/pending.ts:105-116 | after `stop` the table and its timers are empty forever |
| `PendingApprovals.ValidAt` | packages/daemon/src/approval/pending.ts:41-116 | pending entries and armed timers correspond one to one in every reachable state |
| `ApprovalGate.ClampNeverLoosens` | packages/shared/src/oauth.ts:136-154 | for a bound token the result is the least cautious granularity that is as cautious as ceiling and request; `auto` needs both to allow it |
| `ApprovalGate.OpenerWasApproved` | packages/daemon/src/approval/gate.ts:214-226 | whoever opened a bypass was approved by the user, and with colon-free identifiers for the same workspace and session |
| `ApprovalGate.BypassOrigin` | packages/daemon/src/approval/gate.ts:68-78 | an open bypass comes from an earlier answer, and nothing has closed it since |
| `ApprovalGate.ClearedIffSameWorkspace` | packages/daemon/src/approval/gate.ts:114-132 | for colon-free identifiers the suffix test picks out exactly the keys of the workspace |
| `ApprovalGate.ColonIdentifiersCollide` | packages/daemon/src/approval/gate.ts:42-44 | a concrete pair of workspaces for which it does |
| `ApprovalGate.KeyInjective` | packages/daemon/src/approval/gate.ts:42-44 | colon-free keys agree only for the same workspace and session |
| `ApprovalGate.CancelClearsExactlyTheWorkspace` | packages/daemon/src/approval/gate.ts:114-132 | afterwards exactly the bypasses of the other workspaces are left, for colon-free identifiers |
| `ApprovalGate.CancelIsExactForGenerated` | packages/daemon/src/approval/gate.ts:114-132 | the same without a condition for every identifier that can be generated |
| `ApprovalGate.RequestOrigin` | packages/daemon/src/approval/gate.ts:186-203 | what is recorded of a request is what its call was resolved to, and never changes |
| `ApprovalGate.RegistryRun` | packages/daemon/src/approval/gate.ts:80-101 | seen from the registry, every run of the gate is a run of the registry |
| `WorkspaceIdentifier.SlugifyIsSlug` | packages/daemon/src/workspace/identifier.ts:29-36 | every slug is lower-case words of letters and digits joined by single dashes, not empty and at most 32 long |
| `WorkspaceIdentifier.SlugifyFixesIffSlug` | packages/daemon/src/workspace/identifier.ts:29-36 | exactly the slugs are left as they are |
| `WorkspaceIdentifier.GeneratedHasNoColon` | packages/daemon/src/workspace/identifier.ts:42-51 | no generated identifier has a colon |
| `WorkspaceIdentifier.GeneratedInjective` | packages/daemon/src/workspace/identifier.ts:42-51 | slug and suffix can be read back from an identifier |
| `WorkspaceIdentifier.GenerateIdentifier` | packages/daemon/src/workspace/identifier.ts:42-52 | the first of four candidates that is not used is taken; it fails exactly when all four are used |
| `Base32.PushByte` | packages/daemon/src/jobs/id.ts:20-20 | shifting in a byte keeps the accumulator equal, modulo 2^32, to the number read so far |
| `Base32.ShiftedChar` | packages/daemon/src/jobs/id.ts:22-25 | the character shifted out is that of the five bits due, however often the accumulator has wrapped |
| `Base32.LastChar` | packages/daemon/src/jobs/id.ts:27-29 | the last character is that of the remaining bits filled up with zeros |
| `Base32.PrefixIffPrefix` | packages/daemon/src/jobs/id.ts:33-38 | the first k characters and the first 5k bits determine each other |
| `Base32.GenerateJobId` | packages/daemon/src/jobs/id.ts:33-38 | the id is the prefix and the first twelve characters of eight bytes |
| `Base32.TranscriptNameIsRecognised` | packages/daemon/src/jobs/transcript-orphan.ts:23-23 | the transcript file of every id matches the pattern of the startup scan |
| `WorkspacePath.KeyIgnoresSeparators` | packages/shared/src/path.ts:68-81 | on win32 the kind of a separator, a run of them, and a trailing one do not change the key |
| `WorkspacePath.KeyIgnoresAsciiCase` | packages/shared/src/path.ts:18-26 | in an ASCII path letter case never changes the key |
| `WorkspacePath.KelvinDriveDiffers` | packages/shared/src/path.ts:77-80 | a concrete input on which it does: a drive spelt with the Kelvin sign |
| `WorkspacePath.LowerKelvinIsCaseFold` | packages/shared/src/path.ts:18-26 | what is assumed of `toLowerCase` is satisfiable |
| `WorkspacePath.SpawnedIdentityMatches` | packages/extension/src/daemon-lifecycle.ts:51-60 | the path the extension spawns a daemon with has the identity it later looks for |
| `WorkspacePath.FoldedStructure` | packages/shared/src/path.ts:18-26 | lowering a path lowers its components and leaves its beginning |
| `WorkspacePath.Win32IsRendering` | packages/shared/src/path.ts:68-81 | the rewriting writes out leading separators and components, with the drive letter lowered and a bare drive given its root |
| `WorkspacePath.PosixIsRendering` | packages/shared/src/path.ts:83-90 | the rewriting writes out root and components |
| `WorkspacePath.KeyForm` | packages/shared/src/path.ts:100-106 | the key is the beginning, the lowered components, and the root of a bare drive |
| `Separators.CollapsedForm` | packages/shared/src/path.ts:73-73 | collapsing leaves one leading separator, the joined components and one trailing separator |
| `LineFraming.SplitUnique` | packages/daemon/src/ipc/server.ts:485-493 | a stream has only one split into lines and unfinished rest |
| `LineFraming.RunSplitsStream` | packages/daemon/src/ipc/server.ts:485-493 | for every chunking the emitted lines and the last buffer are the split of the whole stream |
| `LineFraming.ChunkingDoesNotMatter` | packages/daemon/src/ipc/server.ts:485-493 | two chunkings of one stream emit the same lines and leave the same rest |
| `LineFraming.DecodesWithinSpace` | packages/daemon/src/ipc/protocol.ts:24-32 | a message decodes from its text with any white space around it |
| `LineFraming.EncodedIsFramed` | packages/daemon/src/ipc/protocol.ts:15-22 | encoded messages are one line each |
| `PathContainment.SlashedParentExcludesItself` | packages/daemon/src/jobs/floor.ts:88-94 | the exception is real |
| `PathContainment.ResolvePathTarget` | packages/daemon/src/jobs/floor.ts:51-68 | a token resolves to an absolute path whose components are those walked to from the workspace or from home |
| `PathContainment.TargetIsUnderIff` | packages/daemon/src/jobs/floor.ts:65-94 | for a directory without a trailing slash the test on a resolved token is component containment |
| `PathContainment.NothingBelowFilesystemRoot` | packages/daemon/src/mcp/tools/delegate.ts:66-74 | with the filesystem root as workspace a directory inside it is refused |
| `PathContainment.ResolvesFromBase` | packages/daemon/src/mcp/tools/delegate.ts:66-67 | a relative path is resolved by walking on from where its base resolves to |
| `GrantPipeline.CodeBurntIff` | packages/daemon/src/oauth/token-endpoint.ts:107-156 | a request that fails a check before redemption, the client secret included, changes nothing at all; any other takes exactly its code out of the desk |
| `GrantPipeline.FirstErrorIsNamed` | packages/daemon/src/oauth/token-endpoint.ts:107-184 | the reply names the first of ten things that is wrong, in the order of the source |
| `GrantPipeline.TokenGoneOnlyBy` | packages/daemon/src/oauth/token-store.ts:156-255 | a token leaves the store exactly when it was captured by a finishing handler, with its workspace, or with everything |
| `GrantPipeline.UnfinishedHolds` | packages/daemon/src/oauth/token-endpoint.ts:186-224 | and until then it holds the hashes of exactly the unexpired tokens the workspace had at the mint |
| `GrantPipeline.TokenHasCurrentMode` | packages/daemon/src/oauth/token-store.ts:286-301 | a bound token starts as `per_call` and then has the mode last set for its workspace before it expired |
| `Consent.BegunIff` | packages/daemon/src/oauth/consent.ts:209-273 | a record is kept exactly when the request reached a window before `stop`; otherwise the reply says why |
| `Consent.PendingUntilResolved` | packages/daemon/src/oauth/consent.ts:434-461 | a record is unchanged until its first decision or timeout |
| `Consent.DiscardedDecision` | packages/daemon/src/oauth/consent.ts:434-461 | a decision that is late, for nobody, or a dismissal changes nothing at all |
| `Consent.UnknownTimesOut` | packages/daemon/src/oauth/consent.ts:331-340 | awaiting an unknown request times out at once |
| `Consent.StopSettlesAll` | packages/daemon/src/oauth/consent.ts:628-640 | `stop` settles exactly those who wait, as timed out, disarms every timer, and leaves records and codes |
| `Consent.SecondStopIsIdle` | packages/daemon/src/oauth/consent.ts:628-640 | a second `stop` changes nothing |
| `Consent.CodeIsLiveIff` | packages/daemon/src/oauth/consent.ts:473-510 | the code of an approval is live, as it was issued, exactly until it is presented, its expiry fires, or its workspace is revoked |
| `JobQueue.Replies` | packages/daemon/src/jobs/queue.ts:98-133 | what `cancel` answers for each status, and that a head without a record is only dropped |
| `JobRunner.InputStays` | packages/daemon/src/jobs/queue.ts:59-93 | a job keeps input and time of enqueueing while it is on record |
| `JobRunner.AdvanceTakesHead` | packages/daemon/src/jobs/runner.ts:86-92 | the microtask takes the head of the queue if the runner is idle, and otherwise nothing |
| `JobRunner.ProgressPublishes` | packages/daemon/src/jobs/runner.ts:101-113 | a turn of the work publishes the next update and nothing else |
| `JobRunner.FlagIffCancelled` | packages/daemon/src/jobs/queue.ts:129-133 | a job is flagged exactly when it was cancelled while it was running |
| `JobRunner.CancelEnds` | packages/daemon/src/jobs/queue.ts:111-133 | cancelling ends a queued job at once, flags a running one, and does nothing otherwise |
| `JobRunner.SweepRemovesIff` | packages/daemon/src/jobs/queue.ts:196-209 | a sweep removes exactly the jobs over for more than 86400000 ms, and nothing else removes any |
| `JobRunner.RetainedForADay` | packages/daemon/src/jobs/queue.ts:196-209 | a job is on record for the 86400000 ms after its end whatever happens |
| `JobRunner.OtherTurns` | packages/daemon/src/jobs/runner.ts:65-76 | a tickle wakes the runner unless it is busy; nothing but `setBehavior` changes what the stub does |
| `Tunnel.DeadChildIsReplaced` | packages/daemon/src/tunnel/manager.ts:159-234 | a child that had its URL and exits within the limit is replaced |
| `Tunnel.RecordedAreAttempts` | packages/daemon/src/tunnel/manager.ts:207-221 | the timestamps of the last five minutes are those of the attempts |
| `Tunnel.ChildStep` | packages/daemon/src/tunnel/manager.ts:109-205 | what each event does to a child: running, exit seen, URL, timer, and whether its call has rejected |
| `Tunnel.ToldOnlyIf` | packages/daemon/src/tunnel/manager.ts:109-284 | a child is told to stop only by `stop` or `restart` while current, by its timeout, or by being replaced |
| `Tunnel.FieldsStep` | packages/daemon/src/tunnel/manager.ts:236-284 | what each event does to current child, suspension, `stopped` and the resumptions that are due |
| `Tunnel.StatusStep` | packages/daemon/src/tunnel/manager.ts:138-284 | the status is up after a first URL, down after a stop, degraded when suspended, and otherwise as before |
| `AuditLog.OperationsRunInCallOrder` | packages/daemon/src/audit/log.ts:116-173 | appends and rotations run one at a time in the order of their calls; `stop` alone closes the log |
| `PendingApprovals.RegisterStep` | packages/daemon/src/approval/pending.ts:41-63 | a registration is pending with a timer, or rejected at once after stop |
| `PendingApprovals.PendingIffNotEnded` | packages/daemon/src/approval/pending.ts:41-116 | an approval is pending exactly until the first answer, timeout, cancel, cancel of the workspace it was registered for, or stop |
| `ApprovalGate.GranularityTable` | packages/daemon/src/approval/gate.ts:166-184 | the whole table of binding, request and stored mode |
| `ApprovalGate.BypassStays` | packages/daemon/src/approval/gate.ts:68-78 | an open bypass stays open until it is cleared or its workspace cancelled |
| `ApprovalGate.AnsweredAtOnceIff` | packages/daemon/src/approval/gate.ts:203-214 | a call returns `approve` at once exactly if it resolves to `auto` or finds the bypass open; any other is registered |
| `ApprovalGate.AnswerIsRecorded` | packages/daemon/src/approval/gate.ts:108-112 | an answer that finds its request pending is its one settlement |
| `ApprovalGate.RegistryHears` | packages/daemon/src/approval/gate.ts:90-136 | what the registry is told of each event |
| `ApprovalGate.DeliveredIff` | packages/daemon/src/approval/gate.ts:80-101 | a call goes on only after its prompt was delivered |
| `ApprovalGate.OutcomeIsSettlement` | packages/daemon/src/approval/gate.ts:80-101 | a call that waited returns the answer it was given and throws the reason it was rejected for |
| `CanonicalJson.LessIff` | packages/daemon/src/audit/hash.ts:27-27 | the order of keys: at the first difference the smaller code unit, and a prefix before what it begins |
| `CanonicalJson.IsIndexIff` | packages/daemon/src/audit/hash.ts:27-29 | an array index is the decimal notation of a number below 2^32 - 1 |
| `WorkspaceIdentifier.SlugifyJoinsWords` | packages/daemon/src/workspace/identifier.ts:29-36 | the slug is the words of the lowered name, joined by dashes and cut at 32, or `workspace` |
| `WorkspaceIdentifier.SuffixIsHex` | packages/daemon/src/workspace/identifier.ts:38-43 | a suffix is six lower-case hex digits |
| `WorkspacePath.Win32Spelling` | packages/shared/src/path.ts:68-81 | how a win32 path is written: backslashes, the drive letter in lower case, a bare drive with its root |
| `WorkspacePath.PosixSpelling` | packages/shared/src/path.ts:83-90 | how a posix path is written |
| `LineFraming.WhiteSpace` | packages/daemon/src/ipc/protocol.ts:24-32 | the characters that are trimmed |
| `LineFraming.FailuresAreNamed` | packages/daemon/src/ipc/protocol.ts:15-32 | a value without a text and a line that does not parse are reported |
| `PathContainment.EscapesIff` | packages/daemon/src/mcp/tools/delegate.ts:66-74 | going up is refused unless the same names are taken down again |
| `PathContainment.ResolveCwdOtherwise` | packages/daemon/src/mcp/tools/delegate.ts:57-65 | an absent or empty working directory is the workspace, an absolute one is refused |
| `PathContainment.LeadingDots` | packages/daemon/src/jobs/floor.ts:82-94 | ".." at the root stays there; at the front of a relative path it is kept |
| `PathContainment.RelativeNormal` | packages/daemon/src/jobs/floor.ts:82-94 | a relative path of leading dots and plain names is normal, and the empty one is "." |
| `PathContainment.IsUnderByNames` | packages/daemon/src/jobs/floor.ts:82-94 | for absolute paths of plain names the test is that the list of the parent begins that of the child |
| `PathContainment.TildeIsHome` | packages/daemon/src/jobs/floor.ts:51-68 | a tilde alone is the home directory, and before a slash of either kind a path is taken from there |
| `PathContainment.TokenFromWorkspace` | packages/daemon/src/jobs/floor.ts:51-68 | any other relative token is taken from the workspace |
| `PathContainment.QuotesAreIgnored` | packages/daemon/src/jobs/floor.ts:51-58 | one quote at either end is ignored |
| `Consent.ConsentManager.BeginConsent` | packages/daemon/src/oauth/consent.ts:209-273 | the record is kept exactly when the request was delivered to somebody; the refusal names the right reason |
| `Consent.ConsentManager.Transition` | packages/daemon/src/oauth/consent.ts:648-680 | it applies exactly to a pending record, and wakes the awaiter with the new state |
| `Consent.ConsentManager.RecordDecision` | packages/daemon/src/oauth/consent.ts:434-510 | an unknown, late or dismissed decision changes nothing; an approval binds, issues and arms in one step |
| `Consent.ConsentManager.AwaitDecision` | packages/daemon/src/oauth/consent.ts:331-371 | a resolved record answers at once, a pending one registers awaiter and timer |
| `Consent.ConsentManager.DecisionTimerFired` | packages/daemon/src/oauth/consent.ts:372-404 | the timer resolves a pending consent as timed out and settles the awaiter with the record in any case |
| `Consent.ConsentManager.CodeExpired` | packages/daemon/src/oauth/consent.ts:500-505 | the expiry callback drops code and timer together |
| `Consent.ConsentManager.RedeemAuthCode` | packages/daemon/src/oauth/consent.ts:585-609 | the record is returned exactly for a live code within its lifetime, and the code is consumed either way |
| `Consent.ConsentManager.RevokeAuthCodesByWorkspace` | packages/daemon/src/oauth/consent.ts:282-296 | exactly the codes of the workspace go, with their timers, and the count is returned |
| `Consent.ConsentManager.Stop` | packages/daemon/src/oauth/consent.ts:628-640 | timers are cleared and every waiting promise settles as timed out, once |
| `TokenStore.TokenStore.Load` | packages/daemon/src/oauth/token-store.ts:73-94 | loading drops exactly the tokens that expired while the daemon was down |
| `TokenStore.TokenStore.Mint` | packages/daemon/src/oauth/token-store.ts:101-118 | one record with the hash of the plaintext is appended, with a lifetime of thirty days |
| `TokenStore.TokenStore.Lookup` | packages/daemon/src/oauth/token-store.ts:130-141 | a binding is returned only for an unexpired token with this hash; with distinct hashes, none only if there is no such token |
| `TokenStore.TokenStore.RevokeByWorkspace` | packages/daemon/src/oauth/token-store.ts:156-165 | exactly the tokens bound to the workspace are removed and counted |
| `TokenStore.TokenStore.RevokeAll` | packages/daemon/src/oauth/token-store.ts:197-205 | the store is emptied and the number of tokens returned |
| `TokenStore.TokenStore.TokenHashesForWorkspace` | packages/daemon/src/oauth/token-store.ts:228-234 | the hashes are exactly those of the unexpired tokens bound to the workspace, in order |
| `TokenStore.TokenStore.RevokeByTokenHashes` | packages/daemon/src/oauth/token-store.ts:244-255 | exactly the tokens with the given hashes are removed and counted |
| `TokenStore.TokenStore.SetGranularityForWorkspace` | packages/daemon/src/oauth/token-store.ts:286-301 | the loop updates exactly the unexpired tokens of the workspace and counts them |
| `GrantPipeline.TokenEndpoint.HandleToken` | packages/daemon/src/oauth/token-endpoint.ts:107-206 | redeem, checks, capture and mint are one step; the reply is the first check that fails, or the code |
| `GrantPipeline.TokenEndpoint.ResumeTakeover` | packages/daemon/src/oauth/token-endpoint.ts:207-224 | the resumed handler revokes exactly what it captured |
| `GrantPipeline.TokenEndpoint.RevokeBindingForWorkspace` | packages/daemon/src/main.ts:588-599 | afterwards no token and no live code is bound to the workspace |
| `JobQueue.JobQueue.Enqueue` | packages/daemon/src/jobs/queue.ts:59-93 | the job is appended and its position is the number of jobs queued before |
| `JobQueue.JobQueue.ClaimNext` | packages/daemon/src/jobs/queue.ts:98-109 | the head of the queue becomes the running job; a head without a record is dropped |
| `JobQueue.JobQueue.Cancel` | packages/daemon/src/jobs/queue.ts:111-133 | a queued job is cut out and ends cancelled, a running one is flagged, an ended or unknown one is reported as such |
| `JobQueue.JobQueue.QueuedPosition` | packages/daemon/src/jobs/queue.ts:150-156 | there is a position exactly for a queued job, and it is where the job stands |
| `JobQueue.JobQueue.MarkComplete` | packages/daemon/src/jobs/queue.ts:165-168 | a running job ends complete, any other raises |
| `JobQueue.JobQueue.MarkFailed` | packages/daemon/src/jobs/queue.ts:170-173 | a running job ends failed with its error, any other raises |
| `JobQueue.JobQueue.MarkCancelled` | packages/daemon/src/jobs/queue.ts:175-183 | a running job ends cancelled, any other raises |
| `JobQueue.JobQueue.UpdatePartial` | packages/daemon/src/jobs/queue.ts:185-190 | progress is stored on a running job and otherwise ignored |
| `JobQueue.JobQueue.Sweep` | packages/daemon/src/jobs/queue.ts:196-209 | exactly the jobs that ended more than a day ago are removed and counted |
| `JobQueue.JobQueue.TransitionToTerminal` | packages/daemon/src/jobs/queue.ts:249-263 | the record ends, the slot is freed if the job held it, and the promise is resolved once more |
| `JobRunner.StubJobRunner.Tickle` | packages/daemon/src/jobs/runner.ts:70-76 | a microtask is scheduled exactly when the runner is not busy |
| `JobRunner.StubJobRunner.DelegateJob` | packages/daemon/src/mcp/tools/delegate.ts:249-300 | enqueue and tickle happen without a yield between them |
| `JobRunner.StubJobRunner.Advance` | packages/daemon/src/jobs/runner.ts:86-92 | the microtask claims a job and becomes busy, or does nothing |
| `JobRunner.StubJobRunner.PublishUpdate` | packages/daemon/src/jobs/runner.ts:101-113 | one update is published to the job being worked on |
| `JobRunner.StubJobRunner.CompleteAdvance` | packages/daemon/src/jobs/runner.ts:93-133 | a cancelled job is marked cancelled, any other as configured; then busy is cleared and the runner tickled |
| `Tunnel.TunnelManager.SignalChild` | packages/daemon/src/tunnel/cloudflared.ts:115-135 | a child that has exited is left alone |
| `Tunnel.TunnelManager.SpawnProcess` | packages/daemon/src/tunnel/manager.ts:109-132 | the new child is the current one, and a current child that still runs is told to stop first |
| `Tunnel.TunnelManager.AttemptRespawn` | packages/daemon/src/tunnel/manager.ts:207-234 | respawn within the limit, otherwise suspend and degrade; nothing when suspended or stopped |
| `Tunnel.TunnelManager.RejectStart` | packages/daemon/src/tunnel/manager.ts:159-185 | the promise of the call that spawned the child rejects once |
| `Tunnel.TunnelManager.OnUrl` | packages/daemon/src/tunnel/manager.ts:138-157 | the first URL disarms the timer and brings the tunnel up |
| `Tunnel.TunnelManager.OnExit` | packages/daemon/src/tunnel/manager.ts:159-175 | an exit clears timer and slot, and then rejects, respawns or does nothing |
| `Tunnel.TunnelManager.OnStartTimeout` | packages/daemon/src/tunnel/manager.ts:185-198 | a child without a URL is given up and told to stop, and its failure is reported |
| `Tunnel.TunnelManager.StartTunnel` | packages/daemon/src/tunnel/manager.ts:93-102 | a start is accepted exactly when there is no current child |
| `Tunnel.TunnelManager.Stop` | packages/daemon/src/tunnel/manager.ts:236-244 | the current child is given up and told to stop; without one the tunnel is down at once |
| `Tunnel.TunnelManager.StopResumed` | packages/daemon/src/tunnel/manager.ts:245-252 | when the child is gone the tunnel is down |
| `Tunnel.TunnelManager.Restart` | packages/daemon/src/tunnel/manager.ts:255-273 | limiter and suspension are reset; the current child is told to stop, or a new one spawned |
| `Tunnel.TunnelManager.RestartResumed` | packages/daemon/src/tunnel/manager.ts:266-273 | when the old child is gone the replacement is spawned |
| `Tunnel.TunnelManager.RestartFailed` | packages/daemon/src/tunnel/manager.ts:274-282 | a replacement that does not come up suspends respawning |
| `AuditLog.AuditLog.Append` | packages/daemon/src/audit/log.ts:116-146 | an append is queued behind the others; once the log is closed its promise is resolved at once and nothing is queued |
| `AuditLog.AuditLog.Rotate` | packages/daemon/src/audit/log.ts:148-173 | a rotation is queued behind the appends |
| `AuditLog.AuditLog.CloseAndRename` | packages/daemon/src/audit/log.ts:83-101 | the handle is closed and the active file, if there is one, becomes the archive of the day |
| `AuditLog.AuditLog.RotateInline` | packages/daemon/src/audit/log.ts:104-114 | the active file is archived under the remembered day exactly when the day has changed |
| `AuditLog.AuditLog.OpenIfNeeded` | packages/daemon/src/audit/log.ts:71-81 | an open handle is reused, otherwise the active file is opened or created |
| `AuditLog.AuditLog.RunRotation` | packages/daemon/src/audit/log.ts:126-131 | the date check comes first in every queued operation |
| `AuditLog.AuditLog.RunWrite` | packages/daemon/src/audit/log.ts:132-133 | the line goes to the file the handle is open on |
| `AuditLog.AuditLog.RunResolve` | packages/daemon/src/audit/log.ts:134-146 | the promise is resolved after the write, and the next operation starts |
| `AuditLog.AuditLog.PruneOld` | packages/daemon/src/audit/log.ts:175-201 | exactly the archives past the retention bound are unlinked |
| `AuditLog.AuditLog.Stop` | packages/daemon/src/audit/log.ts:217-219 | nothing is accepted any more |
| `AuditLog.AuditLog.FinishStop` | packages/daemon/src/audit/log.ts:220-230 | after the chain has drained the handle is closed |
| `PendingApprovals.PendingApprovalRegistry.AwaitApproval` | packages/daemon/src/approval/pending.ts:41-63 | an approval is registered with a timer, or rejected at once after stop |
| `PendingApprovals.PendingApprovalRegistry.Resolve` | packages/daemon/src/approval/pending.ts:67-73 | a pending approval resolves with the decision, a stale answer does nothing |
| `PendingApprovals.PendingApprovalRegistry.TimerFired` | packages/daemon/src/approval/pending.ts:46-51 | a pending approval is rejected as timed out |
| `PendingApprovals.PendingApprovalRegistry.Cancel` | packages/daemon/src/approval/pending.ts:77-86 | a pending approval is rejected with the reason |
| `PendingApprovals.PendingApprovalRegistry.CancelByWorkspace` | packages/daemon/src/approval/pending.ts:91-102 | exactly the pending approvals of the workspace are rejected |
| `PendingApprovals.PendingApprovalRegistry.Stop` | packages/daemon/src/approval/pending.ts:105-116 | every pending approval is rejected as shut down, and no more are accepted |
| `ApprovalGate.ApprovalGateImpl.IsSessionBypassed` | packages/daemon/src/approval/gate.ts:68-70 | a bypass is open exactly when its key is in the set |
| `ApprovalGate.ApprovalGateImpl.BeginDelegation` | packages/daemon/src/approval/gate.ts:186-217 | `auto` and an open bypass let through at once, anything else registers a prompt before it is sent |
| `ApprovalGate.ApprovalGateImpl.DeliveryFailed` | packages/daemon/src/approval/gate.ts:90-98 | a prompt that cannot be delivered cancels its approval and throws, with its own reason if the error is itself an approval rejection |
| `ApprovalGate.ApprovalGateImpl.ResumeDelegation` | packages/daemon/src/approval/gate.ts:214-227 | the decision is returned, and opens the bypass for a task or an approval for the session |
| `ApprovalGate.ApprovalGateImpl.CancelByWorkspace` | packages/daemon/src/approval/gate.ts:114-132 | the approvals of the workspace are cancelled and the keys that end with it removed |
| `ApprovalGate.ApprovalGateImpl.ClearSessionBypass` | packages/daemon/src/approval/gate.ts:76-78 | one key is removed |
| `LineFraming.LineReader.OnData` | packages/daemon/src/ipc/server.ts:481-494 | a chunk emits exactly the lines completed by it and keeps the unfinished rest; what was emitted and the buffer are always the split of what was received |

## Left out

- Consent: the acknowledgement handshake with its own timer, `getConsent` and `getAuthCode`, and the notifications sent to windows; they change neither records nor codes.
- Consent: a second awaiter for one request, which would overwrite the resolver of the first.
- TokenStore: writing tokens.json, a failed write, and the disclosure and listing reads.
- GrantPipeline: parsing and sending of HTTP, and the verification of the client secret, whose result is a parameter; a revoke that fails after the mint.
- JobQueue: the read-only views of a job, and the exhibits, mode and model of its input.
- JobRunner: a report or error the stub is configured with, which would replace its own; most fields of a report; the SDK runner, where a job cancelled while it runs need not end cancelled; the delays between the updates of the stub, which may come in one turn or several.
- Tunnel: children are ids with a state, not objects; the URL itself, persisted pids, logging, and the kill after the grace period.
- AuditLog.AuditLog.Rotate: does not model the explicit date that may be passed to `rotate`, because nothing in the daemon passes one; its midnight task and its appends use the clock.
- AuditLog: failed writes, and the names of files, which are days here; the number that tells append calls apart is not in the file. A process restart is a step of the model and has no method.
- ApprovalGate: the text of prompts and its truncation.
- CanonicalJson: values JSON has no notation for, and the prototype a `__proto__` member would set.
- WorkspacePath: the `--name` argument derived from the last component.
- LineFraming: JSON itself, schema validation of requests, and what dispatching a line does.
- PathContainment.IsUnderIff: does not model win32, where drives and both separators are normalised and both sides lowered first.
- PathContainment.ResolvePathTarget: does not model win32, where a path can be relative to a drive.
- PathContainment.TargetIsUnderIff: does not model win32, for both reasons.
- PathContainment.ResolveCwdIff: does not model win32, nor the second test on real paths, which depends on the file system.
- PathContainment: symbolic links; the deny lists and the rules for git and rm.
- IPC registrations: `confirm_trust` awaits a store write between its check and its registration, so the holder of a workspace is not unique across that gap.
- Bind retries, pid files, adverts, the daily timer, selectors and the extension: short, or callbacks into an editor.
