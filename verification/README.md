# Agent Governor: verified model of the custody core

A Dafny model of the parts of the governor that must not lose, repeat or invent
anything, with the properties its documentation promises proved for every input
and every run. `dafny verify dfyconfig.toml` checks the whole project.

## What is modelled

**The governor core** (`crates/ag-app/src/agd.rs`). `Custody` holds the durable
records and the transitions of one record; `Ledger` the event store, the commits
it admits (a compare-and-set on the entity's revision and one event each) and
what holds of every run of commits; `Paging` the store's bounded pages;
`Scheduling` and `Standing` the process-local job queue, the recovery scan and the
invariants over both; `Governor` the class `AgdCore` with the operations
themselves. The class keeps, as ghost state, the trail of every durable state
over all process lifetimes. A crash leaves one of the states of the trail and a
restart goes on from it, so that a fact about a trail is a fact about every crash
point. `History` states the facts that hold between any two states of a trail.

**The daemon's pump** (`crates/ag-app/src/bin/agd.rs`). `ProviderIo` is the
provider I/O worker between its two bounded channels, with every interleaving of
the two threads; `Fates` what becomes of a completion or a frame, as conditions on
records, clock and answer; `Daemon` the pump and the main loop over any list of
events, with the worker thread taking any steps in between.

**The forward outbox** to the effect broker: `Forwarding` (records, commits, runs
and broker calls) and `Outbox` (the operations).

**The evidence tools** (`qualification/clean-host`): `ArchiveTrie` and `GitTreeId`
rebuild a Git tree id from archive members; `Manifest` builds, validates and
verifies the bundle manifest; `Readiness` is the SSH readiness loop; `Publication`
the atomic publication of a receipt; `Mountinfo` the two mount table decoders.

**The wire** (`crates/ag-app/src/api.rs`): `Base64` is the canonical encoding of
opaque bytes (sections 4 and 3.5 of RFC 4648); `Wire` the answers a worker is given
and the exact length of each as canonical JSON (RFC 8785), which is what a frame
limits. `Text` is text as bytes: ASCII, UTF-8 and slash-separated names.

`ByteOrder` and `Outcomes` are shared vocabulary.

## How to read it

A digest is the value it was computed from, so equal digests mean equal
preimages. Only the Git object hash and the manifest's hash are real functions of
bytes, given as parameters: there, freedom from collisions is asked for exactly
the contents that are compared. Clocks, process outcomes, provider answers,
broker replies, short writes and failing system calls are parameters and may be
anything.

`Covered` is the central invariant of the scheduler: a session that is not
tombstoned is attended by a live runtime, and a provider-enabled session whose
cleanup is pending is still ahead of the recovery scan, or its revocation is
queued or in flight, or it is known to be indeterminate. `Prompt` is its partner
for jobs: a dispatch is outstanding only while its request is alone in custody, an
acknowledgment only while its response awaits one, and a revocation only until it
is confirmed.

The attended worker's response channel holds one frame: `unsent` says that the last
one is not yet drained. `GoesOn` says of a completion whether receiving it lets the
daemon go on while that channel is free, `Answers` whether it puts an answer there,
and `Passes` combines the two.

Where an operation is stated through a function that decides something, that function
has a lemma of its own which says what it decides in terms of the fields of its
arguments alone: `RefusalExact`, `VerdictExact`, `RevocationExact`, `PrepareExact`,
`PlaceExact`, `AcceptsExact`, `ValidatedExact` and so on. `Testified` and
`RevocationTestified` say of the records that they hold what the provider said.

## Where the code falls short of a property

- A cancellation, or a launch that was not released, whose process will not stop
  returns an error after the tombstone is durable but before the revocation is
  recorded, and the daemon goes on. The session keeps its cover exactly when it has no
  provider capability or is still ahead of the scan: the last clauses of
  `CancelWorker` and `LaunchWorker`. `StuckCancellationLosesCover` builds a state where it is lost.
- The pump asserts that the acknowledgment owed after a fetched response is always
  retained (`crates/ag-app/src/bin/agd.rs:255-257`), but one slot is kept for it while one pass can
  receive several responses. A pass that begins with q jobs queued and owes n
  acknowledgments turns away exactly those past 128 of q + n: `ReceiveAll`.
  `AcknowledgmentTurnedAway` launches a worker, asks until 127 dispatches are queued
  with two in flight, and receives both in one pass.
- A completion can end the daemon. `ReceiveOne` says exactly when. `GoesOn` asks that the
  worker's principal is active and its grant in force at this time, that the result
  fits the operation, and that an answer can be read from custody and its encoding fits
  a frame; for a revocation, that it is confirmed or refused with a message of at most
  1024 bytes; for a worker no longer attended, only that its session is tombstoned.
  A completion that answers also needs the response channel free. A pass therefore goes
  on exactly when `GoesOn` holds of all its completions and it gives at most one answer,
  or none if the channel is not drained when it begins: `ReceiveAll`.
  `LateResponseEndsDaemon` receives a response when the principal has just expired,
  `SecondAnswerEndsDaemon` two provider errors in one pass, and
  `LargeResponseEndsDaemon` any response that can be read from custody but is longer
  than three quarters of the limit.
- A frame can end the daemon. A frame read from a worker is either answered or refused,
  and a refusal ends the pump. `ServeFrame` gives the outcome, with the error, and
  `FrameAnswered` says exactly when it is an answer: the response channel is free, an
  `Infer` has a grant in force, bytes within its size and no other request under its
  attempt, a `Reconcile` names a known attempt, and what is told can be read and fits a
  frame. `UnknownAttemptRefused` and `UndrainedWorkerRefused` are refusals.

## Model

| member | source | states |
|---|---|---|
| Custody.Transition | crates/ag-session/src/lib.rs:994-1082 | an accepted lifecycle event moves the record forward and never back, keeps it valid, leaves it tombstoned exactly when it is not the activation, and touches the candidate only by acceptance and the broker's outcome |
| Custody.TransitionExact | crates/ag-session/src/lib.rs:994-1082 | of a valid record: exactly which events it admits, and the whole record each leaves |
| Custody.RequestExact | crates/ag-session/src/lib.rs:202-236 | a request record holds the grant, the bytes and the headers it was made from, and equal records mean equal requests |
| Custody.ReconcileDispatchAvailable | crates/ag-app/src/agd.rs:484-497 | accepted only over a request in custody or the identical announcement; identity and request are kept |
| Custody.ReconcileResponseCustody | crates/ag-app/src/agd.rs:547-581 | an accepted response is bound to the request and to the announced stream, is what the attempt then holds, and the attempt only moves forward |
| Custody.ReconcileFetchedResponse | crates/ag-app/src/agd.rs:511-543 | a duplicate leaves the attempt as it is, and a new response only moves it forward |
| Custody.ReconcileAcknowledgment | crates/ag-app/src/agd.rs:585-609 | an accepted acknowledgment leaves exactly this dispatch and receipt, and the attempt only moves forward |
| Custody.FetchedSettles | crates/ag-app/src/agd.rs:511-581 | the three-step reconciliation of a fetched response is exactly the settled automaton's step |
| Custody.AcknowledgmentSettles | crates/ag-app/src/agd.rs:585-609 | the reconciliation of an acknowledgment is exactly the settled automaton's step |
| Custody.SettledSays | crates/ag-app/src/agd.rs:1201-1336 | what the automaton settles on is what the result says: its dispatch, stream and terminal flag, its receipt, or nothing new |
| Ledger.InvKept | crates/ag-app/src/agd.rs:1235-1284 | every lawful commit keeps all record bindings, both-receipt cleanup, backed bytes and event counts |
| Ledger.CommitEvolves | crates/ag-store/src/lib.rs:2703-2812 | a commit only moves records forward, extends the log, keeps blobs and freezes the attempts of tombstoned sessions |
| Ledger.RunInv | crates/ag-store/src/lib.rs:1279-1294 | the invariant holds in every state of every run, crashed or not |
| Ledger.RunEvolves | crates/ag-store/src/lib.rs:1279-1294 | between any two states of a run everything only moves forward |
| Ledger.CommitRaises | crates/ag-store/src/lib.rs:2703-2812 | a commit raises the revision of the record it writes by one, lowers none and appends one event of that record |
| Ledger.CommitOnce | crates/ag-store/src/lib.rs:2703-2812 | a commit made once is refused in every later state of every run |
| History.CrashAnywhere | crates/ag-store/src/lib.rs:1279-1294 | cutting a run at any commit leaves a run |
| History.FencedAttemptsFrozen | crates/ag-app/src/agd.rs:1340-1388 | once a session is tombstoned no attempt of it appears, disappears or changes in any later state |
| History.ResponseStands | crates/ag-app/src/agd.rs:3455-3474 | a response in custody keeps its dispatch and bytes for good, its stored bytes hash to its stream, and it is bound to its request; an acknowledged attempt never changes |
| History.RequestInCustodyThroughout | crates/ag-app/src/agd.rs:976-1039 | every stored attempt keeps its request and its exact bytes, and is never stored as merely available |
| History.AcknowledgedAfterResponse | crates/ag-app/src/agd.rs:1286-1336 | an acknowledged attempt was durably in custody with the same response at an earlier state |
| History.ResponseAfterRequest | crates/ag-app/src/agd.rs:1235-1284 | an attempt with a response was durably in custody as that request alone at an earlier state |
| History.CustodyEventsOnce | crates/ag-app/src/agd.rs:1201-1336 | at most one request, response and acknowledgment event per attempt, the latter two exactly when the record says so |
| History.CleanupBehindBothReceipts | crates/ag-app/src/agd.rs:1626-1647 | a provider-enabled cleanup is complete only behind a confirmed termination, its receipt covers exactly the process and provider receipts, and all of it stands in every later state |
| History.ConfirmationFinal | crates/ag-app/src/agd.rs:1481-1581 | a termination record is held only for a tombstoned session, keeps its process receipt, is requested once, and a confirmation is final and logged once |
| History.TombstoneStands | crates/ag-session/src/lib.rs:994-1082 | a principal is never revived and its tombstone and launch receipt never change |
| History.CandidateStands | crates/ag-app/src/worker_session.rs:229-326 | a candidate is held only under the tombstone of its acceptance, with its exact bytes, length and a proof short enough to be read back, and neither it nor a recorded broker outcome ever changes |
| History.NoCandidateOtherwise | crates/ag-session/src/lib.rs:879-912 | a session retired for any other reason never holds a candidate in any later state |
| History.NoBeginAfterResponse | crates/ag-app/src/agd.rs:1059-1129 | once a response was in custody, in any process, no job that dispatches the request again can be built |
| History.OneDispatchOutstanding | crates/ag-app/src/agd.rs:332-348 | at most one dispatch of an attempt is queued or in flight |
| Paging.PageWalks | crates/ag-store/src/lib.rs:1416-1460 | a page lists the next entities after its cursor one after another, with none skipped |
| Paging.WalkAdvances | crates/ag-store/src/lib.rs:1416-1460 | a page moves the cursor past exactly the entities it lists |
| Paging.PageAdvances | crates/ag-store/src/lib.rs:1416-1460 | a page goes as far as its limit and what is left allow, and is empty exactly when nothing is left |
| Scheduling.BackedUnique | crates/ag-app/src/agd.rs:1059-1129 | two genuine jobs doing the same thing for one attempt are the same job |
| Scheduling.BackedStable | crates/ag-app/src/agd.rs:1059-1129 | a genuine job stays genuine whatever is committed later |
| Scheduling.StaysLookedAfter | crates/ag-app/src/agd.rs:815-896 | a session keeps its cover while its records stand, its jobs are kept and the scan does not pass it |
| Scheduling.Without | crates/ag-app/src/agd.rs:807-811 | striking a job out of the submitted list removes every occurrence of it and nothing else |
| Scheduling.Capacities | crates/ag-app/src/agd.rs:67-72 | the queue holds 128 jobs, 126 of them revocations, and reads frames below 127 |
| Standing.RevocationKeepsCover | crates/ag-app/src/agd.rs:1481-1581 | taking a revocation's completion off the ledger and settling it costs no session its cover |
| Standing.FetchCarried | crates/ag-app/src/agd.rs:1235-1284 | installing the bytes and committing a new response is lawful and is the automaton's step |
| Standing.FetchOutcome | crates/ag-app/src/agd.rs:1222-1295 | a response fetched before changes nothing, and an acknowledgment is owed exactly while none was recorded |
| Standing.AcknowledgmentCarried | crates/ag-app/src/agd.rs:1286-1336 | an acknowledgment seen before changes nothing, and committing a new one is lawful and is the automaton's step |
| Standing.AcceptanceCarried | crates/ag-app/src/worker_session.rs:229-300 | with proof and candidate installed, taking the candidate into custody under its tombstone is one lawful commit that changes no other record |
| Standing.VerdictExact | crates/ag-app/src/agd.rs:1201-1336 | a completion is accepted exactly under the job's own grant in force and when its record can take the result: an error, its first response or the same again, or the receipt for its response |
| Standing.VerdictTestified | crates/ag-app/src/agd.rs:1235-1332 | an accepted completion leaves exactly the dispatch, stream, bytes and terminal flag the provider gave, or its receipt, or after an error nothing new |
| Standing.VerdictOwing | crates/ag-app/src/agd.rs:1222-1295 | an acknowledgment is owed exactly after a response that awaits one, and it is genuine |
| Standing.RevocationExact | crates/ag-app/src/agd.rs:1481-1581 | what comes back for a revocation is accepted exactly for the record's own job: the confirmation that stands, or while none does a confirmation or an error of at most 1024 bytes |
| Standing.RevokedTestified | crates/ag-app/src/agd.rs:1517-1581 | an accepted confirmation stores the provider's own receipt and completes the cleanup behind both receipts; an accepted error is stored with its code, message and correlation |
| Standing.PrepareExact | crates/ag-app/src/agd.rs:976-1039 | a request is refused exactly without a grant, empty or over its size, or when its attempt asked for other bytes or headers, each with its error |
| Standing.OutcomeExact | crates/ag-app/src/agd.rs:2014-2068 | why a finished worker is retired: its failure, or for a candidate an inactive principal before lateness before the budget |
| Standing.AcceptanceExact | crates/ag-app/src/worker_session.rs:229-300 | a candidate is taken exactly in time, within its budget, from an active principal and with a proof that can be kept |
| Governor.AgdCore.constructor | crates/ag-app/src/agd.rs:725-749 | a process starts with nothing queued and the scan at its beginning, on any state earlier processes can have left |
| Governor.AgdCore.Commit | crates/ag-app/src/agd.rs:1273-1284 | one lawful commit extends the durable trail and keeps every queued job genuine |
| Governor.AgdCore.TakePendingProviderJob | crates/ag-app/src/agd.rs:780-782 | takes the oldest job, which is then neither queued nor submitted |
| Governor.AgdCore.RestorePendingProviderJob | crates/ag-app/src/agd.rs:786-789 | puts a taken job back at the front |
| Governor.AgdCore.NoteProviderJobSubmitted | crates/ag-app/src/agd.rs:794-803 | notes a job once, and no job is ever outstanding twice |
| Governor.AgdCore.NoteProviderJobCompleted | crates/ag-app/src/agd.rs:807-811 | strikes exactly that job off the ledger |
| Governor.AgdCore.EnqueueBounded | crates/ag-app/src/agd.rs:332-348 | retained means outstanding; refused only for lack of room; the queue stays bounded and free of repeats |
| Governor.AgdCore.QueueProviderJobOnce | crates/ag-app/src/agd.rs:879-896 | a revocation never pushes the queue past 126, and one turned away sends the scan back to its beginning |
| Governor.AgdCore.QueueInteractiveProviderJob | crates/ag-app/src/agd.rs:901-909 | queues within the full capacity and reports whether the job is outstanding |
| Standing.ReloadIn | crates/ag-app/src/agd.rs:944-965 | succeeds exactly for an attended, active, unexpired session with a capability in force |
| Governor.AgdCore.PrepareAttempt | crates/ag-app/src/agd.rs:976-1039 | refused exactly without a grant in force, out of size, or with other bytes or headers for a known attempt, each with its error and nothing changed; otherwise a record with these bytes, these headers and this grant is in custody before any dispatch, and a repeat returns it unchanged |
| Governor.AgdCore.BeginJob | crates/ag-app/src/agd.rs:1059-1089 | builds only a genuine dispatch of a request still alone in custody, with its record's request, bytes and principal and the grant in force |
| Governor.AgdCore.ResumeJob | crates/ag-app/src/agd.rs:1094-1129 | builds a dispatch exactly from a request in custody, an acknowledgment of the very response exactly from a response in custody, and nothing exactly from an acknowledged attempt |
| Governor.AgdCore.ResumesExactly | crates/ag-app/src/agd.rs:1059-1129 | a known attempt under a grant in force always has its next operation, or none left, unless a request still alone in custody is larger than the grant admits |
| Governor.AgdCore.Response | crates/ag-app/src/agd.rs:1134-1165 | shows bytes only from custody, hashing to their stream, and is pending exactly while the request is alone in custody |
| Governor.AgdCore.LiveResponse | crates/ag-app/src/agd.rs:1170-1196 | uncertain exactly while nothing is in custody and an operation of the attempt is in flight |
| Governor.AgdCore.ReconcileFetched | crates/ag-app/src/agd.rs:1222-1295 | a fetched response is committed in one event, or found to be a duplicate, or refused with nothing changed |
| Governor.AgdCore.ReconcileAcknowledged | crates/ag-app/src/agd.rs:1296-1332 | an acknowledgment is committed in one event, or found to be a duplicate, or refused with nothing changed |
| Governor.AgdCore.ReconcileProviderIoCompletion | crates/ag-app/src/agd.rs:1201-1336 | accepted exactly under the job's grant and when the record can take the result; then the record holds the dispatch, stream, bytes and terminal flag the provider gave, or its receipt, or after an error nothing new, in at most one event, with exactly the acknowledgment owed; otherwise refused and nothing changed |
| Governor.AgdCore.RecordFencedProviderCompletion | crates/ag-app/src/agd.rs:1340-1388 | accepted exactly for a tombstoned session with the job's own bindings, and then logs over an unchanged attempt |
| Governor.AgdCore.CompleteProviderCleanup | crates/ag-app/src/agd.rs:1626-1647 | completes the cleanup exactly when the record is confirmed and the cleanup pending, with the aggregate of both receipts |
| Governor.AgdCore.RequestRevocation | crates/ag-app/src/agd.rs:1427-1476 | records the revocation before handing it out, refuses exactly a different process receipt, and completes a confirmed one |
| Governor.AgdCore.PrepareTermination | crates/ag-app/src/agd.rs:1394-1476 | succeeds exactly when the cleanup is pending and the process receipt is the recorded one; an offline session is cleaned up on it alone |
| Governor.AgdCore.ConfirmTermination | crates/ag-app/src/agd.rs:1517-1544 | the confirmation is committed before the cleanup behind both receipts |
| Governor.AgdCore.ReconcileTermination | crates/ag-app/src/agd.rs:1481-1581 | accepted exactly for the record's own job with a confirmation or a short error; a confirmation stores the provider's receipt, completes the cleanup behind the process receipt and that one, and is final; an error is stored as it came; otherwise refused and nothing changed |
| Governor.AgdCore.ScanPending | crates/ag-app/src/agd.rs:846-875 | the stored process receipt is reused, so the scan is never refused, the receipt is retained, and the revocation is queued or in flight unless the cleanup is complete |
| Governor.AgdCore.ScanSession | crates/ag-app/src/agd.rs:836-875 | a pending cleanup is requested with the recorded receipt or, without one, that of the process's absence, any other session is left alone, and every session stays covered |
| Governor.AgdCore.ScanNext | crates/ag-app/src/agd.rs:836-875 | what the scan has passed since it began is scanned, each session once, and the rest untouched |
| Governor.AgdCore.ScanPage | crates/ag-app/src/agd.rs:824-877 | a page scans exactly the sessions its cursor passes, keeps every session covered and stays within 126 |
| Governor.AgdCore.RefillPendingProviderTerminations | crates/ag-app/src/agd.rs:815-877 | scans exactly the sessions its cursor passes, as many as there is room for, keeps every session covered, turns no revocation away, and ends the scan exactly when nothing is ahead |
| Governor.AgdCore.MovesKeepCover | crates/ag-app/src/agd.rs:780-811 | jobs may move between queue and channel without costing a session its cover |
| Governor.AgdCore.RequestCleanup | crates/ag-app/src/agd.rs:1927-1935 | the process receipt is retained, and the session is covered even when the queue has no room |
| Governor.AgdCore.Retire | crates/ag-app/src/worker_session.rs:335-366 | one commit leaves exactly this tombstone, cleanup pending, and touches no other record |
| Governor.AgdCore.RetireAndStop | crates/ag-app/src/agd.rs:1913-1935 | the tombstone is durable first; when the process will not stop the session is covered exactly if offline or ahead of the scan |
| Governor.AgdCore.FenceAgain | crates/ag-app/src/worker_session.rs:350-360 | the same tombstone is accepted again, a different one poisons the core |
| Governor.AgdCore.FenceAndCleanup | crates/ag-app/src/agd.rs:1895-1936 | fences a live session, or one that stands under this very tombstone, and states exactly when its cover is kept |
| Governor.AgdCore.StopCancelled | crates/ag-app/src/agd.rs:2102-2117 | the runtime is gone in every case; the revocation is requested exactly when the process stopped and the receipt is the recorded one |
| Governor.AgdCore.CancelLive | crates/ag-app/src/agd.rs:2090-2117 | a live session is tombstoned even when its process cannot be stopped, with the exact condition for its cover |
| Governor.AgdCore.CancelWorker | crates/ag-app/src/agd.rs:2090-2117 | missing, live, already cancelled and differently tombstoned sessions, each with its result and the exact condition for cover |
| Governor.AgdCore.BindSession | crates/ag-app/src/agd.rs:1802-1821 | a new session is bound, and activated or not, and no other record is touched |
| Governor.AgdCore.AbortPrepared | crates/ag-app/src/agd.rs:1817-1857 | a launch whose activation failed leaves a tombstone and its cleanup request, or a poisoned core when the process will not stop |
| Governor.AgdCore.AbortActive | crates/ag-app/src/agd.rs:1858-1879 | a launch past its deadline or whose gate failed leaves a tombstone that keeps the launch receipt |
| Governor.AgdCore.LaunchWorker | crates/ag-app/src/agd.rs:1665-1893 | each gate with its error; at most one worker; a released one is active and attended with its response channel free, one not released leaves only its tombstone, with its own reason, and receipt; exactly when the core is poisoned and when cover is kept, the scan being where it was if the process will not stop |
| Governor.AgdCore.ExchangeForCandidate | crates/ag-app/src/worker_session.rs:229-300 | the proof and the candidate are stored first, then one commit holds the digest and length of that content and the digest of that proof, and leaves the tombstone |
| Governor.AgdCore.AcceptCandidate | crates/ag-app/src/agd.rs:2275-2303 | acceptance, then the process, then the cleanup request under the accepted authority's receipt; the candidate is in custody in every case |
| Governor.AgdCore.RetireFinished | crates/ag-app/src/agd.rs:2014-2068 | a candidate is taken into custody exactly when its worker exited well, active, in time and within its budget; otherwise the session is fenced with its own reason; either leaves the receipt of that path |
| Governor.AgdCore.PollWorker | crates/ag-app/src/agd.rs:2000-2080 | a running worker is left alone; any other loses its runtime and is retired for the reason its ending calls for, with the receipt of that path and, if accepted, exactly its bytes in custody; an ambiguous one, or one whose proof cannot be kept, poisons the core and changes nothing durable; cover is kept whenever polling succeeds |
| Governor.AgdCore.RecordBrokerOutcome | crates/ag-app/src/worker_session.rs:424-450 | recorded exactly for a candidate in custody or with the outcome that stands already; the candidate is kept and nothing else changes |
| Governor.AgdCore.RetireSurvivor | crates/ag-app/src/worker_session.rs:472-494 | one commit for a session left live, none for one already terminal |
| Governor.AgdCore.RetirePage | crates/ag-app/src/worker_session.rs:462-496 | a page recovers exactly its sessions and counts them |
| Governor.AgdCore.RetireSurvivors | crates/ag-app/src/worker_session.rs:453-498 | every session left live is retired by restart recovery, each in one commit, terminal ones are untouched, and the two counts add up |
| Governor.AgdCore.RecoverWorkerSessions | crates/ag-app/src/agd.rs:770-775 | in a fresh process no session is live afterwards and every one is covered |
| ProviderIo.SendAppends | crates/ag-app/src/agd.rs:454-479 | a job sent joins the end of what is in flight, and at most 2c jobs were in flight before |
| ProviderIo.ReceiveTakesOldest | crates/ag-app/src/agd.rs:454-479 | the completion received is that of the oldest job in flight |
| ProviderIo.WorkerKeepsFlight | crates/ag-app/src/agd.rs:465-472 | no step of the worker thread changes which jobs are in flight or their order |
| ProviderIo.RunBounded | crates/ag-app/src/agd.rs:454-479 | in every interleaving at most 2c+1 jobs are in flight |
| ProviderIo.FlightReachable | crates/ag-app/src/agd.rs:454-479 | every list of up to 2c+1 jobs is in flight in some run, so the bound is tight |
| ProviderIo.NoteAlwaysFits | crates/ag-app/src/agd.rs:794-803 | whatever the jobs are, the channels keep the submitted ledger's assertion in every run exactly when they hold at most 63 jobs each |
| ProviderIo.Pass | crates/ag-app/src/bin/agd.rs:229-230 | a receiving pass takes completions in the order their jobs were sent, and only of jobs in flight when it began |
| Fates.DueVerdict | crates/ag-app/src/bin/agd.rs:237-254 | a completion its record waits for is accepted exactly when the grant is in force and the result fits the operation |
| Fates.LiveFate | crates/ag-app/src/bin/agd.rs:237-270 | such a completion lets the daemon go on exactly when `Passes` holds beforehand, is turned away for a busy channel exactly if only that fails, and owes an acknowledgment exactly if it is a response |
| Fates.OversizedAnswer | crates/ag-protocol/src/lib.rs:415-428 | an answer that can be read from custody but whose encoding exceeds a frame ends the daemon with that error |
| Fates.LateFate | crates/ag-app/src/bin/agd.rs:249-252 | testimony for a worker no longer attended goes on exactly under a tombstone and leaves the response channel alone |
| Fates.OneWaits | crates/ag-app/src/agd.rs:332-348 | at most one outstanding job waits on one attempt or one revocation |
| Fates.AcknowledgmentFresh | crates/ag-app/src/bin/agd.rs:255-257 | the acknowledgment owed is never outstanding already, so it is retained exactly while there is room |
| Fates.InteractiveSettles | crates/ag-app/src/bin/agd.rs:237-270 | consuming an interactive completion leaves every other outstanding job waited for, and the new acknowledgment with them |
| Fates.ConsumingRecounts | crates/ag-app/src/bin/agd.rs:245-270 | the records say what the provider said, and the worker is shown the provider's own error or the response in custody |
| Fates.RevocationSettles | crates/ag-app/src/bin/agd.rs:233-236 | settling a revocation leaves every other outstanding job waited for, every session's standing as it was and its cover kept |
| Fates.RevocationFate | crates/ag-app/src/agd.rs:1481-1581 | a revocation still waited for is settled exactly by a confirmation or an error with a short message |
| Fates.FateKept | crates/ag-app/src/bin/agd.rs:229-271 | within a pass only an earlier answer can change whether a completion ends the daemon |
| Fates.TurnFate | crates/ag-app/src/bin/agd.rs:229-271 | a completion met later in a pass meets the fate it had at the start unless an answer came first, and one that ends the daemon shows that the pass holds a bad completion or one answer too many |
| Fates.FrameAnswered | crates/ag-app/src/bin/agd.rs:285-318 | a frame is answered exactly when its worker is attended with a free channel, its request is admitted or its attempt known, and what it is told can be read and fits a frame |
| Fates.FrameRefused | crates/ag-app/src/bin/agd.rs:285-318 | the error of a frame that is not answered, in the order of the checks |
| Daemon.ConsumeLate | crates/ag-app/src/bin/agd.rs:249-252 | late testimony is recorded exactly for a tombstoned session, over an unchanged attempt |
| Daemon.FollowOrAnswer | crates/ag-app/src/bin/agd.rs:255-270 | the acknowledgment is queued if there is room, or the worker is answered from custody if the channel is free and the answer fits |
| Daemon.ConsumeLive | crates/ag-app/src/bin/agd.rs:245-270 | the verdict is committed and followed up, with the exact result, queue and channel that leaves, and a refusal leaves the store unchanged |
| Daemon.ConsumeInteractive | crates/ag-app/src/bin/agd.rs:245-270 | a completion its record waits for lets the daemon go on exactly as `Passes` says, every one ends as its verdict says, and one for a worker no longer attended never stops the daemon while cover holds |
| Daemon.SettleInteractive | crates/ag-app/src/bin/agd.rs:229-270 | the same for a completion just taken off the ledger: every other outstanding job is still waited for, and an owed acknowledgment is queued exactly while there is room |
| Daemon.ConsumeTermination | crates/ag-app/src/bin/agd.rs:233-236 | a revocation's completion is settled exactly when it has a verdict, and its record then says what the provider said |
| Daemon.SettleTermination | crates/ag-app/src/bin/agd.rs:229-236 | a revocation taken off the ledger is settled exactly by a confirmation or a short error, and no session loses its cover |
| Daemon.TakeCustody | crates/ag-app/src/bin/agd.rs:292-303 | refused exactly as the request is, and once taken the attempt always has a next step |
| Daemon.ServeInfer | crates/ag-app/src/bin/agd.rs:292-312 | refused for exactly the reason `FrameOutcome` gives, or answered with the request in custody, its next operation outstanding unless acknowledged, and a slot still free; a new attempt adds exactly its dispatch |
| Daemon.Queue | crates/ag-app/src/bin/agd.rs:304-309 | a job read through the open gate is always retained and leaves a slot |
| Daemon.GovernorDaemon.constructor | crates/ag-app/src/bin/agd.rs:131-166 | the pump starts with nothing in flight beside a core whose queued jobs are all waited for |
| Daemon.GovernorDaemon.WorkerRuns | crates/ag-app/src/agd.rs:465-472 | however the worker thread interleaves, the submitted ledger is still exactly what is in flight, in order |
| Daemon.GovernorDaemon.SubmitOne | crates/ag-app/src/bin/agd.rs:272-284 | the oldest job is sent and noted, or put back, and cover is kept |
| Daemon.GovernorDaemon.SubmitPending | crates/ag-app/src/bin/agd.rs:272-284 | submitted plus queued stays the same list, and the loop ends with nothing queued or the channel full |
| Daemon.GovernorDaemon.TakeCompletion | crates/ag-app/src/bin/agd.rs:229-230 | the completion taken is the oldest, its job leaves the ledger, and it is genuine and waited for |
| Daemon.GovernorDaemon.ReceiveTermination | crates/ag-app/src/bin/agd.rs:229-236 | ends the daemon exactly on an answer that neither confirms nor refuses briefly; a settled one leaves the provider's receipt or error in the record and keeps every session covered |
| Daemon.GovernorDaemon.ReceiveInteractive | crates/ag-app/src/bin/agd.rs:229-271 | ends the daemon exactly when `Passes` fails, with the reason when only the channel is busy or the grant is not in force; leaves the provider's response, receipt or nothing new in the record, shows the worker just that, and keeps every session covered whatever it carries |
| Daemon.GovernorDaemon.ReceiveOne | crates/ag-app/src/bin/agd.rs:229-271 | ends the daemon exactly when `Passes` fails; a response queues its acknowledgment exactly while there is room, an answer takes the channel, and nothing else is queued |
| Daemon.GovernorDaemon.ReceiveNext | crates/ag-app/src/bin/agd.rs:229-271 | every completion of a pass meets the fate it had when the pass began unless an answer came before it |
| Daemon.GovernorDaemon.ReceiveAll | crates/ag-app/src/bin/agd.rs:229-271 | succeeds exactly when every completion of the pass lets the daemon go on and the channel holds its answers, at most one and none if it was busy; otherwise the error is the busy channel if every completion was good; it turns away exactly the acknowledgments owed past the capacity |
| Daemon.GovernorDaemon.ServeFrame | crates/ag-app/src/bin/agd.rs:285-318 | a frame is left unread exactly at 127 queued jobs; one read is refused for exactly one stated reason or answered over a channel that was free, with a slot to spare |
| Daemon.GovernorDaemon.ServeIncoming | crates/ag-app/src/agd.rs:1938-1960 | what is no canonical request is refused, but only when the gate lets it be read |
| Daemon.GovernorDaemon.ServeAndFlush | crates/ag-app/src/bin/agd.rs:285-321 | fails exactly when the frame read is refused or the channel breaks under a waiting answer; the channel stays busy exactly when a waiting answer stalls |
| Daemon.GovernorDaemon.Refill | crates/ag-app/src/bin/agd.rs:224-228 | the refill changes the fate of nothing in flight |
| Daemon.GovernorDaemon.Exchange | crates/ag-app/src/bin/agd.rs:221-284 | refill, receive and submit succeed exactly when every completion of the pass lets the daemon go on and the channel holds its answers |
| Daemon.GovernorDaemon.Pump | crates/ag-app/src/bin/agd.rs:221-321 | fails exactly when a completion of its pass ends the daemon or gives one answer too many, the frame it reads is refused, or the channel breaks under a waiting answer; a frame is left unread only at 127 queued jobs, and a pass that succeeds keeps every session covered |
| Daemon.GovernorDaemon.Handle | crates/ag-app/src/bin/agd.rs:184-218 | each event of the main loop keeps cover unless a process will not stop |
| Daemon.GovernorDaemon.Serve | crates/ag-app/src/bin/agd.rs:184-218 | over any list of events, every session stays covered as long as every process told to stop did stop |
| Daemon.StuckCancellationLosesCover | crates/ag-app/src/agd.rs:2090-2117 | a reachable state in which a stuck cancellation lost its session's cover |
| Daemon.AcknowledgmentTurnedAway | crates/ag-app/src/bin/agd.rs:255-257 | a reachable state in which one pass turns an acknowledgment away |
| Daemon.LateResponseEndsDaemon | crates/ag-app/src/bin/agd.rs:245-254 | a reachable state in which a good response ends the daemon because its principal has expired |
| Daemon.SecondAnswerEndsDaemon | crates/ag-app/src/worker.rs:496-509 | a reachable state in which two provider errors in one pass end the daemon |
| Daemon.LargeResponseEndsDaemon | crates/ag-app/src/agd.rs:1962-1976 | for every response that fits the read limit but not, encoded, a frame, a reachable state in which showing it ends the daemon |
| Daemon.UnknownAttemptRefused | crates/ag-app/src/bin/agd.rs:285-318 | a reachable state in which a worker frame is refused |
| Daemon.UndrainedWorkerRefused | crates/ag-app/src/worker.rs:496-509 | a reachable state in which a worker that has not drained its last answer is refused |
| Daemon.Lifetime | crates/ag-app/src/bin/agd.rs:162-218 | a lifetime started on any state earlier lifetimes can have left extends their run and keeps every session covered |
| Forwarding.RenewalKeepsRequest | crates/ag-app/src/agd.rs:2939-3036 | a renewed proof keeps the record valid for the same entity and the same request, and a worker candidate is never renewed |
| Forwarding.SourceExact | crates/ag-app/src/agd.rs:3760-3786 | two requests are one forward exactly when they carry one intent, both signed outside or both from one worker |
| Forwarding.RefusalExact | crates/ag-app/src/agd.rs:2893-2912 | a request is let in exactly by a core in order, with no worker and in no backup cut, carrying a well-shaped admitted intent of this domain and epoch; otherwise the first closed gate answers |
| Forwarding.PendingExact | crates/ag-app/src/agd.rs:2939-3013 | the record of a request holds that request, the intent it carries and its admission, under the name of its source |
| Forwarding.CommitAdvances | crates/ag-app/src/agd.rs:2939-3013 | every outbox commit keeps all records valid and moves them forward |
| Forwarding.RunSound | crates/ag-app/src/agd.rs:3015-3036 | in every state of every run each record validates under its own entity with its admission |
| Forwarding.RunAdvances | crates/ag-app/src/agd.rs:2939-3013 | between any two states a record keeps source, intent, admission and request |
| Forwarding.OneResponse | crates/ag-app/src/agd.rs:3113-3138 | at most one response is ever recorded for an entity, and it stands |
| Forwarding.CommitOnce | crates/ag-app/src/agd.rs:2939-3138 | an outbox commit made once is refused in every later state |
| Forwarding.NoCallAfterResponse | crates/ag-app/src/agd.rs:2888-2937 | no broker call is made for an entity once its response is recorded |
| Outbox.ForwardOutbox.constructor | crates/ag-app/src/agd.rs:725-749 | a process starts on any table and call history earlier ones can have left |
| Outbox.ForwardOutbox.Commit | crates/ag-app/src/agd.rs:3113-3138 | one lawful commit; a response is recorded only if the broker gave it |
| Outbox.ForwardOutbox.SubmitToEffectd | crates/ag-app/src/agd.rs:3061-3111 | at most one call, made only for a record durably pending with that very ingress; none when the call cannot be made |
| Outbox.ForwardOutbox.PrepareForwardOutbox | crates/ag-app/src/agd.rs:2939-3013 | a completed record answers unchanged, otherwise the record is durably pending with this ingress; refused exactly when another source holds the name |
| Outbox.ForwardOutbox.ForwardGovernedIntent | crates/ag-app/src/agd.rs:2888-2937 | anything is recorded, called or answered only when every gate is open, and each closed gate answers with its error in order; a recorded response answers without a call; otherwise one call after the record is durable, and the answer recorded before it is returned |
| Outbox.ForwardOutbox.ReplayOne | crates/ag-app/src/agd.rs:2431-2474 | a pending record is called for once with its stored ingress; an error answer or an unavailable broker defers it; the pass stops exactly when its artifacts cannot be loaded or the call cannot be made, and then nothing changed |
| Outbox.ForwardOutbox.ReplayPage | crates/ag-app/src/agd.rs:2431-2474 | a page replays exactly its records up to the first that stops the pass, one commit per completion and one call per pending record |
| Outbox.ForwardOutbox.RecoverForwardOutbox | crates/ag-app/src/agd.rs:2415-2478 | fails exactly when it is not let in or some record stops it, having replayed exactly the records before the first such; otherwise every record pending at the start is completed with the broker's answer or unchanged, completed ones are untouched, and the counts are the commits and calls made |
| ArchiveTrie.Components | qualification/clean-host/bundle.py:2840-2862 | the components of a member name, none empty, none a dot, none with a slash |
| ArchiveTrie.Place | qualification/clean-host/bundle.py:2840-2872 | an accepted name has proper components below the prefix |
| ArchiveTrie.PlaceExact | qualification/clean-host/bundle.py:2840-2872 | a name is refused exactly when it is absolute, has a ".." component or a NUL, or does not begin with the prefix; otherwise its components, empty and "." ones dropped, are the prefix and the path |
| ArchiveTrie.PlaceJoined | qualification/clean-host/bundle.py:2840-2872 | joining the prefix and any proper components with slashes, with or without one at the end, is placed exactly at those components |
| ArchiveTrie.DirectoryFor | qualification/clean-host/bundle.py:2820-2835 | creates exactly the missing ancestors, or refuses exactly when one is a file |
| ArchiveTrie.ReadEntry | qualification/clean-host/bundle.py:2890-2921 | reads exactly the well-formed bodies that keep the running total within the limit, as their own bytes under the mode of their kind |
| ArchiveTrie.AddMember | qualification/clean-host/bundle.py:2840-2921 | one member is accepted exactly when it fits the tree so far, and adds exactly itself and its ancestors |
| ArchiveTrie.BuildTrie | qualification/clean-host/bundle.py:2836-2924 | the member loop accepts exactly the archives of an order-free predicate and builds exactly their meaning |
| ArchiveTrie.AcceptsExact | qualification/clean-host/bundle.py:2836-2924 | an archive is accepted exactly when every member is sound by itself, no two share a place unless both are directories, none lies below a file, and the files together are within the limit |
| ArchiveTrie.MeaningIs | qualification/clean-host/bundle.py:2836-2924 | the tree holds every file with its own bytes and mode at its place, every directory named by or above a member, and nothing else |
| ArchiveTrie.OrderIndependent | qualification/clean-host/bundle.py:2820-2924 | any permutation of the members is accepted or refused alike and gives the same tree |
| GitTreeId.ObjectInjective | qualification/clean-host/bundle.py:2814-2818 | two framed objects are equal only with equal kind and payload |
| GitTreeId.ModeTexts | qualification/clean-host/bundle.py:2910-2932 | the modes are the texts 100644, 100755, 120000 and 40000 |
| GitTreeId.DecimalReads | qualification/clean-host/bundle.py:2814-2818 | the length in a header reads back as the number, in digits without a leading zero |
| GitTreeId.TreeIdIs | qualification/clean-host/bundle.py:2926-2942 | the id of a directory is the hash of "tree", a space, the length, a NUL and one line "mode SP name NUL id" for each child, in the order of names with a slash after those of directories |
| GitTreeId.SerializeParses | qualification/clean-host/bundle.py:2926-2942 | a tree's payload determines its entries: modes, names, identifiers and order |
| GitTreeId.TreeIdInjective | qualification/clean-host/bundle.py:2926-2942 | two trees have the same id exactly when they are the same tree, unless two of their own objects clash |
| GitTreeId.ArchiveIdOrderIndependent | qualification/clean-host/bundle.py:2820-2944 | the id does not depend on the order of the members |
| GitTreeId.ArchiveIdInjective | qualification/clean-host/bundle.py:2820-2944 | two accepted archives have the same id exactly when they mean the same tree, unless two of their own objects clash |
| GitTreeId.CandidateArchiveGitTree | qualification/clean-host/bundle.py:2836-2944 | the whole function returns the Git tree id of the archive's meaning, byte by byte what Git hashes, or refuses exactly an archive out of size, not accepted, or empty |
| Manifest.BuildManifest | qualification/clean-host/bundle.py:1220-1236 | walking and filtering the sorted files gives the one manifest of the tree, or a refusal exactly for an unsafe tree |
| Manifest.ValidateManifest | qualification/clean-host/bundle.py:1239-1276 | accepts exactly the well-formed manifests whose paths are allowed, distinct and in bytewise order |
| Manifest.ValidatedExact | qualification/clean-host/bundle.py:1239-1276 | a valid manifest said field by field: header, normalized paths in strict bytewise order, digests, lengths and exclusions |
| Manifest.RelativePathExact | qualification/clean-host/bundle.py:465-478 | a path is accepted exactly when it is proper components with one slash between each two |
| Manifest.DigestExact | qualification/clean-host/bundle.py:481-486 | a digest is accepted exactly as "sha256:" and 64 lower-case hexadecimal digits |
| ByteOrder.LessExact | qualification/clean-host/bundle.py:1220-1236 | the bytewise order: the first difference decides, and a proper prefix comes first |
| Manifest.CoveragePass | qualification/clean-host/bundle.py:1298-1322 | passes exactly when the tree holds the declared files and no others, with the declared hashes and lengths |
| Manifest.VerifyManifestCoverage | qualification/clean-host/bundle.py:1325-1331 | passes exactly when the manifest is valid and covers the tree of both passes |
| Manifest.BuiltValidates | qualification/clean-host/bundle.py:1220-1276 | the manifest built for a safe tree is valid |
| Manifest.CoversIffBuilt | qualification/clean-host/bundle.py:1298-1322 | a valid manifest covers a tree exactly when it is the one built for it |
| Manifest.SealedPassesIffUnchanged | qualification/clean-host/bundle.py:1298-1331 | a sealed bundle passes exactly as long as its files hash alike, and, without a clash, exactly as long as they are the same |
| Manifest.ExcludedIrrelevant | qualification/clean-host/bundle.py:48-52 | writing an excluded file changes nothing about the manifest |
| Manifest.SealBundle | qualification/clean-host/bundle.py:1279-1295 | seals exactly a safe tree with none of the excluded files, and the sealed tree passes its own verification |
| Readiness.BudgetsWithinRemaining | qualification/clean-host/vm_fixture.py:613-640 | every timeout handed to a probe is positive and the largest within its own limit and what is left |
| Readiness.Probe | qualification/clean-host/vm_fixture.py:604-684 | one turn: exactly when SSH is tried and when it succeeds, both faults with the one that shows first, and the record with its durations in whole milliseconds |
| Readiness.PollTurns | qualification/clean-host/vm_fixture.py:601-700 | the loop ends at the first turn that faults, succeeds or uses up the time, within the rounded-up number of polls, having recorded every turn before it |
| Readiness.WaitForSsh | qualification/clean-host/vm_fixture.py:596-724 | ends within the rounded-up number of polls, reports every turn up to the first success or the deadline, is ready exactly when the loop comes to a turn that succeeds, and refused exactly when it comes to a faulty turn, with that turn and fault, or its clock ran back |
| Publication.ReceiptWhole | qualification/clean-host/blocked_receipt.py:781-836 | in any state of an attempt a reader sees what was there before, or the whole payload where nothing was |
| Publication.Publisher.RemoveOwned | qualification/clean-host/blocked_receipt.py:762-778 | removes a name exactly when it is this attempt's inode, and a failed flush comes after the name is gone |
| Publication.Publisher.WriteAll | qualification/clean-host/blocked_receipt.py:803-808 | any pattern of short writes leaves the payload whole, and no progress is an error |
| Publication.Publisher.Stage | qualification/clean-host/blocked_receipt.py:799-812 | before the link the receipt path is untouched |
| Publication.Publisher.LinkReceipt | qualification/clean-host/blocked_receipt.py:813-822 | an existing receipt is never replaced, the link shows the whole payload, and it succeeds exactly when nothing from the link on fails |
| Publication.Publisher.Undo | qualification/clean-host/blocked_receipt.py:823-836 | every name is as it was unless a removal fails or the flush after removing the link does, and only this attempt's inode is touched |
| Publication.Publisher.Publish | qualification/clean-host/blocked_receipt.py:781-836 | sound in every intermediate state, and publishes exactly when nothing fails and nothing was there |
| Mountinfo.UnescapeMountinfo | qualification/clean-host/guest_probe.py:280-293 | the index-stepping loop computes the strict meaning of a field |
| Mountinfo.StrictExact | qualification/clean-host/guest_probe.py:280-293 | the strict decoder returns a text exactly for what spells it, byte by byte or by escape |
| Mountinfo.GeneralReads | qualification/clean-host/bundle.py:1049-1054 | a backslash and three octal digits stand for the byte they spell, and are an error if it is none |
| Mountinfo.GeneralKeeps | qualification/clean-host/bundle.py:1049-1054 | every other byte stands for itself |
| Mountinfo.DecodersAgree | qualification/clean-host/bundle.py:1049-1054 | whatever the strict decoder accepts, the general one reads the same |
| Mountinfo.DecodeEscape | qualification/clean-host/guest_probe.py:280-293 | both decoders invert the escaping of tab, newline, space and backslash, for every text |
| Mountinfo.StrictIffEscaping | qualification/clean-host/guest_probe.py:30-35 | of fields without bare whitespace the strict decoder accepts exactly the escapings |
| Base64.DecodeEncode | crates/ag-app/src/api.rs:83-90 | decoding inverts encoding for every byte string |
| Base64.StrictDecodeCanonical | crates/ag-app/src/api.rs:92-106 | a decoder that refuses trailing bits accepts only encodings |
| Base64.DeserializeIffEncoding | crates/ag-app/src/api.rs:92-106 | the deserializer accepts a text as some bytes exactly when it is their encoding, whether or not its decoder refuses trailing bits |
| Base64.EncodeInjective | crates/ag-app/src/api.rs:83-90 | distinct byte strings have distinct encodings |
| Base64.AlphabetExact | crates/ag-app/src/api.rs:83-90 | the alphabet of section 4 of RFC 4648 |
| Base64.EncodeExact | crates/ag-app/src/api.rs:83-90 | each letter stands for the next six bits, most significant first, and a letter past the last bit is padding |
| Wire.ReadableNotEnough | crates/ag-app/src/api.rs:83-90 | bytes longer than three quarters of the limit never fit a frame once encoded |
| Wire.RenderedLength | crates/ag-app/src/agd.rs:1962-1976 | the length counted for an answer is that of its canonical JSON, written out with its escapes and its base64 |
| Wire.ProofLimitExact | crates/ag-app/src/worker_session.rs:648-654 | the longest proof kept is the base64 of a whole budget and 128 KiB |

## Left out

- Store failures: every commit and read of the event store succeeds, so the commit-ambiguous error paths that poison the core are not modelled.
- Signatures, challenges, enrollment, replay guards and socket transport: verified requests are inputs.
- Judgment, family books and authority reconstruction: admission is a fixed function of the intent.
- Governor.AgdCore.LaunchWorker: starts at the durable binding; profile lookup, key generation, process preparation and the backup cut come before it and leave no durable record.
- Governor.AgdCore.PollWorker: forwarding an accepted candidate to the broker after its cleanup is not part of it, and the verification of the candidate frame is the outcome given to it.
- Candidate custody: the semantic type and the workspace delta of a candidate are not modelled; the 64-bit overflow of the proof limit is out of reach.
- Governor.AgdCore.RecordFencedProviderCompletion: the payload of the late event is not modelled, only that it is logged.
- Custody.ReconcileDispatchAvailable: modelled for the automaton only, since no stored attempt is ever in that state.
- The sequence of provider calls inside one I/O job (`execute_provider_io_job`): what comes back for a job may be anything.
- Capability terms, envelopes and headers beyond what identity and size checks look at.
- Daemon.GovernorDaemon.ServeIncoming: a closed channel, a bad frame and a request that is not canonical are one error.
- Daemon.GovernorDaemon.Pump: one reading of the clock serves a whole pass, and an I/O worker that has disconnected is not modelled.
- Daemon.GovernorDaemon.Serve: control requests other than launch and cancel, and the socket bursts around them, leave this state alone.
- Outbox.ForwardOutbox.ForwardGovernedIntent: the intent is the one the ingress carries, as both callers pass it; artifacts are read or not as a given.
- Outbox.ForwardOutbox.RecoverForwardOutbox: every transport failure is one reply, counted as a call whether or not the broker saw it.
- Tar and compression reading: a member is what the tar reader reports.
- Manifest.BuildManifest: mount crossings, link counts, symlinks and nodes that change while being opened are one kind of node the walk refuses; within one pass the tree does not change; JSON encoding is a parameter.
- Readiness.WaitForSsh: timeouts are exact nanoseconds where the source passes floating seconds; argument and file identity checks of the host, key and command are not part of it.
- Publication.Publisher.Publish: the loss of unflushed data and interference by other processes between two calls of one attempt are not modelled; the look and the removal of one name are one step.
- Mountinfo.DecodersAgree: both decoders work on the bytes of one field; splitting lines and fields and decoding text are not modelled.
- Receipt, schema and matrix validators, packaging, launcher sealing and the browser fixtures.
