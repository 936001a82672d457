/** What holds of the governor core between its operations, as predicates over
    its fields, and what they give at hand. */
module Standing {
  import opened ByteOrder
  import opened Outcomes
  import opened Text
  import opened Custody
  import opened Ledger
  import opened Paging
  import opened Scheduling
  import opened Wire

  /** How far a gated launch got. */
  datatype LaunchOutcome = Released | ActivationFailed | DeadlineExpired | ReleaseFailed

  /** What one nonblocking look at a worker process found; a well-formed
      candidate comes with an exit that is not a failure. */
  datatype PollOutcome =
    | Running
    | Finished(ending: Ending)
    | Ambiguous

  /** A worker that is no longer running failed, or produced a signed candidate. */
  datatype Ending =
    | Broke(reason: Reason)
    | Produced(content: Bytes, proof: Bytes)

  /** Why a launch was not released. */
  const ACTIVATION_FAILED := 0
  const DEADLINE_EXPIRED := 1
  const RELEASE_FAILED := 2

  /** The refusals of a candidate: too late, from a principal no longer active, or over its budget. */
  const EXPIRED := 3
  const REFUSED := 4
  const OVER_BUDGET := 5

  /** Why a finished worker is retired. */
  function Outcome(session: Session, ending: Ending, at: Millis): Reason {
    if ending.Broke? then ending.reason
    else if !session.authority.Active? then Failed(REFUSED)
    else if at >= session.spec.expires then Failed(EXPIRED)
    else if |ending.content| > session.spec.outputBudget then Failed(OVER_BUDGET)
    else CandidateAccepted
  }

  /** The reason is the one this ending calls for: the failure itself, or for a
      candidate its refusal, where an inactive principal comes before lateness and
      lateness before the budget. */
  predicate RetiredFor(was: Session, ending: Ending, at: Millis, reason: Reason) {
    match ending
    case Broke(failure) => reason == failure
    case Produced(content, _) =>
      && (!was.authority.Active? ==> reason == Failed(REFUSED))
      && (was.authority.Active? && at >= was.spec.expires ==> reason == Failed(EXPIRED))
      && (was.authority.Active? && at < was.spec.expires && |content| > was.spec.outputBudget ==> reason == Failed(OVER_BUDGET))
      && (was.authority.Active? && at < was.spec.expires && |content| <= was.spec.outputBudget ==> reason == CandidateAccepted)
  }

  lemma OutcomeExact(was: Session, ending: Ending, at: Millis)
    ensures RetiredFor(was, ending, at, Outcome(was, ending, at))
    ensures EXPIRED != REFUSED && REFUSED != OVER_BUDGET && EXPIRED != OVER_BUDGET
  {
  }

  /** A candidate is taken exactly from an active principal, in time and within its
      budget, with a proof that can be kept; one that lacks only the last is unkept. */
  lemma AcceptanceExact(was: Session, ending: Ending, at: Millis)
    ensures var taken := ending.Produced? && was.authority.Active? && at < was.spec.expires && |ending.content| <= was.spec.outputBudget;
            var kept := ending.Produced? && 0 < |ending.proof| <= ProofLimit(was.spec.outputBudget);
            (Acceptable(was, ending, at) <==> taken && kept) && (ProofUnkept(was, ending, at) <==> taken && !kept)
  {
  }

  /** What the gates before a launch answer, first come first. */
  predicate LaunchGated(recovering: bool, live: map<SessionId, Spec>, attached: bool, d: Store, spec: Spec, released: bool, r: Result<(), AgdError>) {
    if recovering then r == Err(WorkerRecoveryRequired)
    else if live != map[] then r == Err(WorkerCapacityExhausted)
    else if spec.capability.Some? && !attached then r == Err(WorkerProviderRuntimeUnavailable)
    else if spec.session in d.sessions then r == Err(WorkerRecoveryRequired)
    else (r.Ok? <==> released)
  }

  /** The candidate is accepted: produced in time by an active principal within its budget. */
  predicate Acceptable(session: Session, ending: Ending, at: Millis) {
    && ending.Produced? && session.authority.Active? && at < session.spec.expires
    && WithinBudget(session.spec, ending.content, ending.proof)
  }

  predicate WithinBudget(spec: Spec, content: Bytes, proof: Bytes) {
    |content| <= spec.outputBudget && 0 < |proof| <= ProofLimit(spec.outputBudget)
  }

  /** A candidate that is refused for nothing but a proof that cannot be kept: the
      core cannot tell this from a commit that may have happened. */
  predicate ProofUnkept(session: Session, ending: Ending, at: Millis) {
    Outcome(session, ending, at).CandidateAccepted? && ending.Produced? && !Acceptable(session, ending, at)
  }

  function CandidateOf(content: Bytes, proof: Bytes): Candidate {
    Candidate(OfBytes(content), |content|, OfBytes(proof))
  }

  /** Why a launch that was not released is retired. */
  function LaunchFailure(outcome: LaunchOutcome): Reason {
    match outcome
    case ActivationFailed => Failed(ACTIVATION_FAILED)
    case DeadlineExpired => Failed(DEADLINE_EXPIRED)
    case _ => Failed(RELEASE_FAILED)
  }

  /** The authority an active session is left with by acceptance. */
  function Accepted(session: SessionId, was: Session, at: Millis): Authority
    requires was.authority.Active?
  {
    Tombstoned(Some(was.authority.launchReceipt), Tombstone(session, was.spec.principal, CandidateAccepted, at), Pending)
  }

  /** The process receipt a finished worker leaves. */
  function FinishedReceipt(session: SessionId, was: Session, ending: Ending, at: Millis): Digest {
    if Acceptable(was, ending, at) then AcceptedCleanup(session, Accepted(session, was, at))
    else ProcessCleanup(session, Outcome(was, ending, at), at)
  }

  /** The process receipt an aborted launch leaves. */
  function AbortReceipt(session: SessionId, outcome: LaunchOutcome, at: Millis): Digest {
    if outcome.ActivationFailed? then ActivationFailureCleanup(session, LaunchFailure(outcome), at)
    else ProcessCleanup(session, LaunchFailure(outcome), at)
  }

  /** The acknowledgment owed once a response is in custody. */
  function AckJob(job: Job, state: AttemptState): Job
    requires state.HasResponse()
  {
    job.(operation := Acknowledge(state.dispatch, state.response.stream, state.response.custodyRecord))
  }

  /** What a fetched response leaves to do. */
  function FollowUp(job: Job, state: AttemptState): Option<Job> {
    if state.ResponseInCustody? then Some(AckJob(job, state)) else None
  }

  /** The termination record that `prepare` finds or creates. */
  function TerminationFor(d: Store, session: SessionId, process: Digest): Termination
    requires ProviderEnabled(d, session)
  {
    if session in d.terminations then d.terminations[session].state
    else Termination(session, d.sessions[session].state.spec.principal, d.sessions[session].state.spec.capability.value, process, Requested)
  }

  /** The process receipt is retained: it completed an offline session's
      cleanup, or it stands in the termination record of a provider-enabled one. */
  predicate ReceiptHeld(d: Store, session: SessionId, process: Digest, now: Millis) {
    && IsTombstoned(d, session)
    && if ProviderEnabled(d, session) then session in d.terminations && d.terminations[session].state.process == process
       else d.sessions[session].state.authority.cleanup == Complete(process, now)
  }

  /** The store is the last of the durable states so far. */
  ghost predicate Durable(d: Store, trail: seq<Store>) {
    Run(trail) && d == trail[|trail| - 1]
  }

  /** At most one worker runs, under the session record it was launched with. */
  ghost predicate Attended(live: map<SessionId, Spec>, d: Store) {
    && |live| <= 1
    && forall s :: s in live ==>
         s in d.sessions && d.sessions[s].state.spec == live[s] && !d.sessions[s].state.authority.Prepared?
  }

  /** Removing the one runtime leaves none. */
  lemma LastRuntime(live: map<SessionId, Spec>, d: Store, session: SessionId)
    requires Attended(live, d) && session in live
    ensures live - {session} == map[] && Attended(live - {session}, d)
  {
    assert |live.Keys - {session}| == 0;
    assert live.Keys == {session};
  }

  ghost predicate Scheduled(pending: seq<Job>, submitted: seq<Job>) {
    |pending| <= SCHEDULER_CAPACITY && AtMostOnce(pending, submitted)
  }

  ghost predicate Genuine(d: Store, pending: seq<Job>, submitted: seq<Job>) {
    forall job :: job in pending || job in submitted ==> Backed(d, job)
  }

  ghost predicate AllLookedAfter(d: Store, live: set<SessionId>, pending: seq<Job>, submitted: seq<Job>, cursor: Option<SessionId>, complete: bool,
                                 except: set<SessionId>) {
    forall s :: s in d.sessions && s !in except ==> LookedAfter(d, live, pending, submitted, cursor, complete, s)
  }

  /** The invariant of the core. */
  ghost predicate InForce(d: Store, trail: seq<Store>, live: map<SessionId, Spec>, pending: seq<Job>, submitted: seq<Job>) {
    Durable(d, trail) && Attended(live, d) && Scheduled(pending, submitted) && Genuine(d, pending, submitted)
  }

  /** No job was lost and no runtime but this session's came or went. */
  predicate OnlyAdded(live: map<SessionId, Spec>, live': map<SessionId, Spec>, pending: seq<Job>, pending': seq<Job>,
                      submitted: seq<Job>, submitted': seq<Job>, session: SessionId) {
    && pending <= pending' && submitted' == submitted
    && live'.Keys + {session} == live.Keys + {session}
  }

  /** The scan stands where it stood, or starts over. */
  predicate NotPast(cursor: Option<SessionId>, complete: bool, cursor': Option<SessionId>, complete': bool) {
    (cursor' == cursor && complete' == complete) || (cursor' == None && !complete')
  }

  lemma Sound(d: Store, trail: seq<Store>)
    requires Durable(d, trail)
    ensures Inv(d)
  {
    RunInv(trail, |trail| - 1);
  }

  lemma AttemptSound(d: Store, trail: seq<Store>, k: Key)
    requires Durable(d, trail) && k in d.attempts
    ensures AttemptOk(d, k)
    ensures forall g :: g in d.blobs ==> g == OfBytes(d.blobs[g])
  {
    Sound(d, trail);
  }

  lemma SessionSound(d: Store, trail: seq<Store>, s: SessionId)
    requires Durable(d, trail) && s in d.sessions
    ensures SessionOk(d, s)
    ensures s in d.terminations ==> TerminationOk(d, s)
    ensures IsTombstoned(d, s) ==> TombstoneBinds(d.sessions[s].state.spec, d.sessions[s].state.authority.tombstone)
  {
    Sound(d, trail);
  }

  lemma TerminationSound(d: Store, trail: seq<Store>, s: SessionId)
    requires Durable(d, trail) && s in d.terminations
    ensures TerminationOk(d, s)
    ensures TombstoneBinds(d.sessions[s].state.spec, d.sessions[s].state.authority.tombstone)
  {
    Sound(d, trail);
  }

  // ---------- What the core decides on ----------

  /** `reload_active_worker_provider_capability` over the retained runtimes. */
  function ReloadIn(live: map<SessionId, Spec>, d: Store, session: SessionId, now: Millis): (r: Result<Capability, AgdError>)
    ensures r.Ok? <==>
              && session in live && session in d.sessions
              && d.sessions[session].state.spec == live[session]
              && d.sessions[session].state.authority.Active?
              && now < d.sessions[session].state.spec.expires
              && d.sessions[session].state.spec.capability.Some?
              && d.sessions[session].state.spec.capability.value.notBefore <= now
    ensures r.Ok? ==> ActiveWith(d, session, r.value)
    ensures session !in live ==> r == Err(WorkerRuntimeMissing)
    ensures session in live && session in d.sessions && d.sessions[session].state.spec == live[session] ==>
              var record := d.sessions[session].state;
              && (record.authority.Prepared? ==> r == Err(PrincipalNotActive))
              && (record.authority.Tombstoned? ==> r == Err(PrincipalTombstoned))
              && (record.authority.Active? && now >= record.spec.expires ==> r == Err(PrincipalExpired))
              && (record.authority.Active? && now < record.spec.expires && r.Err? ==>
                    r == Err(if record.spec.capability.None? then ProviderRouteMismatch else ProviderCapabilityNotYetValid))
  {
    if session !in live then Err(WorkerRuntimeMissing)
    else if session !in d.sessions then Err(SessionNotFound)
    else
      var record := d.sessions[session].state;
      if record.spec != live[session] then Err(WorkerProofMismatch)
      else if record.authority.Prepared? then Err(PrincipalNotActive)
      else if record.authority.Tombstoned? then Err(PrincipalTombstoned)
      else if now >= record.spec.expires then Err(PrincipalExpired)
      else if record.spec.capability.None? then Err(ProviderRouteMismatch)
      else if now < record.spec.capability.value.notBefore then Err(ProviderCapabilityNotYetValid)
      else Ok(record.spec.capability.value)
  }

  /** What a completion must lead to: None when it must be refused. */
  function VerdictIn(live: map<SessionId, Spec>, d: Store, completion: Completion, now: Millis): Option<AttemptState> {
    var job := completion.job;
    if ReloadIn(live, d, job.session, now) != Ok(job.capability) || job.capability.principal != job.principal then None
    else if (job.session, job.attempt) !in d.attempts then None
    else
      var record := d.attempts[(job.session, job.attempt)].state;
      Settled(record.request, record.state, job.operation, completion.result)
  }

  /** The record state a revocation completion must lead to: None when it must be refused. */
  function TerminationVerdictIn(d: Store, completion: Completion): Option<TerminationState> {
    var s := completion.job.session;
    if s !in d.terminations || completion.job != TerminationJob(d.terminations[s].state) then None
    else
      var state := d.terminations[s].state.state;
      if state.Terminated? then (if completion.result == SessionTerminated(state.receipt) then Some(state) else None)
      else if !AwaitsCleanup(d, s) then None
      else match completion.result
        case SessionTerminated(receipt) => Some(Terminated(receipt))
        case ProviderError(code, message, correlation) =>
          if Utf8Length(message) > 1024 then None else Some(Indeterminate(code, message, correlation))
        case _ => None
  }

  /** The record can take this result: an error says nothing about it, a response must
      be its first or the one it has, and so must a receipt be for that response. */
  predicate Agrees(d: Store, c: Completion) {
    var k := (c.job.session, c.job.attempt);
    && k in d.attempts
    && var state := d.attempts[k].state.state;
       match c.result
       case ProviderError(_, _, _) => true
       case Inference(dispatch, stream, bytes, terminal) =>
         && c.job.operation.Begin? && stream == OfBytes(bytes)
         && (state.HasResponse() ==> state.dispatch == dispatch && state.response.stream == stream && state.response.terminal == terminal)
       case CustodyAcknowledged(dispatch, receipt) =>
         && c.job.operation.Acknowledge? && c.job.operation.dispatch == dispatch
         && state.HasResponse() && state.dispatch == dispatch && (state.Acknowledged? ==> state.receipt == receipt)
       case _ => false
  }

  /** The record says what the provider said: the response with its bytes, the receipt
      of its acknowledgment, or, after an error, nothing new. */
  predicate Testified(d: Store, e: Store, c: Completion) {
    var k := (c.job.session, c.job.attempt);
    && k in e.attempts
    && var state := e.attempts[k].state.state;
       match c.result
       case ProviderError(_, _, _) => e == d
       case Inference(dispatch, stream, bytes, terminal) =>
         && state.HasResponse() && state.dispatch == dispatch && state.response.stream == stream && state.response.terminal == terminal
         && stream in e.blobs && e.blobs[stream] == bytes
       case CustodyAcknowledged(dispatch, receipt) => state.Acknowledged? && state.dispatch == dispatch && state.receipt == receipt
       case _ => false
  }

  /** An acknowledgment is owed exactly after a response that awaits one, and is genuine. */
  predicate Owing(e: Store, c: Completion, owed: Option<Job>) {
    var k := (c.job.session, c.job.attempt);
    && k in e.attempts
    && (owed.Some? <==> c.result.Inference? && e.attempts[k].state.state.ResponseInCustody?)
    && (owed.Some? ==>
          Backed(e, owed.value) && owed.value.operation.Acknowledge? && (owed.value.session, owed.value.attempt) == k)
  }

  lemma VerdictExact(live: map<SessionId, Spec>, d: Store, trail: seq<Store>, c: Completion, now: Millis)
    requires Durable(d, trail)
    ensures VerdictIn(live, d, c, now).Some? <==>
              && ReloadIn(live, d, c.job.session, now) == Ok(c.job.capability) && c.job.capability.principal == c.job.principal
              && Agrees(d, c)
  {
    var k := (c.job.session, c.job.attempt);
    if k in d.attempts {
      AttemptSound(d, trail, k);
    }
  }

  /** A carried verdict is the state the record now has. */
  lemma CarriedState(d: Store, e: Store, job: Job, state: AttemptState)
    requires Carried(d, e, job, state)
    ensures (job.session, job.attempt) in e.attempts && e.attempts[(job.session, job.attempt)].state.state == state && e.sessions == d.sessions
    ensures state == d.attempts[(job.session, job.attempt)].state.state ==> e == d
  {
  }

  lemma VerdictTestified(live: map<SessionId, Spec>, d: Store, e: Store, trail: seq<Store>, c: Completion, now: Millis)
    requires Durable(e, trail) && VerdictIn(live, d, c, now).Some? && Carried(d, e, c.job, VerdictIn(live, d, c, now).value)
    ensures Testified(d, e, c)
  {
    var k := (c.job.session, c.job.attempt);
    SettledSays(d.attempts[k].state.request, d.attempts[k].state.state, c.job.operation, c.result);
    CarriedState(d, e, c.job, VerdictIn(live, d, c, now).value);
    AttemptSound(e, trail, k);
  }

  lemma AcknowledgmentBacked(e: Store, trail: seq<Store>, job: Job)
    requires Durable(e, trail) && (job.session, job.attempt) in e.attempts && e.attempts[(job.session, job.attempt)].state.state.HasResponse()
    requires ActiveWith(e, job.session, job.capability) && job.capability.principal == job.principal
    ensures Backed(e, AckJob(job, e.attempts[(job.session, job.attempt)].state.state))
  {
    AttemptSound(e, trail, (job.session, job.attempt));
    SessionSound(e, trail, job.session);
  }

  lemma VerdictOwing(live: map<SessionId, Spec>, d: Store, e: Store, trail: seq<Store>, c: Completion, now: Millis, owed: Option<Job>)
    requires Durable(e, trail) && VerdictIn(live, d, c, now).Some? && Carried(d, e, c.job, VerdictIn(live, d, c, now).value)
    requires owed == if c.result.Inference? then FollowUp(c.job, VerdictIn(live, d, c, now).value) else None
    ensures Owing(e, c, owed)
  {
    CarriedState(d, e, c.job, VerdictIn(live, d, c, now).value);
    if owed.Some? {
      AcknowledgmentBacked(e, trail, c.job);
    }
  }

  /** The record can take what came back for its revocation: a confirmation stands, and
      until there is one, a confirmation or a short error is new. */
  predicate RevocationAgrees(d: Store, c: Completion) {
    var s := c.job.session;
    && c.job.operation.Terminate? && s in d.terminations && c.job.attempt == Ascii("terminate-") + s
    && c.job.principal == d.terminations[s].state.principal && c.job.capability == d.terminations[s].state.capability
    && if d.terminations[s].state.state.Terminated? then c.result == SessionTerminated(d.terminations[s].state.state.receipt)
       else AwaitsCleanup(d, s) && (c.result.SessionTerminated? || (c.result.ProviderError? && Utf8Length(c.result.message) <= 1024))
  }

  /** The record says what the provider said of the revocation, and a new confirmation
      completed the cleanup behind the process receipt and the provider's own. */
  predicate RevocationTestified(d: Store, e: Store, c: Completion, now: Millis) {
    var s := c.job.session;
    && s in d.terminations && s in e.terminations
    && match c.result
       case SessionTerminated(receipt) =>
         && e.terminations[s].state.state == Terminated(receipt)
         && (!d.terminations[s].state.state.Terminated? ==>
               && IsTombstoned(e, s)
               && e.sessions[s].state.authority.cleanup == Complete(CleanupAggregate(s, d.terminations[s].state.process, receipt), now))
       case ProviderError(code, message, correlation) => e.terminations[s].state.state == Indeterminate(code, message, correlation)
       case _ => false
  }

  lemma RevocationExact(d: Store, trail: seq<Store>, c: Completion)
    requires Durable(d, trail)
    ensures TerminationVerdictIn(d, c).Some? <==> RevocationAgrees(d, c)
  {
    TerminationAttemptText(c.job.session);
    if c.job.session in d.terminations {
      TerminationSound(d, trail, c.job.session);
    }
  }

  lemma RevokedTestified(d: Store, e: Store, c: Completion, now: Millis)
    requires TerminationVerdictIn(d, c).Some? && Revoked(d, e, c.job.session, TerminationVerdictIn(d, c).value, now)
    ensures RevocationTestified(d, e, c, now)
  {
  }

  /** The request asked for under this attempt is the one its record holds. */
  predicate AskedBefore(d: Store, k: Key, headers: map<Bytes, Bytes>, bytes: Bytes)
    requires k in d.attempts
  {
    d.attempts[k].state.request.exactRequest == OfBytes(bytes) && d.attempts[k].state.request.headers == headers
  }

  /** Why a request is not taken into custody: None when it is. */
  function PrepareRefusal(live: map<SessionId, Spec>, d: Store, session: SessionId, attempt: AttemptId, headers: map<Bytes, Bytes>, bytes: Bytes, now: Millis):
    Option<AgdError>
  {
    var capability := ReloadIn(live, d, session, now);
    if capability.Err? then Some(capability.error)
    else if |bytes| == 0 || |bytes| > capability.value.inputBytes then Some(WorkerProviderRequestTooLarge)
    else if (session, attempt) in d.attempts
            && d.attempts[(session, attempt)].state.request != NewRequest(capability.value, bytes, headers) then Some(WorkerProviderAttemptMismatch)
    else None
  }

  /** A request is taken exactly under a grant in force, within its size, and unless its
      attempt asked for something else. */
  lemma PrepareExact(live: map<SessionId, Spec>, d: Store, trail: seq<Store>, session: SessionId, attempt: AttemptId, headers: map<Bytes, Bytes>,
                     bytes: Bytes, now: Millis)
    requires Durable(d, trail)
    ensures var grant := ReloadIn(live, d, session, now);
            PrepareRefusal(live, d, session, attempt, headers, bytes, now) ==
            if grant.Err? then Some(grant.error)
            else if bytes == [] || |bytes| > grant.value.inputBytes then Some(WorkerProviderRequestTooLarge)
            else if (session, attempt) in d.attempts && !AskedBefore(d, (session, attempt), headers, bytes) then Some(WorkerProviderAttemptMismatch)
            else None
  {
    var grant := ReloadIn(live, d, session, now);
    if grant.Ok? && (session, attempt) in d.attempts {
      AttemptSound(d, trail, (session, attempt));
      var held := d.attempts[(session, attempt)].state.request;
      assert held.capability == CapabilityIdentity(grant.value) && RequestVerifies(held);
    }
  }

  /** The attempt's request is in custody and within the limit. */
  predicate RequestWithin(d: Store, k: Key, limit: nat)
    requires k in d.attempts
  {
    var exact := d.attempts[k].state.request.exactRequest;
    exact in d.blobs && |d.blobs[exact]| <= limit
  }

  /** The attempt's response, if it has one, is in custody and fits a frame. */
  predicate Readable(d: Store, maxFrame: nat, k: Key)
    requires k in d.attempts
  {
    var state := d.attempts[k].state.state;
    state.HasResponse() ==> state.response.stream in d.blobs && |d.blobs[state.response.stream]| <= maxFrame
  }

  /** `worker_provider_response` */
  function ResponseIn(d: Store, maxFrame: nat, session: SessionId, attempt: AttemptId): (r: Result<WorkerView, AgdError>)
    ensures (session, attempt) !in d.attempts ==> r == Err(WorkerProviderAttemptNotFound)
    ensures (session, attempt) in d.attempts ==>
              if Readable(d, maxFrame, (session, attempt)) then r.Ok? else r == Err(BlobUnreadable)
  {
    if (session, attempt) !in d.attempts then Err(WorkerProviderAttemptNotFound)
    else
      var state := d.attempts[(session, attempt)].state.state;
      if !state.HasResponse() then Ok(StillPending)
      else if state.response.stream !in d.blobs || |d.blobs[state.response.stream]| > maxFrame then Err(BlobUnreadable)
      else Ok(Available(state.response.stream, d.blobs[state.response.stream], state.response.terminal))
  }

  /** `worker_provider_live_response` */
  function LiveResponseIn(d: Store, submitted: seq<Job>, maxFrame: nat, session: SessionId, attempt: AttemptId): Result<WorkerView, AgdError> {
    var durable := ResponseIn(d, maxFrame, session, attempt);
    if durable == Ok(StillPending)
       && exists job :: job in submitted && job.session == session && job.attempt == attempt && !job.operation.Terminate?
    then Ok(Uncertain)
    else durable
  }

  /** Why an answer cannot be queued for a worker: it has no channel, its last answer
      is still on it, or the answer does not fit a frame. None when it is queued. */
  function AnswerRefusal(live: map<SessionId, Spec>, busy: bool, maxFrame: nat, session: SessionId, attempt: AttemptId, answer: Answer): Option<AgdError> {
    if session !in live || live[session].capability.None? then Some(WorkerRuntimeMissing)
    else if busy then Some(ProviderChannelBusy)
    else if AnswerLength(attempt, answer) > maxFrame then Some(ProviderFrameTooLarge)
    else None
  }

  /** What the worker asking is told of this view, or why it cannot be told. */
  function Told(live: map<SessionId, Spec>, busy: bool, maxFrame: nat, session: SessionId, attempt: AttemptId, view: Result<WorkerView, AgdError>):
    Result<WorkerView, AgdError>
  {
    if view.Err? then view else
      var refused := AnswerRefusal(live, busy, maxFrame, session, attempt, View(view.value));
      if refused.Some? then Err(refused.value) else view
  }

  /** Every outstanding job stays genuine under a commit. */
  lemma GenuineKept(d: Store, trail: seq<Store>, c: Commit, pending: seq<Job>, submitted: seq<Job>)
    requires Durable(d, trail) && Lawful(d, c) && Genuine(d, pending, submitted)
    ensures Genuine(Apply(d, c), pending, submitted)
  {
    Sound(d, trail);
    CommitEvolves(d, c);
    forall job | job in pending || job in submitted
      ensures Backed(Apply(d, c), job)
    {
      BackedStable(d, Apply(d, c), job);
    }
  }

  lemma AttendedKept(d: Store, trail: seq<Store>, c: Commit, live: map<SessionId, Spec>)
    requires Durable(d, trail) && Lawful(d, c) && Attended(live, d)
    ensures Attended(live, Apply(d, c))
  {
    Sound(d, trail);
    CommitEvolves(d, c);
  }

  /** The invariant is kept by every commit. */
  lemma InForceKept(d: Store, trail: seq<Store>, c: Commit, live: map<SessionId, Spec>, pending: seq<Job>, submitted: seq<Job>)
    requires InForce(d, trail, live, pending, submitted) && Lawful(d, c)
    ensures InForce(Apply(d, c), trail + [Apply(d, c)], live, pending, submitted)
  {
    RunExtends(trail, c);
    GenuineKept(d, trail, c, pending, submitted);
    AttendedKept(d, trail, c, live);
  }

  /** The store after an attempt record was replaced by one commit. */
  predicate AttemptReplaced(d: Store, e: Store, job: Job, kind: AttemptKind, state: AttemptState) {
    var k := (job.session, job.attempt);
    && k in d.attempts
    && e.attempts == Put(d.attempts, k, d.attempts[k].state.(state := state))
    && e.log == d.log + [AttemptLogged(job.session, job.attempt, kind)]
    && e.sessions == d.sessions && e.terminations == d.terminations
  }

  /** The attempt now has this state: one event if that is news, nothing otherwise. */
  predicate Carried(d: Store, e: Store, job: Job, state: AttemptState) {
    var k := (job.session, job.attempt);
    && k in d.attempts
    && if state == d.attempts[k].state.state then e == d
       else AttemptReplaced(d, e, job, if state.Acknowledged? then CustodyAcked else ResponseCustodied, state)
  }

  /** A completion was reconciled as the automaton settles it. */
  predicate Reconciled(d: Store, e: Store, job: Job, settled: Option<AttemptState>, r: Result<Option<Job>, AgdError>) {
    match settled
    case None => r == Err(WorkerProviderAttemptMismatch) && e == d
    case Some(state) => r.Ok? && Carried(d, e, job, state)
  }

  predicate SameTombstone(d: Store, session: SessionId, reason: Reason, at: Millis) {
    && IsTombstoned(d, session)
    && d.sessions[session].state.authority.tombstone == Tombstone(session, d.sessions[session].state.spec.principal, reason, at)
  }

  /** A session can be fenced: it is live, or this very tombstone stands already
      and its cleanup can still be requested. */
  predicate Fenceable(d: Store, session: SessionId, reason: Reason, at: Millis) {
    IsTombstoned(d, session) ==>
      SameTombstone(d, session, reason, at) && MayPrepare(d, session, ProcessCleanup(session, reason, at))
  }

  /** A launch that was not released leaves a tombstone and nothing live. */
  predicate LaunchAborted(d: Store, spec: Spec, reason: Reason, at: Millis, launch: Option<Digest>) {
    && IsTombstoned(d, spec.session)
    && d.sessions[spec.session].state.spec == spec
    && d.sessions[spec.session].state.authority.tombstone == Tombstone(spec.session, spec.principal, reason, at)
    && (launch.Some? ==> d.sessions[spec.session].state.authority.launch == launch)
  }

  /** The durable tombstone and capability still bind this record, cleanup pending. */
  predicate TerminalBinding(d: Store, record: Termination) {
    && AwaitsCleanup(d, record.session)
    && d.sessions[record.session].state.authority.tombstone.session == record.session
    && d.sessions[record.session].state.authority.tombstone.principal == record.principal
    && d.sessions[record.session].state.spec.capability == Some(record.capability)
  }

  lemma TerminalBindingMeans(d: Store, trail: seq<Store>, s: SessionId)
    requires Durable(d, trail) && s in d.terminations
    ensures TerminalBinding(d, d.terminations[s].state) <==> AwaitsCleanup(d, s)
    ensures d.terminations[s].state.session == s && s in d.sessions
  {
    TerminationSound(d, trail, s);
    SessionSound(d, trail, s);
  }

  /** What `prepare_worker_provider_termination` needs. */
  predicate MayPrepare(d: Store, session: SessionId, process: Digest) {
    && AwaitsCleanup(d, session)
    && (ProviderEnabled(d, session) ==> TerminationFor(d, session, process).process == process)
  }

  /** An offline session is cleaned up on its process receipt alone. A
      provider-enabled one keeps its termination record, and either its
      revocation is handed out or, once confirmed, its cleanup is complete. */
  ghost predicate CleanupRequested(d: Store, e: Store, session: SessionId, process: Digest, now: Millis, job: Option<Job>) {
    && SameBut(d, e, session) && IsTombstoned(e, session)
    && e.sessions[session].state.candidate == d.sessions[session].state.candidate
    && if !ProviderEnabled(d, session) then
         && job == None && e.terminations == d.terminations
         && e.sessions[session].state.authority.cleanup == Complete(process, now)
       else
         var record := TerminationFor(d, session, process);
         && session in e.terminations && e.terminations[session].state == record
         && if record.state.Terminated? then
              && job == None
              && e.sessions[session].state.authority.cleanup == Complete(CleanupAggregate(session, process, record.state.receipt), now)
            else
              job == Some(TerminationJob(record)) && Backed(e, TerminationJob(record)) && e.sessions == d.sessions
  }

  /** Recording a revocation that was not requested before is lawful and hands it out. */
  lemma RevocationRecorded(d: Store, trail: seq<Store>, session: SessionId, process: Digest, now: Millis)
    requires Durable(d, trail) && AwaitsCleanup(d, session) && ProviderEnabled(d, session) && session !in d.terminations
    ensures var record := TerminationFor(d, session, process);
            var c := TerminationStep(session, TerminationRequested, record, 0);
            Lawful(d, c) && CleanupRequested(d, Apply(d, c), session, process, now, Some(TerminationJob(record)))
  {
    SessionSound(d, trail, session);
  }

  /** Requesting a cleanup leaves every outstanding job due, the new one included. */
  lemma CleanupKeepsDue(d: Store, trail: seq<Store>, e: Store, session: SessionId, process: Digest, now: Millis, job: Option<Job>,
                        pending: seq<Job>, pending': seq<Job>, submitted: seq<Job>)
    requires Durable(d, trail) && AllDue(d.attempts, d.terminations, pending, submitted)
    requires CleanupRequested(d, e, session, process, now, job)
    requires pending' == pending || (job.Some? && pending' == pending + [job.value])
    ensures AllDue(e.attempts, e.terminations, pending', submitted)
  {
    if session in d.terminations {
      TerminationSound(d, trail, session);
    }
    forall x | x in pending' || x in submitted
      ensures Due(e.attempts, e.terminations, x)
    {
      if x in pending || x in submitted {
        assert Due(d.attempts, d.terminations, x);
      }
    }
  }

  /** A requested cleanup whose revocation is queued, or found no room and sent the
      scan back, is looked after. */
  lemma CleanupLookedAfter(d: Store, e: Store, session: SessionId, process: Digest, now: Millis, job: Option<Job>, live: map<SessionId, Spec>,
                           pending: seq<Job>, pending': seq<Job>, submitted: seq<Job>, cursor: Option<SessionId>, complete: bool)
    requires CleanupRequested(d, e, session, process, now, job)
    requires MayPrepare(d, session, process)
    requires pending' == pending || (job.Some? && pending' == pending + [job.value])
    requires job.Some? ==> job.value in pending' || job.value in submitted || (cursor == None && !complete)
    ensures LookedAfter(e, {}, pending', submitted, cursor, complete, session)
    ensures SameBut(d, e, session) && ReceiptHeld(e, session, process, now)
    ensures OnlyAdded(live, live, pending, pending', submitted, submitted, session)
  {
  }

  /** A fetched response that is not new changes nothing; what is left to do
      depends only on whether it was acknowledged. */
  lemma FetchOutcome(d: Store, job: Job, dispatch: Digest, stream: Digest, bytes: Bytes, terminal: bool)
    requires (job.session, job.attempt) in d.attempts && OfBytes(bytes) == stream
    ensures var a := d.attempts[(job.session, job.attempt)].state;
            var response := NewResponse(a.request.custodyRecord, stream, terminal);
            var fetched := ReconcileFetchedResponse(a, dispatch, response);
            var settled := SettledFetch(a.request, a.state, dispatch, stream, bytes, terminal);
            && (fetched.Err? <==> settled.None?)
            && (fetched.Ok? && !fetched.value.1.NewlyCustodied? ==> Carried(d, d, job, settled.value))
            && (fetched.Ok? ==>
                  FollowUp(job, settled.value) == if fetched.value.1.ExistingAcknowledged? then None
                                                  else Some(job.(operation := Acknowledge(dispatch, stream, response.custodyRecord))))
  {
    FetchedSettles(d.attempts[(job.session, job.attempt)].state, dispatch, stream, bytes, terminal);
  }

  /** An acknowledgment seen before changes nothing, and committing a new one is
      lawful and settles the completion. */
  lemma AcknowledgmentCarried(d: Store, job: Job, dispatch: Digest, receipt: Digest)
    requires ActiveWith(d, job.session, job.capability) && (job.session, job.attempt) in d.attempts
    ensures var loaded := d.attempts[(job.session, job.attempt)];
            var acknowledged := ReconcileAcknowledgment(loaded.state, dispatch, receipt);
            var settled := SettledAck(loaded.state.state, dispatch, dispatch, receipt);
            && (acknowledged.Ok? <==> settled.Some?)
            && (acknowledged.Ok? ==>
                  if loaded.state.state.Acknowledged? && loaded.state.state.dispatch == dispatch && loaded.state.state.receipt == receipt then
                    Carried(d, d, job, settled.value)
                  else
                    var c := AttemptStep(job.session, job.attempt, CustodyAcked, acknowledged.value, loaded.revision);
                    Lawful(d, c) && Carried(d, Apply(d, c), job, settled.value))
  {
    AcknowledgmentSettles(d.attempts[(job.session, job.attempt)].state, dispatch, receipt);
  }

  /** Installing the bytes and committing a new response is lawful and settles the completion. */
  lemma FetchCarried(d: Store, job: Job, dispatch: Digest, stream: Digest, bytes: Bytes, terminal: bool)
    requires ActiveWith(d, job.session, job.capability) && (job.session, job.attempt) in d.attempts
    requires AttemptOk(d, (job.session, job.attempt)) && OfBytes(bytes) == stream
    requires var a := d.attempts[(job.session, job.attempt)].state;
             var fetched := ReconcileFetchedResponse(a, dispatch, NewResponse(a.request.custodyRecord, stream, terminal));
             fetched.Ok? && fetched.value.1.NewlyCustodied?
    ensures var loaded := d.attempts[(job.session, job.attempt)];
            var next := ReconcileFetchedResponse(loaded.state, dispatch, NewResponse(loaded.state.request.custodyRecord, stream, terminal)).value.0;
            var c := AttemptStep(job.session, job.attempt, ResponseCustodied, next, loaded.revision);
            var held := Apply(d, InstallBlob(bytes));
            var settled := SettledFetch(loaded.state.request, loaded.state.state, dispatch, stream, bytes, terminal);
            Lawful(held, c) && settled.Some? && Carried(d, Apply(held, c), job, settled.value)
  {
    FetchedSettles(d.attempts[(job.session, job.attempt)].state, dispatch, stream, bytes, terminal);
  }

  /** A revocation was settled: a confirmed record stays as it is; otherwise the
      verdict is recorded, and a confirmation completes the cleanup behind both receipts. */
  ghost predicate Revoked(d: Store, e: Store, s: SessionId, verdict: TerminationState, now: Millis) {
    && s in d.terminations && SameBut(d, e, s)
    && if d.terminations[s].state.state.Terminated? then e == d else
         var record := d.terminations[s].state.(state := verdict);
         && e.terminations == Put(d.terminations, s, record)
         && IsTombstoned(e, s)
         && if verdict.Terminated? then
              e.sessions[s].state.authority.cleanup == Complete(CleanupAggregate(s, record.process, verdict.receipt), now)
            else
              verdict.Indeterminate? && e.sessions == d.sessions
  }

  /** Consuming the completion of a revocation costs no session its cover. */
  lemma RevocationKeepsCover(d: Store, e: Store, live: set<SessionId>, pending: seq<Job>, submitted: seq<Job>, job: Job,
                             cursor: Option<SessionId>, complete: bool, verdict: TerminationState, now: Millis, s: SessionId)
    requires TerminationsOk(d) && s in d.sessions
    requires LookedAfter(d, live, pending, [job] + submitted, cursor, complete, s)
    requires Revoked(d, e, job.session, verdict, now)
    ensures LookedAfter(e, live, pending, submitted, cursor, complete, s)
  {
    if s in d.terminations {
      assert TerminationOk(d, s);
      assert TerminationJob(d.terminations[s].state).session == s;
    }
  }

  lemma RevocationKeepsAll(d: Store, trail: seq<Store>, e: Store, live: set<SessionId>, pending: seq<Job>, submitted: seq<Job>, job: Job,
                           cursor: Option<SessionId>, complete: bool, verdict: TerminationState, now: Millis)
    requires Durable(d, trail) && Revoked(d, e, job.session, verdict, now)
    requires AllLookedAfter(d, live, pending, [job] + submitted, cursor, complete, {})
    ensures AllLookedAfter(e, live, pending, submitted, cursor, complete, {})
  {
    Sound(d, trail);
    forall s | s in e.sessions
      ensures LookedAfter(e, live, pending, submitted, cursor, complete, s)
    {
      RevocationKeepsCover(d, e, live, pending, submitted, job, cursor, complete, verdict, now, s);
    }
  }

  // ---------- The recovery scan ----------

  /** The receipt the scan requests a cleanup with: the recorded one, or the
      absence of the process after a restart. */
  function ScanReceipt(d: Store, s: SessionId): Digest
    requires s in d.sessions
  {
    if s in d.terminations then d.terminations[s].state.process else RestartAbsence(s, d.sessions[s].state.authority)
  }

  /** The scan's request is never refused. */
  lemma ScanMayPrepare(d: Store, s: SessionId)
    requires AwaitsCleanup(d, s)
    ensures MayPrepare(d, s, ScanReceipt(d, s))
  {
  }

  predicate Untouched(d: Store, e: Store, s: SessionId)
    requires s in d.sessions && s in e.sessions
  {
    && e.sessions[s] == d.sessions[s]
    && (s in d.terminations <==> s in e.terminations)
    && (s in d.terminations ==> e.terminations[s] == d.terminations[s])
  }

  /** What the scan makes of a session: a pending cleanup is requested, anything else is left alone. */
  predicate Scanned(d: Store, e: Store, s: SessionId, now: Millis)
    requires s in d.sessions && s in e.sessions
  {
    if !AwaitsCleanup(d, s) then Untouched(d, e, s)
    else if s in d.terminations then ReceiptHeld(e, s, d.terminations[s].state.process, now)
    else ReceiptHeld(e, s, RestartAbsence(s, d.sessions[s].state.authority), now)
  }

  /** The scan went from one cursor to another: what lies between is scanned, the rest untouched. */
  ghost predicate ScannedTo(d: Store, e: Store, from: Option<SessionId>, to: Option<SessionId>, now: Millis) {
    && d.sessions.Keys == e.sessions.Keys && d.attempts == e.attempts
    && forall s :: s in d.sessions ==>
         if After(from, s) && !After(to, s) then Scanned(d, e, s, now) else Untouched(d, e, s)
  }

  lemma OthersUntouched(d: Store, e: Store, entity: SessionId)
    requires SameBut(d, e, entity) || e == d
    ensures e.sessions.Keys == d.sessions.Keys && e.attempts == d.attempts
    ensures forall s :: s in d.sessions && s != entity ==> Untouched(d, e, s)
  {
  }

  lemma ScannedToNext(d: Store, e: Store, f: Store, from: Option<SessionId>, to: Option<SessionId>, entity: SessionId, now: Millis)
    requires ScannedTo(d, e, from, to, now) && NextPast(d.sessions.Keys, to, entity) && After(from, entity)
    requires e.sessions.Keys == f.sessions.Keys && e.attempts == f.attempts && Scanned(e, f, entity, now)
    requires forall s :: s in e.sessions && s != entity ==> Untouched(e, f, s)
    ensures ScannedTo(d, f, from, Some(entity), now)
  {
    LessIrreflexive(entity);
    forall s | s in d.sessions
      ensures if After(from, s) && !Less(entity, s) then Scanned(d, f, s, now) else Untouched(d, f, s)
    {
      if Less(entity, s) && to.Some? {
        LessTransitive(to.value, entity, s);
      }
    }
  }

  // ---------- Candidate custody ----------

  /** The store once the proof and the candidate are installed. */
  function Installed(d: Store, content: Bytes, proof: Bytes): Store {
    Apply(Apply(d, InstallBlob(proof)), InstallBlob(content))
  }

  lemma InstalledEvolves(d: Store, spec: Spec, content: Bytes, proof: Bytes)
    requires BlobsOk(d)
    ensures BlobsEvolve(d, Installed(d, content, proof))
    ensures WithinBudget(spec, content, proof) ==> CandidateStored(Installed(d, content, proof), spec.outputBudget, CandidateOf(content, proof))
  {
  }

  /** Accepting an acceptable candidate whose bytes are installed is lawful, and
      only its session's record changes. */
  lemma AcceptanceCarried(d: Store, trail: seq<Store>, session: SessionId, content: Bytes, proof: Bytes, at: Millis)
    requires Durable(d, trail) && session in d.sessions && d.sessions[session].state.authority.Active?
    requires WithinBudget(d.sessions[session].state.spec, content, proof)
    ensures var was := d.sessions[session].state;
            var tombstone := Tombstone(session, was.spec.principal, CandidateAccepted, at);
            var c := SessionStep(session, AcceptCandidate(CandidateOf(content, proof), tombstone), d.sessions[session].revision);
            var held := Installed(d, content, proof);
            && Lawful(held, c) && SameBut(d, Apply(held, c), session) && session !in d.terminations
            && Apply(held, c).terminations == d.terminations
            && Apply(held, c).sessions[session].state == Session(was.spec, Accepted(session, was, at), InCustody(CandidateOf(content, proof)))
  {
    Sound(d, trail);
    InstalledEvolves(d, d.sessions[session].state.spec, content, proof);
    assert SessionOk(d, session);
    assert session in d.terminations ==> TerminationOk(d, session);
  }
}
