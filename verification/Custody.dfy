/** The durable records of the governor's provider custody and the transitions
    of a single record.

    A digest is the value it was computed from, so equal digests mean equal
    preimages. `Opaque` stands for digests the governor only receives. */
module Custody {
  import opened ByteOrder
  import opened Outcomes
  import opened Text

  type SessionId = Bytes
  type AttemptId = Bytes
  type Principal = nat
  type Millis = nat

  datatype Digest =
    | Opaque(tag: nat)
    | OfBytes(bytes: Bytes)
    | CapabilityIdentity(grant: Capability)
    | RequestBinding(capability: Digest, exactRequest: Digest, headers: map<Bytes, Bytes>, envelope: nat)
    | ResponseBinding(requestCustody: Digest, stream: Digest, terminal: bool)
    | ProcessCleanup(session: SessionId, reason: Reason, at: Millis)
    | CancelCleanup(session: SessionId, reason: Reason, at: Millis)
    | ActivationFailureCleanup(session: SessionId, reason: Reason, at: Millis)
    | AcceptedCleanup(session: SessionId, authority: Authority)
    | RestartAbsence(session: SessionId, authority: Authority)
    | CleanupAggregate(session: SessionId, process: Digest, provider: Digest)

  /** Why a principal was retired. */
  datatype Reason =
    | CandidateAccepted
    | RestartRecovery
    | Cancelled(evidence: Digest)
    | Failed(detail: nat)

  datatype Capability = Capability(
    session: SessionId,
    principal: Principal,
    inputBytes: nat,
    notBefore: Millis,
    envelope: nat,
    terms: nat
  )

  // ---------- Worker sessions ----------

  datatype Spec = Spec(session: SessionId, principal: Principal, expires: Millis, capability: Option<Capability>, outputBudget: nat)

  datatype Tombstone = Tombstone(session: SessionId, principal: Principal, reason: Reason, since: Millis)

  datatype Cleanup = Pending | Complete(receipt: Digest, at: Millis)

  datatype Authority =
    | Prepared
    | Active(launchReceipt: Digest)
    | Tombstoned(launch: Option<Digest>, tombstone: Tombstone, cleanup: Cleanup)

  /** Accepted output: its content and the signed proof it came with. */
  datatype Candidate = Candidate(content: Digest, length: nat, proof: Digest)

  datatype CandidateState =
    | NoCandidate
    | InCustody(candidate: Candidate)
    | BrokerCompleted(candidate: Candidate, outcome: Digest)

  datatype Session = Session(spec: Spec, authority: Authority, candidate: CandidateState)

  datatype SessionEvent =
    | Activate(launchReceipt: Digest)
    | Retire(tombstone: Tombstone)
    | AcceptCandidate(candidate: Candidate, tombstone: Tombstone)
    | CompleteCleanup(receipt: Digest, at: Millis)
    | RecordBrokerOutcome(outcome: Digest)

  datatype AgdError =
    | WorkerRuntimeMissing
    | WorkerProofMismatch
    | SessionNotFound
    | PrincipalNotActive
    | PrincipalTombstoned
    | PrincipalExpired
    | ProviderRouteMismatch
    | ProviderCapabilityNotYetValid
    | InvalidWorkerTransition
    | TombstoneBindingMismatch
    | CandidateRequiresTombstone
    | CandidateBudgetExceeded
    | CandidateBrokerOutcomeConflict
    | CandidateNotInCustody
    | ChangedRetry
    | PrincipalNotTombstoned
    | WorkerProviderRequestTooLarge
    | WorkerProviderAttemptMismatch
    | WorkerProviderAttemptNotFound
    | WorkerProviderTerminationMismatch
    | WorkerProviderTerminationNotFound
    | BlobUnreadable
    | WorkerCapacityExhausted
    | WorkerProviderRuntimeUnavailable
    | WorkerRecoveryRequired
    | WorkerLaunchFailed
    | WorkerProcessStuck
    | ProviderChannelBusy
    | ProviderFrameTooLarge
    | ProviderChannelFrame

  predicate SpecOk(spec: Spec) {
    spec.capability.Some? ==> spec.capability.value.session == spec.session && spec.capability.value.principal == spec.principal
  }

  predicate TombstoneBinds(spec: Spec, t: Tombstone) {
    t.session == spec.session && t.principal == spec.principal
  }

  /** The longest ingress proof kept for an output budget: its base64 form and a reserve. */
  function ProofLimit(outputBudget: nat): nat {
    (outputBudget + 2) / 3 * 4 + 128 * 1024
  }

  /** A candidate is held only under the tombstone of its acceptance and within its budget. */
  predicate SessionValid(s: Session) {
    && (s.authority.Tombstoned? ==> TombstoneBinds(s.spec, s.authority.tombstone))
    && (!s.candidate.NoCandidate? ==>
          && s.candidate.candidate.length <= s.spec.outputBudget
          && s.authority.Tombstoned? && s.authority.launch.Some? && s.authority.tombstone.reason.CandidateAccepted?)
  }

  /** One lifecycle event, before the record is validated again. */
  function Moved(s: Session, event: SessionEvent): Result<Session, AgdError> {
    match event
    case Activate(launchReceipt) =>
      if s.authority.Prepared? then Ok(s.(authority := Active(launchReceipt))) else Err(InvalidWorkerTransition)
    case Retire(tombstone) =>
      if s.authority.Tombstoned? then Err(InvalidWorkerTransition)
      else if !TombstoneBinds(s.spec, tombstone) then Err(TombstoneBindingMismatch)
      else Ok(s.(authority := Tombstoned(if s.authority.Active? then Some(s.authority.launchReceipt) else None, tombstone, Pending)))
    case AcceptCandidate(candidate, tombstone) =>
      if !s.authority.Active? || !s.candidate.NoCandidate? then Err(InvalidWorkerTransition)
      else if candidate.length > s.spec.outputBudget then Err(CandidateBudgetExceeded)
      else if !TombstoneBinds(s.spec, tombstone) then Err(TombstoneBindingMismatch)
      else if !tombstone.reason.CandidateAccepted? then Err(CandidateRequiresTombstone)
      else Ok(s.(authority := Tombstoned(Some(s.authority.launchReceipt), tombstone, Pending), candidate := InCustody(candidate)))
    case CompleteCleanup(receipt, at) =>
      if !s.authority.Tombstoned? || !s.authority.cleanup.Pending? then Err(InvalidWorkerTransition)
      else Ok(s.(authority := s.authority.(cleanup := Complete(receipt, at))))
    case RecordBrokerOutcome(outcome) =>
      match s.candidate
      case NoCandidate => Err(InvalidWorkerTransition)
      case InCustody(candidate) => Ok(s.(candidate := BrokerCompleted(candidate, outcome)))
      case BrokerCompleted(_, existing) => if existing == outcome then Ok(s) else Err(CandidateBrokerOutcomeConflict)
  }

  /** One lifecycle transition of a session record. */
  function Transition(s: Session, event: SessionEvent): (r: Result<Session, AgdError>)
    ensures r.Ok? ==> SessionAdvances(s, r.value) && SessionValid(r.value)
    ensures r.Ok? && !event.RecordBrokerOutcome? ==> r.value.authority != s.authority
    ensures r.Ok? ==> (r.value.authority.Tombstoned? <==> !event.Activate?)
    ensures r.Ok? && !event.AcceptCandidate? && !event.RecordBrokerOutcome? ==> r.value.candidate == s.candidate
    ensures SessionValid(s) && Moved(s, event).Ok? ==> r.Ok?
  {
    var r := Moved(s, event);
    if r.Ok? && !SessionValid(r.value) then Err(CandidateRequiresTombstone) else r
  }

  /** The lifecycle: which events a valid record admits, and what each leaves. */
  lemma TransitionExact(s: Session, event: SessionEvent)
    requires SessionValid(s)
    ensures Transition(s, event).Ok? <==>
              match event
              case Activate(_) => s.authority.Prepared?
              case Retire(t) => !s.authority.Tombstoned? && t.session == s.spec.session && t.principal == s.spec.principal
              case AcceptCandidate(c, t) =>
                && s.authority.Active? && s.candidate.NoCandidate? && c.length <= s.spec.outputBudget
                && t.session == s.spec.session && t.principal == s.spec.principal && t.reason == CandidateAccepted
              case CompleteCleanup(_, _) => s.authority.Tombstoned? && s.authority.cleanup == Pending
              case RecordBrokerOutcome(outcome) =>
                !s.candidate.NoCandidate? && (s.candidate.BrokerCompleted? ==> s.candidate.outcome == outcome)
    ensures Transition(s, event).Ok? ==>
              var next := Transition(s, event).value;
              var launch := if s.authority.Active? then Some(s.authority.launchReceipt) else None;
              match event
              case Activate(receipt) => next == Session(s.spec, Active(receipt), s.candidate)
              case Retire(t) => next == Session(s.spec, Tombstoned(launch, t, Pending), s.candidate)
              case AcceptCandidate(c, t) => next == Session(s.spec, Tombstoned(launch, t, Pending), InCustody(c))
              case CompleteCleanup(receipt, at) =>
                next == Session(s.spec, Tombstoned(s.authority.launch, s.authority.tombstone, Complete(receipt, at)), s.candidate)
              case RecordBrokerOutcome(outcome) => next == Session(s.spec, s.authority, BrokerCompleted(s.candidate.candidate, outcome))
  {
  }

  /** A session moves prepared, active, tombstoned, cleaned up, and never back;
      its specification, launch receipt, tombstone and receipt never change, nor
      does a candidate in custody or the broker's outcome for it. */
  predicate SessionAdvances(a: Session, b: Session) {
    && a.spec == b.spec
    && CandidateAdvances(a.candidate, b.candidate)
    && match a.authority
       case Prepared => true
       case Active(receipt) =>
         b.authority == a.authority || (b.authority.Tombstoned? && b.authority.launch == Some(receipt))
       case Tombstoned(launch, tombstone, cleanup) =>
         && b.authority.Tombstoned? && b.authority.launch == launch && b.authority.tombstone == tombstone
         && (cleanup.Complete? ==> b.authority.cleanup == cleanup)
  }

  predicate CandidateAdvances(a: CandidateState, b: CandidateState) {
    match a
    case NoCandidate => true
    case InCustody(candidate) => !b.NoCandidate? && b.candidate == candidate
    case BrokerCompleted(_, _) => b == a
  }

  // ---------- Provider attempts ----------

  datatype Request = Request(
    capability: Digest,
    exactRequest: Digest,
    headers: map<Bytes, Bytes>,
    envelope: nat,
    custodyRecord: Digest
  )

  function NewRequest(capability: Capability, bytes: Bytes, headers: map<Bytes, Bytes>): Request {
    Request(CapabilityIdentity(capability), OfBytes(bytes), headers, capability.envelope,
            RequestBinding(CapabilityIdentity(capability), OfBytes(bytes), headers, capability.envelope))
  }

  /** A request record holds exactly what was asked for and under which grant, so
      that equal records mean equal requests. */
  lemma RequestExact(capability: Capability, bytes: Bytes, headers: map<Bytes, Bytes>, other: Capability, otherBytes: Bytes, otherHeaders: map<Bytes, Bytes>)
    ensures var r := NewRequest(capability, bytes, headers);
            && r.capability == CapabilityIdentity(capability) && r.exactRequest == OfBytes(bytes) && r.headers == headers
            && r.envelope == capability.envelope && RequestVerifies(r)
    ensures NewRequest(capability, bytes, headers) == NewRequest(other, otherBytes, otherHeaders) <==>
              capability == other && bytes == otherBytes && headers == otherHeaders
  {
  }

  predicate RequestVerifies(r: Request) {
    r.custodyRecord == RequestBinding(r.capability, r.exactRequest, r.headers, r.envelope)
  }

  datatype Response = Response(requestCustody: Digest, stream: Digest, terminal: bool, custodyRecord: Digest)

  function NewResponse(requestCustody: Digest, stream: Digest, terminal: bool): Response {
    Response(requestCustody, stream, terminal, ResponseBinding(requestCustody, stream, terminal))
  }

  predicate ResponseVerifies(r: Response) {
    r.custodyRecord == ResponseBinding(r.requestCustody, r.stream, r.terminal)
  }

  datatype AttemptState =
    | RequestInCustody
    | DispatchAvailable(dispatch: Digest, stream: Digest, terminal: bool)
    | ResponseInCustody(dispatch: Digest, response: Response)
    | Acknowledged(dispatch: Digest, response: Response, receipt: Digest)
  {
    predicate HasResponse() {
      ResponseInCustody? || Acknowledged?
    }
  }

  datatype Attempt = Attempt(
    session: SessionId,
    principal: Principal,
    attempt: AttemptId,
    request: Request,
    state: AttemptState
  )

  /** `validate_worker_provider_attempt_record` for the record stored under (session, attempt). */
  predicate AttemptValid(session: SessionId, attempt: AttemptId, a: Attempt) {
    && RequestVerifies(a.request)
    && a.session == session && a.attempt == attempt
    && (a.state.HasResponse() ==>
          ResponseVerifies(a.state.response) && a.state.response.requestCustody == a.request.custodyRecord)
  }

  /** An attempt only moves forward: its identity and request are fixed, its
      dispatch and response are fixed once recorded, and so is its receipt. */
  predicate AttemptAdvances(a: Attempt, b: Attempt) {
    && a.(state := b.state) == b
    && match a.state
       case RequestInCustody => true
       case DispatchAvailable(dispatch, stream, terminal) =>
         || b.state == a.state
         || (&& b.state.HasResponse() && b.state.dispatch == dispatch
             && b.state.response.stream == stream && b.state.response.terminal == terminal)
       case ResponseInCustody(dispatch, response) =>
         b.state.HasResponse() && b.state.dispatch == dispatch && b.state.response == response
       case Acknowledged(_, _, _) => b.state == a.state
  }

  lemma SessionAdvancesTransitive(a: Session, b: Session, c: Session)
    requires SessionAdvances(a, b) && SessionAdvances(b, c)
    ensures SessionAdvances(a, c)
  {
  }

  /** `reconcile_dispatch_available` */
  function ReconcileDispatchAvailable(a: Attempt, dispatch: Digest, stream: Digest, terminal: bool): (r: Result<Attempt, AgdError>)
    ensures r.Ok? ==> AttemptAdvances(a, r.value) && r.value.state == DispatchAvailable(dispatch, stream, terminal)
    ensures r.Ok? <==> a.state.RequestInCustody? || a.state == DispatchAvailable(dispatch, stream, terminal)
  {
    var next := DispatchAvailable(dispatch, stream, terminal);
    if a.state.RequestInCustody? then Ok(a.(state := next))
    else if a.state == next then Ok(a)
    else Err(WorkerProviderAttemptMismatch)
  }

  /** `reconcile_response_custody` */
  function ReconcileResponseCustody(a: Attempt, dispatch: Digest, response: Response): (r: Result<Attempt, AgdError>)
    ensures r.Ok? ==> AttemptAdvances(a, r.value)
    ensures r.Ok? ==> r.value.state.HasResponse() && r.value.state.dispatch == dispatch && r.value.state.response == response
    ensures r.Ok? ==> ResponseVerifies(response) && response.requestCustody == a.request.custodyRecord && !a.state.RequestInCustody?
    ensures r.Ok? && a.state.DispatchAvailable? ==> a.state == DispatchAvailable(dispatch, response.stream, response.terminal)
  {
    if !ResponseVerifies(response) || response.requestCustody != a.request.custodyRecord then
      Err(WorkerProviderAttemptMismatch)
    else match a.state
      case DispatchAvailable(d, stream, terminal) =>
        if d == dispatch && stream == response.stream && terminal == response.terminal then
          Ok(a.(state := ResponseInCustody(dispatch, response)))
        else Err(WorkerProviderAttemptMismatch)
      case ResponseInCustody(d, existing) =>
        if d == dispatch && existing == response then Ok(a) else Err(WorkerProviderAttemptMismatch)
      case Acknowledged(d, existing, _) =>
        if d == dispatch && existing == response then Ok(a) else Err(WorkerProviderAttemptMismatch)
      case RequestInCustody => Err(WorkerProviderAttemptMismatch)
  }

  datatype Fetched = NewlyCustodied | ExistingNeedsAcknowledgment | ExistingAcknowledged

  /** `reconcile_fetched_response` */
  function ReconcileFetchedResponse(a: Attempt, dispatch: Digest, response: Response): (r: Result<(Attempt, Fetched), AgdError>)
    ensures r.Ok? ==> AttemptAdvances(a, r.value.0)
    ensures r.Ok? && !r.value.1.NewlyCustodied? ==> r.value.0 == a
  {
    match a.state
    case ResponseInCustody(d, existing) =>
      if d == dispatch && existing == response then Ok((a, ExistingNeedsAcknowledgment)) else Err(WorkerProviderAttemptMismatch)
    case Acknowledged(d, existing, _) =>
      if d == dispatch && existing == response then Ok((a, ExistingAcknowledged)) else Err(WorkerProviderAttemptMismatch)
    case _ =>
      var available := ReconcileDispatchAvailable(a, dispatch, response.stream, response.terminal);
      if available.Err? then Err(WorkerProviderAttemptMismatch) else
        var custodied := ReconcileResponseCustody(available.value, dispatch, response);
        if custodied.Err? then Err(WorkerProviderAttemptMismatch) else Ok((custodied.value, NewlyCustodied))
  }

  /** `reconcile_acknowledgment` */
  function ReconcileAcknowledgment(a: Attempt, dispatch: Digest, receipt: Digest): (r: Result<Attempt, AgdError>)
    ensures r.Ok? ==> AttemptAdvances(a, r.value)
    ensures r.Ok? ==> r.value.state.Acknowledged? && r.value.state.dispatch == dispatch && r.value.state.receipt == receipt
  {
    match a.state
    case ResponseInCustody(d, response) =>
      if d == dispatch then Ok(a.(state := Acknowledged(dispatch, response, receipt))) else Err(WorkerProviderAttemptMismatch)
    case Acknowledged(d, _, existing) =>
      if d == dispatch && existing == receipt then Ok(a) else Err(WorkerProviderAttemptMismatch)
    case _ => Err(WorkerProviderAttemptMismatch)
  }

  // ---------- Provider operations ----------

  datatype Operation =
    | Begin(request: Request, bytes: Bytes)
    | Acknowledge(dispatch: Digest, stream: Digest, custodyRecord: Digest)
    | Terminate

  datatype Job = Job(session: SessionId, principal: Principal, attempt: AttemptId, capability: Capability, operation: Operation)

  /** What came back for a job. `Unexpected` is any other well-formed answer. */
  datatype ProviderResult =
    | Inference(dispatch: Digest, stream: Digest, bytes: Bytes, terminal: bool)
    | CustodyAcknowledged(dispatch: Digest, receipt: Digest)
    | SessionTerminated(receipt: Digest)
    | Unexpected(tag: nat)
    | ProviderError(code: nat, message: seq<char>, correlation: seq<char>)

  datatype Completion = Completion(job: Job, result: ProviderResult)

  /** Where a fetched response leads. */
  function SettledFetch(request: Request, state: AttemptState, dispatch: Digest, stream: Digest, bytes: Bytes, terminal: bool): Option<AttemptState> {
    var custodied := ResponseInCustody(dispatch, NewResponse(request.custodyRecord, stream, terminal));
    if OfBytes(bytes) != stream then None
    else if state.RequestInCustody? || state == DispatchAvailable(dispatch, stream, terminal) then Some(custodied)
    else if state.HasResponse() && ResponseInCustody(state.dispatch, state.response) == custodied then Some(state)
    else None
  }

  /** Where a provider acknowledgment leads. */
  function SettledAck(state: AttemptState, dispatch: Digest, returned: Digest, receipt: Digest): Option<AttemptState> {
    if dispatch != returned then None
    else if state.ResponseInCustody? && state.dispatch == dispatch then Some(Acknowledged(dispatch, state.response, receipt))
    else if state.Acknowledged? && state.dispatch == dispatch && state.receipt == receipt then Some(state)
    else None
  }

  /** The attempt lifecycle as one automaton: the state a completion leads to,
      None when it must be refused. It knows nothing of intermediate states. */
  function Settled(request: Request, state: AttemptState, operation: Operation, result: ProviderResult): Option<AttemptState> {
    if result.ProviderError? then Some(state)
    else if operation.Begin? && result.Inference? then
      SettledFetch(request, state, result.dispatch, result.stream, result.bytes, result.terminal)
    else if operation.Acknowledge? && result.CustodyAcknowledged? then
      SettledAck(state, operation.dispatch, result.dispatch, result.receipt)
    else None
  }

  /** What the automaton settles on is what the result says. */
  lemma SettledSays(request: Request, state: AttemptState, operation: Operation, result: ProviderResult)
    requires Settled(request, state, operation, result).Some?
    ensures var next := Settled(request, state, operation, result).value;
            match result
            case ProviderError(_, _, _) => next == state
            case Inference(dispatch, stream, bytes, terminal) =>
              && next.HasResponse() && next.dispatch == dispatch && next.response.stream == stream == OfBytes(bytes)
              && next.response.terminal == terminal && next.response.requestCustody == request.custodyRecord
            case CustodyAcknowledged(dispatch, receipt) =>
              next.Acknowledged? && next.dispatch == dispatch && next.receipt == receipt && state.HasResponse() && next.response == state.response
            case _ => false
  {
  }

  /** The staged reconciliation through `DispatchAvailable` reaches exactly the
      automaton's verdict. */
  lemma FetchedSettles(a: Attempt, dispatch: Digest, stream: Digest, bytes: Bytes, terminal: bool)
    requires OfBytes(bytes) == stream
    ensures var response := NewResponse(a.request.custodyRecord, stream, terminal);
            var r := ReconcileFetchedResponse(a, dispatch, response);
            var settled := SettledFetch(a.request, a.state, dispatch, stream, bytes, terminal);
            && (r.Ok? <==> settled.Some?)
            && (r.Ok? ==> r.value.0.state == settled.value)
            && (r.Ok? ==> (r.value.1.NewlyCustodied? <==> !a.state.HasResponse()))
            && (r.Ok? ==> (r.value.1.ExistingNeedsAcknowledgment? <==> a.state.ResponseInCustody?))
  {
  }

  lemma AcknowledgmentSettles(a: Attempt, dispatch: Digest, receipt: Digest)
    ensures var r := ReconcileAcknowledgment(a, dispatch, receipt);
            var settled := SettledAck(a.state, dispatch, dispatch, receipt);
            && (r.Ok? <==> settled.Some?)
            && (r.Ok? ==> r.value.state == settled.value)
  {
  }

  // ---------- Provider termination ----------

  datatype TerminationState =
    | Requested
    | Indeterminate(code: nat, message: seq<char>, correlation: seq<char>)
    | Terminated(receipt: Digest)

  datatype Termination = Termination(
    session: SessionId,
    principal: Principal,
    capability: Capability,
    process: Digest,
    state: TerminationState
  )

  predicate TerminationValid(session: SessionId, t: Termination) {
    && t.session == session
    && t.capability.session == t.session
    && t.capability.principal == t.principal
  }

  /** A termination record keeps its process receipt, and a provider receipt once it has one. */
  predicate TerminationAdvances(a: Termination, b: Termination) {
    && a.(state := b.state) == b
    && (a.state.Terminated? ==> b.state == a.state)
  }

  /** The bytes of "terminate-" followed by the session identity. */
  function TerminationAttempt(session: SessionId): AttemptId {
    [116, 101, 114, 109, 105, 110, 97, 116, 101, 45] + session
  }

  lemma TerminationAttemptText(session: SessionId)
    ensures TerminationAttempt(session) == Ascii("terminate-") + session
  {
  }

  function TerminationJob(t: Termination): Job {
    Job(t.session, t.principal, TerminationAttempt(t.session), t.capability, Terminate)
  }
}
