/** `AgdCoreV1`: the governor's single-writer core. */
module Governor {
  import opened ByteOrder
  import opened Outcomes
  import opened Text
  import opened Custody
  import opened Ledger
  import opened Paging
  import opened Scheduling
  import opened Standing
  import opened Wire

  class AgdCore {
    var store: Store
    var activeWorkers: map<SessionId, Spec>
    var pending: seq<Job>
    var submitted: seq<Job>
    var cursor: Option<SessionId>
    var scanComplete: bool
    var providerAttached: bool
    var recoveryRequired: bool
    /** The live worker's response channel, opened at its launch, still holds a frame. */
    var unsent: bool
    const maxFrame: nat

    /** Every durable state so far, over all process lifetimes; a crash leaves one of them. */
    ghost var trail: seq<Store>

    ghost predicate Valid()
      reads `store, `trail, `activeWorkers, `pending, `submitted
    {
      InForce(store, trail, activeWorkers, pending, submitted)
    }

    /** Every session but `except` is attended while live and covered once tombstoned. */
    ghost predicate CoveredBut(except: set<SessionId>)
      reads `store, `activeWorkers, `pending, `submitted, `cursor, `scanComplete
    {
      AllLookedAfter(store, activeWorkers.Keys, pending, submitted, cursor, scanComplete, except)
    }

    ghost predicate Covered()
      reads `store, `activeWorkers, `pending, `submitted, `cursor, `scanComplete
    {
      CoveredBut({})
    }

    /** Every job outstanding is still waited for by its record. */
    ghost predicate Prompt()
      reads `store, `pending, `submitted
    {
      AllDue(store.attempts, store.terminations, pending, submitted)
    }

    /** A process starts on whatever durable state the last one left. */
    constructor (d: Store, maxFrame: nat, ghost history: seq<Store>)
      requires Run(history) && d == history[|history| - 1]
      ensures Valid() && store == d && trail == history && this.maxFrame == maxFrame
      ensures activeWorkers == map[] && pending == [] && submitted == [] && cursor == None && !scanComplete
      ensures !providerAttached && !recoveryRequired && !unsent
    {
      store, activeWorkers, pending, submitted := d, map[], [], [];
      cursor, scanComplete, providerAttached, recoveryRequired, unsent := None, false, false, false, false;
      this.maxFrame := maxFrame;
      trail := history;
    }

    /** `attach_provider_runtime` */
    method AttachProviderRuntime(configured: bool) returns (r: Result<(), AgdError>)
      modifies this`providerAttached
      ensures r == if configured then Ok(()) else Err(WorkerProviderRuntimeUnavailable)
      ensures providerAttached == (old(providerAttached) || configured)
    {
      if !configured {
        return Err(WorkerProviderRuntimeUnavailable);
      }
      providerAttached := true;
      r := Ok(());
    }

    /** Whatever a method commits, the durable records only move forward. */
    twostate lemma Progress()
      requires old(Durable(store, trail)) && Durable(store, trail) && old(trail) <= trail
      ensures Evolves(old(store), store)
    {
      RunEvolves(trail, |old(trail)| - 1, |trail| - 1);
    }

    twostate lemma StayTombstoned()
      requires old(Durable(store, trail)) && Durable(store, trail) && old(trail) <= trail
      ensures forall s :: IsTombstoned(old(store), s) ==> IsTombstoned(store, s)
    {
      Progress();
    }

    /** One durable commit. */
    method Commit(c: Commit)
      requires Valid() && Lawful(store, c)
      modifies this`store, this`trail
      ensures Valid()
      ensures store == Apply(old(store), c) && trail == old(trail) + [store]
    {
      InForceKept(store, trail, c, activeWorkers, pending, submitted);
      store := Apply(store, c);
      trail := trail + [store];
    }

    // ---------- The scheduler queue ----------

    method TakePendingProviderJob() returns (job: Option<Job>)
      requires Valid()
      modifies this`pending
      ensures Valid()
      ensures job.None? <==> old(pending) == []
      ensures job.Some? ==> old(pending) == [job.value] + pending && job.value !in pending && job.value !in submitted
      ensures job.Some? ==> Backed(store, job.value)
      ensures job.None? ==> pending == old(pending)
    {
      if pending == [] {
        return None;
      }
      TakeKeepsOnce(pending, submitted);
      job := Some(pending[0]);
      pending := pending[1..];
    }

    method RestorePendingProviderJob(job: Job)
      requires Valid() && Backed(store, job) && job !in pending && job !in submitted
      requires |pending| < SCHEDULER_CAPACITY
      modifies this`pending
      ensures Valid() && pending == [job] + old(pending)
    {
      assert multiset([job] + pending) == multiset{job} + multiset(pending);
      pending := [job] + pending;
    }

    method NoteProviderJobSubmitted(job: Job)
      requires Valid() && Backed(store, job) && job !in pending
      requires |submitted| < SCHEDULER_CAPACITY
      modifies this`submitted
      ensures Valid()
      ensures submitted == if job in old(submitted) then old(submitted) else old(submitted) + [job]
    {
      if job !in submitted {
        assert multiset(submitted + [job]) == multiset(submitted) + multiset{job};
        submitted := submitted + [job];
      }
    }

    method NoteProviderJobCompleted(job: Job)
      requires Valid()
      modifies this`submitted
      ensures Valid()
      ensures submitted == Without(old(submitted), job)
      ensures forall x :: x in submitted <==> x in old(submitted) && x != job
    {
      WithoutKeepsOnce(pending, submitted, job);
      forall x
        ensures x in Without(submitted, job) <==> x in submitted && x != job
      {
        WithoutElements(submitted, job, x);
      }
      submitted := Without(submitted, job);
    }

    /** `enqueue_provider_job_bounded`: false only when there is no room. */
    method EnqueueBounded(job: Job, limit: nat) returns (retained: bool)
      requires Valid() && Backed(store, job) && limit <= SCHEDULER_CAPACITY
      modifies this`pending
      ensures Valid()
      ensures pending == Enqueue(old(pending), submitted, job, limit)
      ensures retained <==> job in pending || job in submitted
    {
      if job in pending || job in submitted {
        return true;
      }
      if |pending| >= limit {
        return false;
      }
      PushKeepsOnce(pending, submitted, job);
      pending := pending + [job];
      retained := true;
    }

    /** Queues a job; a revocation that finds no room sends the scan back to the start. */
    method QueueProviderJobOnce(job: Job)
      requires Valid() && Backed(store, job)
      modifies this`pending, this`cursor, this`scanComplete
      ensures Valid()
      ensures job in pending || job in submitted || |pending| >= if job.operation.Terminate? then TERMINATION_LIMIT else SCHEDULER_CAPACITY
      ensures pending == old(pending) || pending == old(pending) + [job]
      ensures job.operation.Terminate? && pending != old(pending) ==> |pending| <= TERMINATION_LIMIT
      ensures job.operation.Terminate? && job !in pending && job !in submitted ==> cursor == None && !scanComplete
      ensures job in pending || job in submitted || !job.operation.Terminate? ==> cursor == old(cursor) && scanComplete == old(scanComplete)
    {
      var termination := job.operation.Terminate?;
      var retained := EnqueueBounded(job, if termination then TERMINATION_LIMIT else SCHEDULER_CAPACITY);
      if !retained && termination {
        cursor, scanComplete := None, false;
      }
    }

    method QueueInteractiveProviderJob(job: Job) returns (retained: bool)
      requires Valid() && Backed(store, job) && !job.operation.Terminate?
      modifies this`pending
      ensures Valid()
      ensures pending == Enqueue(old(pending), submitted, job, SCHEDULER_CAPACITY)
      ensures retained <==> job in pending || job in submitted
    {
      retained := EnqueueBounded(job, SCHEDULER_CAPACITY);
    }

    predicate AcceptsWorkerRequest()
      reads this
    {
      |pending| < WORKER_REQUEST_LIMIT
    }

    // ---------- Attempts ----------

    /** `reload_active_worker_provider_capability` */
    function Reload(session: SessionId, now: Millis): (r: Result<Capability, AgdError>)
      reads `activeWorkers, `store
      ensures r.Ok? ==> session in activeWorkers && ActiveWith(store, session, r.value)
    {
      ReloadIn(activeWorkers, store, session, now)
    }

    /** `prepare_worker_provider_attempt`: custody of the request before any
        dispatch, refused for exactly one stated reason or taken. */
    method PrepareAttempt(session: SessionId, attempt: AttemptId, headers: map<Bytes, Bytes>, bytes: Bytes, now: Millis)
      returns (r: Result<Attempt, AgdError>)
      requires Valid()
      modifies this`store, this`trail
      ensures Valid() && old(trail) <= trail
      ensures match PrepareRefusal(activeWorkers, old(store), session, attempt, headers, bytes, now)
              case Some(error) => r == Err(error) && store == old(store)
              case None =>
                && r.Ok? && (session, attempt) in store.attempts && store.attempts[(session, attempt)].state == r.value
                && r.value.request == NewRequest(old(Reload(session, now)).value, bytes, headers)
                && r.value.request.exactRequest in store.blobs && store.blobs[r.value.request.exactRequest] == bytes
      ensures var grant := old(Reload(session, now));
              if grant.Err? then r == Err(grant.error)
              else if bytes == [] || |bytes| > grant.value.inputBytes then r == Err(WorkerProviderRequestTooLarge)
              else if (session, attempt) in old(store).attempts && !AskedBefore(old(store), (session, attempt), headers, bytes) then
                r == Err(WorkerProviderAttemptMismatch)
              else
                && r.Ok? && r.value.session == session && r.value.attempt == attempt && r.value.principal == grant.value.principal
                && r.value.request.exactRequest == OfBytes(bytes) && r.value.request.headers == headers
                && r.value.request.capability == CapabilityIdentity(grant.value) && r.value.request.envelope == grant.value.envelope
      ensures r.Ok? && (session, attempt) in old(store).attempts ==> store == old(store)
      ensures r.Ok? && (session, attempt) !in old(store).attempts ==>
                && r.value.state.RequestInCustody? && store.log == old(store).log + [AttemptLogged(session, attempt, RequestCustodied)]
                && store.attempts == Put(old(store).attempts, (session, attempt), r.value)
      ensures store.sessions == old(store).sessions && store.terminations == old(store).terminations
    {
      PrepareExact(activeWorkers, store, trail, session, attempt, headers, bytes, now);
      var reloaded := Reload(session, now);
      if reloaded.Err? {
        return Err(reloaded.error);
      }
      var capability := reloaded.value;
      if |bytes| == 0 || |bytes| > capability.inputBytes {
        return Err(WorkerProviderRequestTooLarge);
      }
      var request := NewRequest(capability, bytes, headers);
      SessionSound(store, trail, session);
      if (session, attempt) in store.attempts {
        AttemptSound(store, trail, (session, attempt));
        var existing := store.attempts[(session, attempt)].state;
        if !AttemptValid(session, attempt, existing) || existing.request != request || existing.principal != capability.principal {
          return Err(WorkerProviderAttemptMismatch);
        }
        return Ok(existing);
      }
      var record := Attempt(session, capability.principal, attempt, request, RequestInCustody);
      Commit(InstallBlob(bytes));
      Commit(AttemptStep(session, attempt, RequestCustodied, record, 0));
      r := Ok(record);
    }

    /** `worker_provider_begin_job` */
    function BeginJob(session: SessionId, attempt: AttemptId, now: Millis): (r: Result<Job, AgdError>)
      requires Valid()
      reads this
      ensures r.Ok? ==> Backed(store, r.value) && r.value.operation.Begin?
      ensures r.Ok? ==> r.value.session == session && r.value.attempt == attempt
      ensures r.Ok? ==>
                var record := store.attempts[(session, attempt)].state;
                && record.state.RequestInCustody? && r.value.operation.request == record.request
                && OfBytes(r.value.operation.bytes) == record.request.exactRequest
                && r.value.principal == record.principal && Reload(session, now) == Ok(r.value.capability)
    {
      var capability := Reload(session, now);
      if capability.Err? then Err(capability.error)
      else if (session, attempt) !in store.attempts then Err(WorkerProviderAttemptNotFound)
      else
        var record := store.attempts[(session, attempt)].state;
        if || record.principal != capability.value.principal
           || record.request.capability != CapabilityIdentity(capability.value)
           || !record.state.RequestInCustody?
        then Err(WorkerProviderAttemptMismatch)
        else if record.request.exactRequest !in store.blobs then Err(BlobUnreadable)
        else
          AttemptSound(store, trail, (session, attempt));
          var bytes := store.blobs[record.request.exactRequest];
          if |bytes| > capability.value.inputBytes then Err(BlobUnreadable)
          else Ok(Job(session, capability.value.principal, attempt, capability.value, Begin(record.request, bytes)))
    }

    /** `worker_provider_resume_job`: only the next lawful provider operation. */
    function ResumeJob(session: SessionId, attempt: AttemptId, now: Millis): (r: Result<Option<Job>, AgdError>)
      requires Valid()
      reads this
      ensures r.Ok? && r.value.Some? ==>
                && Backed(store, r.value.value) && r.value.value.session == session && r.value.value.attempt == attempt
                && (session, attempt) in store.attempts
                && (r.value.value.operation.Begin? <==> store.attempts[(session, attempt)].state.state.RequestInCustody?)
                && (r.value.value.operation.Acknowledge? <==> store.attempts[(session, attempt)].state.state.ResponseInCustody?)
      ensures r.Ok? && r.value.Some? && r.value.value.operation.Acknowledge? ==>
                var record, job := store.attempts[(session, attempt)].state, r.value.value;
                && job.operation.dispatch == record.state.dispatch && job.operation.stream == record.state.response.stream
                && job.operation.custodyRecord == record.state.response.custodyRecord
                && job.principal == record.principal && Reload(session, now) == Ok(job.capability)
      ensures r.Ok? && r.value.None? ==>
                (session, attempt) in store.attempts && store.attempts[(session, attempt)].state.state.Acknowledged?
    {
      var capability := Reload(session, now);
      if capability.Err? then Err(capability.error)
      else if (session, attempt) !in store.attempts then Err(WorkerProviderAttemptNotFound)
      else
        var record := store.attempts[(session, attempt)].state;
        if record.principal != capability.value.principal || record.request.capability != CapabilityIdentity(capability.value) then
          Err(WorkerProviderAttemptMismatch)
        else match record.state
          case RequestInCustody =>
            var begin := BeginJob(session, attempt, now);
            if begin.Err? then Err(begin.error) else Ok(Some(begin.value))
          case DispatchAvailable(_, _, _) => Err(WorkerProviderAttemptMismatch)
          case ResponseInCustody(_, _) =>
            Ok(Some(Job(session, capability.value.principal, attempt, capability.value,
                        Acknowledge(record.state.dispatch, record.state.response.stream, record.state.response.custodyRecord))))
          case Acknowledged(_, _, _) => Ok(None)
    }

    /** A known attempt of a worker whose grant is in force always has a next step,
        or none left, unless its request outgrew the grant. */
    lemma ResumesExactly(session: SessionId, attempt: AttemptId, now: Millis)
      requires Valid()
      ensures BeginJob(session, attempt, now).Ok? <==>
                && Reload(session, now).Ok? && (session, attempt) in store.attempts
                && store.attempts[(session, attempt)].state.state.RequestInCustody?
                && RequestWithin(store, (session, attempt), Reload(session, now).value.inputBytes)
      ensures ResumeJob(session, attempt, now).Ok? <==>
                && Reload(session, now).Ok? && (session, attempt) in store.attempts
                && (store.attempts[(session, attempt)].state.state.RequestInCustody? ==>
                      RequestWithin(store, (session, attempt), Reload(session, now).value.inputBytes))
    {
      if Reload(session, now).Ok? && (session, attempt) in store.attempts {
        AttemptSound(store, trail, (session, attempt));
        SessionSound(store, trail, session);
      }
    }

    /** `worker_provider_response`: bytes are shown only from exact local custody. */
    function Response(session: SessionId, attempt: AttemptId): (r: Result<WorkerView, AgdError>)
      requires Valid()
      reads this
      ensures r == ResponseIn(store, maxFrame, session, attempt)
      ensures (session, attempt) in store.attempts ==>
                var state := store.attempts[(session, attempt)].state.state;
                && (r == Ok(StillPending) <==> state.RequestInCustody?)
                && (r.Ok? && r.value != StillPending ==>
                      && state.HasResponse() && r.value.Available?
                      && r.value.stream == state.response.stream && r.value.terminal == state.response.terminal
                      && OfBytes(r.value.bytes) == r.value.stream)
                && (state.HasResponse() ==>
                      state.response.stream in store.blobs && (r.Err? <==> |store.blobs[state.response.stream]| > maxFrame))
    {
      if (session, attempt) !in store.attempts then ResponseIn(store, maxFrame, session, attempt)
      else
        AttemptSound(store, trail, (session, attempt));
        ResponseIn(store, maxFrame, session, attempt)
    }

    /** `worker_provider_live_response` */
    function LiveResponse(session: SessionId, attempt: AttemptId): (r: Result<WorkerView, AgdError>)
      requires Valid()
      reads this
      ensures r == LiveResponseIn(store, submitted, maxFrame, session, attempt)
      ensures r != Ok(Uncertain) ==> r == Response(session, attempt)
      ensures r == Ok(Uncertain) ==> Response(session, attempt) == Ok(StillPending)
      ensures r == Ok(Uncertain) <==>
                && Response(session, attempt) == Ok(StillPending)
                && exists job :: job in submitted && job.session == session && job.attempt == attempt && !job.operation.Terminate?
    {
      LiveResponseIn(store, submitted, maxFrame, session, attempt)
    }

    /** `queue_worker_provider_response`: one frame at a time. */
    method QueueWorkerProviderResponse(session: SessionId, attempt: AttemptId, answer: Answer) returns (r: Result<(), AgdError>)
      modifies this`unsent
      ensures match AnswerRefusal(activeWorkers, old(unsent), maxFrame, session, attempt, answer)
              case Some(error) => r == Err(error) && unsent == old(unsent)
              case None => r == Ok(()) && unsent
      ensures if session !in activeWorkers || activeWorkers[session].capability.None? then r == Err(WorkerRuntimeMissing)
              else if old(unsent) then r == Err(ProviderChannelBusy)
              else r == if AnswerLength(attempt, answer) <= maxFrame then Ok(()) else Err(ProviderFrameTooLarge)
    {
      var refused := AnswerRefusal(activeWorkers, unsent, maxFrame, session, attempt, answer);
      if refused.Some? {
        return Err(refused.value);
      }
      unsent := true;
      r := Ok(());
    }

    /** `flush_worker_provider_responses`: an undrained frame stays, and a channel
        that broke under one is an error. */
    method FlushWorkerProviderResponses(flush: Flush) returns (r: Result<(), AgdError>)
      modifies this`unsent
      ensures r == if activeWorkers.Keys != {} && old(unsent) && flush.Broken? then Err(ProviderChannelFrame) else Ok(())
      ensures unsent == (old(unsent) && !(activeWorkers.Keys != {} && flush.Drained?))
    {
      if activeWorkers.Keys == {} || !unsent {
        return Ok(());
      }
      if flush.Broken? {
        return Err(ProviderChannelFrame);
      }
      unsent := !flush.Drained?;
      r := Ok(());
    }

    /** The branch of reconciliation for a fetched response. */
    method ReconcileFetched(job: Job, dispatch: Digest, stream: Digest, bytes: Bytes, terminal: bool) returns (r: Result<Option<Job>, AgdError>)
      requires Valid() && ActiveWith(store, job.session, job.capability)
      requires (job.session, job.attempt) in store.attempts
      modifies this`store, this`trail
      ensures Valid() && old(trail) <= trail
      ensures var was := old(store).attempts[(job.session, job.attempt)].state;
              var settled := SettledFetch(was.request, was.state, dispatch, stream, bytes, terminal);
              && Reconciled(old(store), store, job, settled, r)
              && (r.Ok? ==> r.value == FollowUp(job, settled.value))
    {
      var k := (job.session, job.attempt);
      var loaded := store.attempts[k];
      AttemptSound(store, trail, k);
      if OfBytes(bytes) != stream {
        return Err(WorkerProviderAttemptMismatch);
      }
      var response := NewResponse(loaded.state.request.custodyRecord, stream, terminal);
      FetchOutcome(store, job, dispatch, stream, bytes, terminal);
      var fetched := ReconcileFetchedResponse(loaded.state, dispatch, response);
      if fetched.Err? {
        return Err(WorkerProviderAttemptMismatch);
      }
      var ack := job.(operation := Acknowledge(dispatch, stream, response.custodyRecord));
      match fetched.value.1
      case ExistingNeedsAcknowledgment =>
        return Ok(Some(ack));
      case ExistingAcknowledged =>
        return Ok(None);
      case NewlyCustodied =>
        FetchCarried(store, job, dispatch, stream, bytes, terminal);
        Commit(InstallBlob(bytes));
        Commit(AttemptStep(job.session, job.attempt, ResponseCustodied, fetched.value.0, loaded.revision));
        return Ok(Some(ack));
    }

    /** The branch of reconciliation for a provider acknowledgment. */
    method ReconcileAcknowledged(job: Job, returned: Digest, receipt: Digest) returns (r: Result<Option<Job>, AgdError>)
      requires Valid() && ActiveWith(store, job.session, job.capability) && job.operation.Acknowledge?
      requires (job.session, job.attempt) in store.attempts
      modifies this`store, this`trail
      ensures Valid() && old(trail) <= trail
      ensures var was := old(store).attempts[(job.session, job.attempt)].state;
              var settled := SettledAck(was.state, job.operation.dispatch, returned, receipt);
              && Reconciled(old(store), store, job, settled, r)
              && (r.Ok? ==> r.value == None)
    {
      var loaded := store.attempts[(job.session, job.attempt)];
      var dispatch := job.operation.dispatch;
      if dispatch != returned {
        return Err(WorkerProviderAttemptMismatch);
      }
      var state := loaded.state.state;
      var duplicate := state.Acknowledged? && state.dispatch == dispatch && state.receipt == receipt;
      AcknowledgmentCarried(store, job, dispatch, receipt);
      var acknowledged := ReconcileAcknowledgment(loaded.state, dispatch, receipt);
      if acknowledged.Err? {
        return Err(WorkerProviderAttemptMismatch);
      }
      if duplicate {
        return Ok(None);
      }
      Commit(AttemptStep(job.session, job.attempt, CustodyAcked, acknowledged.value, loaded.revision));
      r := Ok(None);
    }

    function Verdict(completion: Completion, now: Millis): Option<AttemptState>
      reads `activeWorkers, `store
    {
      VerdictIn(activeWorkers, store, completion, now)
    }

    /** `reconcile_provider_io_completion`: commits exactly the automaton's
        verdict, in at most one event, or refuses and changes nothing. */
    method ReconcileProviderIoCompletion(completion: Completion, now: Millis) returns (r: Result<Option<Job>, AgdError>)
      requires Valid()
      modifies this`store, this`trail
      ensures Valid() && old(trail) <= trail
      ensures r.Ok? <==> old(Verdict(completion, now)).Some?
      ensures r.Err? ==> store == old(store)
      ensures r.Ok? ==> Carried(old(store), store, completion.job, old(Verdict(completion, now)).value)
      ensures r.Ok? ==> r.value == if completion.result.Inference? then FollowUp(completion.job, old(Verdict(completion, now)).value) else None
      ensures r.Ok? <==>
                && old(Reload(completion.job.session, now)) == Ok(completion.job.capability)
                && completion.job.capability.principal == completion.job.principal && Agrees(old(store), completion)
      ensures r.Ok? ==> Testified(old(store), store, completion) && Owing(store, completion, r.value)
      ensures r.Err? ==>
                if old(Reload(completion.job.session, now)).Err? then r.error == old(Reload(completion.job.session, now)).error
                else if (completion.job.session, completion.job.attempt) in old(store).attempts then r.error == WorkerProviderAttemptMismatch
                else r.error in {WorkerProviderAttemptMismatch, WorkerProviderAttemptNotFound}
    {
      VerdictExact(activeWorkers, store, trail, completion, now);
      r := ReconcileByKind(completion, now);
      if r.Ok? {
        VerdictTestified(activeWorkers, old(store), store, trail, completion, now);
        VerdictOwing(activeWorkers, old(store), store, trail, completion, now, r.value);
      }
    }

    /** The checks of the grant and the attempt, then one branch for each kind of result. */
    method ReconcileByKind(completion: Completion, now: Millis) returns (r: Result<Option<Job>, AgdError>)
      requires Valid()
      modifies this`store, this`trail
      ensures Valid() && old(trail) <= trail
      ensures r.Ok? <==> old(Verdict(completion, now)).Some?
      ensures r.Err? ==> store == old(store)
      ensures r.Ok? ==> Carried(old(store), store, completion.job, old(Verdict(completion, now)).value)
      ensures r.Ok? ==> r.value == if completion.result.Inference? then FollowUp(completion.job, old(Verdict(completion, now)).value) else None
      ensures r.Err? ==>
                if old(Reload(completion.job.session, now)).Err? then r.error == old(Reload(completion.job.session, now)).error
                else if (completion.job.session, completion.job.attempt) in old(store).attempts then r.error == WorkerProviderAttemptMismatch
                else r.error in {WorkerProviderAttemptMismatch, WorkerProviderAttemptNotFound}
    {
      var job := completion.job;
      var current := Reload(job.session, now);
      if current.Err? {
        return Err(current.error);
      }
      if current.value != job.capability || current.value.principal != job.principal {
        return Err(WorkerProviderAttemptMismatch);
      }
      if (job.session, job.attempt) !in store.attempts {
        return Err(WorkerProviderAttemptNotFound);
      }
      var result := completion.result;
      if job.operation.Begin? && result.Inference? {
        r := ReconcileFetched(job, result.dispatch, result.stream, result.bytes, result.terminal);
      } else if job.operation.Acknowledge? && result.CustodyAcknowledged? {
        r := ReconcileAcknowledged(job, result.dispatch, result.receipt);
      } else if result.ProviderError? {
        r := Ok(None);
      } else {
        r := Err(WorkerProviderAttemptMismatch);
      }
    }

    /** `record_fenced_provider_completion`: late testimony is logged over an unchanged record. */
    method RecordFencedProviderCompletion(completion: Completion) returns (r: Result<(), AgdError>)
      requires Valid()
      modifies this`store, this`trail
      ensures Valid() && old(trail) <= trail
      ensures r.Err? ==> store == old(store)
      ensures r.Ok? <==>
                var job := completion.job;
                && !job.operation.Terminate?
                && IsTombstoned(old(store), job.session)
                && old(store).sessions[job.session].state.spec.principal == job.principal
                && old(store).sessions[job.session].state.spec.capability == Some(job.capability)
                && (job.session, job.attempt) in old(store).attempts
      ensures r.Ok? ==>
                var job := completion.job;
                && AttemptReplaced(old(store), store, job, LateResultObserved, old(store).attempts[(job.session, job.attempt)].state.state)
                && store.blobs == old(store).blobs
    {
      var job := completion.job;
      if job.operation.Terminate? {
        return Err(WorkerProviderAttemptMismatch);
      }
      if job.session !in store.sessions {
        return Err(SessionNotFound);
      }
      var session := store.sessions[job.session].state;
      if !session.authority.Tombstoned? || session.spec.principal != job.principal || session.spec.capability != Some(job.capability) {
        return Err(WorkerProviderAttemptMismatch);
      }
      var k := (job.session, job.attempt);
      if k !in store.attempts {
        return Err(WorkerProviderAttemptNotFound);
      }
      var loaded := store.attempts[k];
      AttemptSound(store, trail, k);
      if loaded.state.principal != job.principal || loaded.state.request.capability != CapabilityIdentity(job.capability) {
        return Err(WorkerProviderAttemptMismatch);
      }
      Commit(AttemptStep(job.session, job.attempt, LateResultObserved, loaded.state, loaded.revision));
      r := Ok(());
    }

    // ---------- Provider termination ----------

    /** `complete_worker_provider_cleanup`: completes behind both receipts. */
    method CompleteProviderCleanup(record: Termination, now: Millis) returns (r: Result<(), AgdError>)
      requires Valid() && record.session in store.terminations && store.terminations[record.session].state == record
      modifies this`store, this`trail
      ensures Valid() && old(trail) <= trail
      ensures r.Ok? <==> record.state.Terminated? && AwaitsCleanup(old(store), record.session)
      ensures r.Err? ==> store == old(store)
      ensures r.Ok? ==>
                && SameBut(old(store), store, record.session) && store.terminations == old(store).terminations
                && IsTombstoned(store, record.session)
                && store.sessions[record.session].state.candidate == old(store).sessions[record.session].state.candidate
                && store.sessions[record.session].state.authority.cleanup ==
                     Complete(CleanupAggregate(record.session, record.process, record.state.receipt), now)
    {
      if !record.state.Terminated? {
        return Err(WorkerProviderTerminationMismatch);
      }
      TerminalBindingMeans(store, trail, record.session);
      if !TerminalBinding(store, record) {
        return Err(WorkerProviderTerminationMismatch);
      }
      SessionSound(store, trail, record.session);
      var aggregate := CleanupAggregate(record.session, record.process, record.state.receipt);
      Commit(SessionStep(record.session, CompleteCleanup(aggregate, now), store.sessions[record.session].revision));
      r := Ok(());
    }

    /** The revocation of a provider-enabled session: recorded first, then handed out. */
    method RequestRevocation(session: SessionId, process: Digest, now: Millis) returns (r: Result<Option<Job>, AgdError>)
      requires Valid() && AwaitsCleanup(store, session) && ProviderEnabled(store, session)
      modifies this`store, this`trail
      ensures Valid() && old(trail) <= trail
      ensures r.Ok? <==> MayPrepare(old(store), session, process)
      ensures if r.Ok? then CleanupRequested(old(store), store, session, process, now, r.value) else store == old(store)
    {
      SessionSound(store, trail, session);
      var record := TerminationFor(store, session, process);
      if session !in store.terminations {
        RevocationRecorded(store, trail, session, process, now);
        Commit(TerminationStep(session, TerminationRequested, record, 0));
      } else if record.capability != store.sessions[session].state.spec.capability.value || record.process != process {
        return Err(WorkerProviderTerminationMismatch);
      } else if record.state.Terminated? {
        var completed := CompleteProviderCleanup(record, now);
        return Ok(None);
      }
      r := Ok(Some(TerminationJob(record)));
    }

    /** `prepare_worker_provider_termination` */
    method PrepareTermination(session: SessionId, process: Digest, now: Millis) returns (r: Result<Option<Job>, AgdError>)
      requires Valid()
      modifies this`store, this`trail
      ensures Valid() && old(trail) <= trail
      ensures r.Ok? <==> MayPrepare(old(store), session, process)
      ensures if r.Ok? then CleanupRequested(old(store), store, session, process, now, r.value) else store == old(store)
    {
      if session !in store.sessions {
        return Err(SessionNotFound);
      }
      var loaded := store.sessions[session];
      if !loaded.state.authority.Tombstoned? || !loaded.state.authority.cleanup.Pending? {
        return Err(WorkerProviderTerminationMismatch);
      }
      SessionSound(store, trail, session);
      if !TombstoneBinds(loaded.state.spec, loaded.state.authority.tombstone) {
        return Err(WorkerProviderTerminationMismatch);
      }
      if loaded.state.spec.capability.Some? {
        r := RequestRevocation(session, process, now);
      } else {
        Commit(SessionStep(session, CompleteCleanup(process, now), loaded.revision));
        r := Ok(None);
      }
    }

    function TerminationVerdict(completion: Completion): Option<TerminationState>
      reads `store
    {
      TerminationVerdictIn(store, completion)
    }

    /** A confirmed revocation: two commits, the record first, then the cleanup. */
    method ConfirmTermination(session: SessionId, receipt: Digest, now: Millis)
      requires Valid() && AwaitsCleanup(store, session)
      requires session in store.terminations && !store.terminations[session].state.state.Terminated?
      modifies this`store, this`trail
      ensures Valid() && old(trail) <= trail
      ensures var record := old(store).terminations[session].state.(state := Terminated(receipt));
              && SameBut(old(store), store, session) && IsTombstoned(store, session)
              && store.terminations == Put(old(store).terminations, session, record)
              && store.sessions[session].state.authority.cleanup == Complete(CleanupAggregate(session, record.process, receipt), now)
    {
      TerminationSound(store, trail, session);
      var loaded := store.terminations[session];
      var confirmed := loaded.state.(state := Terminated(receipt));
      Commit(TerminationStep(session, TerminationConfirmed, confirmed, loaded.revision));
      var completed := CompleteProviderCleanup(confirmed, now);
    }

    /** `reconcile_worker_provider_termination`: a confirmed revocation is final
        and completes cleanup behind both receipts; an unknown one is retained. */
    method ReconcileTermination(completion: Completion, now: Millis) returns (r: Result<(), AgdError>)
      requires Valid()
      modifies this`store, this`trail
      ensures Valid() && old(trail) <= trail
      ensures r.Ok? <==> old(TerminationVerdict(completion)).Some?
      ensures r.Err? ==> store == old(store)
      ensures r.Ok? ==> Revoked(old(store), store, completion.job.session, old(TerminationVerdict(completion)).value, now)
      ensures r.Ok? <==> RevocationAgrees(old(store), completion)
      ensures r.Ok? ==> RevocationTestified(old(store), store, completion, now)
    {
      RevocationExact(store, trail, completion);
      r := ReconcileRevocation(completion, now);
      if r.Ok? {
        RevokedTestified(old(store), store, completion, now);
      }
    }

    /** The checks of the record, then its confirmation or what is known instead. */
    method ReconcileRevocation(completion: Completion, now: Millis) returns (r: Result<(), AgdError>)
      requires Valid()
      modifies this`store, this`trail
      ensures Valid() && old(trail) <= trail
      ensures r.Ok? <==> old(TerminationVerdict(completion)).Some?
      ensures r.Err? ==> store == old(store)
      ensures r.Ok? ==> Revoked(old(store), store, completion.job.session, old(TerminationVerdict(completion)).value, now)
    {
      var job := completion.job;
      if !job.operation.Terminate? {
        return Err(WorkerProviderTerminationMismatch);
      }
      var session := job.session;
      if session !in store.terminations {
        return Err(WorkerProviderTerminationNotFound);
      }
      var loaded := store.terminations[session];
      var record := loaded.state;
      TerminalBindingMeans(store, trail, session);
      if job.principal != record.principal || job.capability != record.capability || job.attempt != TerminationAttempt(record.session) {
        return Err(WorkerProviderTerminationMismatch);
      }
      if record.state.Terminated? && completion.result.SessionTerminated? {
        if record.state.receipt != completion.result.receipt {
          return Err(WorkerProviderTerminationMismatch);
        }
        return Ok(());
      }
      if !TerminalBinding(store, record) {
        return Err(WorkerProviderTerminationMismatch);
      }
      if completion.result.SessionTerminated? {
        ConfirmTermination(session, completion.result.receipt, now);
        r := Ok(());
      } else if completion.result.ProviderError? {
        if Utf8Length(completion.result.message) > 1024 || record.state.Terminated? {
          return Err(WorkerProviderTerminationMismatch);
        }
        var unknown := record.(state := Indeterminate(completion.result.code, completion.result.message, completion.result.correlation));
        Commit(TerminationStep(session, TerminationUnknown, unknown, loaded.revision));
        r := Ok(());
      } else {
        r := Err(WorkerProviderTerminationMismatch);
      }
    }

    /** The body of the scan for a session whose cleanup is pending. */
    method ScanPending(entity: SessionId, now: Millis)
      requires Valid() && AwaitsCleanup(store, entity) && |pending| < TERMINATION_LIMIT
      modifies this`store, this`trail, this`pending, this`cursor, this`scanComplete
      ensures Valid() && old(trail) <= trail
      ensures SameBut(old(store), store, entity) && Scanned(old(store), store, entity, now)
      ensures |pending| <= |old(pending)| + 1 && old(pending) <= pending
      ensures cursor == old(cursor) && scanComplete == old(scanComplete)
      ensures old(Prompt()) ==> Prompt()
      ensures AwaitsCleanup(store, entity) ==>
                && ProviderEnabled(store, entity) && entity in store.terminations && !store.terminations[entity].state.state.Terminated?
                && (TerminationJob(store.terminations[entity].state) in pending || TerminationJob(store.terminations[entity].state) in submitted)
    {
      ScanMayPrepare(store, entity);
      var prepared := PrepareTermination(entity, ScanReceipt(store, entity), now);
      if prepared.value.Some? {
        QueueProviderJobOnce(prepared.value.value);
      }
      if old(Prompt()) {
        CleanupKeepsDue(old(store), old(trail), store, entity, ScanReceipt(old(store), entity), now, prepared.value, old(pending), pending, submitted);
      }
    }

    /** One session of the recovery scan. */
    method ScanSession(entity: SessionId, now: Millis)
      requires Valid() && |pending| < TERMINATION_LIMIT && NextPast(store.sessions.Keys, cursor, entity)
      modifies this`store, this`trail, this`pending, this`cursor, this`scanComplete
      ensures Valid() && old(trail) <= trail
      ensures (old(Covered()) ==> Covered()) && (old(Prompt()) ==> Prompt())
      ensures |pending| <= |old(pending)| + 1
      ensures cursor == Some(entity) && scanComplete == old(scanComplete)
      ensures store.sessions.Keys == old(store).sessions.Keys && Scanned(old(store), store, entity, now)
      ensures store.attempts == old(store).attempts
      ensures forall s :: s in old(store).sessions && s != entity ==> Untouched(old(store), store, s)
    {
      cursor := Some(entity);
      var loaded := store.sessions[entity].state;
      if loaded.authority.Tombstoned? && loaded.authority.cleanup.Pending? {
        ScanPending(entity, now);
      }
      OthersUntouched(old(store), store, entity);
      if old(Covered()) {
        assert old(LookedAfter(store, activeWorkers.Keys, pending, submitted, cursor, scanComplete, entity));
        ScanPasses(entity);
      }
    }

    /** The scan moving past one session costs no other its cover. */
    twostate lemma ScanPasses(entity: SessionId)
      requires old(Covered()) && old(NextPast(store.sessions.Keys, cursor, entity))
      requires store.sessions.Keys == old(store).sessions.Keys && activeWorkers == old(activeWorkers)
      requires forall s :: s in store.sessions && s != entity ==> Untouched(old(store), store, s)
      requires old(pending) <= pending && submitted == old(submitted)
      requires cursor == Some(entity) && scanComplete == old(scanComplete)
      requires LookedAfter(store, activeWorkers.Keys, pending, submitted, cursor, scanComplete, entity)
      ensures Covered()
    {
      forall s | s in store.sessions
        ensures LookedAfter(store, activeWorkers.Keys, pending, submitted, cursor, scanComplete, s)
      {
        if s != entity {
          assert old(LookedAfter(store, activeWorkers.Keys, pending, submitted, cursor, scanComplete, s));
          StaysLookedAfter(old(store), store, activeWorkers.Keys, activeWorkers.Keys, old(pending), pending, submitted,
                           old(cursor), scanComplete, cursor, scanComplete, s);
        }
      }
    }

    /** The next session of a scan that began in `start` at the cursor `from`. */
    method ScanNext(ghost start: Store, ghost from: Option<SessionId>, entity: SessionId, now: Millis)
      requires Valid() && |pending| < TERMINATION_LIMIT && ScannedTo(start, store, from, cursor, now)
      requires NextPast(start.sessions.Keys, cursor, entity) && After(from, entity)
      modifies this`store, this`trail, this`pending, this`cursor, this`scanComplete
      ensures Valid() && old(trail) <= trail
      ensures (old(Covered()) ==> Covered()) && (old(Prompt()) ==> Prompt())
      ensures |pending| <= |old(pending)| + 1
      ensures cursor == Some(entity) && scanComplete == old(scanComplete)
      ensures ScannedTo(start, store, from, cursor, now)
    {
      ScanSession(entity, now);
      ScannedToNext(start, old(store), store, from, old(cursor), entity, now);
    }

    /** Scans one page, which is no longer than the room left in the queue. */
    method ScanPage(entities: seq<SessionId>, now: Millis)
      requires Valid() && !scanComplete && |pending| + |entities| <= TERMINATION_LIMIT
      requires Walks(store.sessions.Keys, cursor, entities)
      modifies this`store, this`trail, this`pending, this`cursor, this`scanComplete
      ensures Valid() && old(trail) <= trail
      ensures (old(Covered()) ==> Covered()) && (old(Prompt()) ==> Prompt())
      ensures ScannedTo(old(store), store, old(cursor), cursor, now)
      ensures |pending| <= TERMINATION_LIMIT && !scanComplete
      ensures cursor == Reached(old(cursor), entities, |entities|)
    {
      ghost var start, from := store, cursor;
      var i := 0;
      while i < |entities|
        invariant 0 <= i <= |entities|
        invariant Valid() && old(trail) <= trail
        invariant (old(Covered()) ==> Covered()) && (old(Prompt()) ==> Prompt())
        invariant ScannedTo(start, store, from, cursor, now)
        invariant |pending| <= |old(pending)| + i
        invariant cursor == Reached(from, entities, i) && !scanComplete
      {
        assert WalksAt(start.sessions.Keys, from, entities, i);
        WalksPast(start.sessions.Keys, from, entities, i);
        ScanNext(start, from, entities[i], now);
        i := i + 1;
      }
    }

    /** `refill_pending_provider_terminations`: at most one page of the scan.
        A page is no longer than the room left, so no revocation found here is
        ever turned away, and the stored process receipt is reused, so none is
        refused. */
    method RefillPendingProviderTerminations(now: Millis)
      requires Valid()
      modifies this`store, this`trail, this`pending, this`cursor, this`scanComplete
      ensures Valid() && old(trail) <= trail
      ensures (old(Covered()) ==> Covered()) && (old(Prompt()) ==> Prompt())
      ensures ScannedTo(old(store), store, old(cursor), cursor, now)
      ensures |pending| <= if |old(pending)| < TERMINATION_LIMIT then TERMINATION_LIMIT else |old(pending)|
      ensures !old(scanComplete) && |old(pending)| < TERMINATION_LIMIT && KeysAfter(old(store).sessions.Keys, old(cursor)) == {} ==>
                scanComplete && store == old(store) && pending == old(pending)
      ensures if old(scanComplete) || |old(pending)| >= TERMINATION_LIMIT then
                store == old(store) && cursor == old(cursor) && pending == old(pending) && scanComplete == old(scanComplete)
              else
                && Advanced(store.sessions.Keys, old(cursor), cursor, TERMINATION_LIMIT - |old(pending)|, scanComplete)
                && (scanComplete ==> cursor == old(cursor) && KeysAfter(store.sessions.Keys, cursor) == {})
    {
      if scanComplete || |pending| >= TERMINATION_LIMIT {
        return;
      }
      var remaining := TERMINATION_LIMIT - |pending|;
      var limit := if SCAN_BATCH < remaining then SCAN_BATCH else remaining;
      var entities := Page(store.sessions.Keys, cursor, limit);
      PageEmpty(store.sessions.Keys, cursor, limit);
      PageAdvances(store.sessions.Keys, cursor, limit);
      if entities == [] {
        ScanKeepsAll();
        scanComplete := true;
      } else {
        ScanPage(entities, now);
      }
    }

    /** With nothing ahead of the cursor, ending the scan costs no session its cover. */
    lemma ScanKeepsAll()
      requires KeysAfter(store.sessions.Keys, cursor) == {}
      ensures Covered() ==> forall s :: s in store.sessions ==>
                LookedAfter(store, activeWorkers.Keys, pending, submitted, cursor, true, s)
    {
      if Covered() {
        forall s | s in store.sessions
          ensures LookedAfter(store, activeWorkers.Keys, pending, submitted, cursor, true, s)
        {
          assert LookedAfter(store, activeWorkers.Keys, pending, submitted, cursor, scanComplete, s);
          assert s !in KeysAfter(store.sessions.Keys, cursor);
        }
      }
    }

    /** Revocations may move from the queue to the channel without losing their cover. */
    twostate lemma MovesKeepCover()
      requires old(Durable(store, trail))
      requires store.sessions == old(store).sessions && store.terminations == old(store).terminations
      requires activeWorkers == old(activeWorkers) && cursor == old(cursor) && scanComplete == old(scanComplete)
      requires forall job: Job :: job.operation.Terminate? && (job in old(pending) || job in old(submitted)) ==> job in pending || job in submitted
      ensures old(Covered()) ==> Covered()
    {
      if old(Covered()) {
        forall s | s in store.sessions
          ensures LookedAfter(store, activeWorkers.Keys, pending, submitted, cursor, scanComplete, s)
        {
          assert s in old(store).terminations ==> old(store).terminations[s].state.session == s by {
            RunInv(old(trail), |old(trail)| - 1);
          }
          StaysLookedAfterMove(old(store), store, activeWorkers.Keys, old(pending), old(submitted), pending, submitted, cursor, scanComplete, s);
        }
      }
    }

    // ---------- Worker lifecycle ----------

    /** Nothing but this session's own records changed, no queued job was lost,
        and the scan did not move past anyone. */
    twostate predicate Handled(session: SessionId)
      reads `store, `activeWorkers, `pending, `submitted, `cursor, `scanComplete
    {
      && SameBut(old(store), store, session)
      && OnlyAdded(old(activeWorkers), activeWorkers, old(pending), pending, old(submitted), submitted, session)
      && NotPast(old(cursor), old(scanComplete), cursor, scanComplete)
    }

    twostate lemma OthersLookedAfter(session: SessionId)
      requires Handled(session) && session in store.sessions && old(CoveredBut({session}))
      ensures CoveredBut({session})
      ensures Covered() <==> LookedAfter(store, activeWorkers.Keys, pending, submitted, cursor, scanComplete, session)
    {
      forall s | s in store.sessions && s != session
        ensures LookedAfter(store, activeWorkers.Keys, pending, submitted, cursor, scanComplete, s)
      {
        assert s in old(activeWorkers).Keys + {session} ==> s in activeWorkers.Keys;
        StaysLookedAfter(old(store), store, old(activeWorkers).Keys, activeWorkers.Keys, old(pending), pending, submitted,
                         old(cursor), old(scanComplete), cursor, scanComplete, s);
      }
    }

    lemma CoveredWithout(session: SessionId)
      requires Covered()
      ensures CoveredBut({session})
    {
    }

    /** The common end of every retirement: record the revocation and queue its job. */
    method RequestCleanup(session: SessionId, process: Digest, now: Millis)
      requires Valid() && MayPrepare(store, session, process)
      modifies this`store, this`trail, this`pending, this`cursor, this`scanComplete
      ensures Valid() && old(trail) <= trail
      ensures Handled(session) && ReceiptHeld(store, session, process, now)
      ensures store.sessions[session].state.candidate == old(store).sessions[session].state.candidate
      ensures LookedAfter(store, {}, pending, submitted, cursor, scanComplete, session)
      ensures old(Prompt()) ==> Prompt()
    {
      var prepared := PrepareTermination(session, process, now);
      if prepared.value.Some? {
        QueueProviderJobOnce(prepared.value.value);
      }
      if old(Prompt()) {
        CleanupKeepsDue(old(store), old(trail), store, session, process, now, prepared.value, old(pending), pending, submitted);
      }
      CleanupLookedAfter(old(store), store, session, process, now, prepared.value, activeWorkers, old(pending), pending, submitted, cursor, scanComplete);
    }

    /** The tombstone commit. */
    method Retire(session: SessionId, reason: Reason, at: Millis)
      requires Valid() && session in store.sessions && !IsTombstoned(store, session)
      modifies this`store, this`trail
      ensures Valid() && old(trail) <= trail
      ensures SameBut(old(store), store, session) && store.terminations == old(store).terminations
      ensures AwaitsCleanup(store, session) && session !in store.terminations
      ensures store.sessions[session].state.authority.tombstone == Tombstone(session, old(store).sessions[session].state.spec.principal, reason, at)
      ensures |trail| == |old(trail)| + 1
    {
      SessionSound(store, trail, session);
      assert session !in store.terminations by {
        if session in store.terminations {
          TerminationSound(store, trail, session);
        }
      }
      var loaded := store.sessions[session];
      Commit(SessionStep(session, Custody.Retire(Tombstone(session, loaded.state.spec.principal, reason, at)), loaded.revision));
    }

    /** The tombstone first, then the process, then the revocation. When the
        process cannot be stopped the session is left tombstoned without a
        revocation, and is covered only by a scan that has yet to reach it. */
    method RetireAndStop(session: SessionId, reason: Reason, at: Millis, receipt: Digest, now: Millis, terminates: bool)
      requires Valid() && session in store.sessions && !IsTombstoned(store, session)
      modifies this`store, this`trail, this`pending, this`cursor, this`scanComplete
      ensures Valid() && old(trail) <= trail
      ensures Handled(session) && IsTombstoned(store, session)
      ensures store.sessions[session].state.authority.tombstone == Tombstone(session, old(store).sessions[session].state.spec.principal, reason, at)
      ensures old(Prompt()) ==> Prompt()
      ensures terminates ==> ReceiptHeld(store, session, receipt, now)
      ensures !terminates ==> cursor == old(cursor) && scanComplete == old(scanComplete)
      ensures old(CoveredBut({session})) ==>
                (Covered() <==> terminates || !ProviderEnabled(store, session) || Ahead(cursor, scanComplete, session))
    {
      Retire(session, reason, at);
      ghost var retired := store;
      if terminates {
        RequestCleanup(session, receipt, now);
        SameButTransitive(old(store), retired, store, session);
      }
      if old(CoveredBut({session})) {
        OthersLookedAfter(session);
      }
    }

    /** A fence over a tombstone that stands already. */
    method FenceAgain(session: SessionId, reason: Reason, at: Millis, now: Millis, terminates: bool) returns (r: Result<(), AgdError>)
      requires Valid() && IsTombstoned(store, session)
      modifies this`store, this`trail, this`pending, this`cursor, this`scanComplete, this`recoveryRequired
      ensures Valid() && old(trail) <= trail
      ensures r.Ok? <==> terminates && Fenceable(old(store), session, reason, at)
      ensures Handled(session) && IsTombstoned(store, session)
      ensures store.sessions[session].state.authority.tombstone == old(store).sessions[session].state.authority.tombstone
      ensures old(store).sessions[session].state.authority.tombstone
              != Tombstone(session, old(store).sessions[session].state.spec.principal, reason, at) ==>
                r == Err(WorkerRecoveryRequired) && store == old(store)
      ensures recoveryRequired == (old(recoveryRequired) || !SameTombstone(old(store), session, reason, at))
      ensures !terminates ==> cursor == old(cursor) && scanComplete == old(scanComplete)
      ensures old(Prompt()) ==> Prompt()
      ensures r.Ok? ==> ReceiptHeld(store, session, ProcessCleanup(session, reason, at), now)
      ensures r.Ok? && old(CoveredBut({session})) ==> Covered()
    {
      if !SameTombstone(store, session, reason, at) {
        recoveryRequired := true;
        return Err(WorkerRecoveryRequired);
      }
      if !terminates {
        return Err(WorkerProcessStuck);
      }
      if !MayPrepare(store, session, ProcessCleanup(session, reason, at)) {
        return Err(WorkerProviderTerminationMismatch);
      }
      RequestCleanup(session, ProcessCleanup(session, reason, at), now);
      if old(CoveredBut({session})) {
        OthersLookedAfter(session);
      }
      r := Ok(());
    }

    /** `fence_and_cleanup_runtime` */
    method FenceAndCleanup(session: SessionId, reason: Reason, at: Millis, now: Millis, terminates: bool) returns (r: Result<(), AgdError>)
      requires Valid() && session in store.sessions
      modifies this`store, this`trail, this`pending, this`cursor, this`scanComplete, this`recoveryRequired
      ensures Valid() && old(trail) <= trail
      ensures r.Ok? <==> terminates && Fenceable(old(store), session, reason, at)
      ensures Handled(session) && IsTombstoned(store, session)
      ensures old(Prompt()) ==> Prompt()
      ensures recoveryRequired ==
              (old(recoveryRequired) || (IsTombstoned(old(store), session) && !SameTombstone(old(store), session, reason, at)))
      ensures !terminates ==> cursor == old(cursor) && scanComplete == old(scanComplete)
      ensures !IsTombstoned(old(store), session) || r.Ok? ==> SameTombstone(store, session, reason, at)
      ensures !IsTombstoned(old(store), session) && old(CoveredBut({session})) ==>
                (Covered() <==> r.Ok? || !ProviderEnabled(store, session) || Ahead(cursor, scanComplete, session))
      ensures r.Ok? && old(CoveredBut({session})) ==> Covered()
      ensures r.Ok? ==> ReceiptHeld(store, session, ProcessCleanup(session, reason, at), now)
    {
      if store.sessions[session].state.authority.Tombstoned? {
        r := FenceAgain(session, reason, at, now, terminates);
      } else {
        RetireAndStop(session, reason, at, ProcessCleanup(session, reason, at), now, terminates);
        r := if terminates then Ok(()) else Err(WorkerProcessStuck);
      }
    }

    /** The second half of a cancellation, once the tombstone stands. */
    method StopCancelled(session: SessionId, receipt: Digest, now: Millis, terminates: bool) returns (r: Result<(), AgdError>)
      requires Valid() && IsTombstoned(store, session)
      modifies this`store, this`trail, this`pending, this`cursor, this`scanComplete, this`activeWorkers
      ensures Valid() && old(trail) <= trail
      ensures r.Ok? <==> session in old(activeWorkers) && terminates && MayPrepare(old(store), session, receipt)
      ensures r.Err? ==> store == old(store) && pending == old(pending) && cursor == old(cursor) && scanComplete == old(scanComplete)
      ensures r.Ok? ==> ReceiptHeld(store, session, receipt, now) && LookedAfter(store, {}, pending, submitted, cursor, scanComplete, session)
      ensures Handled(session) && IsTombstoned(store, session) && session !in activeWorkers
      ensures old(Prompt()) ==> Prompt()
    {
      if session !in activeWorkers {
        return Err(WorkerRuntimeMissing);
      }
      LastRuntime(activeWorkers, store, session);
      activeWorkers := activeWorkers - {session};
      if !terminates {
        return Err(WorkerProcessStuck);
      }
      if !MayPrepare(store, session, receipt) {
        return Err(WorkerProviderTerminationMismatch);
      }
      RequestCleanup(session, receipt, now);
      r := Ok(());
    }

    /** Cancellation of a session that is still live. */
    method CancelLive(session: SessionId, reason: Reason, at: Millis, now: Millis, terminates: bool) returns (r: Result<(), AgdError>)
      requires Valid() && session in store.sessions && !IsTombstoned(store, session)
      modifies this`store, this`trail, this`pending, this`cursor, this`scanComplete, this`activeWorkers
      ensures Valid() && old(trail) <= trail
      ensures r.Ok? <==> terminates && session in old(activeWorkers)
      ensures r.Ok? ==> ReceiptHeld(store, session, CancelCleanup(session, reason, at), now)
      ensures IsTombstoned(store, session) && session !in activeWorkers
      ensures old(Prompt()) ==> Prompt()
      ensures store.sessions[session].state.authority.tombstone == Tombstone(session, old(store).sessions[session].state.spec.principal, reason, at)
      ensures r.Err? ==> cursor == old(cursor) && scanComplete == old(scanComplete)
      ensures old(Covered()) ==>
                (Covered() <==> r.Ok? || !ProviderEnabled(store, session) || Ahead(cursor, scanComplete, session))
    {
      ghost var others := CoveredBut({session});
      Retire(session, reason, at);
      ghost var retired := store;
      r := StopCancelled(session, CancelCleanup(session, reason, at), now, terminates);
      SameButTransitive(old(store), retired, store, session);
      if others {
        OthersLookedAfter(session);
      }
    }

    /** `cancel_worker`: the tombstone is committed before the runtime is looked
        for and its process stopped. If that fails the daemon keeps running, and
        the session is covered exactly when the scan has yet to reach it. */
    method CancelWorker(session: SessionId, evidence: Digest, at: Millis, now: Millis, terminates: bool) returns (r: Result<(), AgdError>)
      requires Valid()
      modifies this`store, this`trail, this`pending, this`cursor, this`scanComplete, this`activeWorkers
      ensures Valid() && old(trail) <= trail
      ensures old(Prompt()) ==> Prompt()
      ensures session !in old(store).sessions ==> r == Err(SessionNotFound) && store == old(store)
      ensures session in old(store).sessions ==> IsTombstoned(store, session)
      ensures r.Err? ==> cursor == old(cursor) && scanComplete == old(scanComplete)
      ensures session in old(store).sessions && !IsTombstoned(old(store), session) ==>
                && (r.Ok? <==> terminates && session in old(activeWorkers))
                && session !in activeWorkers
                && store.sessions[session].state.authority.tombstone ==
                     Tombstone(session, old(store).sessions[session].state.spec.principal, Cancelled(evidence), at)
                && (old(Covered()) ==>
                      (Covered() <==> r.Ok? || !ProviderEnabled(store, session) || Ahead(cursor, scanComplete, session)))
      ensures r.Ok? ==> ReceiptHeld(store, session, CancelCleanup(session, Cancelled(evidence), at), now)
      ensures (session !in old(store).sessions || IsTombstoned(old(store), session)) && old(Covered()) ==> Covered()
      ensures IsTombstoned(old(store), session) ==>
                if old(store).sessions[session].state.authority.tombstone
                   != Tombstone(session, old(store).sessions[session].state.spec.principal, Cancelled(evidence), at)
                then r == Err(ChangedRetry) && store == old(store) && activeWorkers == old(activeWorkers)
                else
                  (r.Ok? <==> session in old(activeWorkers) && terminates
                              && MayPrepare(old(store), session, CancelCleanup(session, Cancelled(evidence), at)))
    {
      if session !in store.sessions {
        return Err(SessionNotFound);
      }
      var reason := Cancelled(evidence);
      var loaded := store.sessions[session].state;
      if !loaded.authority.Tombstoned? {
        r := CancelLive(session, reason, at, now, terminates);
      } else if loaded.authority.tombstone != Tombstone(session, loaded.spec.principal, reason, at) {
        r := Err(ChangedRetry);
      } else {
        if old(Covered()) {
          CoveredWithout(session);
        }
        r := StopCancelled(session, CancelCleanup(session, reason, at), now, terminates);
        if old(Covered()) {
          OthersLookedAfter(session);
        }
      }
    }

    /** The gate before a launch. */
    function LaunchRefusal(spec: Spec): Option<AgdError>
      reads `recoveryRequired, `activeWorkers, `providerAttached, `store
    {
      if recoveryRequired then Some(WorkerRecoveryRequired)
      else if activeWorkers != map[] then Some(WorkerCapacityExhausted)
      else if spec.capability.Some? && !providerAttached then Some(WorkerProviderRuntimeUnavailable)
      else if spec.session in store.sessions then Some(WorkerRecoveryRequired)
      else None
    }

    /** The durable binding of a new worker: prepared, then active. */
    method BindSession(spec: Spec, launchReceipt: Digest, activates: bool)
      requires Valid() && SpecOk(spec) && spec.session !in store.sessions
      modifies this`store, this`trail
      ensures Valid() && old(trail) <= trail
      ensures spec.session in store.sessions
      ensures store.sessions == old(store).sessions[spec.session := store.sessions[spec.session]]
      ensures store.terminations == old(store).terminations && store.attempts == old(store).attempts
      ensures store.sessions[spec.session].state == Session(spec, if activates then Active(launchReceipt) else Prepared, NoCandidate)
    {
      Commit(PrepareSession(spec));
      if activates {
        Commit(SessionStep(spec.session, Activate(launchReceipt), store.sessions[spec.session].revision));
      }
    }

    /** A new session takes nothing from the others. */
    twostate lemma NewcomerAside(session: SessionId)
      requires session in store.sessions
      requires store.sessions == old(store).sessions[session := store.sessions[session]] && store.terminations == old(store).terminations
      requires activeWorkers == old(activeWorkers) && pending == old(pending) && submitted == old(submitted)
      requires cursor == old(cursor) && scanComplete == old(scanComplete)
      ensures old(Covered()) ==> CoveredBut({session})
    {
      if old(Covered()) {
        forall s | s in store.sessions && s != session
          ensures LookedAfter(store, activeWorkers.Keys, pending, submitted, cursor, scanComplete, s)
        {
          StaysLookedAfter(old(store), store, activeWorkers.Keys, activeWorkers.Keys, pending, pending, submitted,
                           cursor, scanComplete, cursor, scanComplete, s);
        }
      }
    }

    /** A launch whose activation failed: its prepared session is retired at once. */
    method AbortPrepared(spec: Spec, launchReceipt: Digest, reason: Reason, at: Millis, now: Millis, terminates: bool)
      requires Valid() && SpecOk(spec) && spec.session !in store.sessions
      modifies this`store, this`trail, this`pending, this`cursor, this`scanComplete, this`recoveryRequired
      ensures Valid() && old(trail) <= trail
      ensures old(Prompt()) ==> Prompt()
      ensures LaunchAborted(store, spec, reason, at, None)
      ensures recoveryRequired == (old(recoveryRequired) || !terminates)
      ensures !terminates ==> cursor == old(cursor) && scanComplete == old(scanComplete)
      ensures terminates ==> ReceiptHeld(store, spec.session, ActivationFailureCleanup(spec.session, reason, at), now)
      ensures old(Covered()) ==>
                (Covered() <==> terminates || spec.capability.None? || Ahead(cursor, scanComplete, spec.session))
    {
      BindSession(spec, launchReceipt, false);
      NewcomerAside(spec.session);
      RetireAndStop(spec.session, reason, at, ActivationFailureCleanup(spec.session, reason, at), now, terminates);
      if !terminates {
        recoveryRequired := true;
      }
    }

    /** A launch past its deadline, or whose gate failed: its active session is fenced at once. */
    method AbortActive(spec: Spec, launchReceipt: Digest, reason: Reason, at: Millis, now: Millis, terminates: bool)
      requires Valid() && SpecOk(spec) && spec.session !in store.sessions
      modifies this`store, this`trail, this`pending, this`cursor, this`scanComplete, this`recoveryRequired
      ensures Valid() && old(trail) <= trail
      ensures old(Prompt()) ==> Prompt()
      ensures LaunchAborted(store, spec, reason, at, Some(launchReceipt))
      ensures recoveryRequired == old(recoveryRequired)
      ensures !terminates ==> cursor == old(cursor) && scanComplete == old(scanComplete)
      ensures terminates ==> ReceiptHeld(store, spec.session, ProcessCleanup(spec.session, reason, at), now)
      ensures old(Covered()) ==>
                (Covered() <==> terminates || spec.capability.None? || Ahead(cursor, scanComplete, spec.session))
    {
      BindSession(spec, launchReceipt, true);
      NewcomerAside(spec.session);
      var fenced := FenceAndCleanup(spec.session, reason, at, now, terminates);
    }

    /** `launch_worker`, from the durable binding on: at most one worker is live,
        a released one is active and attended, and one that is not released
        leaves only a tombstone. */
    method LaunchWorker(spec: Spec, launchReceipt: Digest, outcome: LaunchOutcome, at: Millis, now: Millis, terminates: bool)
      returns (r: Result<(), AgdError>)
      requires Valid() && SpecOk(spec)
      modifies this`store, this`trail, this`pending, this`cursor, this`scanComplete, this`recoveryRequired, this`activeWorkers, this`unsent
      ensures Valid() && old(trail) <= trail
      ensures old(Prompt()) ==> Prompt()
      ensures r.Ok? <==> old(LaunchRefusal(spec)).None? && outcome.Released?
      ensures LaunchGated(old(recoveryRequired), old(activeWorkers), providerAttached, old(store), spec, outcome.Released?, r)
      ensures unsent == (old(unsent) && r.Err?)
      ensures !terminates ==> cursor == old(cursor) && scanComplete == old(scanComplete)
      ensures r.Ok? ==>
                && activeWorkers == map[spec.session := spec]
                && spec.session in store.sessions && store.sessions[spec.session].state == Session(spec, Active(launchReceipt), NoCandidate)
                && cursor == old(cursor) && scanComplete == old(scanComplete)
                && pending == old(pending) && store.attempts == old(store).attempts
                && (old(Covered()) ==> Covered())
      ensures old(LaunchRefusal(spec)).Some? ==>
                && r == Err(old(LaunchRefusal(spec)).value) && store == old(store)
                && (old(Covered()) ==> Covered())
      ensures r.Err? && old(LaunchRefusal(spec)).None? ==>
                && LaunchAborted(store, spec, LaunchFailure(outcome), at, if outcome.ActivationFailed? then None else Some(launchReceipt))
                && LaunchFailure(outcome) ==
                   Failed(if outcome.ActivationFailed? then ACTIVATION_FAILED else if outcome.DeadlineExpired? then DEADLINE_EXPIRED else RELEASE_FAILED)
                && activeWorkers == map[]
                && (terminates ==> ReceiptHeld(store, spec.session, AbortReceipt(spec.session, outcome, at), now))
                && (old(Covered()) ==>
                      (Covered() <==> terminates || spec.capability.None? || Ahead(cursor, scanComplete, spec.session)))
      ensures recoveryRequired <==>
                || old(recoveryRequired) || old(LaunchRefusal(spec)) == Some(WorkerRecoveryRequired)
                || (old(LaunchRefusal(spec)).None? && outcome.ActivationFailed? && !terminates)
    {
      var refusal := LaunchRefusal(spec);
      if refusal.Some? {
        if !recoveryRequired && activeWorkers == map[] && (spec.capability.Some? ==> providerAttached) {
          recoveryRequired := true;
        }
        return Err(refusal.value);
      }
      r := LaunchBound(spec, launchReceipt, outcome, at, now, terminates);
    }

    /** The same past the gates. */
    method LaunchBound(spec: Spec, launchReceipt: Digest, outcome: LaunchOutcome, at: Millis, now: Millis, terminates: bool)
      returns (r: Result<(), AgdError>)
      requires Valid() && SpecOk(spec) && spec.session !in store.sessions && activeWorkers == map[]
      modifies this`store, this`trail, this`pending, this`cursor, this`scanComplete, this`recoveryRequired, this`activeWorkers, this`unsent
      ensures Valid() && old(trail) <= trail
      ensures old(Prompt()) ==> Prompt()
      ensures r.Ok? <==> outcome.Released?
      ensures unsent == (old(unsent) && r.Err?)
      ensures !terminates ==> cursor == old(cursor) && scanComplete == old(scanComplete)
      ensures r.Ok? ==>
                && activeWorkers == map[spec.session := spec]
                && spec.session in store.sessions && store.sessions[spec.session].state == Session(spec, Active(launchReceipt), NoCandidate)
                && cursor == old(cursor) && scanComplete == old(scanComplete)
                && pending == old(pending) && store.attempts == old(store).attempts
                && (old(Covered()) ==> Covered())
      ensures r.Err? ==>
                && LaunchAborted(store, spec, LaunchFailure(outcome), at, if outcome.ActivationFailed? then None else Some(launchReceipt))
                && activeWorkers == map[]
                && (terminates ==> ReceiptHeld(store, spec.session, AbortReceipt(spec.session, outcome, at), now))
                && (old(Covered()) ==>
                      (Covered() <==> terminates || spec.capability.None? || Ahead(cursor, scanComplete, spec.session)))
      ensures recoveryRequired == (old(recoveryRequired) || (outcome.ActivationFailed? && !terminates))
    {
      match outcome
      case Released =>
        BindSession(spec, launchReceipt, true);
        NewcomerAside(spec.session);
        activeWorkers, unsent := map[spec.session := spec], false;
        r := Ok(());
      case ActivationFailed =>
        AbortPrepared(spec, launchReceipt, LaunchFailure(outcome), at, now, terminates);
        r := Err(if terminates then WorkerLaunchFailed else WorkerRecoveryRequired);
      case DeadlineExpired =>
        AbortActive(spec, launchReceipt, LaunchFailure(outcome), at, now, terminates);
        r := Err(if terminates then WorkerLaunchFailed else WorkerProcessStuck);
      case ReleaseFailed =>
        AbortActive(spec, launchReceipt, LaunchFailure(outcome), at, now, terminates);
        r := Err(if terminates then WorkerLaunchFailed else WorkerProcessStuck);
    }

    /** Candidate custody and the tombstone, in one commit, with the bytes of both
        the proof and the candidate installed first. */
    method ExchangeForCandidate(session: SessionId, content: Bytes, proof: Bytes, at: Millis)
      requires Valid() && session in store.sessions && store.sessions[session].state.authority.Active?
      requires WithinBudget(store.sessions[session].state.spec, content, proof)
      modifies this`store, this`trail
      ensures Valid() && old(trail) <= trail
      ensures SameBut(old(store), store, session) && store.terminations == old(store).terminations
      ensures AwaitsCleanup(store, session) && session !in store.terminations
      ensures store.sessions[session].state == Session(old(store).sessions[session].state.spec,
                                                       Accepted(session, old(store).sessions[session].state, at),
                                                       InCustody(CandidateOf(content, proof)))
      ensures store.sessions[session].state.candidate == InCustody(Candidate(OfBytes(content), |content|, OfBytes(proof)))
    {
      AcceptanceCarried(store, trail, session, content, proof, at);
      var loaded := store.sessions[session];
      var tombstone := Tombstone(session, loaded.state.spec.principal, CandidateAccepted, at);
      Commit(InstallBlob(proof));
      Commit(InstallBlob(content));
      Commit(SessionStep(session, Custody.AcceptCandidate(CandidateOf(content, proof), tombstone), loaded.revision));
    }

    /** Acceptance, then the process, then the revocation. */
    method AcceptCandidate(session: SessionId, content: Bytes, proof: Bytes, at: Millis, now: Millis, terminates: bool) returns (r: Result<(), AgdError>)
      requires Valid() && session in store.sessions && store.sessions[session].state.authority.Active?
      requires WithinBudget(store.sessions[session].state.spec, content, proof)
      modifies this`store, this`trail, this`pending, this`cursor, this`scanComplete
      ensures Valid() && old(trail) <= trail
      ensures r.Ok? <==> terminates
      ensures Handled(session) && SameTombstone(store, session, CandidateAccepted, at)
      ensures old(Prompt()) ==> Prompt()
      ensures store.sessions[session].state.candidate == InCustody(CandidateOf(content, proof))
      ensures r.Ok? ==> ReceiptHeld(store, session, AcceptedCleanup(session, Accepted(session, old(store).sessions[session].state, at)), now)
      ensures r.Ok? && old(CoveredBut({session})) ==> Covered()
    {
      ExchangeForCandidate(session, content, proof, at);
      ghost var accepted := store;
      if !terminates {
        return Err(WorkerProcessStuck);
      }
      RequestCleanup(session, AcceptedCleanup(session, store.sessions[session].state.authority), now);
      SameButTransitive(old(store), accepted, store, session);
      if old(CoveredBut({session})) {
        OthersLookedAfter(session);
      }
      r := Ok(());
    }

    /** A worker that is no longer running is retired: accepted exactly when its
        candidate is acceptable. */
    method RetireFinished(session: SessionId, ending: Ending, at: Millis, now: Millis, terminates: bool) returns (r: Result<(), AgdError>)
      requires Valid() && session in store.sessions && !store.sessions[session].state.authority.Prepared?
      requires !ProofUnkept(store.sessions[session].state, ending, at)
      modifies this`store, this`trail, this`pending, this`cursor, this`scanComplete, this`recoveryRequired
      ensures Valid() && old(trail) <= trail
      ensures Handled(session) && (old(Prompt()) ==> Prompt())
      ensures r.Ok? <==> terminates && Fenceable(old(store), session, Outcome(old(store).sessions[session].state, ending, at), at)
      ensures r.Ok? ==>
                && SameTombstone(store, session, Outcome(old(store).sessions[session].state, ending, at), at)
                && ReceiptHeld(store, session, FinishedReceipt(session, old(store).sessions[session].state, ending, at), now)
      ensures Acceptable(old(store).sessions[session].state, ending, at) ==>
                store.sessions[session].state.candidate == InCustody(CandidateOf(ending.content, ending.proof))
      ensures r.Ok? && old(CoveredBut({session})) ==> Covered()
    {
      var loaded := store.sessions[session].state;
      if Acceptable(loaded, ending, at) {
        r := AcceptCandidate(session, ending.content, ending.proof, at, now, terminates);
      } else {
        r := FenceAndCleanup(session, Outcome(loaded, ending, at), at, now, terminates);
      }
    }

    /** One worker of `poll_workers`. An error ends the daemon. */
    method PollWorker(session: SessionId, outcome: PollOutcome, at: Millis, now: Millis, terminates: bool) returns (r: Result<(), AgdError>)
      requires Valid() && session in activeWorkers
      modifies this`store, this`trail, this`pending, this`cursor, this`scanComplete, this`activeWorkers, this`recoveryRequired
      ensures Valid() && old(trail) <= trail
      ensures old(Prompt()) ==> Prompt()
      ensures activeWorkers == if outcome.Running? then old(activeWorkers) else old(activeWorkers) - {session}
      ensures outcome.Running? ==> store == old(store)
      ensures outcome.Ambiguous? || (outcome.Finished? && ProofUnkept(old(store).sessions[session].state, outcome.ending, at)) ==>
                store == old(store) && recoveryRequired && r == Err(WorkerRecoveryRequired)
      ensures r.Ok? <==>
                || outcome.Running?
                || (&& outcome.Finished? && !ProofUnkept(old(store).sessions[session].state, outcome.ending, at) && terminates
                    && Fenceable(old(store), session, Outcome(old(store).sessions[session].state, outcome.ending, at), at))
      ensures r.Ok? && outcome.Finished? ==>
                && SameTombstone(store, session, Outcome(old(store).sessions[session].state, outcome.ending, at), at)
                && ReceiptHeld(store, session, FinishedReceipt(session, old(store).sessions[session].state, outcome.ending, at), now)
      ensures session in store.sessions && (outcome.Finished? && Acceptable(old(store).sessions[session].state, outcome.ending, at) ==>
                store.sessions[session].state.candidate == InCustody(CandidateOf(outcome.ending.content, outcome.ending.proof)))
      ensures r.Ok? && outcome.Finished? ==>
                && IsTombstoned(store, session)
                && RetiredFor(old(store).sessions[session].state, outcome.ending, at, store.sessions[session].state.authority.tombstone.reason)
      ensures r.Ok? && outcome.Finished? && store.sessions[session].state.authority.tombstone.reason.CandidateAccepted? && outcome.ending.Produced? ==>
                store.sessions[session].state.candidate ==
                InCustody(Candidate(OfBytes(outcome.ending.content), |outcome.ending.content|, OfBytes(outcome.ending.proof)))
      ensures r.Ok? && old(Covered()) ==> Covered()
    {
      match outcome
      case Running =>
        r := Ok(());
      case Ambiguous =>
        LastRuntime(activeWorkers, store, session);
        activeWorkers := activeWorkers - {session};
        recoveryRequired := true;
        r := Err(WorkerRecoveryRequired);
      case Finished(ending) =>
        if old(Covered()) {
          CoveredWithout(session);
        }
        LastRuntime(activeWorkers, store, session);
        activeWorkers := activeWorkers - {session};
        if ProofUnkept(store.sessions[session].state, ending, at) {
          recoveryRequired := true;
          return Err(WorkerRecoveryRequired);
        }
        OutcomeExact(store.sessions[session].state, ending, at);
        r := RetireFinished(session, ending, at, now, terminates);
    }

    /** `record_broker_outcome`: the first outcome for a candidate in custody is
        recorded, the same one again changes nothing, and a different one is refused. */
    method RecordBrokerOutcome(session: SessionId, outcome: Digest) returns (r: Result<(), AgdError>)
      requires Valid()
      modifies this`store, this`trail
      ensures Valid() && old(trail) <= trail
      ensures r.Err? ==> store == old(store)
      ensures r.Ok? <==>
                && session in old(store).sessions && !old(store).sessions[session].state.candidate.NoCandidate?
                && (old(store).sessions[session].state.candidate.BrokerCompleted? ==>
                      old(store).sessions[session].state.candidate.outcome == outcome)
      ensures r.Ok? ==>
                && SameBut(old(store), store, session) && store.terminations == old(store).terminations
                && store.sessions[session].state == old(store).sessions[session].state.(
                     candidate := BrokerCompleted(old(store).sessions[session].state.candidate.candidate, outcome))
    {
      if session !in store.sessions {
        return Err(SessionNotFound);
      }
      var loaded := store.sessions[session];
      SessionSound(store, trail, session);
      match loaded.state.candidate
      case NoCandidate =>
        r := Err(CandidateNotInCustody);
      case BrokerCompleted(_, existing) =>
        r := if existing == outcome then Ok(()) else Err(ChangedRetry);
      case InCustody(_) =>
        Commit(SessionStep(session, Custody.RecordBrokerOutcome(outcome), loaded.revision));
        r := Ok(());
    }

    // ---------- Startup ----------

    /** One session of `recover_startup`, begun in the state `start`: one commit if
        it was live, none otherwise. */
    method RetireSurvivor(ghost start: Store, ghost at: Option<SessionId>, entity: SessionId, now: Millis) returns (retired: bool)
      requires Valid() && RecoveredTo(start, store, at, now)
      requires NextPast(start.sessions.Keys, at, entity)
      modifies this`store, this`trail
      ensures Valid() && old(trail) <= trail
      ensures RecoveredTo(start, store, Some(entity), now)
      ensures retired <==> !IsTombstoned(start, entity)
      ensures |trail| == |old(trail)| + if retired then 1 else 0
      ensures store.attempts == old(store).attempts && store.terminations == old(store).terminations
    {
      retired := !store.sessions[entity].state.authority.Tombstoned?;
      if retired {
        Retire(entity, RestartRecovery, now);
      }
      RecoveredToNext(start, old(store), store, at, entity, now);
    }

    /** One page of `recover_startup`. */
    method RetirePage(ghost start: Store, ghost at: Option<SessionId>, page: seq<SessionId>, now: Millis) returns (retired: nat, alreadyTerminal: nat)
      requires Valid() && RecoveredTo(start, store, at, now) && Walks(start.sessions.Keys, at, page)
      modifies this`store, this`trail
      ensures Valid() && old(trail) <= trail
      ensures RecoveredTo(start, store, Reached(at, page, |page|), now)
      ensures retired + alreadyTerminal == |page| && |trail| == |old(trail)| + retired
      ensures store.attempts == old(store).attempts && store.terminations == old(store).terminations
    {
      retired, alreadyTerminal := 0, 0;
      ghost var reached := at;
      for i := 0 to |page|
        invariant Valid() && old(trail) <= trail
        invariant RecoveredTo(start, store, reached, now) && reached == Reached(at, page, i)
        invariant retired + alreadyTerminal == i && |trail| == |old(trail)| + retired
        invariant store.attempts == old(store).attempts && store.terminations == old(store).terminations
      {
        assert WalksAt(start.sessions.Keys, at, page, i);
        var live := RetireSurvivor(start, reached, page[i], now);
        reached := Some(page[i]);
        retired, alreadyTerminal := if live then retired + 1 else retired, if live then alreadyTerminal else alreadyTerminal + 1;
      }
    }

    /** `recover_startup`: every session a previous process left live is retired,
        each in one commit, and no other record is touched. */
    method RetireSurvivors(now: Millis) returns (retired: nat, alreadyTerminal: nat)
      requires Valid()
      modifies this`store, this`trail
      ensures Valid() && old(trail) <= trail
      ensures store.sessions.Keys == old(store).sessions.Keys
      ensures forall s :: s in store.sessions ==> Recovered(old(store), store, s, now)
      ensures retired + alreadyTerminal == |old(store).sessions.Keys| && |trail| == |old(trail)| + retired
      ensures store.attempts == old(store).attempts && store.terminations == old(store).terminations
    {
      ghost var start := store;
      var at: Option<SessionId> := None;
      retired, alreadyTerminal := 0, 0;
      LeftAtStart(start.sessions.Keys, start.sessions.Keys);
      while true
        invariant Valid() && old(trail) <= trail
        invariant RecoveredTo(start, store, at, now)
        invariant retired + alreadyTerminal + Left(start.sessions.Keys, at, start.sessions.Keys) == |start.sessions.Keys|
        invariant |trail| == |old(trail)| + retired
        invariant store.attempts == old(store).attempts && store.terminations == old(store).terminations
        decreases Left(start.sessions.Keys, at, start.sessions.Keys)
      {
        var page := Page(store.sessions.Keys, at, SCAN_BATCH);
        PageEmpty(start.sessions.Keys, at, SCAN_BATCH);
        if page == [] {
          RecoveredAll(start, store, at, now);
          return;
        }
        PageWalks(start.sessions.Keys, at, SCAN_BATCH);
        WalkAdvances(start.sessions.Keys, at, page, |page|);
        var r, t := RetirePage(start, at, page, now);
        retired, alreadyTerminal := retired + r, alreadyTerminal + t;
        at := Some(page[|page| - 1]);
      }
    }

    /** The first refill, once no session is live. */
    method RefillRecovered(now: Millis)
      requires Valid() && forall s :: s in store.sessions ==> IsTombstoned(store, s)
      modifies this`store, this`trail, this`pending, this`cursor, this`scanComplete
      ensures Valid() && old(trail) <= trail
      ensures store.sessions.Keys == old(store).sessions.Keys && forall s :: s in store.sessions ==> IsTombstoned(store, s)
      ensures (old(Covered()) ==> Covered()) && (old(Prompt()) ==> Prompt())
    {
      RefillPendingProviderTerminations(now);
      StayTombstoned();
    }

    /** `recover_worker_sessions`: in a fresh process, from any durable state,
        afterwards no session is live and every one is covered. */
    method RecoverWorkerSessions(now: Millis) returns (retired: nat, alreadyTerminal: nat)
      requires Valid()
      modifies this`store, this`trail, this`pending, this`cursor, this`scanComplete
      ensures Valid() && old(trail) <= trail
      ensures forall s :: s in store.sessions ==> IsTombstoned(store, s)
      ensures store.sessions.Keys == old(store).sessions.Keys && retired + alreadyTerminal == |store.sessions.Keys|
      ensures old(cursor) == None && !old(scanComplete) ==> Covered()
      ensures old(Prompt()) ==> Prompt()
    {
      retired, alreadyTerminal := RetireSurvivors(now);
      assert !scanComplete && cursor == None ==> Covered();
      RefillRecovered(now);
    }
  }
}
