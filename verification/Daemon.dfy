/** The governor daemon's provider pump, with the I/O worker running beside it. */
module Daemon {
  import opened ByteOrder
  import opened Outcomes
  import opened Custody
  import opened Ledger
  import opened Paging
  import opened Scheduling
  import opened ProviderIo
  import opened Standing
  import opened Wire
  import opened Fates
  import opened Governor

  /** What the main loop turns to. A poll or a pump that fails ends the daemon;
      a launch or a cancellation that fails is answered. */
  datatype Event =
    | Poll(session: SessionId, outcome: PollOutcome, at: Millis, now: Millis, terminates: bool)
    | Provider(frame: Incoming, receiving: seq<seq<Worker>>, submitting: seq<seq<Worker>>, flush: Flush, now: Millis)
    | Launch(spec: Spec, receipt: Digest, launched: LaunchOutcome, at: Millis, now: Millis, terminates: bool)
    | Cancel(session: SessionId, evidence: Digest, at: Millis, now: Millis, terminates: bool)

  /** A launch or a cancellation whose process will not stop. */
  predicate Stuck(e: Event) {
    (e.Launch? || e.Cancel?) && !e.terminates
  }

  lemma BackedAttempt(d: Store, job: Job)
    requires Backed(d, job) && !job.operation.Terminate?
    ensures job.session in d.sessions && (job.session, job.attempt) in d.attempts
    ensures d.sessions[job.session].state.spec.capability == Some(job.capability)
    ensures d.attempts[(job.session, job.attempt)].state.principal == job.principal
  {
  }

  /** The acknowledgment owed after a fetch is genuine. */
  lemma FollowUpBacked(d: Store, e: Store, job: Job, state: AttemptState)
    requires Backed(d, job) && !job.operation.Terminate? && Carried(d, e, job, state) && state.ResponseInCustody?
    ensures Backed(e, AckJob(job, state))
  {
  }

  /** Late testimony about a worker that is no longer attended is logged over an
      unchanged attempt. */
  method ConsumeLate(core: AgdCore, completion: Completion) returns (r: Result<Consumed, AgdError>)
    requires core.Valid() && Backed(core.store, completion.job) && !completion.job.operation.Terminate?
    modifies core`store, core`trail
    ensures core.Valid() && old(core.trail) <= core.trail
    ensures old(core.Covered()) ==> core.Covered()
    ensures r.Ok? <==> IsTombstoned(old(core.store), completion.job.session)
    ensures r.Err? ==> core.store == old(core.store)
    ensures r.Ok? ==>
              var job := completion.job;
              && r.value == Recorded && (job.session, job.attempt) in old(core.store).attempts
              && AttemptReplaced(old(core.store), core.store, job, LateResultObserved,
                                 old(core.store).attempts[(job.session, job.attempt)].state.state)
  {
    BackedAttempt(core.store, completion.job);
    AttemptSound(core.store, core.trail, (completion.job.session, completion.job.attempt));
    var recorded := core.RecordFencedProviderCompletion(completion);
    core.MovesKeepCover();
    r := if recorded.Ok? then Ok(Recorded) else Err(recorded.error);
  }

  /** After a reconciled completion, an acknowledgment is queued or the worker is
      answered. The acknowledgment is turned away only by a full queue. */
  method FollowOrAnswer(core: AgdCore, completion: Completion, followUp: Option<Job>) returns (r: Result<Consumed, AgdError>)
    requires core.Valid()
    requires followUp.Some? ==> Backed(core.store, followUp.value) && !followUp.value.operation.Terminate?
    modifies core`pending, core`unsent
    ensures core.Valid()
    ensures old(core.Covered()) ==> core.Covered()
    ensures Consumption(r, core.pending, core.unsent) ==
            if followUp.Some? then Following(old(core.pending), core.submitted, old(core.unsent), followUp.value)
            else Answering(core.activeWorkers, core.store, core.maxFrame, old(core.pending), old(core.unsent), completion)
  {
    if followUp.Some? {
      var retained := core.QueueInteractiveProviderJob(followUp.value);
      core.MovesKeepCover();
      return Ok(Followed(retained));
    }
    var answer := AnswerTo(core.store, core.maxFrame, completion);
    if answer.Err? {
      return Err(answer.error);
    }
    var queued := core.QueueWorkerProviderResponse(completion.job.session, completion.job.attempt, answer.value);
    r := if queued.Ok? then Ok(Answered(answer.value)) else Err(queued.error);
  }

  /** An interactive completion of an attended worker: reconciled, then followed up
      or answered. */
  method ConsumeLive(core: AgdCore, completion: Completion, now: Millis) returns (r: Result<Consumed, AgdError>)
    requires core.Valid() && Backed(core.store, completion.job) && !completion.job.operation.Terminate?
    requires completion.job.session in core.activeWorkers
    modifies core`store, core`trail, core`pending, core`unsent
    ensures core.Valid() && old(core.trail) <= core.trail
    ensures old(core.Covered()) ==> core.Covered()
    ensures Settling(old(core.store), core.store, completion, old(core.Verdict(completion, now)))
    ensures Consumption(r, core.pending, core.unsent) ==
            Consuming(core.activeWorkers, old(core.store), core.store, core.maxFrame, old(core.pending), core.submitted, old(core.unsent), completion, now)
    ensures core.store.sessions == old(core.store).sessions
  {
    var reconciled := core.ReconcileProviderIoCompletion(completion, now);
    core.MovesKeepCover();
    if reconciled.Err? {
      BackedAttempt(old(core.store), completion.job);
      return Err(reconciled.error);
    }
    if reconciled.value.Some? {
      FollowUpBacked(old(core.store), core.store, completion.job, old(core.Verdict(completion, now)).value);
    }
    r := FollowOrAnswer(core, completion, reconciled.value);
  }

  /** An interactive completion. One for a worker that is no longer attended is
      logged, and never stops the daemon while every session is covered. */
  method ConsumeInteractive(core: AgdCore, completion: Completion, now: Millis) returns (r: Result<Consumed, AgdError>)
    requires core.Valid() && Backed(core.store, completion.job) && !completion.job.operation.Terminate?
    modifies core`store, core`trail, core`pending, core`unsent
    ensures core.Valid() && old(core.trail) <= core.trail
    ensures old(core.Covered()) ==> core.Covered()
    ensures completion.job.session in core.activeWorkers ==>
              && Settling(old(core.store), core.store, completion, old(core.Verdict(completion, now)))
              && Consumption(r, core.pending, core.unsent) ==
                 Consuming(core.activeWorkers, old(core.store), core.store, core.maxFrame, old(core.pending), core.submitted, old(core.unsent), completion, now)
    ensures completion.job.session !in core.activeWorkers ==>
              && (old(core.Covered()) ==> r.Ok?) && (r.Ok? ==> r.value == Recorded) && core.pending == old(core.pending)
              && OnlyAttempt(old(core.store), core.store, (completion.job.session, completion.job.attempt))
    ensures old(Due(core.store.attempts, core.store.terminations, completion.job)) ==>
              PassedAs(core.activeWorkers.Keys, old(core.unsent), core.unsent, old(core.store), core.maxFrame, completion, now, r)
    ensures SameStanding(old(core.store), core.store)
  {
    if completion.job.session in core.activeWorkers {
      r := ConsumeLive(core, completion, now);
      core.Progress();
      LiveKeepsStanding(old(core.store), core.store, completion, old(core.Verdict(completion, now)));
      if old(Due(core.store.attempts, core.store.terminations, completion.job)) {
        LiveFate(core.activeWorkers, old(core.store), old(core.trail), core.store, core.maxFrame, old(core.pending), core.submitted,
                 old(core.unsent), completion, now);
      }
    } else {
      // Reconciliation reports the missing runtime before anything else.
      BackedAttempt(core.store, completion.job);
      r := ConsumeLate(core, completion);
      core.Progress();
      AttemptKeepsStanding(old(core.store), core.store, (completion.job.session, completion.job.attempt));
      LateFate(core.activeWorkers.Keys, core.unsent, old(core.store), core.maxFrame, completion, now, r);
    }
  }

  /** The same for a completion just struck off the ledger `before`, which still was
      waited for. */
  method SettleInteractive(core: AgdCore, completion: Completion, ghost before: seq<Job>, now: Millis) returns (r: Result<Consumed, AgdError>)
    requires core.Valid() && !completion.job.operation.Terminate? && before == [completion.job] + core.submitted
    requires Scheduled(core.pending, before) && Genuine(core.store, core.pending, before)
    requires AllDue(core.store.attempts, core.store.terminations, core.pending, before)
    modifies core`store, core`trail, core`pending, core`unsent
    ensures core.Valid() && old(core.trail) <= core.trail && core.Prompt()
    ensures old(core.Covered()) ==> core.Covered()
    ensures PassedAs(core.activeWorkers.Keys, old(core.unsent), core.unsent, old(core.store), core.maxFrame, completion, now, r)
    ensures r.Ok? ==> QueuedAs(core.activeWorkers.Keys, completion, old(core.pending), core.pending, r.value)
    ensures r.Ok? && completion.job.session in core.activeWorkers ==> Recounted(old(core.store), core.store, completion, r.value)
    ensures SameStanding(old(core.store), core.store)
    ensures if completion.job.session in core.activeWorkers then
              && Settling(old(core.store), core.store, completion, old(core.Verdict(completion, now)))
              && Consumption(r, core.pending, core.unsent) ==
                 Consuming(core.activeWorkers, old(core.store), core.store, core.maxFrame, old(core.pending), core.submitted, old(core.unsent), completion, now)
            else
              (r.Ok? ==> r.value == Recorded) && (old(core.Covered()) ==> r.Ok?)
  {
    assert completion.job in before;
    r := ConsumeInteractive(core, completion, now);
    InteractiveSettles(old(core.store), old(core.trail), core.store, core.activeWorkers, core.maxFrame, old(core.pending), core.pending,
                       core.submitted, old(core.unsent), core.unsent, completion, now, r);
    if completion.job.session in core.activeWorkers {
      ConsumingRecounts(core.activeWorkers, old(core.store), core.store, core.trail, core.maxFrame, old(core.pending), core.submitted,
                        old(core.unsent), completion, now);
    }
  }

  /** The completion of a revocation. An answer that cannot be settled stops the daemon. */
  method ConsumeTermination(core: AgdCore, completion: Completion, now: Millis) returns (r: Result<Consumed, AgdError>)
    requires core.Valid() && completion.job.operation.Terminate?
    modifies core`store, core`trail
    ensures core.Valid() && old(core.trail) <= core.trail
    ensures r.Ok? <==> old(core.TerminationVerdict(completion)).Some?
    ensures r.Ok? ==>
              && r.value == Recorded && RevocationTestified(old(core.store), core.store, completion, now)
              && Revoked(old(core.store), core.store, completion.job.session, old(core.TerminationVerdict(completion)).value, now)
    ensures r.Err? ==> core.store == old(core.store)
  {
    var settled := core.ReconcileTermination(completion, now);
    r := if settled.Ok? then Ok(Recorded) else Err(settled.error);
  }

  /** The same for a revocation just struck off the ledger `before`, which still
      was waited for. */
  method SettleTermination(core: AgdCore, completion: Completion, ghost before: seq<Job>, ghost covered: bool, now: Millis)
    returns (r: Result<Consumed, AgdError>)
    requires core.Valid() && completion.job.operation.Terminate? && before == [completion.job] + core.submitted
    requires Scheduled(core.pending, before) && Genuine(core.store, core.pending, before)
    requires AllDue(core.store.attempts, core.store.terminations, core.pending, before)
    requires covered ==> AllLookedAfter(core.store, core.activeWorkers.Keys, core.pending, before, core.cursor, core.scanComplete, {})
    modifies core`store, core`trail
    ensures core.Valid() && old(core.trail) <= core.trail
    ensures core.Prompt()
    ensures r.Ok? <==> old(GoesOn(core.activeWorkers.Keys, core.store, core.maxFrame, completion, now))
    ensures r.Ok? ==>
              && r.value == Recorded && RevocationTestified(old(core.store), core.store, completion, now)
              && old(core.TerminationVerdict(completion)).Some?
              && Revoked(old(core.store), core.store, completion.job.session, old(core.TerminationVerdict(completion)).value, now)
              && SameStanding(old(core.store), core.store)
    ensures r.Ok? && covered ==> core.Covered()
  {
    assert completion.job in before;
    RevocationFate(core.activeWorkers.Keys, core.store, core.trail, core.maxFrame, completion, now);
    r := ConsumeTermination(core, completion, now);
    if r.Ok? {
      RevocationSettles(old(core.store), old(core.trail), core.store, core.activeWorkers, core.pending, before, core.submitted,
                        completion.job, core.cursor, core.scanComplete, old(core.TerminationVerdict(completion)).value, now);
    }
  }

  /** The provider operation the attempt is waiting for is queued or in flight. */
  ghost predicate Outstanding(core: AgdCore, session: SessionId, attempt: AttemptId)
    reads core
  {
    exists job :: (job in core.pending || job in core.submitted) && job.session == session && job.attempt == attempt && !job.operation.Terminate?
  }

  /** Custody of a request is taken or refused; nothing queued is disturbed. */
  method TakeCustody(core: AgdCore, session: SessionId, attempt: AttemptId, headers: map<Bytes, Bytes>, bytes: Bytes, now: Millis)
    returns (r: Result<(), AgdError>)
    requires core.Valid()
    modifies core`store, core`trail
    ensures core.Valid() && old(core.trail) <= core.trail
    ensures (old(core.Covered()) ==> core.Covered()) && (old(core.Prompt()) ==> core.Prompt())
    ensures core.store.sessions == old(core.store).sessions
    ensures match PrepareRefusal(core.activeWorkers, old(core.store), session, attempt, headers, bytes, now)
            case Some(error) => r == Err(error)
            case None => r.Ok? && core.ResumeJob(session, attempt, now).Ok?
    ensures r.Ok? ==>
              && (session, attempt) in core.store.attempts
              && core.store.attempts[(session, attempt)].state.request.exactRequest == OfBytes(bytes)
    ensures r.Ok? && (session, attempt) in old(core.store).attempts ==> core.store == old(core.store)
    ensures r.Ok? && (session, attempt) !in old(core.store).attempts ==>
              && core.store.attempts[(session, attempt)].state.state.RequestInCustody?
              && core.store.attempts.Keys == old(core.store).attempts.Keys + {(session, attempt)}
  {
    var prepared := core.PrepareAttempt(session, attempt, headers, bytes, now);
    core.MovesKeepCover();
    if prepared.Err? {
      return Err(prepared.error);
    }
    if old(core.Prompt()) {
      NewAttemptKeepsDue(old(core.store), core.store, core.pending, core.submitted, (session, attempt));
    }
    core.ResumesExactly(session, attempt, now);
    r := Ok(());
  }

  /** No provider operation of this attempt is outstanding. */
  ghost predicate Unasked(pending: seq<Job>, submitted: seq<Job>, session: SessionId, attempt: AttemptId) {
    forall job :: job in pending || job in submitted ==> job.operation.Terminate? || (job.session, job.attempt) != (session, attempt)
  }

  /** An attempt that is not known has no operation outstanding. */
  lemma UnknownUnasked(d: Store, pending: seq<Job>, submitted: seq<Job>, session: SessionId, attempt: AttemptId)
    requires Genuine(d, pending, submitted) && (session, attempt) !in d.attempts
    ensures Unasked(pending, submitted, session, attempt)
  {
  }

  /** What is told of an attempt once its request is in custody. */
  lemma TakenShown(d: Store, e: Store, pending: seq<Job>, submitted: seq<Job>, maxFrame: nat, session: SessionId, attempt: AttemptId)
    requires if (session, attempt) in d.attempts then e == d else
               && (session, attempt) in e.attempts && e.attempts[(session, attempt)].state.state.RequestInCustody?
               && Unasked(pending, submitted, session, attempt)
    ensures LiveResponseIn(e, submitted, maxFrame, session, attempt) ==
            if (session, attempt) in d.attempts then LiveResponseIn(d, submitted, maxFrame, session, attempt) else Ok(StillPending)
  {
  }

  /** The same, with what the worker would now be told. */
  method TakeAndLook(core: AgdCore, session: SessionId, attempt: AttemptId, headers: map<Bytes, Bytes>, bytes: Bytes, now: Millis)
    returns (r: Result<(), AgdError>)
    requires core.Valid()
    modifies core`store, core`trail
    ensures core.Valid() && old(core.trail) <= core.trail
    ensures (old(core.Covered()) ==> core.Covered()) && (old(core.Prompt()) ==> core.Prompt())
    ensures core.store.sessions == old(core.store).sessions
    ensures match PrepareRefusal(core.activeWorkers, old(core.store), session, attempt, headers, bytes, now)
            case Some(error) => r == Err(error)
            case None => r.Ok? && core.ResumeJob(session, attempt, now).Ok?
    ensures r.Ok? ==>
              && (session, attempt) in core.store.attempts
              && core.store.attempts[(session, attempt)].state.request.exactRequest == OfBytes(bytes)
              && LiveResponseIn(core.store, core.submitted, core.maxFrame, session, attempt) ==
                 if (session, attempt) in old(core.store).attempts then LiveResponseIn(old(core.store), core.submitted, core.maxFrame, session, attempt)
                 else Ok(StillPending)
    ensures r.Ok? && (session, attempt) !in old(core.store).attempts ==>
              && core.store.attempts[(session, attempt)].state.state.RequestInCustody? && Unasked(core.pending, core.submitted, session, attempt)
              && core.store.attempts.Keys == old(core.store).attempts.Keys + {(session, attempt)}
  {
    r := TakeCustody(core, session, attempt, headers, bytes, now);
    if r.Ok? {
      if (session, attempt) !in old(core.store).attempts {
        UnknownUnasked(old(core.store), core.pending, core.submitted, session, attempt);
      }
      TakenShown(old(core.store), core.store, core.pending, core.submitted, core.maxFrame, session, attempt);
    }
  }

  /** An `Infer` frame read through the open gate is refused for exactly one
      stated reason, or answered with its request in custody, its next provider
      operation retained and a slot still left for an acknowledgment. */
  method ServeInfer(core: AgdCore, session: SessionId, attempt: AttemptId, headers: map<Bytes, Bytes>, bytes: Bytes, now: Millis)
    returns (r: Result<WorkerView, AgdError>)
    requires core.Valid() && core.AcceptsWorkerRequest()
    modifies core`store, core`trail, core`pending, core`unsent
    ensures core.Valid() && old(core.trail) <= core.trail
    ensures (old(core.Covered()) ==> core.Covered()) && (old(core.Prompt()) ==> core.Prompt())
    ensures |core.pending| < SCHEDULER_CAPACITY && core.store.sessions == old(core.store).sessions
    ensures r == FrameOutcome(core.activeWorkers, old(core.unsent), old(core.store), core.submitted, core.maxFrame, session,
                              Infer(attempt, headers, bytes), now)
    ensures core.unsent == (old(core.unsent) || r.Ok?)
    ensures r.Ok? ==> r == core.LiveResponse(session, attempt)
    ensures r.Ok? ==>
              && (session, attempt) in core.store.attempts
              && core.store.attempts[(session, attempt)].state.request.exactRequest == OfBytes(bytes)
              && (core.store.attempts[(session, attempt)].state.state.Acknowledged? || Outstanding(core, session, attempt))
    ensures r.Ok? && (session, attempt) !in old(core.store).attempts ==>
              && Dispatched(old(core.pending), core.pending, session, attempt)
              && core.store.attempts.Keys == old(core.store).attempts.Keys + {(session, attempt)}
  {
    var prepared := TakeAndLook(core, session, attempt, headers, bytes, now);
    if prepared.Err? {
      return Err(prepared.error);
    }
    r := AnswerInfer(core, session, attempt, now);
  }

  /** The attempt's next operation is queued, and the worker told how it stands. */
  method AnswerInfer(core: AgdCore, session: SessionId, attempt: AttemptId, now: Millis) returns (r: Result<WorkerView, AgdError>)
    requires core.Valid() && core.AcceptsWorkerRequest() && core.ResumeJob(session, attempt, now).Ok?
    modifies core`pending, core`unsent
    ensures core.Valid() && |core.pending| < SCHEDULER_CAPACITY
    ensures (old(core.Covered()) ==> core.Covered()) && (old(core.Prompt()) ==> core.Prompt())
    ensures (session, attempt) in core.store.attempts
    ensures r == Told(core.activeWorkers, old(core.unsent), core.maxFrame, session, attempt, core.LiveResponse(session, attempt))
    ensures core.unsent == (old(core.unsent) || r.Ok?)
    ensures core.store.attempts[(session, attempt)].state.state.Acknowledged? || Outstanding(core, session, attempt)
    ensures core.store.attempts[(session, attempt)].state.state.RequestInCustody? && Unasked(old(core.pending), core.submitted, session, attempt) ==>
              Dispatched(old(core.pending), core.pending, session, attempt)
  {
    QueueNext(core, session, attempt, now);
    r := Tell(core, session, attempt);
  }

  /** The worker is told how its attempt stands. */
  method Tell(core: AgdCore, session: SessionId, attempt: AttemptId) returns (r: Result<WorkerView, AgdError>)
    requires core.Valid()
    modifies core`unsent
    ensures r == Told(core.activeWorkers, old(core.unsent), core.maxFrame, session, attempt, core.LiveResponse(session, attempt))
    ensures core.unsent == (old(core.unsent) || r.Ok?)
  {
    var view := core.LiveResponse(session, attempt);
    if view.Err? {
      return view;
    }
    var queued := core.QueueWorkerProviderResponse(session, attempt, View(view.value));
    r := if queued.Ok? then view else Err(queued.error);
  }

  /** Queuing through the open gate never fails. */
  method Queue(core: AgdCore, job: Job)
    requires core.Valid() && core.AcceptsWorkerRequest() && Backed(core.store, job) && !job.operation.Terminate?
    modifies core`pending
    ensures core.Valid() && (job in core.pending || job in core.submitted)
    ensures |core.pending| < SCHEDULER_CAPACITY
    ensures core.pending == if job in old(core.pending) || job in core.submitted then old(core.pending) else old(core.pending) + [job]
    ensures old(core.Covered()) ==> core.Covered()
    ensures Due(core.store.attempts, core.store.terminations, job) && old(core.Prompt()) ==> core.Prompt()
  {
    var retained := core.QueueInteractiveProviderJob(job);
    core.MovesKeepCover();
  }

  /** The attempt's next provider operation, if it has one left, is queued. */
  method QueueNext(core: AgdCore, session: SessionId, attempt: AttemptId, now: Millis)
    requires core.Valid() && core.AcceptsWorkerRequest() && core.ResumeJob(session, attempt, now).Ok?
    modifies core`pending
    ensures core.Valid() && |core.pending| < SCHEDULER_CAPACITY
    ensures (old(core.Covered()) ==> core.Covered()) && (old(core.Prompt()) ==> core.Prompt())
    ensures (session, attempt) in core.store.attempts
    ensures core.store.attempts[(session, attempt)].state.state.Acknowledged? || Outstanding(core, session, attempt)
    ensures core.store.attempts[(session, attempt)].state.state.RequestInCustody? && Unasked(old(core.pending), core.submitted, session, attempt) ==>
              Dispatched(old(core.pending), core.pending, session, attempt)
  {
    var resumed := core.ResumeJob(session, attempt, now);
    if resumed.value.Some? {
      Queue(core, resumed.value.value);
    }
  }

  /** One dispatch of this attempt joined the queue. */
  predicate Dispatched(pending: seq<Job>, pending': seq<Job>, session: SessionId, attempt: AttemptId) {
    && |pending'| == |pending| + 1 && pending <= pending'
    && pending'[|pending|].session == session && pending'[|pending|].attempt == attempt && pending'[|pending|].operation.Begin?
  }

  lemma NewAttemptKeepsDue(d: Store, e: Store, pending: seq<Job>, submitted: seq<Job>, k: Key)
    requires AllDue(d.attempts, d.terminations, pending, submitted) && e.terminations == d.terminations
    requires k in e.attempts && (k in d.attempts ==> e.attempts == d.attempts)
    requires k !in d.attempts ==> e.attempts == d.attempts[k := e.attempts[k]]
    ensures AllDue(e.attempts, e.terminations, pending, submitted)
  {
  }

  lemma Regroup(a: seq<Job>, b: seq<Job>)
    requires b != []
    ensures (a + [b[0]]) + b[1..] == a + b
  {
  }

  /** Where a receiving pass began, and what it comes to. */
  datatype Origin = Origin(start: Store, history: seq<Store>, queued: nat, busy: bool, pass: seq<Completion>)

  /** A pass of which `taken` is received: all of that let the daemon go on, nothing
      in flight has changed its fate, and acknowledgments and answers are tallied. */
  ghost predicate Underway(origin: Origin, live: set<SessionId>, maxFrame: nat, capacity: nat, p: Pipe, rest: seq<seq<Worker>>, taken: seq<Completion>,
                           d: Store, submitted: seq<Job>, queued: nat, turnedAway: nat, busy: bool, now: Millis) {
    && Durable(origin.start, origin.history) && SameStanding(origin.start, d) && Genuine(origin.start, [], submitted)
    && Bounded(capacity, p) && origin.pass == taken + Pass(capacity, p, rest)
    && AllGoOn(live, origin.start, maxFrame, taken, now)
    && Tallied(origin.queued, Owed(live, taken), queued, turnedAway)
    && ChannelHolds(live, origin.busy, taken) && busy == (origin.busy || AnswerCount(live, taken) > 0)
  }

  /** The next completion of a pass is consumed, or the pass has one that ends the
      daemon or one answer too many. */
  lemma UnderwayNext(origin: Origin, live: set<SessionId>, maxFrame: nat, capacity: nat, p: Pipe, rest: seq<seq<Worker>>, taken: seq<Completion>,
                     c: Completion, d: Store, e: Store, before: seq<Job>, submitted: seq<Job>, queue: seq<Job>, queue': seq<Job>,
                     turnedAway: nat, busy: bool, busy': bool, now: Millis, r: Result<Consumed, AgdError>)
    requires Underway(origin, live, maxFrame, capacity, p, rest, taken, d, before, |queue|, turnedAway, busy, now)
    requires var q := WorkerRan(capacity, p, Head(rest)); q.completions != [] && q.completions[0] == c
    requires before == [c.job] + submitted && PassedAs(live, busy, busy', d, maxFrame, c, now, r)
    requires r.Ok? ==> QueuedAs(live, c, queue, queue', r.value) && SameStanding(d, e)
    ensures r.Err? ==> PassStops(live, origin.start, maxFrame, origin.busy, origin.pass, now, r.error)
    ensures r.Ok? ==>
              Underway(origin, live, maxFrame, capacity, Received(WorkerRan(capacity, p, Head(rest))), Tail(rest), taken + [c], e, submitted, |queue'|,
                       turnedAway + (if r.value == Followed(false) then 1 else 0), busy', now)
  {
    PassNext(capacity, p, rest, origin.pass, taken);
    assert c.job in before;
    TurnFate(live, origin.start, origin.history, d, maxFrame, origin.busy, busy, busy', origin.pass, taken, c, now, r);
    if r.Ok? {
      UnderwayTaken(origin, live, maxFrame, capacity, p, rest, taken, c, d, e, before, submitted, queue, queue', turnedAway, busy, now, r.value);
    }
  }

  lemma UnderwayTaken(origin: Origin, live: set<SessionId>, maxFrame: nat, capacity: nat, p: Pipe, rest: seq<seq<Worker>>, taken: seq<Completion>,
                      c: Completion, d: Store, e: Store, before: seq<Job>, submitted: seq<Job>, queue: seq<Job>, queue': seq<Job>,
                      turnedAway: nat, busy: bool, now: Millis, consumed: Consumed)
    requires Underway(origin, live, maxFrame, capacity, p, rest, taken, d, before, |queue|, turnedAway, busy, now)
    requires var q := WorkerRan(capacity, p, Head(rest)); q.completions != [] && q.completions[0] == c
    requires before == [c.job] + submitted && SameStanding(d, e)
    requires Passes(live, busy, origin.start, maxFrame, c, now) && QueuedAs(live, c, queue, queue', consumed)
    ensures Underway(origin, live, maxFrame, capacity, Received(WorkerRan(capacity, p, Head(rest))), Tail(rest), taken + [c], e, submitted, |queue'|,
                     turnedAway + (if consumed == Followed(false) then 1 else 0), busy || Answers(live, c), now)
  {
    PassNext(capacity, p, rest, origin.pass, taken);
    AnswerCountNext(live, taken, c);
    TalliedNext(live, origin.queued, taken, c, queue, queue', consumed, turnedAway);
    SameStandingTransitive(origin.start, d, e);
    forall job | job in submitted
      ensures Backed(origin.start, job)
    {
      assert job in before;
    }
  }

  class GovernorDaemon {
    const core: AgdCore
    const capacity: nat
    var pipe: Pipe

    ghost predicate Valid()
      reads `pipe, core
    {
      core.Valid() && core.Prompt() && Connected(capacity, pipe, core.submitted)
    }

    /** Starts the I/O worker beside a core that has submitted nothing. */
    constructor (core: AgdCore, capacity: nat)
      requires core.Valid() && core.Prompt() && core.submitted == [] && 0 < capacity <= 63
      ensures Valid() && this.core == core && this.capacity == capacity && pipe == IDLE
    {
      this.core, this.capacity, pipe := core, capacity, IDLE;
    }

    /** The worker thread takes any steps; the jobs in flight stay the same. */
    method WorkerRuns(steps: seq<Worker>)
      requires Valid()
      modifies this`pipe
      ensures Valid() && pipe == WorkerRan(capacity, old(pipe), steps)
    {
      for i := 0 to |steps|
        invariant Valid() && WorkerRan(capacity, pipe, steps[i..]) == WorkerRan(capacity, old(pipe), steps)
      {
        RanNext(capacity, pipe, steps, i);
        var next := WorkerStep(capacity, pipe, steps[i]);
        if next.Some? {
          pipe := next.value;
        }
      }
    }

    /** One turn of the submission loop. */
    method SubmitOne() returns (sent: bool)
      requires Valid() && core.pending != []
      modifies this`pipe, core`pending, core`submitted
      ensures Valid()
      ensures sent <==> |old(pipe.jobs)| < capacity
      ensures sent ==>
                && core.pending == old(core.pending)[1..] && core.submitted == old(core.submitted) + [old(core.pending)[0]]
                && pipe == old(pipe).(jobs := old(pipe).jobs + [old(core.pending)[0]])
      ensures !sent ==> core.pending == old(core.pending) && core.submitted == old(core.submitted) && pipe == old(pipe)
      ensures old(core.Covered()) ==> core.Covered()
    {
      var job := core.TakePendingProviderJob();
      var next := TrySend(capacity, pipe, job.value);
      if next.Some? {
        SendAppends(capacity, pipe, job.value);
        core.NoteProviderJobSubmitted(job.value);
        pipe := next.value;
        sent := true;
      } else {
        core.RestorePendingProviderJob(job.value);
        sent := false;
      }
      core.MovesKeepCover();
    }

    /** The submission loop, with the worker thread running between turns. What is
        in flight or queued stays the same list; the loop ends when nothing is
        queued or the job channel is full. */
    method SubmitPending(interleaving: seq<seq<Worker>>)
      requires Valid()
      modifies this`pipe, core`pending, core`submitted
      ensures Valid()
      ensures core.submitted + core.pending == old(core.submitted + core.pending)
      ensures |core.pending| <= |old(core.pending)|
      ensures core.pending == [] || |pipe.jobs| == capacity
      ensures old(core.Covered()) ==> core.Covered()
    {
      var turn := 0;
      while core.pending != []
        invariant Valid()
        invariant core.submitted + core.pending == old(core.submitted + core.pending)
        invariant |core.pending| <= |old(core.pending)|
        invariant old(core.Covered()) ==> core.Covered()
        decreases |core.pending|
      {
        WorkerRuns(if turn < |interleaving| then interleaving[turn] else []);
        turn := turn + 1;
        Regroup(core.submitted, core.pending);
        var sent := SubmitOne();
        if !sent {
          break;
        }
      }
    }

    /** What is left once the oldest completion is taken off the channel and its
        job off the ledger. */
    method TakeCompletion() returns (completion: Completion)
      requires Valid() && pipe.completions != []
      modifies this`pipe, core`submitted
      ensures Valid()
      ensures completion == old(pipe.completions)[0] && pipe == old(Received(pipe))
      ensures old(core.submitted) == [completion.job] + core.submitted
      ensures Backed(core.store, completion.job) && Due(core.store.attempts, core.store.terminations, completion.job)
    {
      completion := pipe.completions[0];
      ReceiveTakesOldest(capacity, pipe);
      WithoutFirst(core.pending, core.submitted);
      core.NoteProviderJobCompleted(completion.job);
      pipe := Received(pipe);
    }

    /** The oldest completion is that of a genuine job still waited for. */
    lemma OldestWaits()
      requires Valid() && pipe.completions != []
      ensures Backed(core.store, pipe.completions[0].job)
      ensures Due(core.store.attempts, core.store.terminations, pipe.completions[0].job)
    {
      assert core.submitted[0] == pipe.completions[0].job;
      assert pipe.completions[0].job in core.submitted;
    }

    /** A revocation's completion is taken and settled. */
    method ReceiveTermination(now: Millis) returns (r: Result<Consumed, AgdError>)
      requires Valid() && pipe.completions != [] && pipe.completions[0].job.operation.Terminate?
      modifies this`pipe, core`submitted, core`store, core`trail
      ensures Valid() && old(core.trail) <= core.trail && pipe == old(Received(pipe))
      ensures old(core.submitted) == [old(pipe.completions[0].job)] + core.submitted
      ensures r.Ok? <==> old(GoesOn(core.activeWorkers.Keys, core.store, core.maxFrame, pipe.completions[0], now))
      ensures r.Ok? ==>
                && r.value == Recorded && RevocationTestified(old(core.store), core.store, old(pipe.completions[0]), now)
                && old(core.TerminationVerdict(pipe.completions[0])).Some?
                && Revoked(old(core.store), core.store, old(pipe.completions[0].job.session),
                           old(core.TerminationVerdict(pipe.completions[0])).value, now)
      ensures r.Ok? ==> SameStanding(old(core.store), core.store)
      ensures r.Ok? && old(core.Covered()) ==> core.Covered()
    {
      var completion := TakeCompletion();
      r := SettleTermination(core, completion, old(core.submitted), old(core.Covered()), now);
    }

    /** An interactive completion is taken and reconciled. */
    method ReceiveInteractive(now: Millis) returns (r: Result<Consumed, AgdError>)
      requires Valid() && pipe.completions != [] && !pipe.completions[0].job.operation.Terminate?
      modifies this`pipe, core`submitted, core`store, core`trail, core`pending, core`unsent
      ensures Valid() && old(core.trail) <= core.trail && pipe == old(Received(pipe))
      ensures old(core.submitted) == [old(pipe.completions[0].job)] + core.submitted
      ensures old(core.Covered()) ==> core.Covered()
      ensures PassedAs(core.activeWorkers.Keys, old(core.unsent), core.unsent, old(core.store), core.maxFrame, old(pipe.completions[0]), now, r)
      ensures r.Ok? ==> QueuedAs(core.activeWorkers.Keys, old(pipe.completions[0]), old(core.pending), core.pending, r.value)
      ensures r.Ok? && old(pipe.completions[0]).job.session in core.activeWorkers ==>
                Recounted(old(core.store), core.store, old(pipe.completions[0]), r.value)
      ensures SameStanding(old(core.store), core.store)
      ensures var completion := old(pipe.completions[0]);
              if completion.job.session in core.activeWorkers then
                && Settling(old(core.store), core.store, completion, old(core.Verdict(pipe.completions[0], now)))
                && Consumption(r, core.pending, core.unsent) ==
                   Consuming(core.activeWorkers, old(core.store), core.store, core.maxFrame, old(core.pending), core.submitted, old(core.unsent), completion, now)
              else
                (r.Ok? ==> r.value == Recorded) && (old(core.Covered()) ==> r.Ok?)
    {
      var completion := TakeCompletion();
      core.MovesKeepCover();
      r := SettleInteractive(core, completion, old(core.submitted), now);
    }

    /** One completion of either kind. The daemon goes on exactly when `Passes` says so. */
    method ReceiveOne(now: Millis) returns (r: Result<Consumed, AgdError>)
      requires Valid() && pipe.completions != []
      modifies this`pipe, core`submitted, core`store, core`trail, core`pending, core`unsent
      ensures Valid() && old(core.trail) <= core.trail && pipe == old(Received(pipe))
      ensures old(core.submitted) == [old(pipe.completions[0].job)] + core.submitted
      ensures r.Ok? && old(core.Covered()) ==> core.Covered()
      ensures PassedAs(core.activeWorkers.Keys, old(core.unsent), core.unsent, old(core.store), core.maxFrame, old(pipe.completions[0]), now, r)
      ensures r.Ok? ==>
                && QueuedAs(core.activeWorkers.Keys, old(pipe.completions[0]), old(core.pending), core.pending, r.value)
                && SameStanding(old(core.store), core.store)
    {
      if pipe.completions[0].job.operation.Terminate? {
        r := ReceiveTermination(now);
      } else {
        r := ReceiveInteractive(now);
      }
    }

    /** The next completion of a pass, which meets the fate it had when the pass
        began unless an answer came before it. */
    method ReceiveNext(ghost origin: Origin, ghost p: Pipe, ghost rest: seq<seq<Worker>>, ghost taken: seq<Completion>, turnedAway: nat, now: Millis)
      returns (r: Result<nat, AgdError>)
      requires Valid()
      requires Underway(origin, core.activeWorkers.Keys, core.maxFrame, capacity, p, rest, taken, core.store, core.submitted, |core.pending|, turnedAway, core.unsent, now)
      requires pipe == WorkerRan(capacity, p, Head(rest)) && pipe.completions != []
      modifies this`pipe, core`submitted, core`store, core`trail, core`pending, core`unsent
      ensures Valid() && old(core.trail) <= core.trail
      ensures r.Ok? && old(core.Covered()) ==> core.Covered()
      ensures r.Err? ==> PassStops(core.activeWorkers.Keys, origin.start, core.maxFrame, origin.busy, origin.pass, now, r.error)
      ensures r.Ok? ==>
                && |core.submitted| < |old(core.submitted)|
                && Underway(origin, core.activeWorkers.Keys, core.maxFrame, capacity, pipe, Tail(rest), taken + [old(pipe.completions[0])],
                            core.store, core.submitted, |core.pending|, r.value, core.unsent, now)
    {
      ghost var completion := pipe.completions[0];
      var consumed := ReceiveOne(now);
      UnderwayNext(origin, core.activeWorkers.Keys, core.maxFrame, capacity, p, rest, taken, completion, old(core.store), core.store,
                   old(core.submitted), core.submitted, old(core.pending), core.pending, turnedAway, old(core.unsent), core.unsent, now, consumed);
      r := if consumed.Err? then Err(consumed.error) else Ok(turnedAway + if consumed.value == Followed(false) then 1 else 0);
    }

    /** The worker thread runs before the next look at the completion channel. */
    method LookAgain(ghost origin: Origin, rest: seq<seq<Worker>>, ghost taken: seq<Completion>, ghost turnedAway: nat, ghost now: Millis)
      requires Valid()
      requires Underway(origin, core.activeWorkers.Keys, core.maxFrame, capacity, pipe, rest, taken, core.store, core.submitted, |core.pending|, turnedAway, core.unsent, now)
      modifies this`pipe
      ensures Valid() && pipe == WorkerRan(capacity, old(pipe), Head(rest))
      ensures pipe.completions == [] ==> taken == origin.pass
    {
      PassNext(capacity, pipe, rest, origin.pass, taken);
      WorkerRuns(Head(rest));
    }

    /** One turn of the receiving loop: nothing is left, or one more completion is consumed. */
    method ReceiveTurn(ghost origin: Origin, rest: seq<seq<Worker>>, ghost taken: seq<Completion>, turnedAway: nat, now: Millis)
      returns (r: Result<Option<nat>, AgdError>, ghost longer: seq<Completion>)
      requires Valid()
      requires Underway(origin, core.activeWorkers.Keys, core.maxFrame, capacity, pipe, rest, taken, core.store, core.submitted, |core.pending|, turnedAway, core.unsent, now)
      modifies this`pipe, core`submitted, core`store, core`trail, core`pending, core`unsent
      ensures Valid() && old(core.trail) <= core.trail
      ensures r.Ok? && old(core.Covered()) ==> core.Covered()
      ensures r == Ok(None) ==>
                && pipe.completions == [] && SameStanding(origin.start, core.store)
                && AllGoOn(core.activeWorkers.Keys, origin.start, core.maxFrame, origin.pass, now)
                && Tallied(origin.queued, Owed(core.activeWorkers.Keys, origin.pass), |core.pending|, turnedAway)
                && ChannelHolds(core.activeWorkers.Keys, origin.busy, origin.pass)
                && core.unsent == (origin.busy || AnswerCount(core.activeWorkers.Keys, origin.pass) > 0)
      ensures r.Ok? && r.value.Some? ==>
                && |core.submitted| < |old(core.submitted)|
                && Underway(origin, core.activeWorkers.Keys, core.maxFrame, capacity, pipe, Tail(rest), longer, core.store, core.submitted,
                            |core.pending|, r.value.value, core.unsent, now)
      ensures r.Err? ==> PassStops(core.activeWorkers.Keys, origin.start, core.maxFrame, origin.busy, origin.pass, now, r.error)
    {
      longer := taken;
      LookAgain(origin, rest, taken, turnedAway, now);
      if pipe.completions == [] {
        return Ok(None), longer;
      }
      longer := taken + [pipe.completions[0]];
      var received := ReceiveNext(origin, old(pipe), rest, taken, turnedAway, now);
      r := if received.Ok? then Ok(Some(received.value)) else Err(received.error);
    }

    /** The receiving loop, with the worker thread running between turns. It ends
        the daemon exactly when one of the completions it comes to does or gives one
        answer too many: the response channel takes one answer, and none while the
        worker has yet to drain the last. Otherwise it turns away exactly the
        acknowledgments that do not fit the queue. */
    method ReceiveAll(interleaving: seq<seq<Worker>>, now: Millis) returns (r: Result<nat, AgdError>)
      requires Valid()
      modifies this`pipe, core`submitted, core`store, core`trail, core`pending, core`unsent
      ensures Valid() && old(core.trail) <= core.trail
      ensures r.Ok? && old(core.Covered()) ==> core.Covered()
      ensures r.Ok? ==> pipe.completions == [] && SameStanding(old(core.store), core.store)
      ensures PassedOver(core.activeWorkers.Keys, old(core.unsent), core.unsent, old(core.store), core.maxFrame, Pass(capacity, old(pipe), interleaving), now, r)
      ensures r.Ok? ==>
                Tallied(|old(core.pending)|, Owed(core.activeWorkers.Keys, Pass(capacity, old(pipe), interleaving)), |core.pending|, r.value)
    {
      ghost var origin := Origin(core.store, core.trail, |core.pending|, core.unsent, Pass(capacity, pipe, interleaving));
      r := ReceiveFrom(origin, interleaving, now);
    }

    /** The same, for a pass that began in `origin`. */
    method ReceiveFrom(ghost origin: Origin, interleaving: seq<seq<Worker>>, now: Millis) returns (r: Result<nat, AgdError>)
      requires Valid()
      requires Underway(origin, core.activeWorkers.Keys, core.maxFrame, capacity, pipe, interleaving, [], core.store, core.submitted,
                        |core.pending|, 0, core.unsent, now)
      modifies this`pipe, core`submitted, core`store, core`trail, core`pending, core`unsent
      ensures Valid() && old(core.trail) <= core.trail
      ensures r.Ok? && old(core.Covered()) ==> core.Covered()
      ensures r.Ok? ==> pipe.completions == [] && SameStanding(origin.start, core.store)
      ensures PassedOver(core.activeWorkers.Keys, origin.busy, core.unsent, origin.start, core.maxFrame, origin.pass, now, r)
      ensures r.Ok? ==> Tallied(origin.queued, Owed(core.activeWorkers.Keys, origin.pass), |core.pending|, r.value)
    {
      var rest, turnedAway := interleaving, 0;
      ghost var taken: seq<Completion> := [];
      while true
        invariant Valid() && old(core.trail) <= core.trail
        invariant old(core.Covered()) ==> core.Covered()
        invariant Underway(origin, core.activeWorkers.Keys, core.maxFrame, capacity, pipe, rest, taken, core.store, core.submitted,
                           |core.pending|, turnedAway, core.unsent, now)
        decreases |core.submitted|
      {
        var turn, longer := ReceiveTurn(origin, rest, taken, turnedAway, now);
        if turn.Err? {
          return Err(turn.error);
        }
        if turn.value.None? {
          return Ok(turnedAway);
        }
        rest, taken, turnedAway := Tail(rest), longer, turn.value.value;
      }
    }

    /** One frame from a worker, read only while the gate is open. A frame that is
        read is refused for exactly one stated reason, or answered. */
    method ServeFrame(session: SessionId, request: WorkerRequest, now: Millis) returns (r: Option<Result<WorkerView, AgdError>>)
      requires Valid()
      modifies core`store, core`trail, core`pending, core`unsent
      ensures Valid() && old(core.trail) <= core.trail
      ensures old(core.Covered()) ==> core.Covered()
      ensures r.None? <==> |old(core.pending)| >= WORKER_REQUEST_LIMIT
      ensures r.None? ==> core.pending == old(core.pending) && core.store == old(core.store)
      ensures r.Some? ==>
                && |core.pending| < SCHEDULER_CAPACITY && core.store.sessions == old(core.store).sessions
                && r.value == FrameOutcome(core.activeWorkers, old(core.unsent), old(core.store), core.submitted, core.maxFrame, session, request, now)
                && (r.value.Ok? ==> r.value == core.LiveResponse(session, request.attempt))
      ensures core.unsent == (old(core.unsent) || (r.Some? && r.value.Ok?))
      ensures r.Some? && r.value.Ok? && request.Infer? ==>
                && (session, request.attempt) in core.store.attempts
                && core.store.attempts[(session, request.attempt)].state.request.exactRequest == OfBytes(request.bytes)
                && (core.store.attempts[(session, request.attempt)].state.state.Acknowledged? || Outstanding(core, session, request.attempt))
      ensures r.Some? && r.value.Ok? && (session, request.attempt) !in old(core.store).attempts ==>
                && Dispatched(old(core.pending), core.pending, session, request.attempt)
                && core.store.attempts.Keys == old(core.store).attempts.Keys + {(session, request.attempt)}
    {
      if !core.AcceptsWorkerRequest() {
        return None;
      }
      match request
      case Infer(attempt, headers, bytes) =>
        var served := ServeInfer(core, session, attempt, headers, bytes, now);
        r := Some(served);
      case Reconcile(attempt) =>
        var told := Tell(core, session, attempt);
        r := Some(told);
    }

    /** What the live worker sent is read only while the gate is open; what is no
        canonical request is refused. */
    method ServeIncoming(frame: Incoming, now: Millis) returns (r: Option<Result<WorkerView, AgdError>>)
      requires Valid()
      modifies core`store, core`trail, core`pending, core`unsent
      ensures Valid() && old(core.trail) <= core.trail
      ensures old(core.Covered()) ==> core.Covered()
      ensures r.None? <==> frame.Silent? || |old(core.pending)| >= WORKER_REQUEST_LIMIT
      ensures if r.None? then core.pending == old(core.pending) else |core.pending| < SCHEDULER_CAPACITY
      ensures r.Some? ==>
                r.value == IncomingOutcome(core.activeWorkers, old(core.unsent), old(core.store), core.submitted, core.maxFrame, frame, now)
      ensures core.unsent == (old(core.unsent) || (r.Some? && r.value.Ok?))
    {
      match frame
      case Silent => r := None;
      case Malformed => r := if core.AcceptsWorkerRequest() then Some(Err(ProviderChannelFrame)) else None;
      case Framed(session, request) => r := ServeFrame(session, request, now);
    }

    /** `pump_provider_io`: refill, receive, submit, serve, flush. It fails exactly
        when a completion of its receiving pass ends the daemon or gives one answer
        too many, the frame it reads is refused, or the response channel breaks
        under a frame. */
    method Pump(frame: Incoming, receiving: seq<seq<Worker>>, submitting: seq<seq<Worker>>, flush: Flush, now: Millis)
      returns (r: Result<(), AgdError>, served: Option<Result<WorkerView, AgdError>>, ghost reading: Store, ghost inFlight: seq<Job>)
      requires Valid()
      modifies this`pipe, core`store, core`trail, core`pending, core`submitted, core`cursor, core`scanComplete, core`unsent
      ensures Valid() && old(core.trail) <= core.trail
      ensures r.Ok? && old(core.Covered()) ==> core.Covered()
      ensures PumpedAs(core.activeWorkers.Keys, old(core.unsent), core.unsent, old(core.store), core.maxFrame, Pass(capacity, old(pipe), receiving),
                       served, flush, now, r)
      ensures served.Some? ==>
                var busy := old(core.unsent) || AnswerCount(core.activeWorkers.Keys, Pass(capacity, old(pipe), receiving)) > 0;
                && SameStanding(old(core.store), reading) && !frame.Silent?
                && served.value == IncomingOutcome(core.activeWorkers, busy, reading, inFlight, core.maxFrame, frame, now)
      ensures if served.Some? then |core.pending| < SCHEDULER_CAPACITY
              else r.Ok? ==> frame.Silent? || |core.pending| >= WORKER_REQUEST_LIMIT
    {
      ghost var live, pass := core.activeWorkers.Keys, Pass(capacity, pipe, receiving);
      served, reading, inFlight := None, core.store, core.submitted;
      r := Exchange(receiving, submitting, now);
      if r.Err? {
        return;
      }
      reading, inFlight := core.store, core.submitted;
      ghost var between := core.unsent;
      r, served := ServeAndFlush(frame, flush, now);
      PumpEnds(live, old(core.unsent), between, core.unsent, old(core.store), core.maxFrame, pass, served, flush, now, r);
    }

    /** The rest of the pump: the frame, then the response channel. */
    method ServeAndFlush(frame: Incoming, flush: Flush, now: Millis) returns (r: Result<(), AgdError>, served: Option<Result<WorkerView, AgdError>>)
      requires Valid()
      modifies core`store, core`trail, core`pending, core`unsent
      ensures Valid() && old(core.trail) <= core.trail
      ensures old(core.Covered()) ==> core.Covered()
      ensures FlushedAs(core.activeWorkers.Keys, old(core.unsent), core.unsent, served, flush, r)
      ensures served.None? <==> frame.Silent? || |old(core.pending)| >= WORKER_REQUEST_LIMIT
      ensures if served.None? then core.pending == old(core.pending) else |core.pending| < SCHEDULER_CAPACITY
      ensures served.Some? ==>
                served.value == IncomingOutcome(core.activeWorkers, old(core.unsent), old(core.store), core.submitted, core.maxFrame, frame, now)
    {
      served := ServeIncoming(frame, now);
      r := FlushAfter(old(core.unsent), served, flush);
    }

    /** A refused frame is the end; after any other the response channel is flushed. */
    method FlushAfter(ghost busy: bool, served: Option<Result<WorkerView, AgdError>>, flush: Flush) returns (r: Result<(), AgdError>)
      requires Valid() && core.unsent == (busy || (served.Some? && served.value.Ok?))
      modifies core`unsent
      ensures Valid() && (old(core.Covered()) ==> core.Covered())
      ensures FlushedAs(core.activeWorkers.Keys, busy, core.unsent, served, flush, r)
    {
      if served.Some? && served.value.Err? {
        return Err(served.value.error);
      }
      r := core.FlushWorkerProviderResponses(flush);
    }

    /** The pump up to the frame: refill, receive, submit. */
    method Exchange(receiving: seq<seq<Worker>>, submitting: seq<seq<Worker>>, now: Millis) returns (r: Result<(), AgdError>)
      requires Valid()
      modifies this`pipe, core`submitted, core`store, core`trail, core`pending, core`cursor, core`scanComplete, core`unsent
      ensures Valid() && old(core.trail) <= core.trail
      ensures r.Ok? && old(core.Covered()) ==> core.Covered()
      ensures PassedOver(core.activeWorkers.Keys, old(core.unsent), core.unsent, old(core.store), core.maxFrame, Pass(capacity, old(pipe), receiving), now, r)
      ensures r.Ok? ==> SameStanding(old(core.store), core.store)
    {
      r := RefillAndReceive(receiving, now);
      if r.Ok? {
        SubmitPending(submitting);
      }
    }

    method RefillAndReceive(receiving: seq<seq<Worker>>, now: Millis) returns (r: Result<(), AgdError>)
      requires Valid()
      modifies this`pipe, core`submitted, core`store, core`trail, core`pending, core`cursor, core`scanComplete, core`unsent
      ensures Valid() && old(core.trail) <= core.trail
      ensures r.Ok? && old(core.Covered()) ==> core.Covered()
      ensures PassedOver(core.activeWorkers.Keys, old(core.unsent), core.unsent, old(core.store), core.maxFrame, Pass(capacity, old(pipe), receiving), now, r)
      ensures r.Ok? ==> SameStanding(old(core.store), core.store)
    {
      Refill(receiving, now);
      ghost var refilled := core.store;
      var received := ReceiveAll(receiving, now);
      if received.Err? {
        return Err(received.error);
      }
      SameStandingTransitive(old(core.store), refilled, core.store);
      r := Ok(());
    }

    /** The refill changes the fate of nothing in flight. */
    method Refill(ghost receiving: seq<seq<Worker>>, now: Millis)
      requires Valid()
      modifies core`store, core`trail, core`pending, core`cursor, core`scanComplete
      ensures Valid() && old(core.trail) <= core.trail
      ensures (old(core.Covered()) ==> core.Covered()) && SameStanding(old(core.store), core.store)
      ensures AllGoOn(core.activeWorkers.Keys, old(core.store), core.maxFrame, Pass(capacity, pipe, receiving), now)
              <==> AllGoOn(core.activeWorkers.Keys, core.store, core.maxFrame, Pass(capacity, pipe, receiving), now)
    {
      core.RefillPendingProviderTerminations(now);
      core.Progress();
      ScanKeepsStanding(old(core.store), core.store, old(core.cursor), core.cursor, now);
      forall c | c in Pass(capacity, pipe, receiving)
        ensures Backed(old(core.store), c.job)
      {
        PassWithin(capacity, pipe, receiving, c);
      }
      AllFatesKept(core.activeWorkers.Keys, old(core.store), old(core.trail), core.store, core.maxFrame, Pass(capacity, pipe, receiving), now);
    }

    /** One event of the main loop. */
    method Handle(event: Event) returns (r: Result<(), AgdError>)
      requires Valid() && (event.Launch? ==> SpecOk(event.spec))
      modifies this`pipe, core
      ensures Valid() && old(core.trail) <= core.trail
      ensures r.Ok? && !Stuck(event) && old(core.Covered()) ==> core.Covered()
    {
      r := Ok(());
      match event
      case Poll(session, outcome, at, now, terminates) =>
        if session in core.activeWorkers {
          r := core.PollWorker(session, outcome, at, now, terminates);
        }
      case Provider(frame, receiving, submitting, flush, now) =>
        var pumped, served, reading, inFlight := Pump(frame, receiving, submitting, flush, now);
        r := pumped;
      case Launch(spec, receipt, outcome, at, now, terminates) =>
        var launched := core.LaunchWorker(spec, receipt, outcome, at, now, terminates);
      case Cancel(session, evidence, at, now, terminates) =>
        var cancelled := core.CancelWorker(session, evidence, at, now, terminates);
    }

    /** The main loop over any events: as long as every process that was told to
        stop did stop, every session is attended while live and its revocation
        looked after once tombstoned. */
    method Serve(events: seq<Event>) returns (r: Result<(), AgdError>)
      requires Valid() && forall e :: e in events && e.Launch? ==> SpecOk(e.spec)
      modifies this`pipe, core
      ensures Valid() && old(core.trail) <= core.trail
      ensures r.Ok? && old(core.Covered()) && (forall e :: e in events ==> !Stuck(e)) ==> core.Covered()
    {
      for i := 0 to |events|
        invariant Valid() && old(core.trail) <= core.trail
        invariant old(core.Covered()) && (forall e :: e in events ==> !Stuck(e)) ==> core.Covered()
      {
        var handled := Handle(events[i]);
        if handled.Err? {
          return Err(handled.error);
        }
      }
      r := Ok(());
    }
  }

  /** A worker that may ask the provider until the time 100. */
  const EXAMPLE := Spec([97], 7, 100, Some(Capability([97], 7, 64, 0, 0, 0)), 64)

  /** A provider-enabled worker launched after the scan found nothing to do. */
  method LaunchAfterScan(spec: Spec) returns (core: AgdCore)
    requires SpecOk(spec) && spec.capability.Some?
    ensures fresh(core) && core.Valid() && core.Covered() && core.Prompt() && core.scanComplete
    ensures core.activeWorkers == map[spec.session := spec] && ProviderEnabled(core.store, spec.session) && !IsTombstoned(core.store, spec.session)
    ensures core.store.sessions[spec.session].state == Session(spec, Active(Opaque(0)), NoCandidate)
    ensures core.store.attempts == map[] && core.pending == [] && core.submitted == [] && core.maxFrame == 4096 && !core.unsent
  {
    core := new AgdCore(EMPTY, 4096, [EMPTY]);
    var attached := core.AttachProviderRuntime(true);
    assert KeysAfter(core.store.sessions.Keys, None) == {};
    core.RefillPendingProviderTerminations(0);
    var launched := core.LaunchWorker(spec, Opaque(0), Released, 1, 1, true);
  }

  /** A cancellation whose process will not stop, once the scan has gone by, loses
      the session its cover: it is tombstoned and awaits cleanup, with no revocation
      queued, in flight or ahead of the scan. */
  method StuckCancellationLosesCover() returns (core: AgdCore)
    ensures core.Valid() && !core.Covered() && IsTombstoned(core.store, EXAMPLE.session)
  {
    core := LaunchAfterScan(EXAMPLE);
    label Launched:
    var cancelled := core.CancelWorker(EXAMPLE.session, Opaque(1), 2, 2, false);
    core.Progress@Launched();
  }

  /** The example worker is active and attended. */
  predicate ExampleRuns(core: AgdCore)
    reads core
  {
    && core.activeWorkers == map[EXAMPLE.session := EXAMPLE] && core.maxFrame == 4096 && EXAMPLE.session in core.store.sessions
    && core.store.sessions[EXAMPLE.session].state == Session(EXAMPLE, Active(Opaque(0)), NoCandidate)
  }

  /** Distinct attempt names of two letters. */
  function AttemptName(n: nat): (name: AttemptId)
    requires n < 256
    ensures AttemptNumber(name) == n && |name| == 2
  {
    [97 + n / 16, 97 + n % 16]
  }

  function AttemptNumber(name: AttemptId): int {
    if |name| == 2 then 16 * (name[0] as int - 97) + (name[1] as int - 97) else 0
  }

  /** A response the provider may give to any dispatch. */
  const ANSWER := Inference(Opaque(0), OfBytes([]), [], true)

  /** An error it may give instead. */
  const FAILURE := ProviderError(8, "", "")

  /** The example worker with the daemon beside it. */
  method ExampleDaemon() returns (daemon: GovernorDaemon)
    ensures fresh(daemon) && fresh(daemon.core) && daemon.Valid() && ExampleRuns(daemon.core)
    ensures daemon.capacity == 1 && daemon.pipe == IDLE && daemon.core.pending == [] && daemon.core.store.attempts == map[] && !daemon.core.unsent
  {
    var core := LaunchAfterScan(EXAMPLE);
    daemon := new GovernorDaemon(core, 1);
  }

  /** A new request of the example worker is admitted. */
  lemma ExampleAdmitted(live: map<SessionId, Spec>, d: Store, submitted: seq<Job>, attempt: AttemptId)
    requires live == map[EXAMPLE.session := EXAMPLE] && EXAMPLE.session in d.sessions && |attempt| == 2
    requires d.sessions[EXAMPLE.session].state == Session(EXAMPLE, Active(Opaque(0)), NoCandidate) && (EXAMPLE.session, attempt) !in d.attempts
    ensures FrameOutcome(live, false, d, submitted, 4096, EXAMPLE.session, Infer(attempt, map[], [0]), 1) == Ok(StillPending)
  {
  }

  /** The example worker asks for one more inference: its dispatch is queued, and an
      answer waits on its channel. */
  method ServeExample(daemon: GovernorDaemon, attempt: AttemptId)
    requires daemon.Valid() && ExampleRuns(daemon.core) && |daemon.core.pending| < WORKER_REQUEST_LIMIT
    requires (EXAMPLE.session, attempt) !in daemon.core.store.attempts && |attempt| == 2 && !daemon.core.unsent
    modifies daemon.core`store, daemon.core`trail, daemon.core`pending, daemon.core`unsent
    ensures daemon.Valid() && ExampleRuns(daemon.core) && daemon.core.unsent
    ensures LiveResponseIn(daemon.core.store, daemon.core.submitted, daemon.core.maxFrame, EXAMPLE.session, attempt).Ok?
    ensures Dispatched(old(daemon.core.pending), daemon.core.pending, EXAMPLE.session, attempt)
    ensures daemon.core.store.attempts.Keys == old(daemon.core.store).attempts.Keys + {(EXAMPLE.session, attempt)}
  {
    ExampleAdmitted(daemon.core.activeWorkers, daemon.core.store, daemon.core.submitted, attempt);
    var served := daemon.ServeFrame(EXAMPLE.session, Infer(attempt, map[], [0]), 1);
  }

  /** The same, and the worker drains the answer. */
  method Ask(daemon: GovernorDaemon, attempt: AttemptId)
    requires daemon.Valid() && ExampleRuns(daemon.core) && |daemon.core.pending| < WORKER_REQUEST_LIMIT
    requires (EXAMPLE.session, attempt) !in daemon.core.store.attempts && |attempt| == 2 && !daemon.core.unsent
    modifies daemon.core`store, daemon.core`trail, daemon.core`pending, daemon.core`unsent
    ensures daemon.Valid() && ExampleRuns(daemon.core) && !daemon.core.unsent
    ensures Dispatched(old(daemon.core.pending), daemon.core.pending, EXAMPLE.session, attempt)
    ensures daemon.core.store.attempts.Keys == old(daemon.core.store).attempts.Keys + {(EXAMPLE.session, attempt)}
  {
    ServeExample(daemon, attempt);
    var flushed := daemon.core.FlushWorkerProviderResponses(Drained);
  }

  /** The one dispatch queued is handed to an empty job channel. */
  method SubmitDispatch(daemon: GovernorDaemon)
    requires daemon.Valid() && daemon.pipe.jobs == [] && daemon.capacity == 1
    requires |daemon.core.pending| == 1 && ExampleDispatch(daemon.core.pending[0])
    modifies daemon`pipe, daemon.core`pending, daemon.core`submitted
    ensures daemon.Valid() && daemon.core.pending == []
    ensures |daemon.pipe.jobs| == 1 && daemon.pipe == old(daemon.pipe).(jobs := daemon.pipe.jobs)
    ensures ExampleDispatch(daemon.pipe.jobs[0])
  {
    var sent := daemon.SubmitOne();
  }

  /** The same, and the dispatch is handed to an idle job channel. */
  method AskAndSubmit(daemon: GovernorDaemon, attempt: AttemptId)
    requires daemon.Valid() && ExampleRuns(daemon.core) && daemon.core.pending == [] && daemon.pipe.jobs == [] && daemon.capacity == 1
    requires (EXAMPLE.session, attempt) !in daemon.core.store.attempts && |attempt| == 2 && !daemon.core.unsent
    modifies daemon`pipe, daemon.core`store, daemon.core`trail, daemon.core`pending, daemon.core`submitted, daemon.core`unsent
    ensures daemon.Valid() && ExampleRuns(daemon.core) && daemon.core.pending == [] && !daemon.core.unsent
    ensures daemon.core.store.attempts.Keys == old(daemon.core.store).attempts.Keys + {(EXAMPLE.session, attempt)}
    ensures |daemon.pipe.jobs| == 1 && daemon.pipe == old(daemon.pipe).(jobs := daemon.pipe.jobs)
    ensures ExampleDispatch(daemon.pipe.jobs[0])
  {
    Ask(daemon, attempt);
    SubmitDispatch(daemon);
  }

  /** The idle I/O worker takes the next job. */
  method Take(daemon: GovernorDaemon)
    requires daemon.Valid() && daemon.pipe.hand.None? && |daemon.pipe.jobs| == 1
    modifies daemon`pipe
    ensures daemon.Valid() && daemon.pipe == Pipe([], Some(old(daemon.pipe.jobs[0])), old(daemon.pipe.completions))
  {
    RanOne(daemon.capacity, daemon.pipe, TakeJob);
    daemon.WorkerRuns([TakeJob]);
  }

  /** The I/O worker returns this result for the job in its hand. */
  method Return(daemon: GovernorDaemon, result: ProviderResult)
    requires daemon.Valid() && daemon.pipe.hand.Some? && daemon.pipe.completions == []
    modifies daemon`pipe
    ensures daemon.Valid()
    ensures daemon.pipe == Pipe(old(daemon.pipe.jobs), None, [Completion(old(daemon.pipe.hand.value), result)])
  {
    RanOne(daemon.capacity, daemon.pipe, SendCompletion(result));
    daemon.WorkerRuns([SendCompletion(result)]);
  }

  /** The worker asks until only the slot kept for an acknowledgment is free. */
  method FillQueue(daemon: GovernorDaemon)
    requires daemon.Valid() && ExampleRuns(daemon.core) && daemon.core.pending == [] && !daemon.core.unsent
    requires forall k :: k in daemon.core.store.attempts ==> AttemptNumber(k.1) < 2
    modifies daemon.core`store, daemon.core`trail, daemon.core`pending, daemon.core`unsent
    ensures daemon.Valid() && ExampleRuns(daemon.core) && |daemon.core.pending| == WORKER_REQUEST_LIMIT && !daemon.core.unsent
  {
    var asked := 0;
    while asked < WORKER_REQUEST_LIMIT
      invariant asked <= WORKER_REQUEST_LIMIT && |daemon.core.pending| == asked
      invariant daemon.Valid() && ExampleRuns(daemon.core) && !daemon.core.unsent
      invariant forall k :: k in daemon.core.store.attempts ==> AttemptNumber(k.1) < asked + 2
    {
      Ask(daemon, AttemptName(asked + 2));
      asked := asked + 1;
    }
  }

  /** The job is a dispatch of the example worker. */
  predicate ExampleDispatch(job: Job) {
    job.session == EXAMPLE.session && job.operation.Begin? && |job.attempt| == 2
  }

  /** One dispatch of the example worker is in the I/O worker's hand. */
  method OneTaken() returns (daemon: GovernorDaemon)
    ensures fresh(daemon) && fresh(daemon.core) && daemon.Valid() && ExampleRuns(daemon.core) && daemon.capacity == 1
    ensures daemon.core.pending == [] && daemon.core.store.attempts.Keys == {(EXAMPLE.session, AttemptName(0))} && !daemon.core.unsent
    ensures daemon.pipe.hand.Some? && daemon.pipe == Pipe([], daemon.pipe.hand, []) && ExampleDispatch(daemon.pipe.hand.value)
  {
    daemon := ExampleDaemon();
    AskAndSubmit(daemon, AttemptName(0));
    Take(daemon);
  }

  /** Two dispatches of the example worker are in flight, the first in the I/O
      worker's hand. */
  method TwoInFlight() returns (daemon: GovernorDaemon)
    ensures fresh(daemon) && fresh(daemon.core) && daemon.Valid() && ExampleRuns(daemon.core) && daemon.capacity == 1
    ensures daemon.core.pending == [] && !daemon.core.unsent
    ensures daemon.core.store.attempts.Keys == {(EXAMPLE.session, AttemptName(0)), (EXAMPLE.session, AttemptName(1))}
    ensures daemon.pipe.hand.Some? && |daemon.pipe.jobs| == 1 && daemon.pipe.completions == []
    ensures ExampleDispatch(daemon.pipe.hand.value) && ExampleDispatch(daemon.pipe.jobs[0])
  {
    daemon := OneTaken();
    AskAndSubmit(daemon, AttemptName(1));
  }

  /** One dispatch of the example worker has this result, and another one is in the I/O worker's hand. */
  predicate OneOfTwoReturned(p: Pipe, result: ProviderResult) {
    && |p.completions| == 1 && p.hand.Some? && p == Pipe([], p.hand, p.completions) && p.completions[0].result == result
    && ExampleDispatch(p.completions[0].job) && ExampleDispatch(p.hand.value)
  }

  method ReturnFirst(daemon: GovernorDaemon, result: ProviderResult)
    requires daemon.Valid() && daemon.pipe.hand.Some? && |daemon.pipe.jobs| == 1 && daemon.pipe.completions == []
    requires ExampleDispatch(daemon.pipe.hand.value) && ExampleDispatch(daemon.pipe.jobs[0])
    modifies daemon`pipe
    ensures daemon.Valid() && OneOfTwoReturned(daemon.pipe, result)
  {
    Return(daemon, result);
    Take(daemon);
  }

  /** Both dispatches come back with the same result in one pass. */
  lemma ExamplePass(p: Pipe, result: ProviderResult, interleaving: seq<seq<Worker>>)
    requires OneOfTwoReturned(p, result) && interleaving == [[], [SendCompletion(result)]]
    ensures Pass(1, p, interleaving) == [p.completions[0], Completion(p.hand.value, result)]
  {
    assert p.completions == [p.completions[0]];
    PassOfTwo(1, p.completions[0], p.hand.value, result);
  }

  /** Two results for dispatches of the example worker while it runs. */
  lemma ExampleFates(live: set<SessionId>, d: Store, first: Completion, second: Completion)
    requires live == {EXAMPLE.session} && EXAMPLE.session in d.sessions && ExampleDispatch(first.job) && ExampleDispatch(second.job)
    requires d.sessions[EXAMPLE.session].state == Session(EXAMPLE, Active(Opaque(0)), NoCandidate) && first.result == second.result
    ensures first.result == ANSWER || first.result == FAILURE ==> AllGoOn(live, d, 4096, [first, second], 1)
    ensures first.result == ANSWER ==> Owed(live, [first, second]) == 2 && AnswerCount(live, [first, second]) == 0
    ensures first.result == FAILURE ==> AnswerCount(live, [first, second]) == 2
  {
    if first.result == ANSWER {
      BothOwed(live, d, 4096, first, second, 1);
    } else if first.result == FAILURE {
      BothAnswer(live, d, 4096, first, second, 1);
    }
  }

  /** A pass whose completions all let the daemon go on. */
  method ReceiveGood(daemon: GovernorDaemon, interleaving: seq<seq<Worker>>, ghost pass: seq<Completion>) returns (r: Result<nat, AgdError>)
    requires daemon.Valid() && !daemon.core.unsent && pass == Pass(daemon.capacity, daemon.pipe, interleaving)
    requires AllGoOn(daemon.core.activeWorkers.Keys, daemon.core.store, daemon.core.maxFrame, pass, 1)
    modifies daemon`pipe, daemon.core`submitted, daemon.core`store, daemon.core`trail, daemon.core`pending, daemon.core`unsent
    ensures daemon.Valid()
    ensures if AnswerCount(daemon.core.activeWorkers.Keys, pass) > 1 then r == Err(ProviderChannelBusy)
            else r.Ok? && Tallied(|old(daemon.core.pending)|, Owed(daemon.core.activeWorkers.Keys, pass), |daemon.core.pending|, r.value)
  {
    r := daemon.ReceiveAll(interleaving, 1);
    PassDecided(daemon.core.activeWorkers.Keys, false, daemon.core.unsent, old(daemon.core.store), daemon.core.maxFrame, pass, 1, r);
  }

  /** One pass receives the same result for two dispatches of the example worker. */
  method ReceiveBoth(daemon: GovernorDaemon, result: ProviderResult) returns (r: Result<nat, AgdError>)
    requires daemon.Valid() && ExampleRuns(daemon.core) && daemon.capacity == 1 && !daemon.core.unsent && OneOfTwoReturned(daemon.pipe, result)
    requires result == ANSWER || result == FAILURE
    modifies daemon`pipe, daemon.core`submitted, daemon.core`store, daemon.core`trail, daemon.core`pending, daemon.core`unsent
    ensures daemon.Valid()
    ensures result == FAILURE ==> r == Err(ProviderChannelBusy)
    ensures result == ANSWER ==> r.Ok? && Tallied(|old(daemon.core.pending)|, 2, |daemon.core.pending|, r.value)
  {
    var first, second := daemon.pipe.completions[0], Completion(daemon.pipe.hand.value, result);
    var interleaving := [[], [SendCompletion(result)]];
    ExamplePass(daemon.pipe, result, interleaving);
    ExampleFates(daemon.core.activeWorkers.Keys, daemon.core.store, first, second);
    r := ReceiveGood(daemon, interleaving, [first, second]);
  }

  /** One of two responses is back, and the queue is full but for one slot. */
  method FullButOne() returns (daemon: GovernorDaemon)
    ensures fresh(daemon) && fresh(daemon.core) && daemon.Valid() && ExampleRuns(daemon.core) && daemon.capacity == 1 && !daemon.core.unsent
    ensures |daemon.core.pending| == WORKER_REQUEST_LIMIT && OneOfTwoReturned(daemon.pipe, ANSWER)
  {
    daemon := TwoInFlight();
    FillQueue(daemon);
    ReturnFirst(daemon, ANSWER);
  }

  /** One slot is kept for an acknowledgment. Two responses received in one pass
      owe two, and the second is turned away. */
  method AcknowledgmentTurnedAway() returns (daemon: GovernorDaemon, r: Result<nat, AgdError>)
    ensures daemon.Valid() && r == Ok(1)
  {
    daemon := FullButOne();
    r := ReceiveBoth(daemon, ANSWER);
  }

  /** The response channel holds one frame. Two provider errors received in one
      pass give two answers, and the second ends the daemon. */
  method SecondAnswerEndsDaemon() returns (daemon: GovernorDaemon, r: Result<nat, AgdError>)
    ensures daemon.Valid() && r == Err(ProviderChannelBusy)
  {
    daemon := TwoInFlight();
    ReturnFirst(daemon, FAILURE);
    r := ReceiveBoth(daemon, FAILURE);
  }

  /** The example worker has asked and not drained the answer. */
  method Undrained() returns (daemon: GovernorDaemon)
    ensures fresh(daemon) && fresh(daemon.core) && daemon.Valid() && ExampleRuns(daemon.core) && daemon.core.unsent
    ensures |daemon.core.pending| == 1
    ensures LiveResponseIn(daemon.core.store, daemon.core.submitted, daemon.core.maxFrame, EXAMPLE.session, AttemptName(0)).Ok?
  {
    daemon := ExampleDaemon();
    ServeExample(daemon, AttemptName(0));
    var flushed := daemon.core.FlushWorkerProviderResponses(Stalled);
  }

  /** A worker that asks again before it has drained its last answer ends the daemon. */
  method UndrainedWorkerRefused() returns (daemon: GovernorDaemon, r: Option<Result<WorkerView, AgdError>>)
    ensures daemon.Valid() && r == Some(Err(ProviderChannelBusy))
  {
    daemon := Undrained();
    FrameBusy(daemon.core.activeWorkers, daemon.core.store, daemon.core.submitted, daemon.core.maxFrame, EXAMPLE.session, AttemptName(0), 1);
    r := daemon.ServeFrame(EXAMPLE.session, Reconcile(AttemptName(0)), 1);
  }

  /** The result of the example worker's one dispatch is ready to be received. */
  method OneReturned(result: ProviderResult) returns (daemon: GovernorDaemon)
    ensures fresh(daemon) && fresh(daemon.core) && daemon.Valid() && ExampleRuns(daemon.core) && daemon.capacity == 1
    ensures daemon.core.pending == [] && !daemon.core.unsent
    ensures |daemon.pipe.completions| == 1 && daemon.pipe == Pipe([], None, daemon.pipe.completions)
    ensures ExampleDispatch(daemon.pipe.completions[0].job) && daemon.pipe.completions[0].result == result
  {
    daemon := OneTaken();
    Return(daemon, result);
  }

  /** A response that comes back after its worker's principal expired ends the daemon. */
  method LateResponseEndsDaemon() returns (daemon: GovernorDaemon, r: Result<Consumed, AgdError>)
    ensures daemon.Valid() && EXAMPLE.session in daemon.core.activeWorkers && r == Err(PrincipalExpired)
  {
    daemon := OneReturned(ANSWER);
    r := daemon.ReceiveInteractive(EXAMPLE.expires);
  }

  /** The acknowledgment of this response of the example worker. */
  predicate AcknowledgmentOf(job: Job, response: Bytes) {
    && job.session == EXAMPLE.session && job.operation.Acknowledge?
    && job.operation.dispatch == Opaque(0) && job.operation.stream == OfBytes(response)
  }

  lemma ExampleFetched(live: set<SessionId>, d: Store, c: Completion, response: Bytes)
    requires live == {EXAMPLE.session} && EXAMPLE.session in d.sessions && ExampleDispatch(c.job)
    requires d.sessions[EXAMPLE.session].state == Session(EXAMPLE, Active(Opaque(0)), NoCandidate)
    requires c.result == Inference(Opaque(0), OfBytes(response), response, true)
    ensures Passes(live, false, d, 4096, c, 1) && Owes(live, c) && !Answers(live, c)
  {
  }

  /** The response is received into custody, and its acknowledgment alone is outstanding. */
  method TakeInto(daemon: GovernorDaemon, response: Bytes)
    requires daemon.Valid() && ExampleRuns(daemon.core) && daemon.core.pending == [] && !daemon.core.unsent
    requires |daemon.pipe.completions| == 1 && daemon.pipe == Pipe([], None, daemon.pipe.completions)
    requires ExampleDispatch(daemon.pipe.completions[0].job)
    requires daemon.pipe.completions[0].result == Inference(Opaque(0), OfBytes(response), response, true)
    modifies daemon`pipe, daemon.core`submitted, daemon.core`store, daemon.core`trail, daemon.core`pending, daemon.core`unsent
    ensures daemon.Valid() && !daemon.core.unsent && daemon.pipe == IDLE
    ensures daemon.core.store.sessions == old(daemon.core.store).sessions
    ensures |daemon.core.pending| == 1 && AcknowledgmentOf(daemon.core.pending[0], response)
  {
    ghost var c, d := daemon.pipe.completions[0], daemon.core.store;
    ExampleFetched(daemon.core.activeWorkers.Keys, d, c, response);
    daemon.OldestWaits();
    assert InFlight(daemon.pipe) == [c.job];
    var consumed := daemon.ReceiveInteractive(1);
    assert daemon.core.submitted == [];
    AcknowledgmentAlone(daemon.core.activeWorkers, d, daemon.core.store, 4096, c, 1, Consumption(consumed, daemon.core.pending, daemon.core.unsent));
  }

  method InCustody(response: Bytes) returns (daemon: GovernorDaemon)
    ensures fresh(daemon) && fresh(daemon.core) && daemon.Valid() && ExampleRuns(daemon.core) && daemon.capacity == 1 && !daemon.core.unsent
    ensures daemon.pipe == IDLE && |daemon.core.pending| == 1 && AcknowledgmentOf(daemon.core.pending[0], response)
  {
    daemon := OneReturned(Inference(Opaque(0), OfBytes(response), response, true));
    TakeInto(daemon, response);
  }

  /** The acknowledgment goes to the provider, and its confirmation comes back. */
  method Confirm(daemon: GovernorDaemon, response: Bytes)
    requires daemon.Valid() && daemon.capacity == 1 && daemon.pipe == IDLE
    requires |daemon.core.pending| == 1 && AcknowledgmentOf(daemon.core.pending[0], response)
    modifies daemon`pipe, daemon.core`pending, daemon.core`submitted
    ensures daemon.Valid()
    ensures |daemon.pipe.completions| == 1 && AcknowledgmentOf(daemon.pipe.completions[0].job, response)
    ensures daemon.pipe.completions[0].result == CustodyAcknowledged(Opaque(0), Opaque(1))
  {
    var sent := daemon.SubmitOne();
    Take(daemon);
    Return(daemon, CustodyAcknowledged(Opaque(0), Opaque(1)));
  }

  /** The provider has confirmed the acknowledgment of the response. */
  method Confirmed(response: Bytes) returns (daemon: GovernorDaemon)
    ensures fresh(daemon) && fresh(daemon.core) && daemon.Valid() && ExampleRuns(daemon.core) && !daemon.core.unsent
    ensures |daemon.pipe.completions| == 1 && AcknowledgmentOf(daemon.pipe.completions[0].job, response)
    ensures daemon.pipe.completions[0].result == CustodyAcknowledged(Opaque(0), Opaque(1))
  {
    daemon := InCustody(response);
    Confirm(daemon, response);
  }

  lemma LargeShown(d: Store, trail: seq<Store>, c: Completion, response: Bytes)
    requires Durable(d, trail) && Backed(d, c.job) && AcknowledgmentOf(c.job, response) && c.result.CustodyAcknowledged?
    requires 3072 < |response| <= 4096
    ensures AnswerTo(d, 4096, c).Ok? && AnswerLength(c.job.attempt, AnswerTo(d, 4096, c).value) > 4096
  {
    AttemptSound(d, trail, (c.job.session, c.job.attempt));
    var held := d.attempts[(c.job.session, c.job.attempt)].state.state.response;
    assert d.blobs[held.stream] == response;
    ReadableNotEnough(c.job.attempt, held.stream, response, held.terminal, 4096);
  }

  /** Consuming the confirmation of such a response ends the daemon. */
  lemma LargeEnds(live: map<SessionId, Spec>, d: Store, trail: seq<Store>, e: Store, queue: seq<Job>, submitted: seq<Job>, c: Completion,
                  response: Bytes, left: Consumption)
    requires Durable(d, trail) && Attended(live, d) && live == map[EXAMPLE.session := EXAMPLE]
    requires Backed(d, c.job) && Due(d.attempts, d.terminations, c.job) && AcknowledgmentOf(c.job, response) && 3072 < |response| <= 4096
    requires c.result == CustodyAcknowledged(Opaque(0), Opaque(1)) && GrantInForce(d, EXAMPLE.session, 1)
    requires Settling(d, e, c, VerdictIn(live, d, c, 1)) && BlobsEvolve(d, e)
    requires left == Consuming(live, d, e, 4096, queue, submitted, false, c, 1)
    ensures left.result == Err(ProviderFrameTooLarge)
  {
    LargeShown(d, trail, c, response);
    OversizedAnswer(live, d, trail, e, 4096, queue, submitted, c, 1);
  }

  /** The response is acknowledged and would be shown, but is too long for a frame. */
  method ShowLarge(daemon: GovernorDaemon, response: Bytes) returns (r: Result<Consumed, AgdError>)
    requires daemon.Valid() && ExampleRuns(daemon.core) && !daemon.core.unsent && 3072 < |response| <= 4096
    requires |daemon.pipe.completions| == 1 && AcknowledgmentOf(daemon.pipe.completions[0].job, response)
    requires daemon.pipe.completions[0].result == CustodyAcknowledged(Opaque(0), Opaque(1))
    modifies daemon`pipe, daemon.core`submitted, daemon.core`store, daemon.core`trail, daemon.core`pending, daemon.core`unsent
    ensures daemon.Valid() && r == Err(ProviderFrameTooLarge)
  {
    ghost var c, d := daemon.pipe.completions[0], daemon.core.store;
    daemon.OldestWaits();
    r := daemon.ReceiveInteractive(1);
    LargeEnds(daemon.core.activeWorkers, d, old(daemon.core.trail), daemon.core.store, old(daemon.core.pending), daemon.core.submitted, c, response,
              Consumption(r, daemon.core.pending, daemon.core.unsent));
  }

  /** Under a limit of 4096 bytes every response of more than three quarters of it
      can be read from custody but ends the daemon when it is shown. */
  method LargeResponseEndsDaemon(response: Bytes) returns (daemon: GovernorDaemon, r: Result<Consumed, AgdError>)
    requires 3072 < |response| <= 4096
    ensures daemon.Valid() && daemon.core.maxFrame == 4096 && r == Err(ProviderFrameTooLarge)
  {
    daemon := Confirmed(response);
    r := ShowLarge(daemon, response);
  }

  /** A frame that asks about an attempt nobody made is refused, which ends the daemon. */
  method UnknownAttemptRefused() returns (daemon: GovernorDaemon, r: Option<Result<WorkerView, AgdError>>)
    ensures daemon.Valid() && r == Some(Err(WorkerProviderAttemptNotFound))
  {
    daemon := ExampleDaemon();
    r := daemon.ServeFrame(EXAMPLE.session, Reconcile(AttemptName(0)), 1);
  }

  /** One lifetime of the daemon, started on any state that earlier lifetimes can
      have left, crashed ones included. */
  method Lifetime(d: Store, ghost history: seq<Store>, maxFrame: nat, started: Millis, events: seq<Event>)
    returns (core: AgdCore, r: Result<(), AgdError>)
    requires Run(history) && d == history[|history| - 1]
    requires forall e :: e in events && e.Launch? ==> SpecOk(e.spec)
    ensures core.Valid() && history <= core.trail
    ensures r.Ok? && (forall e :: e in events ==> !Stuck(e)) ==> core.Covered()
  {
    core := new AgdCore(d, maxFrame, history);
    var attached := core.AttachProviderRuntime(true);
    var retired, alreadyTerminal := core.RecoverWorkerSessions(started);
    var daemon := new GovernorDaemon(core, 1);
    r := daemon.Serve(events);
  }
}
