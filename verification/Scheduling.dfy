/** The bounded provider job scheduler seen as values: what makes a job genuine,
    what the queues may hold, and which sessions the recovery scan still owes a
    revocation. */
module Scheduling {
  import opened ByteOrder
  import opened Outcomes
  import opened Custody
  import opened Ledger
  import opened Paging

  const SCHEDULER_CAPACITY: nat := 128
  const INTERACTIVE_RESERVE: nat := 2
  const TERMINATION_LIMIT: nat := SCHEDULER_CAPACITY - INTERACTIVE_RESERVE
  const WORKER_REQUEST_LIMIT: nat := SCHEDULER_CAPACITY - 1
  const SCAN_BATCH: nat := 128

  lemma Capacities()
    ensures SCHEDULER_CAPACITY == SCAN_BATCH == 128 && TERMINATION_LIMIT == 126 && WORKER_REQUEST_LIMIT == 127
  {
  }

  /** No job is outstanding twice, whether queued or submitted. */
  ghost predicate AtMostOnce(pending: seq<Job>, submitted: seq<Job>) {
    forall job :: multiset(pending)[job] + multiset(submitted)[job] <= 1
  }

  lemma PushKeepsOnce(pending: seq<Job>, submitted: seq<Job>, job: Job)
    requires AtMostOnce(pending, submitted) && job !in pending && job !in submitted
    ensures AtMostOnce(pending + [job], submitted)
  {
    assert multiset(pending + [job]) == multiset(pending) + multiset{job};
  }

  /** Taking the first job, and submitting or restoring it. */
  lemma TakeKeepsOnce(pending: seq<Job>, submitted: seq<Job>)
    requires pending != [] && AtMostOnce(pending, submitted)
    ensures AtMostOnce(pending[1..], submitted)
    ensures AtMostOnce(pending[1..], submitted + [pending[0]])
    ensures pending[0] !in pending[1..] && pending[0] !in submitted
  {
    assert pending == [pending[0]] + pending[1..];
    assert multiset(pending) == multiset{pending[0]} + multiset(pending[1..]);
    assert multiset(submitted + [pending[0]]) == multiset(submitted) + multiset{pending[0]};
    assert multiset(pending)[pending[0]] + multiset(submitted)[pending[0]] <= 1;
  }

  /** `enqueue_provider_job_bounded` as a function of the queue. */
  function Enqueue(pending: seq<Job>, submitted: seq<Job>, job: Job, limit: nat): seq<Job> {
    if job in pending || job in submitted || |pending| >= limit then pending else pending + [job]
  }

  /** The submitted list with one job struck out. */
  function Without(jobs: seq<Job>, job: Job): (r: seq<Job>)
    ensures multiset(r) == multiset(jobs)[job := 0]
  {
    if jobs == [] then [] else
      assert jobs == [jobs[0]] + jobs[1..];
      if jobs[0] == job then Without(jobs[1..], job) else [jobs[0]] + Without(jobs[1..], job)
  }

  lemma WithoutKeepsOnce(pending: seq<Job>, submitted: seq<Job>, job: Job)
    requires AtMostOnce(pending, submitted)
    ensures AtMostOnce(pending, Without(submitted, job))
  {
  }

  lemma WithoutElements(submitted: seq<Job>, job: Job, x: Job)
    ensures x in Without(submitted, job) <==> x in submitted && x != job
  {
    assert x in Without(submitted, job) <==> multiset(Without(submitted, job))[x] > 0;
    assert x in submitted <==> multiset(submitted)[x] > 0;
  }

  /** A list without its only occurrence of a job. */
  lemma {:induction false} WithoutAbsent(submitted: seq<Job>, job: Job)
    requires job !in submitted
    ensures Without(submitted, job) == submitted
  {
    if submitted != [] {
      assert submitted == [submitted[0]] + submitted[1..];
      WithoutAbsent(submitted[1..], job);
    }
  }

  lemma WithoutFirst(pending: seq<Job>, submitted: seq<Job>)
    requires AtMostOnce(pending, submitted) && submitted != []
    ensures Without(submitted, submitted[0]) == submitted[1..]
  {
    assert submitted == [submitted[0]] + submitted[1..];
    assert multiset(submitted) == multiset{submitted[0]} + multiset(submitted[1..]);
    assert multiset(pending)[submitted[0]] + multiset(submitted)[submitted[0]] <= 1;
    WithoutAbsent(submitted[1..], submitted[0]);
  }

  // ---------- Genuine jobs ----------

  /** The job is the one the durable records call for. */
  predicate Backed(d: Store, job: Job) {
    match job.operation
    case Begin(request, bytes) =>
      && (job.session, job.attempt) in d.attempts && job.session in d.sessions
      && d.attempts[(job.session, job.attempt)].state.request == request
      && d.attempts[(job.session, job.attempt)].state.principal == job.principal
      && d.sessions[job.session].state.spec.capability == Some(job.capability)
      && OfBytes(bytes) == request.exactRequest
    case Acknowledge(dispatch, stream, custodyRecord) =>
      && (job.session, job.attempt) in d.attempts && job.session in d.sessions
      && var a := d.attempts[(job.session, job.attempt)].state;
      && a.state.HasResponse()
      && a.state.dispatch == dispatch && a.state.response.stream == stream && a.state.response.custodyRecord == custodyRecord
      && a.principal == job.principal
      && d.sessions[job.session].state.spec.capability == Some(job.capability)
    case Terminate =>
      job.session in d.terminations && job == TerminationJob(d.terminations[job.session].state)
  }

  lemma BackedStable(d: Store, e: Store, job: Job)
    requires Backed(d, job) && SessionsEvolve(d, e) && AttemptsEvolve(d, e) && TerminationsEvolve(d, e)
    ensures Backed(e, job)
  {
  }

  /** Two genuine jobs doing the same thing for the same attempt are one job. */
  lemma BackedUnique(d: Store, x: Job, y: Job)
    requires Backed(d, x) && Backed(d, y)
    requires x.session == y.session && x.attempt == y.attempt
    requires (x.operation.Begin? && y.operation.Begin?) || (x.operation.Acknowledge? && y.operation.Acknowledge?)
             || (x.operation.Terminate? && y.operation.Terminate?)
    ensures x == y
  {
  }

  /** The record still waits for what the job does: a dispatch for a response, an
      acknowledgment for its receipt, a revocation for its confirmation. */
  predicate Due(attempts: map<Key, Versioned<Attempt>>, terminations: map<SessionId, Versioned<Termination>>, job: Job) {
    match job.operation
    case Begin(_, _) => (job.session, job.attempt) in attempts && attempts[(job.session, job.attempt)].state.state.RequestInCustody?
    case Acknowledge(_, _, _) => (job.session, job.attempt) in attempts && attempts[(job.session, job.attempt)].state.state.ResponseInCustody?
    case Terminate => job.session in terminations && !terminations[job.session].state.state.Terminated?
  }

  ghost predicate AllDue(attempts: map<Key, Versioned<Attempt>>, terminations: map<SessionId, Versioned<Termination>>, pending: seq<Job>, submitted: seq<Job>) {
    forall job :: job in pending || job in submitted ==> Due(attempts, terminations, job)
  }

  // ---------- The recovery scan ----------

  predicate Ahead(cursor: Option<SessionId>, complete: bool, s: SessionId) {
    !complete && After(cursor, s)
  }

  /** A provider-enabled session whose cleanup is pending is still ahead of the
      scan, or its revocation is queued, in flight, or known indeterminate. */
  predicate CoveredAt(d: Store, pending: seq<Job>, submitted: seq<Job>, cursor: Option<SessionId>, complete: bool, s: SessionId) {
    ProviderEnabled(d, s) && AwaitsCleanup(d, s) ==>
      || Ahead(cursor, complete, s)
      || (&& s in d.terminations && !d.terminations[s].state.state.Terminated?
          && (|| TerminationJob(d.terminations[s].state) in pending
              || TerminationJob(d.terminations[s].state) in submitted
              || d.terminations[s].state.state.Indeterminate?))
  }

  /** Covered once tombstoned, attended by a live runtime until then. */
  predicate LookedAfter(d: Store, live: set<SessionId>, pending: seq<Job>, submitted: seq<Job>, cursor: Option<SessionId>, complete: bool, s: SessionId) {
    && (s in d.sessions && !IsTombstoned(d, s) ==> s in live)
    && CoveredAt(d, pending, submitted, cursor, complete, s)
  }

  /** A session stays looked after while its records stand, its queued jobs are
      kept, and it does not fall behind the scan. */
  lemma StaysLookedAfter(d: Store, e: Store, live: set<SessionId>, live': set<SessionId>, pending: seq<Job>, pending': seq<Job>,
                         submitted: seq<Job>, cursor: Option<SessionId>, complete: bool, cursor': Option<SessionId>, complete': bool, s: SessionId)
    requires LookedAfter(d, live, pending, submitted, cursor, complete, s)
    requires s in d.sessions && s in e.sessions && d.sessions[s] == e.sessions[s]
    requires s in d.terminations ==> s in e.terminations && d.terminations[s] == e.terminations[s]
    requires pending <= pending' && (s in live ==> s in live')
    requires Ahead(cursor, complete, s) ==> Ahead(cursor', complete', s)
    ensures LookedAfter(e, live', pending', submitted, cursor', complete', s)
  {
    assert forall job :: job in pending ==> job in pending';
  }

  /** The same, when jobs move between the queue and the channel. */
  lemma StaysLookedAfterMove(d: Store, e: Store, live: set<SessionId>, pending: seq<Job>, submitted: seq<Job>, pending': seq<Job>, submitted': seq<Job>,
                             cursor: Option<SessionId>, complete: bool, s: SessionId)
    requires LookedAfter(d, live, pending, submitted, cursor, complete, s)
    requires d.sessions == e.sessions && d.terminations == e.terminations
    requires forall job: Job :: job.operation.Terminate? && job.session == s && (job in pending || job in submitted) ==> job in pending' || job in submitted'
    requires s in d.terminations ==> d.terminations[s].state.session == s
    ensures LookedAfter(e, live, pending', submitted', cursor, complete, s)
  {
  }

  // ---------- Startup recovery ----------

  /** What startup recovery makes of a session. */
  predicate Recovered(d: Store, e: Store, session: SessionId, now: Millis)
    requires session in d.sessions && session in e.sessions
  {
    if IsTombstoned(d, session) then e.sessions[session] == d.sessions[session]
    else
      && AwaitsCleanup(e, session)
      && e.sessions[session].state.spec == d.sessions[session].state.spec
      && e.sessions[session].state.authority.tombstone ==
           Tombstone(session, d.sessions[session].state.spec.principal, RestartRecovery, now)
  }

  /** Recovery begun in `d` has reached the cursor: behind it everything is
      recovered, ahead of it nothing is touched. */
  ghost predicate RecoveredTo(d: Store, e: Store, cursor: Option<SessionId>, now: Millis) {
    && d.sessions.Keys == e.sessions.Keys
    && forall s :: s in d.sessions ==>
         if After(cursor, s) then e.sessions[s] == d.sessions[s] else Recovered(d, e, s, now)
  }

  lemma RecoveredToNext(d: Store, e: Store, f: Store, cursor: Option<SessionId>, entity: SessionId, now: Millis)
    requires RecoveredTo(d, e, cursor, now) && d.sessions.Keys == f.sessions.Keys
    requires NextPast(d.sessions.Keys, cursor, entity)
    requires Recovered(d, f, entity, now)
    requires forall s :: s in d.sessions && s != entity ==> f.sessions[s] == e.sessions[s]
    ensures RecoveredTo(d, f, Some(entity), now)
  {
    forall s | s in d.sessions
      ensures if Less(entity, s) then f.sessions[s] == d.sessions[s] else Recovered(d, f, s, now)
    {
      LessIrreflexive(entity);
      if cursor.Some? && Less(entity, s) {
        LessTransitive(cursor.value, entity, s);
      }
    }
  }

  lemma RecoveredAll(d: Store, e: Store, cursor: Option<SessionId>, now: Millis)
    requires RecoveredTo(d, e, cursor, now) && KeysAfter(d.sessions.Keys, cursor) == {}
    ensures forall s :: s in e.sessions ==> Recovered(d, e, s, now)
    ensures Left(d.sessions.Keys, cursor, d.sessions.Keys) == 0
  {
    NoneLeft(d.sessions.Keys, cursor, d.sessions.Keys);
    forall s | s in e.sessions
      ensures Recovered(d, e, s, now)
    {
      assert s !in KeysAfter(d.sessions.Keys, cursor);
    }
  }
}
