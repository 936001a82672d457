/** What holds between the durable states of any run, whatever crashed in it. */
module History {
  import opened Custody
  import opened Ledger
  import opened Scheduling
  import opened Governor

  /** A crash leaves one of the states of a run, and a run can go on from there. */
  lemma CrashAnywhere(trail: seq<Store>, n: nat)
    requires Run(trail) && 0 < n <= |trail|
    ensures Run(trail[..n])
  {
    forall i | 0 < i < n
      ensures StepAt(trail[..n], i)
    {
      assert StepAt(trail, i);
    }
  }

  /** Once a session is tombstoned, its attempts are what they were. */
  lemma FencedAttemptsFrozen(trail: seq<Store>, i: nat, j: nat, k: Key)
    requires Run(trail) && i <= j < |trail| && IsTombstoned(trail[i], k.0)
    ensures IsTombstoned(trail[j], k.0)
    ensures k in trail[i].attempts <==> k in trail[j].attempts
    ensures k in trail[i].attempts ==> trail[j].attempts[k].state == trail[i].attempts[k].state
  {
    RunEvolves(trail, i, j);
  }

  lemma AttemptLater(trail: seq<Store>, i: nat, j: nat, k: Key)
    requires Run(trail) && i <= j < |trail| && k in trail[i].attempts
    ensures k in trail[j].attempts && AttemptAdvances(trail[i].attempts[k].state, trail[j].attempts[k].state)
    ensures AttemptOk(trail[j], k)
  {
    RunEvolves(trail, i, j);
    RunInv(trail, j);
  }

  lemma BlobExact(trail: seq<Store>, i: nat, digest: Digest)
    requires Run(trail) && i < |trail| && digest in trail[i].blobs
    ensures OfBytes(trail[i].blobs[digest]) == digest
  {
    RunInv(trail, i);
  }

  /** A response in custody has its exact bytes, is bound to its request, and never changes. */
  lemma ResponseStands(trail: seq<Store>, i: nat, j: nat, k: Key)
    requires Run(trail) && i <= j < |trail|
    requires k in trail[i].attempts && trail[i].attempts[k].state.state.HasResponse()
    ensures k in trail[j].attempts
    ensures var was, now := trail[i].attempts[k].state, trail[j].attempts[k].state;
            && now.request == was.request && now.principal == was.principal
            && now.state.HasResponse() && now.state.dispatch == was.state.dispatch && now.state.response == was.state.response
            && now.state.response.requestCustody == now.request.custodyRecord
            && now.state.response.stream in trail[j].blobs
            && OfBytes(trail[j].blobs[now.state.response.stream]) == now.state.response.stream
            && (was.state.Acknowledged? ==> now == was)
  {
    AttemptLater(trail, i, j, k);
    BlobExact(trail, j, trail[j].attempts[k].state.state.response.stream);
  }

  /** No attempt is ever stored as merely available at the provider, and every
      stored attempt keeps its request bytes. */
  lemma RequestInCustodyThroughout(trail: seq<Store>, i: nat, j: nat, k: Key)
    requires Run(trail) && i <= j < |trail| && k in trail[i].attempts
    ensures k in trail[j].attempts && !trail[j].attempts[k].state.state.DispatchAvailable?
    ensures var request := trail[j].attempts[k].state.request;
            && request == trail[i].attempts[k].state.request
            && request.exactRequest in trail[j].blobs
            && OfBytes(trail[j].blobs[request.exactRequest]) == request.exactRequest
            && RequestVerifies(request)
  {
    AttemptLater(trail, i, j, k);
    BlobExact(trail, j, trail[j].attempts[k].state.request.exactRequest);
  }

  /** An acknowledged attempt was first in custody with the same response. */
  lemma {:induction false} AcknowledgedAfterResponse(trail: seq<Store>, i: nat, k: Key) returns (j: nat)
    requires Run(trail) && i < |trail|
    requires k in trail[i].attempts && trail[i].attempts[k].state.state.Acknowledged?
    ensures j < i && k in trail[j].attempts
    ensures var was, now := trail[j].attempts[k].state, trail[i].attempts[k].state;
            was == now.(state := ResponseInCustody(now.state.dispatch, now.state.response))
  {
    assert StepAt(trail, i);
    var c :| Lawful(trail[i - 1], c) && trail[i] == Apply(trail[i - 1], c);
    if k in trail[i - 1].attempts && trail[i - 1].attempts[k].state.state.Acknowledged? {
      j := AcknowledgedAfterResponse(trail, i - 1, k);
      AttemptLater(trail, i - 1, i, k);
    } else {
      j := i - 1;
    }
  }

  /** An attempt with a response was first in custody as a request only. */
  lemma {:induction false} ResponseAfterRequest(trail: seq<Store>, i: nat, k: Key) returns (j: nat)
    requires Run(trail) && i < |trail|
    requires k in trail[i].attempts && trail[i].attempts[k].state.state.HasResponse()
    ensures j < i && k in trail[j].attempts
    ensures trail[j].attempts[k].state == trail[i].attempts[k].state.(state := RequestInCustody)
  {
    assert StepAt(trail, i);
    var c :| Lawful(trail[i - 1], c) && trail[i] == Apply(trail[i - 1], c);
    if k in trail[i - 1].attempts && trail[i - 1].attempts[k].state.state.HasResponse() {
      j := ResponseAfterRequest(trail, i - 1, k);
      AttemptLater(trail, i - 1, i, k);
    } else {
      j := i - 1;
    }
  }

  /** The log holds at most one event of each custody step, exactly as the record says. */
  lemma CustodyEventsOnce(trail: seq<Store>, i: nat, s: SessionId, a: AttemptId)
    requires Run(trail) && i < |trail|
    ensures Count(trail[i].log, AttemptLogged(s, a, RequestCustodied)) <= 1
    ensures Count(trail[i].log, AttemptLogged(s, a, ResponseCustodied)) <= 1
    ensures Count(trail[i].log, AttemptLogged(s, a, CustodyAcked)) <= 1
    ensures Count(trail[i].log, AttemptLogged(s, a, ResponseCustodied)) == 1 <==>
            (s, a) in trail[i].attempts && trail[i].attempts[(s, a)].state.state.HasResponse()
    ensures Count(trail[i].log, AttemptLogged(s, a, CustodyAcked)) == 1 <==>
            (s, a) in trail[i].attempts && trail[i].attempts[(s, a)].state.state.Acknowledged?
  {
    RunInv(trail, i);
    assert AttemptEventsOk(trail[i], s, a);
  }

  /** A provider-enabled session is cleaned up only behind both receipts: the
      process receipt its termination record was opened with, and the provider's
      confirmation. All of it stands from then on. */
  lemma CleanupBehindBothReceipts(trail: seq<Store>, i: nat, j: nat, s: SessionId)
    requires Run(trail) && i <= j < |trail|
    requires IsTombstoned(trail[i], s) && trail[i].sessions[s].state.authority.cleanup.Complete? && ProviderEnabled(trail[i], s)
    ensures s in trail[j].terminations && trail[j].terminations[s].state.state.Terminated?
    ensures IsTombstoned(trail[j], s)
    ensures var record := trail[j].terminations[s].state;
            && trail[j].sessions[s].state.authority == trail[i].sessions[s].state.authority
            && trail[j].sessions[s].state.authority.cleanup.receipt == CleanupAggregate(s, record.process, record.state.receipt)
            && s in trail[i].terminations && trail[i].terminations[s].state == record
  {
    RunInv(trail, i);
    RunInv(trail, j);
    RunEvolves(trail, i, j);
  }

  /** A termination record keeps the process receipt it was opened with, is only
      ever held for a tombstoned session, and a confirmation is final. */
  lemma ConfirmationFinal(trail: seq<Store>, i: nat, j: nat, s: SessionId)
    requires Run(trail) && i <= j < |trail| && s in trail[i].terminations
    ensures s in trail[j].terminations && IsTombstoned(trail[i], s)
    ensures trail[j].terminations[s].state.process == trail[i].terminations[s].state.process
    ensures trail[i].terminations[s].state.state.Terminated? ==> trail[j].terminations[s].state == trail[i].terminations[s].state
    ensures Count(trail[j].log, TerminationLogged(s, TerminationRequested)) == 1
    ensures Count(trail[j].log, TerminationLogged(s, TerminationConfirmed)) == if trail[j].terminations[s].state.state.Terminated? then 1 else 0
  {
    RunInv(trail, i);
    RunInv(trail, j);
    RunEvolves(trail, i, j);
    assert TerminationOk(trail[i], s);
    assert TerminationEventsOk(trail[j], s);
  }

  /** A principal is never revived. */
  lemma TombstoneStands(trail: seq<Store>, i: nat, j: nat, s: SessionId)
    requires Run(trail) && i <= j < |trail| && IsTombstoned(trail[i], s)
    ensures IsTombstoned(trail[j], s)
    ensures trail[j].sessions[s].state.spec == trail[i].sessions[s].state.spec
    ensures trail[j].sessions[s].state.authority.tombstone == trail[i].sessions[s].state.authority.tombstone
    ensures trail[j].sessions[s].state.authority.launch == trail[i].sessions[s].state.authority.launch
  {
    RunEvolves(trail, i, j);
  }

  /** An accepted candidate is held under the tombstone of its acceptance, with its
      exact bytes and a proof short enough to be read back. It never changes, and
      neither does the broker's outcome once it is recorded. */
  lemma CandidateStands(trail: seq<Store>, i: nat, j: nat, s: SessionId)
    requires Run(trail) && i <= j < |trail|
    requires s in trail[i].sessions && !trail[i].sessions[s].state.candidate.NoCandidate?
    ensures IsTombstoned(trail[i], s) && trail[i].sessions[s].state.authority.tombstone.reason.CandidateAccepted?
    ensures s in trail[j].sessions && !trail[j].sessions[s].state.candidate.NoCandidate?
    ensures var was, now := trail[i].sessions[s].state, trail[j].sessions[s].state;
            var candidate := now.candidate.candidate;
            && candidate == was.candidate.candidate && candidate.length <= now.spec.outputBudget
            && CandidateStored(trail[j], now.spec.outputBudget, candidate)
            && OfBytes(trail[j].blobs[candidate.content]) == candidate.content
            && OfBytes(trail[j].blobs[candidate.proof]) == candidate.proof
            && (was.candidate.BrokerCompleted? ==> now.candidate == was.candidate)
  {
    RunInv(trail, i);
    RunInv(trail, j);
    RunEvolves(trail, i, j);
    assert SessionOk(trail[i], s) && SessionOk(trail[j], s);
  }

  /** A session retired for any other reason never holds a candidate. */
  lemma NoCandidateOtherwise(trail: seq<Store>, i: nat, j: nat, s: SessionId)
    requires Run(trail) && i <= j < |trail| && IsTombstoned(trail[i], s)
    requires trail[i].sessions[s].state.candidate.NoCandidate? && !trail[i].sessions[s].state.authority.tombstone.reason.CandidateAccepted?
    ensures s in trail[j].sessions && trail[j].sessions[s].state.candidate.NoCandidate?
  {
    RunInv(trail, j);
    RunEvolves(trail, i, j);
    assert SessionOk(trail[j], s);
  }

  // ---------- Jobs ----------

  /** Once a response was in custody, at any time and in any process, no job that
      would dispatch the request again can be built. */
  lemma NoBeginAfterResponse(core: AgdCore, i: nat, session: SessionId, attempt: AttemptId, now: Millis)
    requires core.Valid() && i < |core.trail|
    requires (session, attempt) in core.trail[i].attempts && core.trail[i].attempts[(session, attempt)].state.state.HasResponse()
    ensures core.BeginJob(session, attempt, now).Err?
    ensures core.ResumeJob(session, attempt, now).Ok? ==>
              var next := core.ResumeJob(session, attempt, now).value;
              next.Some? ==> next.value.operation.Acknowledge?
  {
    ResponseStands(core.trail, i, |core.trail| - 1, (session, attempt));
  }

  /** At most one dispatch of an attempt is outstanding, queued or in flight. */
  lemma OneDispatchOutstanding(core: AgdCore, x: Job, y: Job)
    requires core.Valid()
    requires x in core.pending || x in core.submitted
    requires y in core.pending || y in core.submitted
    requires x.operation.Begin? && y.operation.Begin? && x.session == y.session && x.attempt == y.attempt
    ensures x == y && multiset(core.pending)[x] + multiset(core.submitted)[x] == 1
  {
    BackedUnique(core.store, x, y);
    assert x in multiset(core.pending) || x in multiset(core.submitted);
  }
}
