/** The governor's event store and the law its commits obey.

    Each commit replaces one record under a compare-and-set on the entity's
    revision and appends one event, or installs one blob. A run is any sequence
    of lawful commits; a crash leaves the store at one of its states, and a
    restart carries on from there. What is proved here holds of every state of
    every run, and between any two of them. */
module Ledger {
  import opened ByteOrder
  import opened Outcomes
  import opened Custody

  datatype Versioned<+T> = Versioned(revision: nat, state: T)

  type Key = (SessionId, AttemptId)

  datatype AttemptKind = RequestCustodied | ResponseCustodied | CustodyAcked | LateResultObserved

  datatype TerminationKind = TerminationRequested | TerminationConfirmed | TerminationUnknown

  datatype LogEntry =
    | SessionLogged(session: SessionId)
    | AttemptLogged(session: SessionId, attempt: AttemptId, kind: AttemptKind)
    | TerminationLogged(session: SessionId, termination: TerminationKind)

  datatype Store = Store(
    sessions: map<SessionId, Versioned<Session>>,
    attempts: map<Key, Versioned<Attempt>>,
    terminations: map<SessionId, Versioned<Termination>>,
    blobs: map<Digest, Bytes>,
    log: seq<LogEntry>
  )

  const EMPTY: Store := Store(map[], map[], map[], map[], [])

  function Revision<K, T>(table: map<K, Versioned<T>>, key: K): nat {
    if key in table then table[key].revision else 0
  }

  function Put<K, T>(table: map<K, Versioned<T>>, key: K, state: T): map<K, Versioned<T>> {
    table[key := Versioned(Revision(table, key) + 1, state)]
  }

  function Count(log: seq<LogEntry>, entry: LogEntry): nat {
    if log == [] then 0
    else Count(log[..|log| - 1], entry) + if log[|log| - 1] == entry then 1 else 0
  }

  lemma CountAppend(log: seq<LogEntry>, last: LogEntry, entry: LogEntry)
    ensures Count(log + [last], entry) == Count(log, entry) + if last == entry then 1 else 0
  {
    assert (log + [last])[..|log|] == log;
  }

  // ---------- Commits ----------

  datatype Commit =
    | InstallBlob(bytes: Bytes)
    | PrepareSession(spec: Spec)
    | SessionStep(session: SessionId, event: SessionEvent, expected: nat)
    | AttemptStep(session: SessionId, attempt: AttemptId, kind: AttemptKind, next: Attempt, expected: nat)
    | TerminationStep(session: SessionId, termination: TerminationKind, record: Termination, expected: nat)

  function Apply(d: Store, c: Commit): Store {
    match c
    case InstallBlob(bytes) =>
      d.(blobs := d.blobs[OfBytes(bytes) := bytes])
    case PrepareSession(spec) =>
      d.(sessions := Put(d.sessions, spec.session, Session(spec, Prepared, NoCandidate)), log := d.log + [SessionLogged(spec.session)])
    case SessionStep(session, event, _) =>
      if session !in d.sessions || Transition(d.sessions[session].state, event).Err? then d else
        d.(sessions := Put(d.sessions, session, Transition(d.sessions[session].state, event).value),
           log := d.log + [SessionLogged(session)])
    case AttemptStep(session, attempt, kind, next, _) =>
      d.(attempts := Put(d.attempts, (session, attempt), next), log := d.log + [AttemptLogged(session, attempt, kind)])
    case TerminationStep(session, kind, record, _) =>
      d.(terminations := Put(d.terminations, session, record), log := d.log + [TerminationLogged(session, kind)])
  }

  predicate ActiveWith(d: Store, session: SessionId, capability: Capability) {
    session in d.sessions && d.sessions[session].state.authority.Active? && d.sessions[session].state.spec.capability == Some(capability)
  }

  predicate IsTombstoned(d: Store, session: SessionId) {
    session in d.sessions && d.sessions[session].state.authority.Tombstoned?
  }

  predicate AwaitsCleanup(d: Store, session: SessionId) {
    IsTombstoned(d, session) && d.sessions[session].state.authority.cleanup.Pending?
  }

  predicate ProviderEnabled(d: Store, session: SessionId) {
    session in d.sessions && d.sessions[session].state.spec.capability.Some?
  }

  /** The receipt that may complete a session's cleanup. */
  predicate CleanupReceiptOk(d: Store, session: SessionId, receipt: Digest) {
    ProviderEnabled(d, session) ==>
      && session in d.terminations
      && d.terminations[session].state.state.Terminated?
      && receipt == CleanupAggregate(session, d.terminations[session].state.process, d.terminations[session].state.state.receipt)
  }

  predicate AttemptLawful(d: Store, session: SessionId, attempt: AttemptId, kind: AttemptKind, next: Attempt) {
    match kind
    case RequestCustodied =>
      && (session, attempt) !in d.attempts
      && next.state.RequestInCustody?
      && AttemptValid(session, attempt, next)
      && next.request.exactRequest in d.blobs
      && session in d.sessions && d.sessions[session].state.authority.Active?
      && d.sessions[session].state.spec.principal == next.principal
      && d.sessions[session].state.spec.capability.Some?
      && next.request.capability == CapabilityIdentity(d.sessions[session].state.spec.capability.value)
      && next.request.envelope == d.sessions[session].state.spec.capability.value.envelope
    case ResponseCustodied =>
      && (session, attempt) in d.attempts
      && session in d.sessions && d.sessions[session].state.authority.Active?
      && var was := d.attempts[(session, attempt)].state;
      && was.state.RequestInCustody? && next.state.ResponseInCustody?
      && next == was.(state := next.state)
      && ResponseVerifies(next.state.response)
      && next.state.response.requestCustody == was.request.custodyRecord
      && next.state.response.stream in d.blobs
    case CustodyAcked =>
      && (session, attempt) in d.attempts
      && session in d.sessions && d.sessions[session].state.authority.Active?
      && var was := d.attempts[(session, attempt)].state;
      && was.state.ResponseInCustody? && next.state.Acknowledged?
      && next == was.(state := next.state)
      && next.state.dispatch == was.state.dispatch && next.state.response == was.state.response
    case LateResultObserved =>
      && (session, attempt) in d.attempts
      && IsTombstoned(d, session)
      && next == d.attempts[(session, attempt)].state
  }

  predicate TerminationLawful(d: Store, session: SessionId, kind: TerminationKind, record: Termination) {
    && AwaitsCleanup(d, session)
    && match kind
       case TerminationRequested =>
         && session !in d.terminations
         && record.state.Requested?
         && TerminationValid(session, record)
         && d.sessions[session].state.spec.capability == Some(record.capability)
         && d.sessions[session].state.spec.principal == record.principal
       case TerminationConfirmed =>
         && session in d.terminations && !d.terminations[session].state.state.Terminated?
         && record.state.Terminated?
         && record == d.terminations[session].state.(state := record.state)
       case TerminationUnknown =>
         && session in d.terminations && !d.terminations[session].state.state.Terminated?
         && record.state.Indeterminate?
         && record == d.terminations[session].state.(state := record.state)
  }

  /** The candidate's content, of exactly its length, and its proof are in the store. */
  predicate CandidateStored(d: Store, outputBudget: nat, c: Candidate) {
    && c.content in d.blobs && |d.blobs[c.content]| == c.length
    && c.proof in d.blobs && 0 < |d.blobs[c.proof]| <= ProofLimit(outputBudget)
  }

  /** The commits the store and the protocols admit in `d`. */
  predicate Lawful(d: Store, c: Commit) {
    match c
    case InstallBlob(_) => true
    case PrepareSession(spec) => spec.session !in d.sessions && SpecOk(spec)
    case SessionStep(session, event, expected) =>
      && session in d.sessions && expected == d.sessions[session].revision
      && Transition(d.sessions[session].state, event).Ok?
      && (event.CompleteCleanup? ==> CleanupReceiptOk(d, session, event.receipt))
      && (event.AcceptCandidate? ==> CandidateStored(d, d.sessions[session].state.spec.outputBudget, event.candidate))
    case AttemptStep(session, attempt, kind, next, expected) =>
      expected == Revision(d.attempts, (session, attempt)) && AttemptLawful(d, session, attempt, kind, next)
    case TerminationStep(session, kind, record, expected) =>
      expected == Revision(d.terminations, session) && TerminationLawful(d, session, kind, record)
  }

  // ---------- What every state satisfies ----------

  predicate RecordOk(d: Store, s: SessionId, r: Session) {
    && r.spec.session == s && SpecOk(r.spec) && SessionValid(r)
    && (!r.candidate.NoCandidate? ==> CandidateStored(d, r.spec.outputBudget, r.candidate.candidate))
  }

  ghost predicate SessionOk(d: Store, s: SessionId)
    requires s in d.sessions
  {
    RecordOk(d, s, d.sessions[s].state)
  }

  ghost predicate SessionsOk(d: Store) {
    forall s :: s in d.sessions ==> SessionOk(d, s)
  }

  /** Cleanup is complete only behind both receipts. */
  ghost predicate CleanupOk(d: Store) {
    forall s :: s in d.sessions && IsTombstoned(d, s) && d.sessions[s].state.authority.cleanup.Complete? ==>
      CleanupReceiptOk(d, s, d.sessions[s].state.authority.cleanup.receipt)
  }

  ghost predicate TerminationOk(d: Store, s: SessionId)
    requires s in d.terminations
  {
    && TerminationValid(s, d.terminations[s].state)
    && IsTombstoned(d, s)
    && d.sessions[s].state.spec.capability == Some(d.terminations[s].state.capability)
    && d.sessions[s].state.spec.principal == d.terminations[s].state.principal
  }

  ghost predicate TerminationsOk(d: Store) {
    forall s :: s in d.terminations ==> TerminationOk(d, s)
  }

  ghost predicate AttemptOk(d: Store, k: Key)
    requires k in d.attempts
  {
    var a := d.attempts[k].state;
    && AttemptValid(k.0, k.1, a)
    && !a.state.DispatchAvailable?
    && k.0 in d.sessions && !d.sessions[k.0].state.authority.Prepared?
    && d.sessions[k.0].state.spec.principal == a.principal
    && d.sessions[k.0].state.spec.capability.Some?
    && a.request.capability == CapabilityIdentity(d.sessions[k.0].state.spec.capability.value)
    && a.request.envelope == d.sessions[k.0].state.spec.capability.value.envelope
    && a.request.exactRequest in d.blobs
    && (a.state.HasResponse() ==> a.state.response.stream in d.blobs)
  }

  ghost predicate AttemptsOk(d: Store) {
    forall k :: k in d.attempts ==> AttemptOk(d, k)
  }

  ghost predicate BlobsOk(d: Store) {
    forall g :: g in d.blobs ==> g == OfBytes(d.blobs[g])
  }

  ghost predicate AttemptEventsOk(d: Store, s: SessionId, a: AttemptId) {
    var present := (s, a) in d.attempts;
    && Count(d.log, AttemptLogged(s, a, RequestCustodied)) == (if present then 1 else 0)
    && Count(d.log, AttemptLogged(s, a, ResponseCustodied)) == (if present && d.attempts[(s, a)].state.state.HasResponse() then 1 else 0)
    && Count(d.log, AttemptLogged(s, a, CustodyAcked)) == (if present && d.attempts[(s, a)].state.state.Acknowledged? then 1 else 0)
  }

  ghost predicate TerminationEventsOk(d: Store, s: SessionId) {
    var present := s in d.terminations;
    && Count(d.log, TerminationLogged(s, TerminationRequested)) == (if present then 1 else 0)
    && Count(d.log, TerminationLogged(s, TerminationConfirmed)) == (if present && d.terminations[s].state.state.Terminated? then 1 else 0)
  }

  ghost predicate EventsOk(d: Store) {
    && (forall s, a :: AttemptEventsOk(d, s, a))
    && (forall s :: TerminationEventsOk(d, s))
  }

  ghost predicate Inv(d: Store) {
    SessionsOk(d) && CleanupOk(d) && TerminationsOk(d) && AttemptsOk(d) && BlobsOk(d) && EventsOk(d)
  }

  // ---------- Each lawful commit keeps it ----------

  /** A record in order stays so while blobs come. */
  lemma RecordKept(d: Store, c: Commit, s: SessionId, r: Session)
    requires BlobsOk(d) && RecordOk(d, s, r)
    ensures RecordOk(Apply(d, c), s, r)
  {
  }

  /** A lawful transition leaves the record in order. */
  lemma StepKept(d: Store, s: SessionId, was: Session, event: SessionEvent)
    requires RecordOk(d, s, was) && Transition(was, event).Ok?
    requires event.AcceptCandidate? ==> CandidateStored(d, was.spec.outputBudget, event.candidate)
    ensures RecordOk(d, s, Transition(was, event).value)
  {
  }

  lemma SessionKept(d: Store, c: Commit, s: SessionId)
    requires Lawful(d, c) && BlobsOk(d) && (s in d.sessions ==> SessionOk(d, s))
    requires s in Apply(d, c).sessions
    ensures s in d.sessions ==> SessionAdvances(d.sessions[s].state, Apply(d, c).sessions[s].state)
    ensures SessionOk(Apply(d, c), s)
  {
    if s in d.sessions {
      var was := d.sessions[s].state;
      if c.SessionStep? && c.session == s {
        StepKept(d, s, was, c.event);
        RecordKept(d, c, s, Transition(was, c.event).value);
      } else {
        RecordKept(d, c, s, was);
      }
    }
  }

  lemma CleanupKept(d: Store, c: Commit, s: SessionId)
    requires CleanupOk(d) && Lawful(d, c)
    requires IsTombstoned(Apply(d, c), s) && Apply(d, c).sessions[s].state.authority.cleanup.Complete?
    ensures CleanupReceiptOk(Apply(d, c), s, Apply(d, c).sessions[s].state.authority.cleanup.receipt)
  {
  }

  lemma TerminationKept(d: Store, c: Commit, s: SessionId)
    requires TerminationsOk(d) && Lawful(d, c)
    requires s in Apply(d, c).terminations
    ensures TerminationOk(Apply(d, c), s)
    ensures s in d.terminations ==> TerminationAdvances(d.terminations[s].state, Apply(d, c).terminations[s].state)
  {
  }

  lemma SessionsKept(d: Store, c: Commit)
    requires SessionsOk(d) && CleanupOk(d) && BlobsOk(d) && Lawful(d, c)
    ensures SessionsOk(Apply(d, c)) && CleanupOk(Apply(d, c))
  {
    var e := Apply(d, c);
    forall s | s in e.sessions
      ensures SessionOk(e, s)
    {
      SessionKept(d, c, s);
    }
    forall s | s in e.sessions && IsTombstoned(e, s) && e.sessions[s].state.authority.cleanup.Complete?
      ensures CleanupReceiptOk(e, s, e.sessions[s].state.authority.cleanup.receipt)
    {
      CleanupKept(d, c, s);
    }
  }

  lemma TerminationsKept(d: Store, c: Commit)
    requires TerminationsOk(d) && Lawful(d, c)
    ensures TerminationsOk(Apply(d, c))
  {
    forall s | s in Apply(d, c).terminations
      ensures TerminationOk(Apply(d, c), s)
    {
      TerminationKept(d, c, s);
    }
  }

  lemma AttemptKept(d: Store, c: Commit, k: Key)
    requires Lawful(d, c) && (k in d.attempts ==> AttemptOk(d, k))
    requires k in Apply(d, c).attempts
    ensures AttemptOk(Apply(d, c), k)
    ensures k in d.attempts ==> AttemptAdvances(d.attempts[k].state, Apply(d, c).attempts[k].state)
  {
  }

  lemma AttemptsKept(d: Store, c: Commit)
    requires Inv(d) && Lawful(d, c)
    ensures AttemptsOk(Apply(d, c))
  {
    forall k | k in Apply(d, c).attempts
      ensures AttemptOk(Apply(d, c), k)
    {
      AttemptKept(d, c, k);
    }
  }

  lemma EventsKept(d: Store, c: Commit)
    requires Inv(d) && Lawful(d, c)
    ensures EventsOk(Apply(d, c))
  {
    var e := Apply(d, c);
    forall s, a
      ensures AttemptEventsOk(e, s, a)
    {
      assert AttemptEventsOk(d, s, a);
      AttemptEventsStep(d, c, s, a);
    }
    forall s
      ensures TerminationEventsOk(e, s)
    {
      assert TerminationEventsOk(d, s);
      TerminationEventsStep(d, c, s);
    }
  }

  lemma LogGrowth(d: Store, c: Commit, entry: LogEntry)
    ensures Apply(d, c).log == d.log || |Apply(d, c).log| == |d.log| + 1
    ensures d.log <= Apply(d, c).log
    ensures Count(Apply(d, c).log, entry) ==
            Count(d.log, entry) + if |Apply(d, c).log| > |d.log| && Apply(d, c).log[|d.log|] == entry then 1 else 0
  {
    var e := Apply(d, c);
    if e.log != d.log {
      CountAppend(d.log, e.log[|d.log|], entry);
    }
  }

  lemma AttemptEventsStep(d: Store, c: Commit, s: SessionId, a: AttemptId)
    requires Lawful(d, c) && AttemptEventsOk(d, s, a)
    ensures AttemptEventsOk(Apply(d, c), s, a)
  {
    LogGrowth(d, c, AttemptLogged(s, a, RequestCustodied));
    LogGrowth(d, c, AttemptLogged(s, a, ResponseCustodied));
    LogGrowth(d, c, AttemptLogged(s, a, CustodyAcked));
  }

  lemma TerminationEventsStep(d: Store, c: Commit, s: SessionId)
    requires Lawful(d, c) && TerminationEventsOk(d, s)
    ensures TerminationEventsOk(Apply(d, c), s)
  {
    LogGrowth(d, c, TerminationLogged(s, TerminationRequested));
    LogGrowth(d, c, TerminationLogged(s, TerminationConfirmed));
  }

  lemma InvKept(d: Store, c: Commit)
    requires Inv(d) && Lawful(d, c)
    ensures Inv(Apply(d, c))
  {
    SessionsKept(d, c);
    TerminationsKept(d, c);
    CommitKeepsBlobs(d, c);
    AttemptsKept(d, c);
    EventsKept(d, c);
  }

  // ---------- What changes between two states ----------

  /** Nothing about a tombstoned session's attempts ever changes. */
  ghost predicate Frozen(d: Store, e: Store) {
    forall k: Key :: IsTombstoned(d, k.0) ==>
      && (k in d.attempts <==> k in e.attempts)
      && (k in d.attempts ==> d.attempts[k].state == e.attempts[k].state)
  }

  ghost predicate SessionsEvolve(d: Store, e: Store) {
    forall s :: s in d.sessions ==> s in e.sessions && SessionAdvances(d.sessions[s].state, e.sessions[s].state)
  }

  ghost predicate AttemptsEvolve(d: Store, e: Store) {
    forall k :: k in d.attempts ==> k in e.attempts && AttemptAdvances(d.attempts[k].state, e.attempts[k].state)
  }

  ghost predicate TerminationsEvolve(d: Store, e: Store) {
    forall s :: s in d.terminations ==>
      s in e.terminations && TerminationAdvances(d.terminations[s].state, e.terminations[s].state)
  }

  ghost predicate BlobsEvolve(d: Store, e: Store) {
    forall g :: g in d.blobs ==> g in e.blobs && d.blobs[g] == e.blobs[g]
  }

  ghost predicate Evolves(d: Store, e: Store) {
    && SessionsEvolve(d, e) && AttemptsEvolve(d, e) && TerminationsEvolve(d, e) && BlobsEvolve(d, e)
    && d.log <= e.log
    && Frozen(d, e)
  }

  lemma CommitFreezes(d: Store, c: Commit)
    requires Lawful(d, c)
    ensures Frozen(d, Apply(d, c))
  {
  }

  lemma CommitKeepsBlobs(d: Store, c: Commit)
    requires BlobsOk(d)
    ensures BlobsEvolve(d, Apply(d, c)) && BlobsOk(Apply(d, c)) && d.log <= Apply(d, c).log
  {
  }

  lemma CommitEvolvesSessions(d: Store, c: Commit)
    requires SessionsOk(d) && TerminationsOk(d) && BlobsOk(d) && Lawful(d, c)
    ensures SessionsEvolve(d, Apply(d, c)) && TerminationsEvolve(d, Apply(d, c))
  {
    var e := Apply(d, c);
    forall s | s in d.sessions
      ensures s in e.sessions && SessionAdvances(d.sessions[s].state, e.sessions[s].state)
    {
      SessionKept(d, c, s);
    }
    forall s | s in d.terminations
      ensures s in e.terminations && TerminationAdvances(d.terminations[s].state, e.terminations[s].state)
    {
      TerminationKept(d, c, s);
    }
  }

  lemma CommitEvolvesAttempts(d: Store, c: Commit)
    requires AttemptsOk(d) && Lawful(d, c)
    ensures AttemptsEvolve(d, Apply(d, c))
  {
    var e := Apply(d, c);
    forall k | k in d.attempts
      ensures k in e.attempts && AttemptAdvances(d.attempts[k].state, e.attempts[k].state)
    {
      AttemptKept(d, c, k);
    }
  }

  lemma CommitEvolves(d: Store, c: Commit)
    requires Inv(d) && Lawful(d, c)
    ensures Evolves(d, Apply(d, c))
  {
    CommitEvolvesSessions(d, c);
    CommitEvolvesAttempts(d, c);
    CommitFreezes(d, c);
    CommitKeepsBlobs(d, c);
  }

  lemma EvolvesReflexive(d: Store)
    ensures Evolves(d, d)
  {
  }

  lemma FrozenTransitive(d: Store, e: Store, f: Store)
    requires SessionsEvolve(d, e) && Frozen(d, e) && Frozen(e, f)
    ensures Frozen(d, f)
  {
    forall k: Key | IsTombstoned(d, k.0)
      ensures (k in d.attempts <==> k in f.attempts) && (k in d.attempts ==> d.attempts[k].state == f.attempts[k].state)
    {
      assert IsTombstoned(e, k.0);
    }
  }

  lemma EvolvesTransitive(d: Store, e: Store, f: Store)
    requires Evolves(d, e) && Evolves(e, f)
    ensures Evolves(d, f)
  {
    FrozenTransitive(d, e, f);
  }

  /** Nothing but the session record and termination record of `s` differs. */
  ghost predicate SameBut(d: Store, e: Store, s: SessionId) {
    && s in d.sessions && s in e.sessions
    && e.sessions == d.sessions[s := e.sessions[s]]
    && SessionAdvances(d.sessions[s].state, e.sessions[s].state)
    && (s in d.terminations ==> s in e.terminations)
    && e.terminations == (if s in e.terminations then d.terminations[s := e.terminations[s]] else d.terminations)
    && e.attempts == d.attempts && BlobsEvolve(d, e)
  }

  lemma SameButTransitive(d: Store, e: Store, f: Store, s: SessionId)
    requires SameBut(d, e, s) && SameBut(e, f, s)
    ensures SameBut(d, f, s)
  {
    SessionAdvancesTransitive(d.sessions[s].state, e.sessions[s].state, f.sessions[s].state);
  }

  // ---------- Runs ----------

  ghost predicate Step(d: Store, e: Store) {
    exists c :: Lawful(d, c) && e == Apply(d, c)
  }

  ghost predicate StepAt(trail: seq<Store>, i: int)
    requires 0 < i < |trail|
  {
    Step(trail[i - 1], trail[i])
  }

  /** The successive durable states of any number of process lifetimes. */
  ghost predicate Run(trail: seq<Store>) {
    && trail != [] && trail[0] == EMPTY
    && forall i :: 0 < i < |trail| ==> StepAt(trail, i)
  }

  lemma EmptyInv()
    ensures Inv(EMPTY)
  {
  }

  lemma {:induction false} RunInv(trail: seq<Store>, i: nat)
    requires Run(trail) && i < |trail|
    ensures Inv(trail[i])
  {
    if i == 0 {
      EmptyInv();
    } else {
      RunInv(trail, i - 1);
      assert StepAt(trail, i);
      var c :| Lawful(trail[i - 1], c) && trail[i] == Apply(trail[i - 1], c);
      InvKept(trail[i - 1], c);
    }
  }

  lemma RunStepEvolves(trail: seq<Store>, j: nat)
    requires Run(trail) && 0 < j < |trail|
    ensures Evolves(trail[j - 1], trail[j])
  {
    RunInv(trail, j - 1);
    assert StepAt(trail, j);
    var c :| Lawful(trail[j - 1], c) && trail[j] == Apply(trail[j - 1], c);
    CommitEvolves(trail[j - 1], c);
  }

  lemma {:induction false} RunEvolves(trail: seq<Store>, i: nat, j: nat)
    requires Run(trail) && i <= j < |trail|
    ensures Evolves(trail[i], trail[j])
    decreases j
  {
    if i == j {
      EvolvesReflexive(trail[i]);
    } else {
      RunEvolves(trail, i, j - 1);
      RunStepEvolves(trail, j);
      EvolvesTransitive(trail[i], trail[j - 1], trail[j]);
    }
  }

  // ---------- Compare and set ----------

  /** The revision of the record a commit writes, zero if there is none. */
  ghost function RevisionAt(d: Store, c: Commit): nat
    requires !c.InstallBlob?
  {
    match c
    case PrepareSession(spec) => if spec.session in d.sessions then d.sessions[spec.session].revision else 0
    case SessionStep(s, _, _) => if s in d.sessions then d.sessions[s].revision else 0
    case AttemptStep(s, a, _, _, _) => if (s, a) in d.attempts then d.attempts[(s, a)].revision else 0
    case TerminationStep(s, _, _, _) => if s in d.terminations then d.terminations[s].revision else 0
  }

  /** No revision goes back. */
  ghost predicate RevisionsGrow(d: Store, e: Store) {
    && (forall s :: s in d.sessions ==> s in e.sessions && d.sessions[s].revision <= e.sessions[s].revision)
    && (forall k :: k in d.attempts ==> k in e.attempts && d.attempts[k].revision <= e.attempts[k].revision)
    && (forall s :: s in d.terminations ==> s in e.terminations && d.terminations[s].revision <= e.terminations[s].revision)
  }

  /** A commit raises the revision of the record it writes by one, lowers none, and
      appends one event of that record. */
  lemma CommitRaises(d: Store, c: Commit)
    requires Lawful(d, c)
    ensures RevisionsGrow(d, Apply(d, c))
    ensures !c.InstallBlob? ==>
              && RevisionAt(Apply(d, c), c) == RevisionAt(d, c) + 1
              && |Apply(d, c).log| == |d.log| + 1 && d.log <= Apply(d, c).log
              && Apply(d, c).log[|d.log|].session == (if c.PrepareSession? then c.spec.session else c.session)
  {
  }

  lemma RevisionsTransitive(d: Store, e: Store, f: Store)
    requires RevisionsGrow(d, e) && RevisionsGrow(e, f)
    ensures RevisionsGrow(d, f)
  {
  }

  lemma RunStepRevisions(trail: seq<Store>, j: nat)
    requires Run(trail) && 0 < j < |trail|
    ensures RevisionsGrow(trail[j - 1], trail[j])
  {
    assert StepAt(trail, j);
    var c :| Lawful(trail[j - 1], c) && trail[j] == Apply(trail[j - 1], c);
    CommitRaises(trail[j - 1], c);
  }

  lemma {:induction false} RunRevisions(trail: seq<Store>, i: nat, j: nat)
    requires Run(trail) && i <= j < |trail|
    ensures RevisionsGrow(trail[i], trail[j])
    decreases j
  {
    if i < j {
      RunRevisions(trail, i, j - 1);
      RunStepRevisions(trail, j);
      RevisionsTransitive(trail[i], trail[j - 1], trail[j]);
    }
  }

  /** A commit made once is stale in every later state, crashes or not: no record is
      written twice on the strength of one look at it. */
  lemma CommitOnce(trail: seq<Store>, i: nat, j: nat, c: Commit)
    requires Run(trail) && i < j < |trail| && !c.InstallBlob?
    requires Lawful(trail[i], c) && trail[i + 1] == Apply(trail[i], c)
    ensures !Lawful(trail[j], c)
  {
    CommitRaises(trail[i], c);
    RunRevisions(trail, i + 1, j);
  }

  lemma RunExtends(trail: seq<Store>, c: Commit)
    requires Run(trail) && Lawful(trail[|trail| - 1], c)
    ensures Run(trail + [Apply(trail[|trail| - 1], c)])
  {
    var d := trail[|trail| - 1];
    assert Step(d, Apply(d, c));
    var longer := trail + [Apply(d, c)];
    forall i | 0 < i < |longer|
      ensures StepAt(longer, i)
    {
      if i < |trail| {
        assert StepAt(trail, i);
      }
    }
  }
}
