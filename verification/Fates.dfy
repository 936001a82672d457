/** What becomes of a provider completion, and of the pass that receives it, as
    conditions on the durable records, the clock and the answer. */
module Fates {
  import opened ByteOrder
  import opened Outcomes
  import opened Text
  import opened Custody
  import opened Ledger
  import opened Scheduling
  import opened Standing
  import opened Wire

  /** What became of a completion: logged over a fenced attempt or settled as a
      revocation, followed by an acknowledgment, or answered to the worker. */
  datatype Consumed =
    | Recorded
    | Followed(retained: bool)
    | Answered(answer: Answer)

  /** The worker's principal is active and its grant is in force at this time. */
  predicate GrantInForce(d: Store, session: SessionId, now: Millis) {
    && session in d.sessions && d.sessions[session].state.authority.Active?
    && now < d.sessions[session].state.spec.expires
    && d.sessions[session].state.spec.capability.Some? && d.sessions[session].state.spec.capability.value.notBefore <= now
  }

  /** The answer is one the provider may give to this operation. */
  predicate Fits(job: Job, result: ProviderResult) {
    match result
    case ProviderError(_, _, _) => true
    case Inference(_, stream, bytes, _) => job.operation.Begin? && OfBytes(bytes) == stream
    case CustodyAcknowledged(dispatch, _) => job.operation.Acknowledge? && dispatch == job.operation.dispatch
    case _ => false
  }

  /** Receiving this completion answers the worker. */
  predicate Answers(live: set<SessionId>, c: Completion) {
    !c.job.operation.Terminate? && c.job.session in live && (c.result.ProviderError? || c.result.CustodyAcknowledged?)
  }

  /** What the worker is told: the provider's error, or what is in custody. */
  function AnswerTo(d: Store, maxFrame: nat, c: Completion): Result<Answer, AgdError> {
    if c.result.ProviderError? then Ok(Error(c.result.code, c.result.message, c.result.correlation)) else
      var view := ResponseIn(d, maxFrame, c.job.session, c.job.attempt);
      if view.Ok? then Ok(View(view.value)) else Err(view.error)
  }

  /** The answer can be read from custody and fits a frame. */
  predicate AnswerFits(d: Store, maxFrame: nat, c: Completion) {
    var answer := AnswerTo(d, maxFrame, c);
    answer.Ok? && AnswerLength(c.job.attempt, answer.value) <= maxFrame
  }

  /** Receiving this completion lets the daemon go on while the response channel is
      free; any other ends it. */
  predicate GoesOn(live: set<SessionId>, d: Store, maxFrame: nat, c: Completion, now: Millis) {
    if c.job.operation.Terminate? then
      c.result.SessionTerminated? || (c.result.ProviderError? && Utf8Length(c.result.message) <= 1024)
    else if c.job.session in live then
      GrantInForce(d, c.job.session, now) && Fits(c.job, c.result) && (Answers(live, c) ==> AnswerFits(d, maxFrame, c))
    else
      IsTombstoned(d, c.job.session)
  }

  /** The same, whatever the response channel holds: an answer needs it free. */
  predicate Passes(live: set<SessionId>, busy: bool, d: Store, maxFrame: nat, c: Completion, now: Millis) {
    GoesOn(live, d, maxFrame, c, now) && !(busy && Answers(live, c))
  }

  ghost predicate AllGoOn(live: set<SessionId>, d: Store, maxFrame: nat, completions: seq<Completion>, now: Millis) {
    forall c :: c in completions ==> GoesOn(live, d, maxFrame, c, now)
  }

  /** Receiving this completion queues an acknowledgment. */
  predicate Owes(live: set<SessionId>, c: Completion) {
    c.job.operation.Begin? && c.result.Inference? && c.job.session in live
  }

  /** How many acknowledgments a list of completions owes. */
  function Owed(live: set<SessionId>, completions: seq<Completion>): nat {
    if completions == [] then 0
    else Owed(live, completions[..|completions| - 1]) + if Owes(live, completions[|completions| - 1]) then 1 else 0
  }

  lemma OwedNext(live: set<SessionId>, completions: seq<Completion>, c: Completion)
    ensures Owed(live, completions + [c]) == Owed(live, completions) + if Owes(live, c) then 1 else 0
  {
    assert (completions + [c])[..|completions|] == completions;
  }

  /** How many answers a list of completions gives. */
  function AnswerCount(live: set<SessionId>, completions: seq<Completion>): nat {
    if completions == [] then 0
    else AnswerCount(live, completions[..|completions| - 1]) + if Answers(live, completions[|completions| - 1]) then 1 else 0
  }

  lemma AnswerCountNext(live: set<SessionId>, completions: seq<Completion>, c: Completion)
    ensures AnswerCount(live, completions + [c]) == AnswerCount(live, completions) + if Answers(live, c) then 1 else 0
  {
    assert (completions + [c])[..|completions|] == completions;
  }

  lemma {:induction false} AnswerCountGrows(live: set<SessionId>, completions: seq<Completion>, more: seq<Completion>)
    ensures AnswerCount(live, completions) <= AnswerCount(live, completions + more)
  {
    if more == [] {
      assert completions + more == completions;
    } else {
      AnswerCountGrows(live, completions, more[..|more| - 1]);
      assert (completions + more)[..|completions + more| - 1] == completions + more[..|more| - 1];
    }
  }

  /** The response channel has room for every answer of the list. */
  predicate ChannelHolds(live: set<SessionId>, busy: bool, completions: seq<Completion>) {
    AnswerCount(live, completions) <= if busy then 0 else 1
  }

  /** What consuming a completion returns, and what it leaves queued and on the
      response channel. */
  datatype Consumption = Consumption(result: Result<Consumed, AgdError>, queue: seq<Job>, busy: bool)

  /** A completion that leaves nothing to acknowledge is answered. */
  function Answering(live: map<SessionId, Spec>, d: Store, maxFrame: nat, queue: seq<Job>, busy: bool, c: Completion): Consumption {
    var answer := AnswerTo(d, maxFrame, c);
    if answer.Err? then Consumption(Err(answer.error), queue, busy) else
      var refused := AnswerRefusal(live, busy, maxFrame, c.job.session, c.job.attempt, answer.value);
      if refused.Some? then Consumption(Err(refused.value), queue, busy) else Consumption(Ok(Answered(answer.value)), queue, true)
  }

  /** An acknowledgment is queued if there is room. */
  function Following(queue: seq<Job>, submitted: seq<Job>, busy: bool, ack: Job): Consumption {
    var longer := Enqueue(queue, submitted, ack, SCHEDULER_CAPACITY);
    Consumption(Ok(Followed(ack in longer || ack in submitted)), longer, busy)
  }

  /** How an interactive completion of an attended worker is consumed in `d`, leaving `e`. */
  function Consuming(live: map<SessionId, Spec>, d: Store, e: Store, maxFrame: nat, queue: seq<Job>, submitted: seq<Job>, busy: bool, c: Completion,
                     now: Millis): Consumption {
    match VerdictIn(live, d, c, now)
    case None =>
      var grant := ReloadIn(live, d, c.job.session, now);
      Consumption(Err(if grant.Err? then grant.error else WorkerProviderAttemptMismatch), queue, busy)
    case Some(state) =>
      if c.result.Inference? && state.ResponseInCustody? then Following(queue, submitted, busy, AckJob(c.job, state))
      else Answering(live, e, maxFrame, queue, busy, c)
  }

  /** The records follow the verdict. */
  predicate Settling(d: Store, e: Store, c: Completion, verdict: Option<AttemptState>) {
    match verdict
    case None => e == d
    case Some(state) => Carried(d, e, c.job, state)
  }

  /** The worker is shown the provider's own error, or the response its record holds. */
  predicate Shows(e: Store, c: Completion, answer: Answer) {
    if c.result.ProviderError? then answer == Error(c.result.code, c.result.message, c.result.correlation)
    else
      var k := (c.job.session, c.job.attempt);
      && k in e.attempts && e.attempts[k].state.state.HasResponse()
      && var response := e.attempts[k].state.state.response;
         response.stream in e.blobs && answer == View(Available(response.stream, e.blobs[response.stream], response.terminal))
  }

  /** The records say what the provider said, and so does an answer to the worker. */
  predicate Recounted(d: Store, e: Store, c: Completion, consumed: Consumed) {
    Testified(d, e, c) && (consumed.Answered? ==> Shows(e, c, consumed.answer))
  }

  lemma ConsumingRecounts(live: map<SessionId, Spec>, d: Store, e: Store, trail: seq<Store>, maxFrame: nat, queue: seq<Job>, submitted: seq<Job>,
                          busy: bool, c: Completion, now: Millis)
    requires Durable(e, trail) && Settling(d, e, c, VerdictIn(live, d, c, now))
    ensures var left := Consuming(live, d, e, maxFrame, queue, submitted, busy, c, now);
            left.result.Ok? ==> Recounted(d, e, c, left.result.value)
  {
    if VerdictIn(live, d, c, now).Some? {
      VerdictTestified(live, d, e, trail, c, now);
    }
  }

  /** The verdict on a completion whose record still waits for it. */
  lemma DueVerdict(live: map<SessionId, Spec>, d: Store, trail: seq<Store>, c: Completion, now: Millis)
    requires Durable(d, trail) && Attended(live, d) && c.job.session in live
    requires Backed(d, c.job) && Due(d.attempts, d.terminations, c.job) && !c.job.operation.Terminate?
    ensures ReloadIn(live, d, c.job.session, now).Ok? <==> GrantInForce(d, c.job.session, now)
    ensures VerdictIn(live, d, c, now).Some? <==> GrantInForce(d, c.job.session, now) && Fits(c.job, c.result)
    ensures VerdictIn(live, d, c, now).Some? && c.result.Inference? ==> VerdictIn(live, d, c, now).value.ResponseInCustody?
    ensures VerdictIn(live, d, c, now).Some? && c.result.CustodyAcknowledged? ==>
              var state := VerdictIn(live, d, c, now).value;
              && state.Acknowledged? && d.attempts[(c.job.session, c.job.attempt)].state.state.ResponseInCustody?
              && state.response == d.attempts[(c.job.session, c.job.attempt)].state.state.response && state.response.stream in d.blobs
  {
    SessionSound(d, trail, c.job.session);
    AttemptSound(d, trail, (c.job.session, c.job.attempt));
  }

  /** A completion passed or ended the daemon, and what that left on the response channel. */
  predicate PassedAs(live: set<SessionId>, busy: bool, busy': bool, d: Store, maxFrame: nat, c: Completion, now: Millis, r: Result<Consumed, AgdError>) {
    && (r.Ok? <==> Passes(live, busy, d, maxFrame, c, now))
    && (r.Err? && GoesOn(live, d, maxFrame, c, now) ==> r == Err(ProviderChannelBusy))
    && (r.Ok? ==> busy' == (busy || Answers(live, c)))
  }

  /** What is shown after an acknowledgment was in custody before it. */
  lemma ShownBefore(d: Store, e: Store, maxFrame: nat, c: Completion, state: AttemptState)
    requires (c.job.session, c.job.attempt) in d.attempts && d.attempts[(c.job.session, c.job.attempt)].state.state.ResponseInCustody?
    requires state.Acknowledged? && state.response == d.attempts[(c.job.session, c.job.attempt)].state.state.response
    requires Carried(d, e, c.job, state) && BlobsEvolve(d, e) && state.response.stream in d.blobs
    ensures ResponseIn(e, maxFrame, c.job.session, c.job.attempt) == ResponseIn(d, maxFrame, c.job.session, c.job.attempt)
  {
  }

  /** A completion whose record still waits for it lets the daemon go on exactly
      when the grant is in force, the answer fits, and it finds the response
      channel free if it answers; only a response that fits owes an acknowledgment. */
  lemma LiveFate(live: map<SessionId, Spec>, d: Store, trail: seq<Store>, e: Store, maxFrame: nat, queue: seq<Job>, submitted: seq<Job>,
                 busy: bool, c: Completion, now: Millis)
    requires Durable(d, trail) && Attended(live, d) && c.job.session in live
    requires Backed(d, c.job) && Due(d.attempts, d.terminations, c.job) && !c.job.operation.Terminate?
    requires Settling(d, e, c, VerdictIn(live, d, c, now)) && BlobsEvolve(d, e)
    ensures var left := Consuming(live, d, e, maxFrame, queue, submitted, busy, c, now);
            && PassedAs(live.Keys, busy, left.busy, d, maxFrame, c, now, left.result)
            && (left.result.Ok? ==> (left.result.value.Followed? <==> Owes(live.Keys, c)))
            && (!(left.result.Ok? && left.result.value.Followed?) ==> left.queue == queue)
  {
    DueVerdict(live, d, trail, c, now);
    SessionSound(d, trail, c.job.session);
    var verdict := VerdictIn(live, d, c, now);
    if verdict.Some? && c.result.CustodyAcknowledged? {
      ShownBefore(d, e, maxFrame, c, verdict.value);
    }
  }

  /** An answer that can be read but does not fit a frame ends the daemon. */
  lemma OversizedAnswer(live: map<SessionId, Spec>, d: Store, trail: seq<Store>, e: Store, maxFrame: nat, queue: seq<Job>, submitted: seq<Job>,
                        c: Completion, now: Millis)
    requires Durable(d, trail) && Attended(live, d) && c.job.session in live
    requires Backed(d, c.job) && Due(d.attempts, d.terminations, c.job) && !c.job.operation.Terminate?
    requires Settling(d, e, c, VerdictIn(live, d, c, now)) && BlobsEvolve(d, e)
    requires GrantInForce(d, c.job.session, now) && Fits(c.job, c.result) && Answers(live.Keys, c)
    requires AnswerTo(d, maxFrame, c).Ok? && AnswerLength(c.job.attempt, AnswerTo(d, maxFrame, c).value) > maxFrame
    ensures Consuming(live, d, e, maxFrame, queue, submitted, false, c, now).result == Err(ProviderFrameTooLarge)
  {
    DueVerdict(live, d, trail, c, now);
    SessionSound(d, trail, c.job.session);
    if c.result.CustodyAcknowledged? {
      ShownBefore(d, e, maxFrame, c, VerdictIn(live, d, c, now).value);
    }
  }

  /** With nothing else outstanding, a fetched response leaves its acknowledgment alone queued. */
  lemma AcknowledgmentAlone(live: map<SessionId, Spec>, d: Store, e: Store, maxFrame: nat, c: Completion, now: Millis, left: Consumption)
    requires Owes(live.Keys, c) && left == Consuming(live, d, e, maxFrame, [], [], false, c, now) && left.result.Ok?
    requires (c.job.session, c.job.attempt) in d.attempts && d.attempts[(c.job.session, c.job.attempt)].state.state.RequestInCustody?
    requires Settling(d, e, c, VerdictIn(live, d, c, now))
    ensures |left.queue| == 1 && left.queue[0].session == c.job.session && left.queue[0].attempt == c.job.attempt
    ensures left.queue[0].operation.Acknowledge?
    ensures left.queue[0].operation.dispatch == c.result.dispatch && left.queue[0].operation.stream == c.result.stream
    ensures e.sessions == d.sessions && !left.busy
  {
  }

  /** Late testimony lets the daemon go on exactly when its session is tombstoned, and
      answers nobody. */
  lemma LateFate(live: set<SessionId>, busy: bool, d: Store, maxFrame: nat, c: Completion, now: Millis, r: Result<Consumed, AgdError>)
    requires c.job.session !in live && !c.job.operation.Terminate? && (r.Ok? <==> IsTombstoned(d, c.job.session))
    ensures PassedAs(live, busy, busy, d, maxFrame, c, now, r)
  {
  }

  lemma BothAnswer(live: set<SessionId>, d: Store, maxFrame: nat, first: Completion, second: Completion, now: Millis)
    requires Answers(live, first) && GoesOn(live, d, maxFrame, first, now)
    requires Answers(live, second) && GoesOn(live, d, maxFrame, second, now)
    ensures AnswerCount(live, [first, second]) == 2 && AllGoOn(live, d, maxFrame, [first, second], now)
  {
    AnswerCountNext(live, [], first);
    AnswerCountNext(live, [first], second);
    assert [] + [first] == [first] && [first] + [second] == [first, second];
  }

  lemma BothOwed(live: set<SessionId>, d: Store, maxFrame: nat, first: Completion, second: Completion, now: Millis)
    requires Owes(live, first) && GoesOn(live, d, maxFrame, first, now)
    requires Owes(live, second) && GoesOn(live, d, maxFrame, second, now)
    ensures Owed(live, [first, second]) == 2 && AnswerCount(live, [first, second]) == 0 && AllGoOn(live, d, maxFrame, [first, second], now)
  {
    OwedNext(live, [], first);
    OwedNext(live, [first], second);
    AnswerCountNext(live, [], first);
    AnswerCountNext(live, [first], second);
    assert [] + [first] == [first] && [first] + [second] == [first, second];
  }

  // ---------- What a completion leaves of the queue ----------

  /** An owed acknowledgment is queued exactly while there is room; nothing else queues anything. */
  predicate QueuedAs(live: set<SessionId>, c: Completion, queue: seq<Job>, queue': seq<Job>, consumed: Consumed) {
    if Owes(live, c) then
      && consumed == Followed(|queue| < SCHEDULER_CAPACITY)
      && |queue'| == if |queue| < SCHEDULER_CAPACITY then |queue| + 1 else |queue|
    else
      !consumed.Followed? && queue' == queue
  }

  /** The acknowledgment owed for a dispatch that was still due is not outstanding yet. */
  lemma AcknowledgmentFresh(live: map<SessionId, Spec>, d: Store, trail: seq<Store>, e: Store, maxFrame: nat, queue: seq<Job>, submitted: seq<Job>,
                            busy: bool, c: Completion, now: Millis)
    requires Durable(d, trail) && Attended(live, d) && c.job.session in live && !c.job.operation.Terminate?
    requires Backed(d, c.job) && AllDue(d.attempts, d.terminations, queue, [c.job] + submitted)
    requires Settling(d, e, c, VerdictIn(live, d, c, now)) && BlobsEvolve(d, e)
    ensures var left := Consuming(live, d, e, maxFrame, queue, submitted, busy, c, now);
            left.result.Ok? ==> QueuedAs(live.Keys, c, queue, left.queue, left.result.value)
  {
    assert c.job in [c.job] + submitted;
    LiveFate(live, d, trail, e, maxFrame, queue, submitted, busy, c, now);
    if Consuming(live, d, e, maxFrame, queue, submitted, busy, c, now).result.Ok? && Owes(live.Keys, c) {
      var ack := AckJob(c.job, VerdictIn(live, d, c, now).value);
      assert !Due(d.attempts, d.terminations, ack);
      assert ack !in queue && ack !in [c.job] + submitted;
      assert ack !in submitted;
    }
  }

  /** Nothing but one attempt's record changed. */
  predicate OnlyAttempt(d: Store, e: Store, k: Key) {
    && e.terminations == d.terminations && k in d.attempts && k in e.attempts
    && e.attempts == d.attempts[k := e.attempts[k]]
  }

  lemma StruckOut(pending: seq<Job>, submitted: seq<Job>, job: Job)
    requires AtMostOnce(pending, [job] + submitted)
    ensures job !in pending && job !in submitted
  {
    assert multiset([job] + submitted) == multiset{job} + multiset(submitted);
    assert multiset(pending)[job] + multiset([job] + submitted)[job] <= 1;
  }

  /** At most one job waits on a record. */
  lemma OneWaits(d: Store, x: Job, y: Job)
    requires Backed(d, x) && Due(d.attempts, d.terminations, x)
    requires Backed(d, y) && Due(d.attempts, d.terminations, y)
    requires x.session == y.session && x.operation.Terminate? == y.operation.Terminate?
    requires !x.operation.Terminate? ==> x.attempt == y.attempt
    ensures x == y
  {
  }

  lemma InteractiveKeepsDue(d: Store, e: Store, job: Job, pending: seq<Job>, pending': seq<Job>, submitted: seq<Job>)
    requires Genuine(d, pending, [job] + submitted) && AtMostOnce(pending, [job] + submitted)
    requires AllDue(d.attempts, d.terminations, pending, [job] + submitted)
    requires !job.operation.Terminate? && OnlyAttempt(d, e, (job.session, job.attempt))
    requires forall x :: x in pending' ==> x in pending || Due(e.attempts, e.terminations, x)
    ensures AllDue(e.attempts, e.terminations, pending', submitted)
  {
    StruckOut(pending, submitted, job);
    assert job in [job] + submitted;
    forall x | x in pending' || x in submitted
      ensures Due(e.attempts, e.terminations, x)
    {
      if x in pending || x in submitted {
        assert x in submitted ==> x in [job] + submitted;
        if !x.operation.Terminate? && x.session == job.session && x.attempt == job.attempt {
          OneWaits(d, x, job);
        }
      }
    }
  }

  lemma LiveKeepsDue(live: map<SessionId, Spec>, d: Store, e: Store, maxFrame: nat, queue: seq<Job>, submitted: seq<Job>, busy: bool, c: Completion,
                     now: Millis)
    requires Genuine(d, queue, [c.job] + submitted) && AtMostOnce(queue, [c.job] + submitted)
    requires AllDue(d.attempts, d.terminations, queue, [c.job] + submitted) && !c.job.operation.Terminate?
    requires Settling(d, e, c, VerdictIn(live, d, c, now))
    ensures AllDue(e.attempts, e.terminations, Consuming(live, d, e, maxFrame, queue, submitted, busy, c, now).queue, submitted)
  {
    assert c.job in [c.job] + submitted;
    assert Backed(d, c.job);
    InteractiveKeepsDue(d, e, c.job, queue, Consuming(live, d, e, maxFrame, queue, submitted, busy, c, now).queue, submitted);
  }

  lemma RevocationKeepsDue(d: Store, e: Store, job: Job, pending: seq<Job>, submitted: seq<Job>, verdict: TerminationState, now: Millis)
    requires Genuine(d, pending, [job] + submitted) && AtMostOnce(pending, [job] + submitted)
    requires AllDue(d.attempts, d.terminations, pending, [job] + submitted)
    requires job.operation.Terminate? && Revoked(d, e, job.session, verdict, now)
    ensures AllDue(e.attempts, e.terminations, pending, submitted)
  {
    StruckOut(pending, submitted, job);
    assert job in [job] + submitted;
    forall x | x in pending || x in submitted
      ensures Due(e.attempts, e.terminations, x)
    {
      assert x in submitted ==> x in [job] + submitted;
      if x.operation.Terminate? && x.session == job.session {
        OneWaits(d, x, job);
      }
    }
  }

  /** A revocation still waited for is settled by a confirmation or a short error, and by nothing else. */
  lemma RevocationFate(live: set<SessionId>, d: Store, trail: seq<Store>, maxFrame: nat, c: Completion, now: Millis)
    requires Durable(d, trail) && Backed(d, c.job) && Due(d.attempts, d.terminations, c.job) && c.job.operation.Terminate?
    ensures TerminationVerdictIn(d, c).Some? <==> GoesOn(live, d, maxFrame, c, now)
  {
    Sound(d, trail);
    assert TerminationOk(d, c.job.session);
  }

  // ---------- Fates are settled when the pass begins ----------

  /** The same specification, and the same authority unless tombstoned throughout. */
  predicate SameGrant(a: Session, b: Session) {
    b.spec == a.spec && (b.authority == a.authority || (a.authority.Tombstoned? && b.authority.Tombstoned?))
  }

  /** No session or attempt comes or goes, none is fenced, and no response or blob is lost. */
  ghost predicate SameStanding(d: Store, e: Store) {
    && d.sessions.Keys == e.sessions.Keys && d.attempts.Keys == e.attempts.Keys && BlobsEvolve(d, e) && AttemptsEvolve(d, e)
    && forall s :: s in d.sessions ==> SameGrant(d.sessions[s].state, e.sessions[s].state)
  }

  lemma SameStandingTransitive(d: Store, e: Store, f: Store)
    requires SameStanding(d, e) && SameStanding(e, f)
    ensures SameStanding(d, f)
  {
    forall s | s in d.sessions
      ensures SameGrant(d.sessions[s].state, f.sessions[s].state)
    {
      assert s in e.sessions.Keys && s in f.sessions.Keys;
    }
  }

  lemma AttemptKeepsStanding(d: Store, e: Store, k: Key)
    requires OnlyAttempt(d, e, k) && e.sessions == d.sessions && Evolves(d, e)
    ensures SameStanding(d, e)
  {
    assert d.attempts.Keys == e.attempts.Keys;
  }

  lemma LiveKeepsStanding(d: Store, e: Store, c: Completion, verdict: Option<AttemptState>)
    requires Backed(d, c.job) && !c.job.operation.Terminate? && Evolves(d, e) && Settling(d, e, c, verdict)
    ensures SameStanding(d, e)
  {
    AttemptKeepsStanding(d, e, (c.job.session, c.job.attempt));
  }

  lemma GrantKept(d: Store, e: Store, session: SessionId, now: Millis)
    requires SameStanding(d, e) && session in d.sessions
    ensures GrantInForce(d, session, now) <==> GrantInForce(e, session, now)
    ensures IsTombstoned(d, session) <==> IsTombstoned(e, session)
  {
    assert session in e.sessions.Keys;
    assert SameGrant(d.sessions[session].state, e.sessions[session].state);
  }

  /** What is shown of a response in custody stays the same. */
  lemma ShownKept(d: Store, trail: seq<Store>, e: Store, maxFrame: nat, session: SessionId, attempt: AttemptId)
    requires Durable(d, trail) && SameStanding(d, e)
    requires (session, attempt) in d.attempts && d.attempts[(session, attempt)].state.state.HasResponse()
    ensures ResponseIn(e, maxFrame, session, attempt) == ResponseIn(d, maxFrame, session, attempt)
  {
    AttemptSound(d, trail, (session, attempt));
  }

  /** While every session keeps its standing nothing but the response channel can
      change a job's fate: only an earlier answer can make it end the daemon. */
  lemma FateKept(live: set<SessionId>, d: Store, trail: seq<Store>, e: Store, maxFrame: nat, c: Completion, now: Millis, busy: bool, busy': bool)
    requires Durable(d, trail) && Backed(d, c.job) && SameStanding(d, e)
    ensures GoesOn(live, d, maxFrame, c, now) <==> GoesOn(live, e, maxFrame, c, now)
    ensures Passes(live, busy, d, maxFrame, c, now) != Passes(live, busy', e, maxFrame, c, now) ==> Answers(live, c) && busy != busy'
  {
    if !c.job.operation.Terminate? {
      GrantKept(d, e, c.job.session, now);
      if c.job.operation.Acknowledge? {
        ShownKept(d, trail, e, maxFrame, c.job.session, c.job.attempt);
      }
    }
  }

  lemma AllFatesKept(live: set<SessionId>, d: Store, trail: seq<Store>, e: Store, maxFrame: nat, completions: seq<Completion>, now: Millis)
    requires Durable(d, trail) && SameStanding(d, e) && forall c :: c in completions ==> Backed(d, c.job)
    ensures AllGoOn(live, d, maxFrame, completions, now) <==> AllGoOn(live, e, maxFrame, completions, now)
  {
    forall c | c in completions
      ensures GoesOn(live, d, maxFrame, c, now) <==> GoesOn(live, e, maxFrame, c, now)
    {
      FateKept(live, d, trail, e, maxFrame, c, now, false, false);
    }
  }

  lemma ScanKeepsStanding(d: Store, e: Store, from: Option<SessionId>, to: Option<SessionId>, now: Millis)
    requires ScannedTo(d, e, from, to, now) && Evolves(d, e)
    ensures SameStanding(d, e)
  {
    forall s | s in d.sessions
      ensures SameGrant(d.sessions[s].state, e.sessions[s].state)
    {
      assert s in e.sessions.Keys;
    }
  }

  lemma RevocationKeepsStanding(d: Store, trail: seq<Store>, e: Store, s: SessionId, verdict: TerminationState, now: Millis)
    requires Durable(d, trail) && Revoked(d, e, s, verdict, now)
    ensures SameStanding(d, e)
  {
    TerminationSound(d, trail, s);
    assert e.sessions.Keys == d.sessions.Keys;
  }

  /** What a pass leaves queued, and how many owed acknowledgments it turns away,
      when it begins with `queued` jobs. */
  predicate Tallied(queued: nat, owed: nat, left: nat, turnedAway: nat) {
    if queued + owed > SCHEDULER_CAPACITY then left == SCHEDULER_CAPACITY && turnedAway == queued + owed - SCHEDULER_CAPACITY
    else left == queued + owed && turnedAway == 0
  }

  // ---------- One completion received ----------

  /** Settling a revocation taken off the ledger keeps what the daemon relies on. */
  lemma RevocationSettles(d: Store, trail: seq<Store>, e: Store, live: map<SessionId, Spec>, pending: seq<Job>, before: seq<Job>, submitted: seq<Job>,
                          job: Job, cursor: Option<SessionId>, complete: bool, verdict: TerminationState, now: Millis)
    requires InForce(d, trail, live, pending, before) && before == [job] + submitted
    requires AllDue(d.attempts, d.terminations, pending, before)
    requires job.operation.Terminate? && Revoked(d, e, job.session, verdict, now)
    ensures AllDue(e.attempts, e.terminations, pending, submitted) && SameStanding(d, e)
    ensures AllLookedAfter(d, live.Keys, pending, before, cursor, complete, {}) ==>
              AllLookedAfter(e, live.Keys, pending, submitted, cursor, complete, {})
  {
    RevocationKeepsDue(d, e, job, pending, submitted, verdict, now);
    RevocationKeepsStanding(d, trail, e, job.session, verdict, now);
    if AllLookedAfter(d, live.Keys, pending, before, cursor, complete, {}) {
      RevocationKeepsAll(d, trail, e, live.Keys, pending, submitted, job, cursor, complete, verdict, now);
    }
  }

  /** Consuming an interactive completion taken off the ledger keeps what the daemon relies on. */
  lemma InteractiveSettles(d: Store, trail: seq<Store>, e: Store, live: map<SessionId, Spec>, maxFrame: nat, queue: seq<Job>, queue': seq<Job>,
                           submitted: seq<Job>, busy: bool, busy': bool, c: Completion, now: Millis, r: Result<Consumed, AgdError>)
    requires InForce(d, trail, live, queue, [c.job] + submitted)
    requires AllDue(d.attempts, d.terminations, queue, [c.job] + submitted)
    requires !c.job.operation.Terminate? && SameStanding(d, e)
    requires if c.job.session in live then
               && Settling(d, e, c, VerdictIn(live, d, c, now))
               && Consumption(r, queue', busy') == Consuming(live, d, e, maxFrame, queue, submitted, busy, c, now)
             else (r.Ok? ==> r.value == Recorded) && queue' == queue && OnlyAttempt(d, e, (c.job.session, c.job.attempt))
    ensures AllDue(e.attempts, e.terminations, queue', submitted)
    ensures r.Ok? ==> QueuedAs(live.Keys, c, queue, queue', r.value)
  {
    assert c.job in [c.job] + submitted;
    if c.job.session in live {
      LiveKeepsDue(live, d, e, maxFrame, queue, submitted, busy, c, now);
      AcknowledgmentFresh(live, d, trail, e, maxFrame, queue, submitted, busy, c, now);
    } else {
      InteractiveKeepsDue(d, e, c.job, queue, queue', submitted);
    }
  }

  /** One more completion received by a pass. */
  lemma TalliedNext(live: set<SessionId>, queued: nat, taken: seq<Completion>, c: Completion, queue: seq<Job>, queue': seq<Job>, consumed: Consumed, turnedAway: nat)
    requires Tallied(queued, Owed(live, taken), |queue|, turnedAway) && QueuedAs(live, c, queue, queue', consumed)
    ensures Tallied(queued, Owed(live, taken + [c]), |queue'|, turnedAway + if consumed == Followed(false) then 1 else 0)
  {
    OwedNext(live, taken, c);
  }

  /** The pass has a completion that ends the daemon, or one answer too many. */
  ghost predicate PassStops(live: set<SessionId>, d: Store, maxFrame: nat, busy: bool, pass: seq<Completion>, now: Millis, error: AgdError) {
    && !(AllGoOn(live, d, maxFrame, pass, now) && ChannelHolds(live, busy, pass))
    && (AllGoOn(live, d, maxFrame, pass, now) ==> error == ProviderChannelBusy)
  }

  /** A completion met after `taken` has the fate it had when the pass began; if it
      ends the pass, the pass has one that ends the daemon or one answer too many. */
  lemma TurnFate(live: set<SessionId>, start: Store, history: seq<Store>, d: Store, maxFrame: nat, origin: bool, busy: bool, busy': bool,
                 pass: seq<Completion>, taken: seq<Completion>, c: Completion, now: Millis, r: Result<Consumed, AgdError>)
    requires Durable(start, history) && SameStanding(start, d) && Backed(start, c.job)
    requires taken + [c] <= pass && busy == (origin || AnswerCount(live, taken) > 0)
    requires PassedAs(live, busy, busy', d, maxFrame, c, now, r)
    ensures r.Ok? ==> Passes(live, busy, start, maxFrame, c, now) && busy' == (busy || Answers(live, c))
    ensures r.Err? ==> PassStops(live, start, maxFrame, origin, pass, now, r.error)
  {
    FateKept(live, start, history, d, maxFrame, c, now, busy, busy);
    assert pass[|taken|] == c;
    AnswerCountNext(live, taken, c);
    AnswerCountGrows(live, taken + [c], pass[|taken| + 1..]);
    assert pass == (taken + [c]) + pass[|taken| + 1..];
  }

  /** A pass went through or ended the daemon, and what that left on the response channel. */
  ghost predicate PassedOver<T>(live: set<SessionId>, busy: bool, busy': bool, d: Store, maxFrame: nat, pass: seq<Completion>, now: Millis,
                                r: Result<T, AgdError>) {
    match r
    case Err(error) => PassStops(live, d, maxFrame, busy, pass, now, error)
    case Ok(_) =>
      && AllGoOn(live, d, maxFrame, pass, now) && ChannelHolds(live, busy, pass)
      && busy' == (busy || AnswerCount(live, pass) > 0)
  }

  lemma PassDecided<T>(live: set<SessionId>, busy: bool, busy': bool, d: Store, maxFrame: nat, pass: seq<Completion>, now: Millis, r: Result<T, AgdError>)
    requires PassedOver(live, busy, busy', d, maxFrame, pass, now, r) && AllGoOn(live, d, maxFrame, pass, now)
    ensures if ChannelHolds(live, busy, pass) then r.Ok? else r == Err(ProviderChannelBusy)
  {
  }

  /** A frame waits on the live worker's response channel at the end of a pump. */
  ghost predicate Waits(live: set<SessionId>, busy: bool, pass: seq<Completion>, served: Option<Result<WorkerView, AgdError>>) {
    live != {} && (busy || AnswerCount(live, pass) > 0 || served.Some?)
  }

  /** A pump went through exactly when its pass did, the frame it read was answered,
      and the response channel did not break under a waiting frame. */
  ghost predicate PumpedAs(live: set<SessionId>, busy: bool, busy': bool, d: Store, maxFrame: nat, pass: seq<Completion>,
                           served: Option<Result<WorkerView, AgdError>>, flush: Flush, now: Millis, r: Result<(), AgdError>) {
    && (r.Ok? <==>
          && AllGoOn(live, d, maxFrame, pass, now) && ChannelHolds(live, busy, pass)
          && !(served.Some? && served.value.Err?) && !(Waits(live, busy, pass, served) && flush.Broken?))
    && (r.Ok? && live != {} ==> busy' == (Waits(live, busy, pass, served) && flush.Stalled?))
    && (served.Some? && served.value.Err? ==> r == Err(served.value.error))
  }

  /** What serving a frame and flushing the response channel come to. */
  predicate FlushedAs(live: set<SessionId>, busy: bool, busy': bool, served: Option<Result<WorkerView, AgdError>>, flush: Flush, r: Result<(), AgdError>) {
    if served.Some? && served.value.Err? then r == Err(served.value.error) else
      var waiting := live != {} && (busy || served.Some?);
      && (r.Ok? <==> !(waiting && flush.Broken?))
      && (r.Ok? && live != {} ==> busy' == (waiting && flush.Stalled?))
  }

  lemma PumpEnds(live: set<SessionId>, busy: bool, between: bool, busy': bool, d: Store, maxFrame: nat, pass: seq<Completion>,
                 served: Option<Result<WorkerView, AgdError>>, flush: Flush, now: Millis, r: Result<(), AgdError>)
    requires PassedOver(live, busy, between, d, maxFrame, pass, now, Ok(())) && FlushedAs(live, between, busy', served, flush, r)
    ensures PumpedAs(live, busy, busy', d, maxFrame, pass, served, flush, now, r)
  {
  }

  // ---------- Frames ----------

  datatype WorkerRequest =
    | Infer(attempt: AttemptId, headers: map<Bytes, Bytes>, bytes: Bytes)
    | Reconcile(attempt: AttemptId)

  /** What a frame read from the worker comes to: an answer, or the reason why it
      ends the daemon. */
  function FrameOutcome(live: map<SessionId, Spec>, busy: bool, d: Store, submitted: seq<Job>, maxFrame: nat, session: SessionId, request: WorkerRequest,
                        now: Millis): Result<WorkerView, AgdError> {
    match request
    case Infer(attempt, headers, bytes) =>
      var refused := PrepareRefusal(live, d, session, attempt, headers, bytes, now);
      if refused.Some? then Err(refused.value)
      else if (session, attempt) !in d.attempts then Told(live, busy, maxFrame, session, attempt, Ok(StillPending))
      else Told(live, busy, maxFrame, session, attempt, LiveResponseIn(d, submitted, maxFrame, session, attempt))
    case Reconcile(attempt) =>
      Told(live, busy, maxFrame, session, attempt, LiveResponseIn(d, submitted, maxFrame, session, attempt))
  }

  /** What the live worker's request channel holds: nothing complete, a request, or
      a closed end or a frame that is no canonical request. */
  datatype Incoming = Silent | Framed(session: SessionId, request: WorkerRequest) | Malformed

  /** What reading the request channel comes to. */
  function IncomingOutcome(live: map<SessionId, Spec>, busy: bool, d: Store, submitted: seq<Job>, maxFrame: nat, frame: Incoming, now: Millis):
    Result<WorkerView, AgdError>
    requires !frame.Silent?
  {
    if frame.Malformed? then Err(ProviderChannelFrame)
    else FrameOutcome(live, busy, d, submitted, maxFrame, frame.session, frame.request, now)
  }

  /** A worker that has yet to drain its last answer is refused any other. */
  lemma FrameBusy(live: map<SessionId, Spec>, d: Store, submitted: seq<Job>, maxFrame: nat, session: SessionId, attempt: AttemptId, now: Millis)
    requires session in live && live[session].capability.Some? && LiveResponseIn(d, submitted, maxFrame, session, attempt).Ok?
    ensures FrameOutcome(live, true, d, submitted, maxFrame, session, Reconcile(attempt), now) == Err(ProviderChannelBusy)
  {
  }

  /** A frame is answered exactly when its worker's channel is free, its request is
      admitted or its attempt known, and what it is told can be read and fits. */
  lemma FrameAnswered(live: map<SessionId, Spec>, busy: bool, d: Store, submitted: seq<Job>, maxFrame: nat, session: SessionId, request: WorkerRequest,
                      now: Millis)
    ensures var known := (session, request.attempt) in d.attempts;
            var grant := ReloadIn(live, d, session, now);
            FrameOutcome(live, busy, d, submitted, maxFrame, session, request, now).Ok? <==>
              && session in live && live[session].capability.Some? && !busy
              && (request.Reconcile? ==> known)
              && (request.Infer? ==>
                    && grant.Ok? && 0 < |request.bytes| <= grant.value.inputBytes
                    && (known ==> d.attempts[(session, request.attempt)].state.request == NewRequest(grant.value, request.bytes, request.headers)))
              && (known ==> Readable(d, maxFrame, (session, request.attempt)))
              && var view := if known then LiveResponseIn(d, submitted, maxFrame, session, request.attempt).value else StillPending;
                 AnswerLength(request.attempt, View(view)) <= maxFrame
  {
    if request.Infer? {
      assert PrepareRefusal(live, d, session, request.attempt, request.headers, request.bytes, now).None? ==> ReloadIn(live, d, session, now).Ok?;
    }
  }

  /** A frame that is not answered ends the daemon for the first of these reasons: its
      `Infer` has no grant, is of the wrong size or asks for something else under a
      known attempt; its `Reconcile` names no attempt; the response is too long to be
      read; the last answer is not drained; this one does not fit. */
  lemma FrameRefused(live: map<SessionId, Spec>, busy: bool, d: Store, submitted: seq<Job>, maxFrame: nat, session: SessionId, request: WorkerRequest,
                     now: Millis)
    requires session in live && live[session].capability.Some?
    ensures var k := (session, request.attempt);
            var grant := ReloadIn(live, d, session, now);
            var outcome := FrameOutcome(live, busy, d, submitted, maxFrame, session, request, now);
            if request.Infer? && grant.Err? then outcome == Err(grant.error)
            else if request.Infer? && (request.bytes == [] || |request.bytes| > grant.value.inputBytes) then outcome == Err(WorkerProviderRequestTooLarge)
            else if request.Infer? && k in d.attempts && d.attempts[k].state.request != NewRequest(grant.value, request.bytes, request.headers) then
              outcome == Err(WorkerProviderAttemptMismatch)
            else if request.Reconcile? && k !in d.attempts then outcome == Err(WorkerProviderAttemptNotFound)
            else if k in d.attempts && !Readable(d, maxFrame, k) then outcome == Err(BlobUnreadable)
            else if busy then outcome == Err(ProviderChannelBusy)
            else outcome.Ok? || outcome == Err(ProviderFrameTooLarge)
  {
    if request.Infer? {
      assert PrepareRefusal(live, d, session, request.attempt, request.headers, request.bytes, now).None? ==> ReloadIn(live, d, session, now).Ok?;
    }
  }
}
