/** The durable forward outbox to the effect broker: its records, the commits
    they admit, and what holds of every run of them. */
module Forwarding {
  import opened ByteOrder
  import opened Outcomes
  import opened Ledger
  import opened Paging

  datatype Intent = Intent(domain: nat, epoch: nat, proposer: nat, proposerDomain: nat, proposerEpoch: nat, judgment: nat, body: nat)

  datatype RequestBody = SubmitProposal(intent: Intent) | OtherRequest

  /** An externally signed request, whose proof may be renewed, or a worker candidate. */
  datatype Ingress =
    | ExternalSigned(proof: nat, body: RequestBody)
    | WorkerCandidate(intent: Intent, worker: nat)

  /** What a forward is deduplicated by. */
  datatype Source =
    | ExternalSource(domain: nat, epoch: nat, proposer: nat, intent: Intent)
    | WorkerSource(domain: nat, epoch: nat, proposer: nat, intent: Intent, worker: nat)

  datatype ForwardState = Pending | Completed(response: nat)

  datatype Forward = Forward(source: Source, intent: Intent, admission: nat, ingress: Ingress, state: ForwardState)

  datatype ForwardError =
    | WorkerRecoveryRequired
    | WorkerSupervisorBusy
    | Quiesced
    | MalformedIntent
    | ProposerBindingMismatch
    | JudgmentNotAdmitted
    | OutboxBindingMismatch
    | ArtifactUnreadable
    | Broker(message: nat)
    | BrokerUnavailable
    | CallNotMade

  /** What came of one call to the broker: a response to keep, an error or
      something unexpected instead, no exchange at all, or a fault on this side
      before any call was made. */
  datatype Reply = Answer(response: nat) | ErrorAnswer(message: nat) | Unavailable | Fault

  function Submitted(reply: Reply): Result<nat, ForwardError> {
    match reply
    case Answer(response) => Ok(response)
    case ErrorAnswer(message) => Err(Broker(message))
    case Unavailable => Err(BrokerUnavailable)
    case Fault => Err(CallNotMade)
  }

  /** `is_deferred_forward_error` */
  predicate Deferred(error: ForwardError) {
    error.Broker? || error.BrokerUnavailable?
  }

  /** The artifacts of a request can be loaded; a worker candidate has none. */
  predicate Loads(ingress: Ingress, readable: bool) {
    ingress.WorkerCandidate? || readable
  }

  type Table = map<Bytes, Versioned<Forward>>

  /** The fixed surroundings of the outbox. Judgments never change once
      committed, so admission is a function. */
  datatype Site = Site(
    domain: nat,
    epoch: nat,
    name: Source -> Bytes,
    wellShaped: Intent -> bool,
    admits: Intent -> Option<nat>
  )

  function IngressIntent(ingress: Ingress): Option<Intent> {
    match ingress
    case ExternalSigned(_, SubmitProposal(intent)) => Some(intent)
    case ExternalSigned(_, OtherRequest) => None
    case WorkerCandidate(intent, _) => Some(intent)
  }

  /** `governor_forward_source` */
  function ForwardSource(site: Site, ingress: Ingress): Option<Source> {
    match IngressIntent(ingress)
    case None => None
    case Some(intent) =>
      Some(if ingress.WorkerCandidate? then WorkerSource(site.domain, site.epoch, intent.proposer, intent, ingress.worker)
           else ExternalSource(site.domain, site.epoch, intent.proposer, intent))
  }

  /** The request carries this intent: as a signed proposal, or as a worker's candidate. */
  predicate Carries(ingress: Ingress, intent: Intent) {
    match ingress
    case ExternalSigned(_, body) => body == SubmitProposal(intent)
    case WorkerCandidate(own, _) => own == intent
  }

  lemma IntentExact(ingress: Ingress, intent: Intent)
    ensures IngressIntent(ingress) == Some(intent) <==> Carries(ingress, intent)
  {
  }

  /** Requests are one forward exactly when they carry one intent, both signed
      outside or both from one worker: another proof makes no difference. */
  lemma SourceExact(site: Site, a: Ingress, b: Ingress, intent: Intent)
    requires Carries(a, intent)
    ensures ForwardSource(site, a).Some? && ForwardSource(site, a).value.intent == intent
    ensures ForwardSource(site, a).value.domain == site.domain && ForwardSource(site, a).value.epoch == site.epoch
    ensures ForwardSource(site, a).value.proposer == intent.proposer
    ensures ForwardSource(site, b) == ForwardSource(site, a) <==>
              && Carries(b, intent)
              && (a.WorkerCandidate? <==> b.WorkerCandidate?) && (a.WorkerCandidate? ==> a.worker == b.worker)
  {
  }

  /** `validate_forward_record` */
  predicate RecordValid(site: Site, entity: Bytes, record: Forward) {
    && IngressIntent(record.ingress) == Some(record.intent)
    && ForwardSource(site, record.ingress) == Some(record.source)
    && entity == site.name(record.source)
  }

  /** A record of one source is renewed only by another proof of the same external
      request; a worker candidate is never renewed. */
  lemma RenewalKeepsRequest(site: Site, entity: Bytes, record: Forward, ingress: Ingress)
    requires RecordValid(site, entity, record) && ForwardSource(site, ingress) == Some(record.source)
    ensures RecordValid(site, entity, record.(ingress := ingress))
    ensures ingress == record.ingress || (ingress.ExternalSigned? && record.ingress.ExternalSigned? && ingress.body == record.ingress.body)
  {
  }

  // ---------- Commits ----------

  datatype ForwardCommit =
    | Open(entity: Bytes, record: Forward)
    | Renew(entity: Bytes, ingress: Ingress, expected: nat)
    | Finish(entity: Bytes, response: nat, expected: nat)

  predicate Lawful(site: Site, t: Table, c: ForwardCommit) {
    match c
    case Open(entity, record) =>
      && entity !in t && record.state.Pending? && RecordValid(site, entity, record)
      && site.admits(record.intent) == Some(record.admission)
    case Renew(entity, ingress, expected) =>
      && entity in t && t[entity].revision == expected && t[entity].state.state.Pending?
      && ForwardSource(site, ingress) == Some(t[entity].state.source)
    case Finish(entity, _, expected) =>
      entity in t && t[entity].revision == expected && t[entity].state.state.Pending?
  }

  function Apply(t: Table, c: ForwardCommit): Table {
    match c
    case Open(entity, record) => Put(t, entity, record)
    case Renew(entity, ingress, _) => if entity in t then Put(t, entity, t[entity].state.(ingress := ingress)) else t
    case Finish(entity, response, _) => if entity in t then Put(t, entity, t[entity].state.(state := Completed(response))) else t
  }

  ghost predicate RecordOk(site: Site, t: Table, entity: Bytes)
    requires entity in t
  {
    RecordValid(site, entity, t[entity].state) && site.admits(t[entity].state.intent) == Some(t[entity].state.admission)
  }

  ghost predicate Sound(site: Site, t: Table) {
    forall entity :: entity in t ==> RecordOk(site, t, entity)
  }

  /** A record keeps its source, intent and admission, its external request up to
      the proof, and its response for good. */
  predicate RecordAdvances(a: Forward, b: Forward) {
    && b == a.(ingress := b.ingress, state := b.state)
    && (b.ingress == a.ingress || (a.ingress.ExternalSigned? && b.ingress.ExternalSigned? && a.ingress.body == b.ingress.body))
    && (a.state.Completed? ==> b == a)
  }

  ghost predicate Advances(t: Table, u: Table) {
    forall entity :: entity in t ==> entity in u && RecordAdvances(t[entity].state, u[entity].state)
  }

  lemma CommitAdvances(site: Site, t: Table, c: ForwardCommit)
    requires Sound(site, t) && Lawful(site, t, c)
    ensures Sound(site, Apply(t, c)) && Advances(t, Apply(t, c))
  {
    if c.Renew? {
      assert RecordOk(site, t, c.entity);
      RenewalKeepsRequest(site, c.entity, t[c.entity].state, c.ingress);
    }
    var u := Apply(t, c);
    forall entity | entity in u
      ensures RecordOk(site, u, entity)
    {
      if entity in t {
        assert RecordOk(site, t, entity);
      }
    }
  }

  // ---------- Runs ----------

  ghost predicate ForwardStep(site: Site, t: Table, u: Table) {
    exists c :: Lawful(site, t, c) && u == Apply(t, c)
  }

  ghost predicate ForwardStepAt(site: Site, trail: seq<Table>, i: int)
    requires 0 < i < |trail|
  {
    ForwardStep(site, trail[i - 1], trail[i])
  }

  /** The successive durable tables over any number of process lifetimes. */
  ghost predicate ForwardRun(site: Site, trail: seq<Table>) {
    && trail != [] && trail[0] == map[]
    && forall i :: 0 < i < |trail| ==> ForwardStepAt(site, trail, i)
  }

  lemma RunExtends(site: Site, trail: seq<Table>, c: ForwardCommit)
    requires ForwardRun(site, trail) && Lawful(site, trail[|trail| - 1], c)
    ensures ForwardRun(site, trail + [Apply(trail[|trail| - 1], c)])
  {
    var longer := trail + [Apply(trail[|trail| - 1], c)];
    forall i | 0 < i < |longer|
      ensures ForwardStepAt(site, longer, i)
    {
      if i < |trail| {
        assert ForwardStepAt(site, trail, i);
      }
    }
  }

  lemma {:induction false} RunSound(site: Site, trail: seq<Table>, i: nat)
    requires ForwardRun(site, trail) && i < |trail|
    ensures Sound(site, trail[i])
  {
    if i > 0 {
      RunSound(site, trail, i - 1);
      assert ForwardStepAt(site, trail, i);
      var c :| Lawful(site, trail[i - 1], c) && trail[i] == Apply(trail[i - 1], c);
      CommitAdvances(site, trail[i - 1], c);
    }
  }

  lemma {:induction false} RunAdvances(site: Site, trail: seq<Table>, i: nat, j: nat)
    requires ForwardRun(site, trail) && i <= j < |trail|
    ensures Advances(trail[i], trail[j])
    decreases j
  {
    if i < j {
      RunAdvances(site, trail, i, j - 1);
      RunSound(site, trail, j - 1);
      assert ForwardStepAt(site, trail, j);
      var c :| Lawful(site, trail[j - 1], c) && trail[j] == Apply(trail[j - 1], c);
      CommitAdvances(site, trail[j - 1], c);
    }
  }

  ghost predicate RevisionsGrow(t: Table, u: Table) {
    forall entity :: entity in t ==> entity in u && t[entity].revision <= u[entity].revision
  }

  lemma {:induction false} RunRevisions(site: Site, trail: seq<Table>, i: nat, j: nat)
    requires ForwardRun(site, trail) && i <= j < |trail|
    ensures RevisionsGrow(trail[i], trail[j])
    decreases j
  {
    if i < j {
      RunRevisions(site, trail, i, j - 1);
      assert ForwardStepAt(site, trail, j);
    }
  }

  /** A commit made once is stale in every later state. */
  lemma CommitOnce(site: Site, trail: seq<Table>, i: nat, j: nat, c: ForwardCommit)
    requires ForwardRun(site, trail) && i < j < |trail| && Lawful(site, trail[i], c) && trail[i + 1] == Apply(trail[i], c)
    ensures !Lawful(site, trail[j], c)
  {
    RunRevisions(site, trail, i + 1, j);
  }

  /** At most one response is ever recorded for an entity, and it stands. */
  lemma OneResponse(site: Site, trail: seq<Table>, i: nat, j: nat, entity: Bytes)
    requires ForwardRun(site, trail) && i <= j < |trail|
    requires entity in trail[i] && trail[i][entity].state.state.Completed?
    ensures entity in trail[j] && trail[j][entity].state == trail[i][entity].state
  {
    RunAdvances(site, trail, i, j);
  }

  // ---------- Calls ----------

  /** One call to the broker, made in the durable state `at`. */
  datatype Call = Call(entity: Bytes, ingress: Ingress, at: nat, reply: Reply)

  /** The call was made for a record that was durably pending with that very ingress. */
  ghost predicate CallBacked(trail: seq<Table>, call: Call) {
    && call.at < |trail|
    && call.entity in trail[call.at]
    && trail[call.at][call.entity].state.state.Pending?
    && trail[call.at][call.entity].state.ingress == call.ingress
  }

  ghost predicate CallsBacked(trail: seq<Table>, calls: seq<Call>) {
    forall n :: 0 <= n < |calls| ==> CallBacked(trail, calls[n])
  }

  ghost predicate Brokered(calls: seq<Call>, entity: Bytes, response: nat) {
    exists n :: 0 <= n < |calls| && calls[n].entity == entity && calls[n].reply == Answer(response)
  }

  /** Every recorded response is one the broker gave for that entity. */
  ghost predicate ResponsesBrokered(t: Table, calls: seq<Call>) {
    forall entity :: entity in t && t[entity].state.state.Completed? ==> Brokered(calls, entity, t[entity].state.state.response)
  }

  lemma BackedExtends(trail: seq<Table>, t: Table, calls: seq<Call>)
    requires CallsBacked(trail, calls)
    ensures CallsBacked(trail + [t], calls)
  {
    forall n | 0 <= n < |calls|
      ensures CallBacked(trail + [t], calls[n])
    {
      assert CallBacked(trail, calls[n]);
    }
  }

  lemma BrokeredExtends(t: Table, calls: seq<Call>, call: Call)
    requires ResponsesBrokered(t, calls)
    ensures ResponsesBrokered(t, calls + [call])
  {
    forall entity | entity in t && t[entity].state.state.Completed?
      ensures Brokered(calls + [call], entity, t[entity].state.state.response)
    {
      var n :| 0 <= n < |calls| && calls[n].entity == entity && calls[n].reply == Answer(t[entity].state.state.response);
      assert (calls + [call])[n] == calls[n];
    }
  }

  /** Once a response is recorded the broker is never called for that entity again. */
  lemma NoCallAfterResponse(site: Site, trail: seq<Table>, calls: seq<Call>, n: nat, i: nat)
    requires ForwardRun(site, trail) && CallsBacked(trail, calls) && n < |calls| && i < |trail|
    requires calls[n].entity in trail[i] && trail[i][calls[n].entity].state.state.Completed?
    ensures calls[n].at < i
  {
    assert CallBacked(trail, calls[n]);
    if i <= calls[n].at {
      OneResponse(site, trail, i, calls[n].at, calls[n].entity);
    }
  }

  // ---------- What one request may expect ----------

  datatype Conditions = Conditions(recoveryRequired: bool, busy: bool, quiesced: bool, readable: bool)

  /** Why a request is turned away before the outbox is looked at. */
  function Refusal(site: Site, ingress: Ingress, conditions: Conditions): Option<ForwardError> {
    if conditions.recoveryRequired then Some(WorkerRecoveryRequired)
    else if conditions.busy then Some(WorkerSupervisorBusy)
    else if conditions.quiesced then Some(Quiesced)
    else match IngressIntent(ingress)
      case None => Some(OutboxBindingMismatch)
      case Some(intent) =>
        if !site.wellShaped(intent) then Some(MalformedIntent)
        else if intent.domain != site.domain || intent.epoch != site.epoch
                || intent.proposerDomain != site.domain || intent.proposerEpoch != site.epoch then Some(ProposerBindingMismatch)
        else if site.admits(intent).None? then Some(JudgmentNotAdmitted)
        else None
  }

  /** The intent and its proposer are of this site's domain and epoch. */
  predicate OfSite(site: Site, intent: Intent) {
    intent.domain == intent.proposerDomain == site.domain && intent.epoch == intent.proposerEpoch == site.epoch
  }

  /** What every gate answers, first come first. */
  ghost predicate Gated(site: Site, ingress: Ingress, conditions: Conditions, r: Result<nat, ForwardError>) {
    if conditions.recoveryRequired then r == Err(WorkerRecoveryRequired)
    else if conditions.busy then r == Err(WorkerSupervisorBusy)
    else if conditions.quiesced then r == Err(Quiesced)
    else
      && (ingress.ExternalSigned? && ingress.body.OtherRequest? ==> r == Err(OutboxBindingMismatch))
      && forall intent :: Carries(ingress, intent) ==>
           && (!site.wellShaped(intent) ==> r == Err(MalformedIntent))
           && (site.wellShaped(intent) && !OfSite(site, intent) ==> r == Err(ProposerBindingMismatch))
           && (site.wellShaped(intent) && OfSite(site, intent) && site.admits(intent).None? ==> r == Err(JudgmentNotAdmitted))
  }

  /** Every gate is open: the core is in order, runs no worker and is in no backup
      cut, and the request carries an admitted intent. */
  ghost predicate LetIn(site: Site, ingress: Ingress, conditions: Conditions) {
    && !conditions.recoveryRequired && !conditions.busy && !conditions.quiesced
    && exists intent :: Carries(ingress, intent) && site.wellShaped(intent) && OfSite(site, intent) && site.admits(intent).Some?
  }

  lemma RefusalExact(site: Site, ingress: Ingress, conditions: Conditions)
    ensures Refusal(site, ingress, conditions).None? <==> LetIn(site, ingress, conditions)
    ensures Refusal(site, ingress, conditions).Some? ==> Gated(site, ingress, conditions, Err(Refusal(site, ingress, conditions).value))
  {
    if Refusal(site, ingress, conditions).None? {
      assert Carries(ingress, IngressIntent(ingress).value);
    }
  }

  function EntityOf(site: Site, ingress: Ingress): Bytes
    requires IngressIntent(ingress).Some?
  {
    site.name(ForwardSource(site, ingress).value)
  }

  /** Another source already holds this entity's name. */
  predicate NameTaken(site: Site, t: Table, ingress: Ingress)
    requires IngressIntent(ingress).Some?
  {
    EntityOf(site, ingress) in t && t[EntityOf(site, ingress)].state.source != ForwardSource(site, ingress).value
  }

  /** The record an accepted request leaves pending. */
  function PendingRecord(site: Site, ingress: Ingress): Forward
    requires IngressIntent(ingress).Some? && site.admits(IngressIntent(ingress).value).Some?
  {
    var intent := IngressIntent(ingress).value;
    Forward(ForwardSource(site, ingress).value, intent, site.admits(intent).value, ingress, Pending)
  }

  /** The record a request leaves pending holds the request itself, the intent it
      carries and the admission of that intent, under the name of its source. */
  lemma PendingExact(site: Site, ingress: Ingress, intent: Intent)
    requires Carries(ingress, intent) && site.admits(intent).Some?
    ensures IngressIntent(ingress).Some?
    ensures var record := PendingRecord(site, ingress);
            && record.state == Pending && record.ingress == ingress && record.intent == intent
            && Some(record.admission) == site.admits(intent) && Some(record.source) == ForwardSource(site, ingress)
            && EntityOf(site, ingress) == site.name(record.source)
  {
  }

  /** The broker's replies during a recovery pass, by entity. */
  function ReplyFor(replies: map<Bytes, Reply>, entity: Bytes): Reply {
    if entity in replies then replies[entity] else Unavailable
  }

  /** What a recovery pass makes of one record. */
  predicate Replayed(t: Table, u: Table, entity: Bytes, quiesced: bool, reply: Reply)
    requires entity in t && entity in u
  {
    if t[entity].state.state.Pending? && !quiesced && reply.Answer? then
      u[entity].state == t[entity].state.(state := Completed(reply.response))
    else
      u[entity] == t[entity]
  }

  /** A recovery pass ends in an error at this record: it is called for, and its
      artifacts cannot be loaded or the call cannot be made. */
  predicate Stops(t: Table, entity: Bytes, quiesced: bool, readable: set<Bytes>, replies: map<Bytes, Reply>) {
    && entity in t && t[entity].state.state.Pending? && !quiesced
    && ((t[entity].state.ingress.ExternalSigned? && entity !in readable) || ReplyFor(replies, entity).Fault?)
  }

  /** No record up to the cursor ends the pass. */
  ghost predicate ClearTo(t: Table, cursor: Option<Bytes>, quiesced: bool, readable: set<Bytes>, replies: map<Bytes, Reply>) {
    forall entity :: entity in t && !After(cursor, entity) ==> !Stops(t, entity, quiesced, readable, replies)
  }

  lemma ClearToNext(t: Table, cursor: Option<Bytes>, entity: Bytes, quiesced: bool, readable: set<Bytes>, replies: map<Bytes, Reply>)
    requires ClearTo(t, cursor, quiesced, readable, replies) && NextPast(t.Keys, cursor, entity)
    requires !Stops(t, entity, quiesced, readable, replies)
    ensures ClearTo(t, Some(entity), quiesced, readable, replies)
  {
  }

  lemma AllClear(t: Table, cursor: Option<Bytes>, quiesced: bool, readable: set<Bytes>, replies: map<Bytes, Reply>)
    requires ClearTo(t, cursor, quiesced, readable, replies) && KeysAfter(t.Keys, cursor) == {}
    ensures forall entity :: entity in t ==> !Stops(t, entity, quiesced, readable, replies)
  {
    forall entity | entity in t
      ensures !Stops(t, entity, quiesced, readable, replies)
    {
      assert entity !in KeysAfter(t.Keys, cursor);
    }
  }

  /** A recovery pass begun in `t` has reached the cursor. */
  ghost predicate ReplayedTo(t: Table, u: Table, cursor: Option<Bytes>, quiesced: bool, replies: map<Bytes, Reply>) {
    && t.Keys == u.Keys
    && forall entity :: entity in t ==>
         if After(cursor, entity) then u[entity] == t[entity] else Replayed(t, u, entity, quiesced, ReplyFor(replies, entity))
  }

  lemma ReplayedToNext(t: Table, u: Table, v: Table, cursor: Option<Bytes>, entity: Bytes, quiesced: bool, replies: map<Bytes, Reply>)
    requires ReplayedTo(t, u, cursor, quiesced, replies) && NextPast(t.Keys, cursor, entity) && t.Keys == v.Keys
    requires Replayed(t, v, entity, quiesced, ReplyFor(replies, entity))
    requires forall e :: e in t && e != entity ==> v[e] == u[e]
    ensures ReplayedTo(t, v, Some(entity), quiesced, replies)
  {
    forall e | e in t
      ensures if Less(entity, e) then v[e] == t[e] else Replayed(t, v, e, quiesced, ReplyFor(replies, e))
    {
      LessIrreflexive(entity);
      if cursor.Some? && Less(entity, e) {
        LessTransitive(cursor.value, entity, e);
      }
    }
  }

  lemma ReplayedAll(t: Table, u: Table, cursor: Option<Bytes>, quiesced: bool, replies: map<Bytes, Reply>)
    requires ReplayedTo(t, u, cursor, quiesced, replies) && KeysAfter(t.Keys, cursor) == {}
    ensures forall entity :: entity in t ==> Replayed(t, u, entity, quiesced, ReplyFor(replies, entity))
  {
    forall entity | entity in t
      ensures Replayed(t, u, entity, quiesced, ReplyFor(replies, entity))
    {
      assert entity !in KeysAfter(t.Keys, cursor);
    }
  }

  /** Counts of a recovery pass. */
  datatype Report = Report(completed: nat, deferred: nat)
}
