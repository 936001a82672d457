/** The governor's end of the forward outbox. */
module Outbox {
  import opened ByteOrder
  import opened Outcomes
  import opened Paging
  import opened Forwarding

  const RECOVERY_PAGE: nat := 128

  datatype Preparation =
    | AlreadyCompleted(response: nat)
    | Awaiting(entity: Bytes, revision: nat)

  /** The result tells the reply. */
  predicate AnsweredAs(reply: Reply, r: Result<nat, ForwardError>) {
    match reply
    case Answer(response) => r == Ok(response)
    case ErrorAnswer(message) => r == Err(Broker(message))
    case Unavailable => r == Err(BrokerUnavailable)
    case Fault => r == Err(CallNotMade)
  }

  class ForwardOutbox {
    const site: Site
    var forwards: Table

    /** Every durable table so far, over all process lifetimes. */
    ghost var trail: seq<Table>
    /** Every call to the broker so far, with the durable state it was made in. */
    ghost var calls: seq<Call>

    /** Every call was made for a durably pending record, and every recorded
        response is one the broker gave. */
    ghost predicate Valid()
      reads this
    {
      && ForwardRun(site, trail) && forwards == trail[|trail| - 1]
      && CallsBacked(trail, calls) && ResponsesBrokered(forwards, calls)
    }

    /** A process starts on whatever durable table the last one left. */
    constructor (site: Site, t: Table, ghost history: seq<Table>, ghost made: seq<Call>)
      requires ForwardRun(site, history) && t == history[|history| - 1]
      requires CallsBacked(history, made) && ResponsesBrokered(t, made)
      ensures Valid() && this.site == site && forwards == t && trail == history && calls == made
    {
      this.site, forwards := site, t;
      trail, calls := history, made;
    }

    method Commit(c: ForwardCommit)
      requires Valid() && Forwarding.Lawful(site, forwards, c)
      requires c.Finish? ==> Brokered(calls, c.entity, c.response)
      modifies this`forwards, this`trail
      ensures Valid()
      ensures forwards == Forwarding.Apply(old(forwards), c) && trail == old(trail) + [forwards]
    {
      Forwarding.RunExtends(site, trail, c);
      BackedExtends(trail, Forwarding.Apply(forwards, c), calls);
      forwards := Forwarding.Apply(forwards, c);
      trail := trail + [forwards];
    }

    /** `submit_to_effectd`: at most one call, made in the present durable state. */
    method SubmitToEffectd(entity: Bytes, ingress: Ingress, reply: Reply) returns (r: Result<nat, ForwardError>)
      requires Valid() && entity in forwards && forwards[entity].state.state.Pending? && forwards[entity].state.ingress == ingress
      modifies this`calls
      ensures Valid() && AnsweredAs(reply, r)
      ensures calls == if reply.Fault? then old(calls) else old(calls) + [Call(entity, ingress, |trail| - 1, reply)]
      ensures reply.Answer? ==> Brokered(calls, entity, reply.response)
    {
      r := Submitted(reply);
      if reply.Fault? {
        return;
      }
      ghost var call := Call(entity, ingress, |trail| - 1, reply);
      assert CallBacked(trail, call);
      BrokeredExtends(forwards, calls, call);
      calls := calls + [call];
      assert calls[|calls| - 1] == call;
    }

    /** `prepare_forward_outbox`: a completed record answers; otherwise the record
        is durably pending with this very ingress. */
    method PrepareForwardOutbox(ingress: Ingress) returns (r: Result<Preparation, ForwardError>)
      requires Valid() && IngressIntent(ingress).Some? && site.admits(IngressIntent(ingress).value).Some?
      modifies this`forwards, this`trail
      ensures Valid() && old(trail) <= trail
      ensures r.Err? <==> NameTaken(site, old(forwards), ingress)
      ensures r.Err? ==> r.error == OutboxBindingMismatch && forwards == old(forwards)
      ensures r.Ok? ==>
                var entity := EntityOf(site, ingress);
                if entity in old(forwards) && old(forwards)[entity].state.state.Completed? then
                  r.value == AlreadyCompleted(old(forwards)[entity].state.state.response) && forwards == old(forwards)
                else
                  && entity in forwards && forwards[entity].state == PendingRecord(site, ingress)
                  && forwards == old(forwards)[entity := forwards[entity]]
                  && r.value == Awaiting(entity, forwards[entity].revision)
    {
      var entity := EntityOf(site, ingress);
      var record := PendingRecord(site, ingress);
      if entity !in forwards {
        Commit(Open(entity, record));
        return Ok(Awaiting(entity, forwards[entity].revision));
      }
      RunSound(site, trail, |trail| - 1);
      assert RecordOk(site, forwards, entity);
      var loaded := forwards[entity];
      if loaded.state.source != record.source || loaded.state.intent != record.intent || loaded.state.admission != record.admission {
        return Err(OutboxBindingMismatch);
      }
      match loaded.state.state
      case Completed(response) =>
        r := Ok(AlreadyCompleted(response));
      case Pending =>
        if loaded.state.ingress != ingress {
          Commit(Renew(entity, ingress, loaded.revision));
        }
        r := Ok(Awaiting(entity, forwards[entity].revision));
    }

    /** `forward_governed_intent`: a recorded response answers every retry without
        a call; otherwise the record is durable before the one call is made, and
        the answer is recorded before it is returned. */
    method ForwardGovernedIntent(ingress: Ingress, conditions: Conditions, reply: Reply) returns (r: Result<nat, ForwardError>)
      requires Valid()
      modifies this
      ensures Valid() && old(trail) <= trail && old(calls) <= calls
      ensures forwards != old(forwards) || calls != old(calls) || r.Ok? ==> LetIn(site, ingress, conditions)
      ensures Gated(site, ingress, conditions, r)
      ensures var refusal := Refusal(site, ingress, conditions);
              if refusal.Some? then
                r == Err(refusal.value) && forwards == old(forwards) && calls == old(calls)
              else if NameTaken(site, old(forwards), ingress) then
                r == Err(OutboxBindingMismatch) && forwards == old(forwards) && calls == old(calls)
              else
                var entity := EntityOf(site, ingress);
                if entity in old(forwards) && old(forwards)[entity].state.state.Completed? then
                  r == Ok(old(forwards)[entity].state.state.response) && forwards == old(forwards) && calls == old(calls)
                else
                  var record := PendingRecord(site, ingress);
                  && entity in forwards && forwards == old(forwards)[entity := forwards[entity]]
                  && if ingress.ExternalSigned? && !conditions.readable then
                       r == Err(ArtifactUnreadable) && calls == old(calls) && forwards[entity].state == record
                     else
                       && AnsweredAs(reply, r)
                       && (reply.Fault? ==> calls == old(calls))
                       && (!reply.Fault? ==>
                             && |calls| == |old(calls)| + 1
                             && calls[|old(calls)|].entity == entity && calls[|old(calls)|].ingress == ingress
                             && calls[|old(calls)|].reply == reply)
                       && forwards[entity].state == if reply.Answer? then record.(state := Completed(reply.response)) else record
    {
      var refusal := Refusal(site, ingress, conditions);
      RefusalExact(site, ingress, conditions);
      if refusal.Some? {
        return Err(refusal.value);
      }
      r := ForwardAdmitted(ingress, conditions.readable, reply);
    }

    /** The same past the gates. */
    method ForwardAdmitted(ingress: Ingress, readable: bool, reply: Reply) returns (r: Result<nat, ForwardError>)
      requires Valid() && IngressIntent(ingress).Some? && site.admits(IngressIntent(ingress).value).Some?
      modifies this
      ensures Valid() && old(trail) <= trail && old(calls) <= calls
      ensures if NameTaken(site, old(forwards), ingress) then
                r == Err(OutboxBindingMismatch) && forwards == old(forwards) && calls == old(calls)
              else
                var entity := EntityOf(site, ingress);
                if entity in old(forwards) && old(forwards)[entity].state.state.Completed? then
                  r == Ok(old(forwards)[entity].state.state.response) && forwards == old(forwards) && calls == old(calls)
                else
                  var record := PendingRecord(site, ingress);
                  && entity in forwards && forwards == old(forwards)[entity := forwards[entity]]
                  && if ingress.ExternalSigned? && !readable then
                       r == Err(ArtifactUnreadable) && calls == old(calls) && forwards[entity].state == record
                     else
                       && AnsweredAs(reply, r)
                       && (reply.Fault? ==> calls == old(calls))
                       && (!reply.Fault? ==>
                             && |calls| == |old(calls)| + 1
                             && calls[|old(calls)|].entity == entity && calls[|old(calls)|].ingress == ingress
                             && calls[|old(calls)|].reply == reply)
                       && forwards[entity].state == if reply.Answer? then record.(state := Completed(reply.response)) else record
    {
      var prepared := PrepareForwardOutbox(ingress);
      if prepared.Err? {
        return Err(prepared.error);
      }
      match prepared.value
      case AlreadyCompleted(response) =>
        r := Ok(response);
      case Awaiting(entity, revision) =>
        if !Loads(ingress, readable) {
          return Err(ArtifactUnreadable);
        }
        r := SubmitToEffectd(entity, ingress, reply);
        if r.Ok? {
          Commit(Finish(entity, r.value, revision));
        }
    }

    /** One record of a recovery pass: left alone if completed or quiesced,
        otherwise called for once with its stored ingress. A failed call is
        deferred unless it could not be made. */
    method ReplayOne(entity: Bytes, quiesced: bool, readable: set<Bytes>, replies: map<Bytes, Reply>) returns (r: Result<Report, ForwardError>)
      requires Valid() && entity in forwards
      modifies this
      ensures Valid() && old(trail) <= trail && old(calls) <= calls
      ensures r.Err? <==> Stops(old(forwards), entity, quiesced, readable, replies)
      ensures r.Err? ==> forwards == old(forwards) && trail == old(trail) && calls == old(calls)
      ensures r.Ok? ==>
                && forwards.Keys == old(forwards).Keys
                && Replayed(old(forwards), forwards, entity, quiesced, ReplyFor(replies, entity))
                && (forall e :: e in old(forwards) && e != entity ==> forwards[e] == old(forwards)[e])
                && |trail| == |old(trail)| + r.value.completed
                && |calls| == |old(calls)| + (if quiesced then 0 else r.value.completed + r.value.deferred)
                && (|calls| > |old(calls)| ==> calls[|old(calls)|].entity == entity && calls[|old(calls)|].reply == ReplyFor(replies, entity))
                && r.value.completed + r.value.deferred == if old(forwards)[entity].state.state.Pending? then 1 else 0
    {
      RunSound(site, trail, |trail| - 1);
      assert RecordOk(site, forwards, entity);
      var loaded := forwards[entity];
      if loaded.state.state.Completed? {
        return Ok(Report(0, 0));
      }
      if quiesced {
        return Ok(Report(0, 1));
      }
      if !Loads(loaded.state.ingress, entity in readable) {
        return Err(ArtifactUnreadable);
      }
      var submitted := SubmitToEffectd(entity, loaded.state.ingress, ReplyFor(replies, entity));
      if submitted.Ok? {
        Commit(Finish(entity, submitted.value, loaded.revision));
        r := Ok(Report(1, 0));
      } else if Deferred(submitted.error) {
        r := Ok(Report(0, 1));
      } else {
        r := Err(submitted.error);
      }
    }

    /** The next record of a recovery pass begun in the table `start`. */
    method ReplayNext(ghost start: Table, ghost reached: Option<Bytes>, entity: Bytes, quiesced: bool, readable: set<Bytes>, replies: map<Bytes, Reply>)
      returns (r: Result<Report, ForwardError>)
      requires Valid() && ReplayedTo(start, forwards, reached, quiesced, replies) && ClearTo(start, reached, quiesced, readable, replies)
      requires NextPast(start.Keys, reached, entity)
      modifies this
      ensures Valid() && old(trail) <= trail && old(calls) <= calls
      ensures r.Err? ==> Stops(start, entity, quiesced, readable, replies) && ReplayedTo(start, forwards, reached, quiesced, replies)
      ensures r.Ok? ==>
                && ReplayedTo(start, forwards, Some(entity), quiesced, replies) && ClearTo(start, Some(entity), quiesced, readable, replies)
                && |trail| == |old(trail)| + r.value.completed
                && |calls| == |old(calls)| + (if quiesced then 0 else r.value.completed + r.value.deferred)
    {
      r := ReplayOne(entity, quiesced, readable, replies);
      if r.Ok? {
        ReplayedToNext(start, old(forwards), forwards, reached, entity, quiesced, replies);
        ClearToNext(start, reached, entity, quiesced, readable, replies);
      }
    }

    /** One page of a recovery pass begun in the table `start`: it goes up to the
        first record that ends it, or through the whole page. */
    method ReplayPage(ghost start: Table, ghost at: Option<Bytes>, page: seq<Bytes>, quiesced: bool, readable: set<Bytes>, replies: map<Bytes, Reply>)
      returns (r: Result<Report, ForwardError>, ghost reached: Option<Bytes>, ghost stopped: Bytes)
      requires Valid() && ReplayedTo(start, forwards, at, quiesced, replies) && Walks(start.Keys, at, page)
      requires ClearTo(start, at, quiesced, readable, replies)
      modifies this
      ensures Valid() && old(trail) <= trail && old(calls) <= calls
      ensures ReplayedTo(start, forwards, reached, quiesced, replies) && ClearTo(start, reached, quiesced, readable, replies)
      ensures r.Err? ==> NextPast(start.Keys, reached, stopped) && Stops(start, stopped, quiesced, readable, replies)
      ensures r.Ok? ==>
                && reached == Reached(at, page, |page|)
                && |trail| == |old(trail)| + r.value.completed
                && |calls| == |old(calls)| + (if quiesced then 0 else r.value.completed + r.value.deferred)
    {
      var completed, deferred := 0, 0;
      reached, stopped := at, [];
      for i := 0 to |page|
        invariant Valid() && old(trail) <= trail && old(calls) <= calls
        invariant reached == Reached(at, page, i) && ReplayedTo(start, forwards, reached, quiesced, replies)
        invariant ClearTo(start, reached, quiesced, readable, replies)
        invariant completed >= 0 && deferred >= 0 && |trail| == |old(trail)| + completed
        invariant |calls| == |old(calls)| + (if quiesced then 0 else completed + deferred)
      {
        assert WalksAt(start.Keys, at, page, i);
        stopped := page[i];
        var one := ReplayNext(start, reached, page[i], quiesced, readable, replies);
        if one.Err? {
          return Err(one.error), reached, stopped;
        }
        reached := Some(page[i]);
        completed, deferred := completed + one.value.completed, deferred + one.value.deferred;
      }
      r := Ok(Report(completed, deferred));
    }

    /** `recover_forward_outbox`: every pending record is called for once with its
        stored ingress; the answered ones are completed, each in one commit, and
        the rest stay pending. The pass fails exactly when it is not let in or
        some record ends it, and then it went up to the first such record. */
    method RecoverForwardOutbox(recoveryRequired: bool, busy: bool, quiesced: bool, readable: set<Bytes>, replies: map<Bytes, Reply>)
      returns (r: Result<Report, ForwardError>, ghost reached: Option<Bytes>, ghost stopped: Bytes)
      requires Valid()
      modifies this
      ensures Valid() && old(trail) <= trail && old(calls) <= calls
      ensures r.Err? <==>
                || recoveryRequired || busy
                || exists entity :: entity in old(forwards) && Stops(old(forwards), entity, quiesced, readable, replies)
      ensures recoveryRequired || busy ==>
                && r == Err(if recoveryRequired then WorkerRecoveryRequired else WorkerSupervisorBusy)
                && forwards == old(forwards) && calls == old(calls)
      ensures r.Err? && !recoveryRequired && !busy ==>
                && NextPast(old(forwards).Keys, reached, stopped) && Stops(old(forwards), stopped, quiesced, readable, replies)
                && ClearTo(old(forwards), reached, quiesced, readable, replies)
                && ReplayedTo(old(forwards), forwards, reached, quiesced, replies)
      ensures r.Ok? ==>
                && forwards.Keys == old(forwards).Keys
                && (forall entity :: entity in old(forwards) ==> Replayed(old(forwards), forwards, entity, quiesced, ReplyFor(replies, entity)))
                && |trail| == |old(trail)| + r.value.completed
                && |calls| == |old(calls)| + (if quiesced then 0 else r.value.completed + r.value.deferred)
    {
      reached, stopped := None, [];
      if recoveryRequired {
        return Err(WorkerRecoveryRequired), reached, stopped;
      }
      if busy {
        return Err(WorkerSupervisorBusy), reached, stopped;
      }
      ghost var start := forwards;
      var at: Option<Bytes> := None;
      var completed, deferred := 0, 0;
      while true
        invariant Valid() && old(trail) <= trail && old(calls) <= calls
        invariant ReplayedTo(start, forwards, at, quiesced, replies) && ClearTo(start, at, quiesced, readable, replies)
        invariant completed >= 0 && deferred >= 0 && |trail| == |old(trail)| + completed
        invariant |calls| == |old(calls)| + (if quiesced then 0 else completed + deferred)
        decreases Left(start.Keys, at, start.Keys)
      {
        var page := Page(forwards.Keys, at, RECOVERY_PAGE);
        PageEmpty(start.Keys, at, RECOVERY_PAGE);
        if page == [] {
          ReplayedAll(start, forwards, at, quiesced, replies);
          AllClear(start, at, quiesced, readable, replies);
          return Ok(Report(completed, deferred)), at, stopped;
        }
        PageWalks(start.Keys, at, RECOVERY_PAGE);
        WalkAdvances(start.Keys, at, page, |page|);
        var replayed;
        replayed, reached, stopped := ReplayPage(start, at, page, quiesced, readable, replies);
        if replayed.Err? {
          return Err(replayed.error), reached, stopped;
        }
        completed, deferred := completed + replayed.value.completed, deferred + replayed.value.deferred;
        at := Some(page[|page| - 1]);
      }
    }
  }
}
