/** The bounded provider I/O worker: a thread between two bounded channels.

    The governor sends jobs and receives completions; the worker takes one job
    at a time. Every interleaving of the two threads is a run of `PipeStep`. */
module ProviderIo {
  import opened Outcomes
  import opened Custody
  import opened Scheduling

  datatype Pipe = Pipe(jobs: seq<Job>, hand: Option<Job>, completions: seq<Completion>)

  const IDLE: Pipe := Pipe([], None, [])

  function JobsOf(completions: seq<Completion>): (r: seq<Job>)
    ensures |r| == |completions|
  {
    seq(|completions|, i requires 0 <= i < |completions| => completions[i].job)
  }

  function InHand(hand: Option<Job>): seq<Job> {
    if hand.Some? then [hand.value] else []
  }

  /** Every job sent whose completion has not been received, oldest first. */
  function InFlight(p: Pipe): seq<Job> {
    JobsOf(p.completions) + InHand(p.hand) + p.jobs
  }

  predicate Bounded(capacity: nat, p: Pipe) {
    |p.jobs| <= capacity && |p.completions| <= capacity
  }

  /** The jobs noted as submitted are exactly those in flight, in order. */
  predicate Connected(capacity: nat, p: Pipe, submitted: seq<Job>) {
    0 < capacity <= 63 && Bounded(capacity, p) && submitted == InFlight(p)
  }

  // ---------- The governor's end ----------

  /** `try_send` */
  function TrySend(capacity: nat, p: Pipe, job: Job): Option<Pipe> {
    if |p.jobs| >= capacity then None else Some(p.(jobs := p.jobs + [job]))
  }

  lemma SendAppends(capacity: nat, p: Pipe, job: Job)
    requires Bounded(capacity, p) && TrySend(capacity, p, job).Some?
    ensures Bounded(capacity, TrySend(capacity, p, job).value)
    ensures InFlight(TrySend(capacity, p, job).value) == InFlight(p) + [job]
    ensures |InFlight(p)| <= 2 * capacity
  {
    assert InFlight(TrySend(capacity, p, job).value) == JobsOf(p.completions) + InHand(p.hand) + (p.jobs + [job]);
  }

  /** `try_recv` on a channel that holds something. */
  function Received(p: Pipe): Pipe
    requires p.completions != []
  {
    p.(completions := p.completions[1..])
  }

  lemma ReceiveTakesOldest(capacity: nat, p: Pipe)
    requires Bounded(capacity, p) && p.completions != []
    ensures Bounded(capacity, Received(p))
    ensures InFlight(p) == [p.completions[0].job] + InFlight(Received(p))
  {
    assert JobsOf(p.completions) == [p.completions[0].job] + JobsOf(p.completions[1..]);
  }

  // ---------- The worker's end ----------

  datatype Worker = TakeJob | SendCompletion(result: ProviderResult)

  /** One step of the worker thread; None while it blocks. */
  function WorkerStep(capacity: nat, p: Pipe, w: Worker): Option<Pipe> {
    match w
    case TakeJob =>
      if p.hand.Some? || p.jobs == [] then None else Some(Pipe(p.jobs[1..], Some(p.jobs[0]), p.completions))
    case SendCompletion(result) =>
      if p.hand.None? || |p.completions| >= capacity then None
      else Some(Pipe(p.jobs, None, p.completions + [Completion(p.hand.value, result)]))
  }

  /** Whatever the worker does, the jobs in flight and their order are the same. */
  lemma WorkerKeepsFlight(capacity: nat, p: Pipe, w: Worker)
    requires Bounded(capacity, p) && WorkerStep(capacity, p, w).Some?
    ensures Bounded(capacity, WorkerStep(capacity, p, w).value)
    ensures InFlight(WorkerStep(capacity, p, w).value) == InFlight(p)
  {
    var q := WorkerStep(capacity, p, w).value;
    match w
    case TakeJob =>
      assert p.jobs == [p.jobs[0]] + q.jobs;
      assert InFlight(q) == JobsOf(p.completions) + [p.jobs[0]] + q.jobs;
    case SendCompletion(result) =>
      assert JobsOf(q.completions) == JobsOf(p.completions) + [p.hand.value];
  }

  /** The worker thread's steps in turn, skipping those it blocks on. */
  function WorkerRan(capacity: nat, p: Pipe, steps: seq<Worker>): (q: Pipe)
    requires Bounded(capacity, p)
    ensures Bounded(capacity, q) && InFlight(q) == InFlight(p)
    decreases |steps|
  {
    if steps == [] then p else
      var next := WorkerStep(capacity, p, steps[0]);
      if next.None? then WorkerRan(capacity, p, steps[1..]) else
        WorkerKeepsFlight(capacity, p, steps[0]);
        WorkerRan(capacity, next.value, steps[1..])
  }

  lemma RanNext(capacity: nat, p: Pipe, steps: seq<Worker>, i: nat)
    requires Bounded(capacity, p) && i < |steps|
    ensures var next := WorkerStep(capacity, p, steps[i]);
            && (next.None? ==> WorkerRan(capacity, p, steps[i..]) == WorkerRan(capacity, p, steps[i + 1..]))
            && (next.Some? ==> && Bounded(capacity, next.value) && InFlight(next.value) == InFlight(p)
                               && WorkerRan(capacity, p, steps[i..]) == WorkerRan(capacity, next.value, steps[i + 1..]))
  {
    assert steps[i..][1..] == steps[i + 1..];
    if WorkerStep(capacity, p, steps[i]).Some? {
      WorkerKeepsFlight(capacity, p, steps[i]);
    }
  }

  lemma RanOne(capacity: nat, p: Pipe, w: Worker)
    requires Bounded(capacity, p) && WorkerStep(capacity, p, w).Some?
    ensures WorkerRan(capacity, p, [w]) == WorkerStep(capacity, p, w).value
  {
    assert [w][1..] == [];
  }

  // ---------- One receiving pass ----------

  function Head(interleaving: seq<seq<Worker>>): seq<Worker> {
    if interleaving == [] then [] else interleaving[0]
  }

  function Tail(interleaving: seq<seq<Worker>>): seq<seq<Worker>> {
    if interleaving == [] then [] else interleaving[1..]
  }

  /** The completions received by a pass that takes one after the other until the
      channel is empty, with the worker thread running before each look. */
  function Pass(capacity: nat, p: Pipe, interleaving: seq<seq<Worker>>): (r: seq<Completion>)
    requires Bounded(capacity, p)
    ensures |r| <= |InFlight(p)| && JobsOf(r) == InFlight(p)[..|r|]
    decreases |InFlight(p)|
  {
    var q := WorkerRan(capacity, p, Head(interleaving));
    if q.completions == [] then [] else
      ReceiveTakesOldest(capacity, q);
      var rest := Pass(capacity, Received(q), Tail(interleaving));
      assert JobsOf([q.completions[0]] + rest) == [q.completions[0].job] + JobsOf(rest);
      [q.completions[0]] + rest
  }

  /** One turn of a pass of which `taken` is received already. */
  lemma PassNext(capacity: nat, p: Pipe, interleaving: seq<seq<Worker>>, pass: seq<Completion>, taken: seq<Completion>)
    requires Bounded(capacity, p) && pass == taken + Pass(capacity, p, interleaving)
    ensures var q := WorkerRan(capacity, p, Head(interleaving));
            if q.completions == [] then pass == taken
            else pass == taken + [q.completions[0]] + Pass(capacity, Received(q), Tail(interleaving)) && q.completions[0] in pass
  {
    var q := WorkerRan(capacity, p, Head(interleaving));
    if q.completions != [] {
      assert pass[|taken|] == q.completions[0];
    }
  }

  /** A pass that finds one completion, and another one while it handles that. */
  lemma PassOfTwo(capacity: nat, first: Completion, second: Job, result: ProviderResult)
    requires capacity > 0
    ensures Pass(capacity, Pipe([], Some(second), [first]), [[], [SendCompletion(result)]]) == [first, Completion(second, result)]
  {
    var p, q := Pipe([], Some(second), [first]), Pipe([], Some(second), []);
    var last := Pipe([], None, [Completion(second, result)]);
    assert Received(p) == q && Tail([[], [SendCompletion(result)]]) == [[SendCompletion(result)]];
    RanOne(capacity, q, SendCompletion(result));
    assert Received(last) == IDLE && Tail([[SendCompletion(result)]]) == [];
    assert Pass(capacity, IDLE, []) == [];
    assert Pass(capacity, q, [[SendCompletion(result)]]) == [Completion(second, result)];
  }

  /** A pass receives only what was in flight when it began. */
  lemma PassWithin(capacity: nat, p: Pipe, interleaving: seq<seq<Worker>>, c: Completion)
    requires Bounded(capacity, p) && c in Pass(capacity, p, interleaving)
    ensures c.job in InFlight(p)
  {
    var r := Pass(capacity, p, interleaving);
    var i :| 0 <= i < |r| && r[i] == c;
    assert JobsOf(r)[i] == c.job;
  }

  // ---------- Runs ----------

  ghost predicate PipeStep(capacity: nat, p: Pipe, q: Pipe) {
    || (exists job :: TrySend(capacity, p, job) == Some(q))
    || (p.completions != [] && q == Received(p))
    || (exists w :: WorkerStep(capacity, p, w) == Some(q))
  }

  ghost predicate PipeStepAt(capacity: nat, trace: seq<Pipe>, i: int)
    requires 0 < i < |trace|
  {
    PipeStep(capacity, trace[i - 1], trace[i])
  }

  ghost predicate PipeRun(capacity: nat, trace: seq<Pipe>) {
    && trace != [] && trace[0] == IDLE
    && forall i :: 0 < i < |trace| ==> PipeStepAt(capacity, trace, i)
  }

  lemma {:induction false} RunBounded(capacity: nat, trace: seq<Pipe>, i: nat)
    requires PipeRun(capacity, trace) && i < |trace|
    ensures Bounded(capacity, trace[i]) && |InFlight(trace[i])| <= 2 * capacity + 1
  {
    if i > 0 {
      RunBounded(capacity, trace, i - 1);
      assert PipeStepAt(capacity, trace, i);
    }
  }

  /** Where the jobs sit once the worker has run as far as it can. */
  function Settled(capacity: nat, jobs: seq<Job>, result: ProviderResult): Pipe {
    var done := if |jobs| < capacity then |jobs| else capacity;
    Pipe(if done < |jobs| then jobs[done + 1..] else [],
         if done < |jobs| then Some(jobs[done]) else None,
         seq(done, i requires 0 <= i < done => Completion(jobs[i], result)))
  }

  lemma Extended(capacity: nat, trace: seq<Pipe>, q: Pipe) returns (longer: seq<Pipe>)
    requires PipeRun(capacity, trace) && PipeStep(capacity, trace[|trace| - 1], q)
    ensures PipeRun(capacity, longer) && longer[|longer| - 1] == q
  {
    longer := trace + [q];
    forall i | 0 < i < |longer|
      ensures PipeStepAt(capacity, longer, i)
    {
      if i < |trace| {
        assert PipeStepAt(capacity, trace, i);
      }
    }
  }

  /** The settled pipe after one more job: sent, and taken and completed while there is room. */
  lemma SettledSent(capacity: nat, jobs: seq<Job>, job: Job, result: ProviderResult)
    requires capacity < |jobs| <= 2 * capacity
    ensures TrySend(capacity, Settled(capacity, jobs, result), job) == Some(Settled(capacity, jobs + [job], result))
  {
    var p, q := Settled(capacity, jobs, result), Settled(capacity, jobs + [job], result);
    assert q.jobs == p.jobs + [job] && q.completions == p.completions;
  }

  lemma SettledTaken(capacity: nat, jobs: seq<Job>, job: Job, result: ProviderResult)
    requires 0 < capacity && |jobs| <= capacity
    ensures var p := Settled(capacity, jobs, result);
            && TrySend(capacity, p, job) == Some(Pipe([job], None, p.completions))
            && WorkerStep(capacity, Pipe([job], None, p.completions), TakeJob) == Some(Pipe([], Some(job), p.completions))
            && (|jobs| == capacity ==> Pipe([], Some(job), p.completions) == Settled(capacity, jobs + [job], result))
  {
    var p, q := Settled(capacity, jobs, result), Settled(capacity, jobs + [job], result);
    assert p.jobs + [job] == [job] && [job][1..] == [];
    if |jobs| == capacity {
      assert q.completions == p.completions;
    }
  }

  lemma SettledDone(capacity: nat, jobs: seq<Job>, job: Job, result: ProviderResult)
    requires |jobs| < capacity
    ensures var p := Settled(capacity, jobs, result);
            WorkerStep(capacity, Pipe([], Some(job), p.completions), SendCompletion(result)) == Some(Settled(capacity, jobs + [job], result))
  {
    var p, q := Settled(capacity, jobs, result), Settled(capacity, jobs + [job], result);
    assert q.completions == p.completions + [Completion(job, result)];
  }

  lemma SendThenRun(capacity: nat, jobs: seq<Job>, job: Job, result: ProviderResult, trace: seq<Pipe>) returns (longer: seq<Pipe>)
    requires PipeRun(capacity, trace) && trace[|trace| - 1] == Settled(capacity, jobs, result)
    requires |jobs| <= 2 * capacity && capacity > 0
    ensures PipeRun(capacity, longer) && longer[|longer| - 1] == Settled(capacity, jobs + [job], result)
  {
    var done := Settled(capacity, jobs, result).completions;
    if |jobs| > capacity {
      SettledSent(capacity, jobs, job, result);
      longer := Extended(capacity, trace, Settled(capacity, jobs + [job], result));
    } else {
      SettledTaken(capacity, jobs, job, result);
      longer := Extended(capacity, trace, Pipe([job], None, done));
      longer := Extended(capacity, longer, Pipe([], Some(job), done));
      if |jobs| < capacity {
        SettledDone(capacity, jobs, job, result);
        longer := Extended(capacity, longer, Settled(capacity, jobs + [job], result));
      }
    }
  }

  /** With nothing received, any list of jobs up to the bound can be in flight. */
  lemma {:induction false} FlightReachable(capacity: nat, jobs: seq<Job>, result: ProviderResult) returns (trace: seq<Pipe>)
    requires capacity > 0 && |jobs| <= 2 * capacity + 1
    ensures PipeRun(capacity, trace) && trace[|trace| - 1] == Settled(capacity, jobs, result)
    decreases |jobs|
  {
    if jobs == [] {
      trace := [IDLE];
    } else {
      var shorter := jobs[..|jobs| - 1];
      trace := FlightReachable(capacity, shorter, result);
      trace := SendThenRun(capacity, shorter, jobs[|jobs| - 1], result, trace);
      assert shorter + [jobs[|jobs| - 1]] == jobs;
    }
  }

  lemma SettledFlight(capacity: nat, jobs: seq<Job>, result: ProviderResult)
    ensures InFlight(Settled(capacity, jobs, result)) == jobs
  {
    var p := Settled(capacity, jobs, result);
    var done := if |jobs| < capacity then |jobs| else capacity;
    assert JobsOf(p.completions) == jobs[..done];
    if done < |jobs| {
      assert jobs == jobs[..done] + [jobs[done]] + jobs[done + 1..];
    } else {
      assert jobs[..done] == jobs;
    }
  }

  ghost predicate Distinct(jobs: seq<Job>) {
    forall i, j :: 0 <= i < j < |jobs| ==> jobs[i] != jobs[j]
  }

  /** A job about to be noted finds the ledger full. */
  ghost predicate NoteOverflows(capacity: nat, trace: seq<Pipe>, i: nat, job: Job)
    requires i < |trace|
  {
    && TrySend(capacity, trace[i], job).Some?
    && Distinct(InFlight(trace[i]) + [job])
    && |InFlight(trace[i])| >= SCHEDULER_CAPACITY
  }

  function Numbered(i: nat): Job {
    Job([], i, [], Capability([], 0, 0, 0, 0, 0), Terminate)
  }

  /** The ledger of submitted jobs overflows in no run of the channels exactly when
      they hold at most 63 jobs each, whatever the jobs are. */
  lemma NoteAlwaysFits(capacity: nat)
    requires capacity > 0
    ensures capacity <= 63 <==>
            forall trace, i: nat, job :: PipeRun(capacity, trace) && i < |trace| ==> !NoteOverflows(capacity, trace, i, job)
  {
    if capacity <= 63 {
      forall trace, i: nat, job | PipeRun(capacity, trace) && i < |trace|
        ensures !NoteOverflows(capacity, trace, i, job)
      {
        RunBounded(capacity, trace, i);
        if TrySend(capacity, trace[i], job).Some? {
          SendAppends(capacity, trace[i], job);
        }
      }
    } else {
      var jobs := seq(2 * capacity, (i: nat) => Numbered(i));
      var trace := FlightReachable(capacity, jobs, Unexpected(0));
      var last: nat := |trace| - 1;
      SettledFlight(capacity, jobs, Unexpected(0));
      assert NoteOverflows(capacity, trace, last, Numbered(2 * capacity));
    }
  }
}
