/** Waiting for a guest's SSH within a deadline, against any clock and any probes.
    Times are nanoseconds. */
module Readiness {
  import opened Outcomes

  const MS: int := 1_000_000
  const SECOND: int := 1_000_000_000
  const MAX_READINESS_SECONDS: int := 120

  datatype Limits = Limits(timeoutSeconds: int, pollMs: int, connectMs: int, sshSeconds: int)

  predicate InRange(l: Limits) {
    && 1 <= l.timeoutSeconds <= MAX_READINESS_SECONDS && 50 <= l.pollMs <= 5000
    && 50 <= l.connectMs <= 10000 && 1 <= l.sshSeconds <= 30
  }

  datatype TcpOutcome = Connected | ConnectionRefused | TcpTimeout | OsError | UnknownTcp

  datatype SshOutcome = Exit(code: int) | Signal | SshTimeout | LaunchError | MalformedSsh

  /** Every clock reading and probe answer of one turn of the loop. */
  datatype Turn = Turn(
    start: int,
    tcpStart: int,
    tcpEnd: int,
    tcp: TcpOutcome,
    sshStart: int,
    sshEnd: int,
    ssh: SshOutcome,
    now: int
  )

  datatype Fault = ClockMovedBackwards | UnknownOutcome

  datatype ReadinessError = InvalidLimit | FaultyTurn(turn: nat, fault: Fault) | FinishedBeforeStart

  datatype SshAttempt = SshAttempt(timeout: int, durationMs: int, outcome: SshOutcome)

  datatype Attempt = Attempt(number: nat, offsetMs: int, tcpTimeout: int, tcpDurationMs: int, tcp: TcpOutcome, ssh: Option<SshAttempt>)

  datatype Verdict = Ready | DeadlineExceeded | DeadlineExhausted

  datatype Record = Record(attempts: seq<Attempt>, ready: bool, overrun: int, verdict: Verdict)

  function Min(a: int, b: int): int {
    if a < b then a else b
  }

  function Deadline(l: Limits, started: int): int {
    started + l.timeoutSeconds * SECOND
  }

  // ---------- One turn ----------

  function TcpBudget(l: Limits, deadline: int, t: Turn): int {
    Min(l.connectMs * MS, deadline - t.start)
  }

  function SshBudget(l: Limits, deadline: int, t: Turn): int {
    Min(l.sshSeconds * SECOND, deadline - t.tcpEnd)
  }

  predicate RunsSsh(deadline: int, t: Turn) {
    t.tcp.Connected? && t.tcpEnd < deadline
  }

  /** The turn connected, and its SSH exited 0 by the deadline. */
  predicate Succeeded(deadline: int, t: Turn) {
    RunsSsh(deadline, t) && t.ssh == Exit(0) && t.sshEnd <= deadline
  }

  function FaultOf(deadline: int, t: Turn): Option<Fault> {
    if t.tcpEnd < t.tcpStart then Some(ClockMovedBackwards)
    else if t.tcp.UnknownTcp? then Some(UnknownOutcome)
    else if !RunsSsh(deadline, t) then None
    else if t.sshEnd < t.sshStart then Some(ClockMovedBackwards)
    else if t.ssh.MalformedSsh? then Some(UnknownOutcome)
    else None
  }

  function AttemptOf(l: Limits, started: int, i: nat, t: Turn): Attempt {
    var deadline := Deadline(l, started);
    Attempt(i + 1, (t.start - started) / MS, TcpBudget(l, deadline, t), (t.tcpEnd - t.tcpStart) / MS, t.tcp,
            if RunsSsh(deadline, t) then Some(SshAttempt(SshBudget(l, deadline, t), (t.sshEnd - t.sshStart) / MS, t.ssh)) else None)
  }

  /** The largest timeout within two limits. */
  predicate LargestWithin(timeout: int, a: int, b: int) {
    timeout <= a && timeout <= b && (timeout == a || timeout == b)
  }

  /** Every timeout handed to a probe is positive, and the largest within its own limit and what is left. */
  lemma BudgetsWithinRemaining(l: Limits, started: int, i: nat, t: Turn)
    requires InRange(l) && t.start < started + l.timeoutSeconds * 1_000_000_000
    ensures var a := AttemptOf(l, started, i, t);
            var deadline := started + l.timeoutSeconds * 1_000_000_000;
            && 0 < a.tcpTimeout && LargestWithin(a.tcpTimeout, l.connectMs * 1_000_000, deadline - t.start)
            && (a.ssh.Some? ==>
                  0 < a.ssh.value.timeout && LargestWithin(a.ssh.value.timeout, l.sshSeconds * 1_000_000_000, deadline - t.tcpEnd))
  {
  }

  // ---------- The clock ----------

  function Sleep(l: Limits, deadline: int, t: Turn): int {
    Min(l.pollMs * MS, deadline - t.now)
  }

  /** The clock does not run back over a turn, and a sleep lasts at least as long as asked. */
  predicate TicksAt(l: Limits, started: int, turns: nat -> Turn, i: nat) {
    && turns(i).start <= turns(i).now
    && (turns(i).now < Deadline(l, started) ==> turns(i + 1).start >= turns(i).now + Sleep(l, Deadline(l, started), turns(i)))
  }

  ghost predicate Ticks(l: Limits, started: int, turns: nat -> Turn) {
    started <= turns(0).start && forall i: nat :: TicksAt(l, started, turns, i)
  }

  /** As many polls as fit in the timeout, rounded up. */
  function AttemptBound(l: Limits): int
    requires InRange(l)
  {
    (l.timeoutSeconds * SECOND + l.pollMs * MS - 1) / (l.pollMs * MS)
  }

  lemma BelowBound(n: int, poll: int, timeout: int)
    requires poll > 0 && n * poll < timeout
    ensures n + 1 <= (timeout + poll - 1) / poll
  {
    var bound := (timeout + poll - 1) / poll;
    assert timeout <= bound * poll;
    if bound <= n {
      MulMonotone(bound, n, poll);
    }
  }

  /** Within the bound, all polls but the last fit in the timeout. */
  lemma PollsFit(l: Limits, n: nat)
    requires InRange(l) && n <= AttemptBound(l)
    ensures n > 0 ==> (n - 1) * (l.pollMs * 1_000_000) < l.timeoutSeconds * 1_000_000_000
  {
    var poll, timeout := l.pollMs * MS, l.timeoutSeconds * SECOND;
    if n > 0 {
      MulMonotone(n - 1, AttemptBound(l) - 1, poll);
      assert AttemptBound(l) * poll <= timeout + poll - 1;
      assert (AttemptBound(l) - 1) * poll == AttemptBound(l) * poll - poll;
    }
  }

  /** A turn that starts in time starts at least its number of polls after the beginning. */
  predicate StartsLate(l: Limits, started: int, turns: nat -> Turn, n: nat) {
    turns(n).start < Deadline(l, started) ==> started + n * (l.pollMs * MS) <= turns(n).start
  }

  lemma StartsLateNext(l: Limits, started: int, turns: nat -> Turn, n: nat)
    requires StartsLate(l, started, turns, n) && TicksAt(l, started, turns, n)
    requires turns(n).start < Deadline(l, started) && turns(n).now < Deadline(l, started)
    ensures StartsLate(l, started, turns, n + 1)
  {
    assert (n + 1) * (l.pollMs * MS) == n * (l.pollMs * MS) + l.pollMs * MS;
  }

  lemma StartsWithinBound(l: Limits, started: int, turns: nat -> Turn, n: nat)
    requires InRange(l) && StartsLate(l, started, turns, n) && turns(n).start < Deadline(l, started)
    ensures n + 1 <= AttemptBound(l)
  {
    BelowBound(n, l.pollMs * MS, l.timeoutSeconds * SECOND);
  }

  lemma MulMonotone(a: int, b: int, c: int)
    requires a <= b && c > 0
    ensures a * c <= b * c
  {
  }

  // ---------- The loop ----------

  /** The first `n` turns were all faultless, in time and without success. */
  ghost predicate Unready(l: Limits, started: int, turns: nat -> Turn, n: nat, attempts: seq<Attempt>) {
    && |attempts| == n
    && forall i: nat :: i < n ==>
         && attempts[i] == AttemptOf(l, started, i, turns(i))
         && turns(i).start < Deadline(l, started)
         && FaultOf(Deadline(l, started), turns(i)).None?
         && !Succeeded(Deadline(l, started), turns(i))
  }

  lemma UnreadyNext(l: Limits, started: int, turns: nat -> Turn, n: nat, attempts: seq<Attempt>)
    requires Unready(l, started, turns, n, attempts) && turns(n).start < Deadline(l, started)
    requires FaultOf(Deadline(l, started), turns(n)).None? && !Succeeded(Deadline(l, started), turns(n))
    ensures Unready(l, started, turns, n + 1, attempts + [AttemptOf(l, started, n, turns(n))])
  {
  }

  /** The loop goes past this turn: in time, faultless, without success, and with
      time left after it. */
  predicate GoesPast(l: Limits, started: int, turns: nat -> Turn, i: nat) {
    && turns(i).start < Deadline(l, started) && turns(i).now < Deadline(l, started)
    && FaultOf(Deadline(l, started), turns(i)).None? && !Succeeded(Deadline(l, started), turns(i))
  }

  ghost predicate Reaches(l: Limits, started: int, turns: nat -> Turn, n: nat) {
    forall i: nat :: i < n ==> GoesPast(l, started, turns, i)
  }

  /** The loop comes to this turn in time and finds a fault. */
  ghost predicate FaultsAt(l: Limits, started: int, turns: nat -> Turn, n: nat) {
    Reaches(l, started, turns, n) && turns(n).start < Deadline(l, started) && FaultOf(Deadline(l, started), turns(n)).Some?
  }

  /** The loop comes to this turn in time and it succeeds. */
  ghost predicate SucceedsAt(l: Limits, started: int, turns: nat -> Turn, n: nat) {
    && Reaches(l, started, turns, n) && turns(n).start < Deadline(l, started)
    && FaultOf(Deadline(l, started), turns(n)).None? && Succeeded(Deadline(l, started), turns(n))
  }

  /** The loop ends at one turn only. */
  lemma EndsOnce(l: Limits, started: int, turns: nat -> Turn, n: nat)
    requires Reaches(l, started, turns, n) && !GoesPast(l, started, turns, n)
    ensures forall m: nat :: FaultsAt(l, started, turns, m) || SucceedsAt(l, started, turns, m) ==> m == n
  {
    forall m: nat | FaultsAt(l, started, turns, m) || SucceedsAt(l, started, turns, m)
      ensures m == n
    {
      assert !GoesPast(l, started, turns, m);
      assert n < m ==> GoesPast(l, started, turns, n);
    }
  }

  function VerdictOf(ready: bool, overrun: int): Verdict {
    if ready then Ready else if overrun > 0 then DeadlineExceeded else DeadlineExhausted
  }

  /** What the loop records: every turn up to the first success or the deadline, and no other. */
  ghost predicate Polled(l: Limits, started: int, turns: nat -> Turn, attempts: seq<Attempt>, ready: bool) {
    var deadline, n := Deadline(l, started), |attempts|;
    if ready then
      && n > 0 && Unready(l, started, turns, n - 1, attempts[..n - 1])
      && attempts[n - 1] == AttemptOf(l, started, n - 1, turns(n - 1))
      && turns(n - 1).start < deadline && Succeeded(deadline, turns(n - 1))
    else
      && Unready(l, started, turns, n, attempts)
      && (turns(n).start >= deadline || (n > 0 && turns(n - 1).now >= deadline))
  }

  /** What a finished wait reports. */
  ghost predicate Reported(l: Limits, started: int, finished: int, turns: nat -> Turn, record: Record) {
    && record.overrun == (if finished > Deadline(l, started) then finished - Deadline(l, started) else 0)
    && record.verdict == VerdictOf(record.ready, record.overrun)
    && Polled(l, started, turns, record.attempts, record.ready)
  }

  /** A duration in whole milliseconds, rounded down. */
  predicate InMs(ms: int, nanoseconds: int) {
    ms * 1_000_000 <= nanoseconds < (ms + 1) * 1_000_000
  }

  /** What one turn reports: SSH is tried exactly after a connection with time left,
      succeeds exactly by exiting 0 by the deadline, and a clock that ran back or an
      unknown outcome of a probe that was made is a fault, whichever shows first. */
  predicate Probed(l: Limits, started: int, n: nat, t: Turn, attempt: Attempt, fault: Option<Fault>, ready: bool) {
    var deadline := started + l.timeoutSeconds * 1_000_000_000;
    var tries := t.tcp.Connected? && t.tcpEnd < deadline;
    && (fault == Some(ClockMovedBackwards) <==> t.tcpEnd < t.tcpStart || (tries && t.sshEnd < t.sshStart))
    && (fault == Some(UnknownOutcome) <==>
          t.tcpEnd >= t.tcpStart && (t.tcp.UnknownTcp? || (tries && t.sshEnd >= t.sshStart && t.ssh.MalformedSsh?)))
    && (fault.None? ==>
          && attempt.number == n + 1 && InMs(attempt.offsetMs, t.start - started)
          && attempt.tcp == t.tcp && InMs(attempt.tcpDurationMs, t.tcpEnd - t.tcpStart)
          && (attempt.ssh.Some? <==> tries)
          && (tries ==> attempt.ssh.value.outcome == t.ssh && InMs(attempt.ssh.value.durationMs, t.sshEnd - t.sshStart))
          && (ready <==> tries && t.ssh == Exit(0) && t.sshEnd <= deadline))
  }

  /** One turn of the loop. */
  method Probe(l: Limits, started: int, turns: nat -> Turn, n: nat) returns (attempt: Attempt, fault: Option<Fault>, ready: bool)
    requires InRange(l) && turns(n).start < Deadline(l, started)
    ensures fault == FaultOf(Deadline(l, started), turns(n))
    ensures fault.None? ==> attempt == AttemptOf(l, started, n, turns(n)) && (ready <==> Succeeded(Deadline(l, started), turns(n)))
    ensures Probed(l, started, n, turns(n), attempt, fault, ready)
  {
    var deadline, t := Deadline(l, started), turns(n);
    var tcpTimeout := Min(l.connectMs * MS, deadline - t.start);
    attempt := Attempt(n + 1, (t.start - started) / MS, tcpTimeout, (t.tcpEnd - t.tcpStart) / MS, t.tcp, None);
    ready := false;
    if t.tcpEnd < t.tcpStart {
      return attempt, Some(ClockMovedBackwards), false;
    }
    if t.tcp.UnknownTcp? {
      return attempt, Some(UnknownOutcome), false;
    }
    if t.tcp.Connected? {
      var sshRemaining := deadline - t.tcpEnd;
      if sshRemaining > 0 {
        var sshTimeout := Min(l.sshSeconds * SECOND, sshRemaining);
        if t.sshEnd < t.sshStart {
          return attempt, Some(ClockMovedBackwards), false;
        }
        if t.ssh.MalformedSsh? {
          return attempt, Some(UnknownOutcome), false;
        }
        attempt := attempt.(ssh := Some(SshAttempt(sshTimeout, (t.sshEnd - t.sshStart) / MS, t.ssh)));
        ready := t.sshEnd <= deadline && t.ssh == Exit(0);
      }
    }
    fault := None;
  }

  /** The polling loop, which ends at the turn `last`. */
  method PollTurns(l: Limits, started: int, turns: nat -> Turn) returns (attempts: seq<Attempt>, ready: bool, fault: Option<Fault>, last: nat)
    requires InRange(l) && Ticks(l, started, turns)
    ensures Reaches(l, started, turns, last) && !GoesPast(l, started, turns, last) && last <= AttemptBound(l)
    ensures fault.Some? <==> FaultsAt(l, started, turns, last)
    ensures fault.Some? ==> fault == FaultOf(Deadline(l, started), turns(last)) && last < AttemptBound(l)
    ensures fault.None? ==>
              && |attempts| <= AttemptBound(l) && Polled(l, started, turns, attempts, ready)
              && (ready <==> SucceedsAt(l, started, turns, last))
  {
    var deadline := Deadline(l, started);
    ghost var bound := AttemptBound(l);
    attempts, ready, fault, last := [], false, None, 0;
    while turns(last).start < deadline
      invariant !ready && fault.None? && Unready(l, started, turns, last, attempts) && Reaches(l, started, turns, last)
      invariant StartsLate(l, started, turns, last)
      invariant last <= bound
      decreases bound - last
    {
      StartsWithinBound(l, started, turns, last);
      assert TicksAt(l, started, turns, last);
      var attempt;
      attempt, fault, ready := Probe(l, started, turns, last);
      if fault.Some? {
        return;
      }
      assert (attempts + [attempt])[..last] == attempts;
      if !ready {
        UnreadyNext(l, started, turns, last, attempts);
      }
      attempts := attempts + [attempt];
      if ready || deadline - turns(last).now <= 0 {
        return;
      }
      StartsLateNext(l, started, turns, last);
      last := last + 1;
    }
  }

  /** `wait_for_ssh`: ends after at most as many attempts as polls fit in the
      timeout; is refused exactly when it comes to a faulty turn or its clock ran
      back; and is ready exactly when it comes to a turn that succeeds. */
  method WaitForSsh(l: Limits, started: int, finished: int, turns: nat -> Turn) returns (r: Result<Record, ReadinessError>)
    requires InRange(l) ==> Ticks(l, started, turns)
    ensures r != Err(InvalidLimit) <==>
              && 1 <= l.timeoutSeconds <= 120 && 50 <= l.pollMs <= 5000
              && 50 <= l.connectMs <= 10000 && 1 <= l.sshSeconds <= 30
    ensures r.Ok? && r.value.attempts != [] ==> (|r.value.attempts| - 1) * (l.pollMs * 1_000_000) < l.timeoutSeconds * 1_000_000_000
    ensures r.Ok? ==>
              var late := finished - started - l.timeoutSeconds * 1_000_000_000;
              && r.value.overrun == (if late > 0 then late else 0)
              && (r.value.verdict == Ready <==> r.value.ready)
              && (r.value.verdict == DeadlineExceeded <==> !r.value.ready && late > 0)
    ensures r.Ok? ==> |r.value.attempts| <= AttemptBound(l) && Reported(l, started, finished, turns, r.value) && finished >= started
    ensures r.Ok? ==> (r.value.ready <==> exists n: nat :: SucceedsAt(l, started, turns, n))
    ensures InRange(l) ==> (r.Err? && r.error.FaultyTurn? <==> exists n: nat :: FaultsAt(l, started, turns, n))
    ensures r.Err? && r.error.FaultyTurn? ==>
              && FaultsAt(l, started, turns, r.error.turn) && r.error.turn < AttemptBound(l)
              && FaultOf(Deadline(l, started), turns(r.error.turn)) == Some(r.error.fault)
    ensures InRange(l) && !(r.Err? && r.error.FaultyTurn?) ==> (r == Err(FinishedBeforeStart) <==> finished < started)
  {
    if !InRange(l) {
      return Err(InvalidLimit);
    }
    var attempts, ready, fault, last := PollTurns(l, started, turns);
    EndsOnce(l, started, turns, last);
    if fault.Some? {
      return Err(FaultyTurn(last, fault.value));
    }
    if finished < started {
      return Err(FinishedBeforeStart);
    }
    PollsFit(l, |attempts|);
    var deadline := Deadline(l, started);
    var overrun := if finished > deadline then finished - deadline else 0;
    r := Ok(Record(attempts, ready, overrun, VerdictOf(ready, overrun)));
  }
}
