/** Bounded retries, final outcomes, and the fate of reservations, over every run of the job protocol. */
module RoomJobsOutcomes {
  import opened Tables
  import opened RoomJobs
  import opened RoomJobsLeases

  // ---- an invariant that needs no timely heartbeats ----

  ghost predicate ClaimOrderly(s: State, c: int)
    requires c in s.claims
  {
    var claim := s.claims[c];
    && claim.prior in {Queued, Waiting}
    && (claim.phase == Written ==>
          claim.job in s.jobs && s.jobs[claim.job].status in {Queued, Waiting} && s.jobs[claim.job].leaseOwner.None?)
  }

  /** Jobs are well formed, and a claim about to commit is alone on an unleased job. */
  ghost predicate Orderly(s: State) {
    && (forall id | id in s.jobs :: JobOk(s.jobs[id]))
    && (forall c | c in s.claims :: ClaimOrderly(s, c))
    && (forall c, d | c in s.claims && d in s.claims && s.claims[c].phase == Written && s.claims[d].phase == Written
          && s.claims[c].job == s.claims[d].job :: c == d)
  }

  lemma QuietStepIsOrderly(s: State, next: State)
    requires Orderly(s) && next.claims == s.claims
    requires forall id | id in next.jobs :: JobOk(next.jobs[id])
    requires forall id | id in s.jobs && RowLocked(s, id) :: id in next.jobs && next.jobs[id] == s.jobs[id]
    ensures Orderly(next)
  {}

  lemma WriteIsOrderly(s: State, config: Config, c: int)
    requires Orderly(s)
    ensures Orderly(Write(s, config, c))
  {}

  lemma EarlyStepIsOrderly(s: State, next: State)
    requires Orderly(s) && next.jobs == s.jobs
    requires forall c | c in next.claims && c in s.claims ::
      next.claims[c].prior == s.claims[c].prior && (next.claims[c].phase == Written ==> next.claims[c] == s.claims[c])
    requires forall c | c in next.claims && c !in s.claims ::
      next.claims[c].phase == Picked && next.claims[c].prior in {Queued, Waiting}
    ensures Orderly(next)
  {}

  lemma ClaimStepIsOrderly(s: State, config: Config, step: Step)
    requires Orderly(s) && (step.DoPick? || step.DoLock? || step.DoCount? || step.DoWrite? || step.DoAbort?)
    ensures Orderly(Apply(s, config, step))
  {
    if step.DoWrite? {
      WriteIsOrderly(s, config, step.c);
    } else {
      EarlyStepIsOrderly(s, Apply(s, config, step));
    }
  }

  lemma CommitIsOrderly(s: State, config: Config, c: int)
    requires Orderly(s)
    ensures Orderly(Commit(s, config, c))
  {}

  lemma RecoverIsOrderly(s: State)
    requires Orderly(s)
    ensures Orderly(Recover(s))
  {}

  lemma StepIsOrderly(s: State, config: Config, step: Step)
    requires Orderly(s)
    ensures Orderly(Apply(s, config, step))
  {
    var next := Apply(s, config, step);
    if step.DoCommit? {
      CommitIsOrderly(s, config, step.c);
    } else if step.DoRecover? {
      RecoverIsOrderly(s);
    } else if step.DoPick? || step.DoLock? || step.DoCount? || step.DoWrite? || step.DoAbort? {
      ClaimStepIsOrderly(s, config, step);
    } else if OnOneJob(step) {
      OneJobStepIsOrderly(s, config, step);
    } else {
      QuietStepIsOrderly(s, next);
    }
  }

  lemma OneJobStepIsOrderly(s: State, config: Config, step: Step)
    requires Orderly(s) && OnOneJob(step)
    ensures Orderly(Apply(s, config, step))
  {
    var next := Apply(s, config, step);
    if next != s {
      OnlyItsJobChanges(s, config, step);
      OneJobStaysOk(s, config, step);
      QuietStepIsOrderly(s, next);
    }
  }

  // ---- what a step can do to one job ----

  /** A claim being committed on a job. */
  predicate Claims(s: State, step: Step, id: string) {
    step.DoCommit? && step.c in s.claims && s.claims[step.c].phase == Written && s.claims[step.c].job == id
  }

  ghost predicate Progress(job: Job, next: Job, claimed: bool) {
    && next.room == job.room && next.maxAttempts == job.maxAttempts
    && next.attempt == job.attempt + (if claimed then 1 else 0)
    && (job.Terminal() ==> next == job)
    && (job.hasResult ==> next.hasResult && next.status != Queued)
    && (job.reservation.Some? ==> next.reservation == job.reservation)
    && (next.hasResult != job.hasResult ==> job.status == Running && !claimed)
  }

  lemma ClaimedIsActive(s: State, config: Config, c: int)
    requires Orderly(s) && c in s.claims && s.claims[c].phase == Written
    ensures s.claims[c].job in s.jobs && s.jobs[s.claims[c].job].status in {Queued, Waiting}
  {}

  lemma CommitProgresses(s: State, config: Config, c: int, id: string)
    requires id in s.jobs && JobOk(s.jobs[id])
    requires c in s.claims && s.claims[c].phase == Written && s.claims[c].job == id ==>
      s.jobs[id].status in {Queued, Waiting}
    ensures id in Commit(s, config, c).jobs
    ensures Progress(s.jobs[id], Commit(s, config, c).jobs[id], Claims(s, DoCommit(c), id))
  {}

  lemma OneJobProgresses(s: State, config: Config, step: Step, id: string)
    requires id in s.jobs && JobOk(s.jobs[id]) && OnOneJob(step)
    ensures id in Apply(s, config, step).jobs
    ensures Progress(s.jobs[id], Apply(s, config, step).jobs[id], false)
  {
    match step
    case DoHeartbeat(worker, other) => HeartbeatProgresses(s, config, worker, other, id);
    case DoFail(other, retryable) => FailureProgresses(s, config, other, retryable, id);
    case DoCancel(other) => CancelProgresses(s, other, id);
    case DoStore(other, usageKnown) => StoreProgresses(s, other, usageKnown, id);
    case _ =>
  }

  lemma CancelProgresses(s: State, other: string, id: string)
    requires id in s.jobs && JobOk(s.jobs[id])
    ensures id in RequestCancel(s, other).jobs && Progress(s.jobs[id], RequestCancel(s, other).jobs[id], false)
  {}

  lemma StoreProgresses(s: State, other: string, usageKnown: bool, id: string)
    requires id in s.jobs && JobOk(s.jobs[id])
    ensures id in StoreResult(s, other, usageKnown).jobs
    ensures Progress(s.jobs[id], StoreResult(s, other, usageKnown).jobs[id], false)
  {}

  lemma HeartbeatProgresses(s: State, config: Config, worker: string, other: string, id: string)
    requires id in s.jobs && JobOk(s.jobs[id])
    ensures id in Heartbeat(s, config, worker, other).jobs
    ensures Progress(s.jobs[id], Heartbeat(s, config, worker, other).jobs[id], false)
  {}

  lemma FailureProgresses(s: State, config: Config, other: string, retryable: bool, id: string)
    requires id in s.jobs && JobOk(s.jobs[id])
    ensures id in RecordFailure(s, config, other, retryable).jobs
    ensures Progress(s.jobs[id], RecordFailure(s, config, other, retryable).jobs[id], false)
  {
    var next := RecordFailure(s, config, other, retryable);
    if other != id || next == s {
      assert next.jobs[id] == s.jobs[id];
    } else {
      assert next.jobs[id] == FailedJob(s.jobs[id], config, retryable, s.clock);
    }
  }

  lemma StepProgresses(s: State, config: Config, step: Step, id: string)
    requires Orderly(s) && id in s.jobs
    ensures id in Apply(s, config, step).jobs
    ensures Progress(s.jobs[id], Apply(s, config, step).jobs[id], Claims(s, step, id))
  {
    assert JobOk(s.jobs[id]);
    if step.DoCommit? {
      if step.c in s.claims && s.claims[step.c].phase == Written { ClaimedIsActive(s, config, step.c); }
      CommitProgresses(s, config, step.c, id);
    } else if OnOneJob(step) {
      OneJobProgresses(s, config, step, id);
    } else if step.DoRecover? {
    } else {
      assert Apply(s, config, step).jobs[id] == s.jobs[id];
    }
  }

  /** How often a job is claimed in a run. */
  function TimesClaimed(s: State, config: Config, steps: seq<Step>, id: string): nat
    decreases |steps|
  {
    if steps == [] then 0
    else
      var rest := TimesClaimed(Apply(s, config, steps[0]), config, steps[1..], id);
      if Claims(s, steps[0], id) then 1 + rest else rest
  }

  lemma {:induction false} RunProgresses(s: State, config: Config, steps: seq<Step>, id: string)
    requires Orderly(s) && id in s.jobs
    ensures id in Run(s, config, steps).jobs
    ensures var last := Run(s, config, steps).jobs[id];
      && last.maxAttempts == s.jobs[id].maxAttempts
      && last.attempt == s.jobs[id].attempt + TimesClaimed(s, config, steps, id)
      && (s.jobs[id].Terminal() ==> last == s.jobs[id])
      && (s.jobs[id].hasResult ==> last.hasResult && last.status != Queued)
    decreases |steps|
  {
    if steps == [] {
      assert JobOk(s.jobs[id]);
    } else {
      StepProgresses(s, config, steps[0], id);
      StepIsOrderly(s, config, steps[0]);
      RunProgresses(Apply(s, config, steps[0]), config, steps[1..], id);
    }
  }

  lemma UnknownIsNotClaimed(s: State, config: Config, step: Step, id: string)
    requires Orderly(s) && id !in s.jobs
    ensures !Claims(s, step, id)
    ensures id in Apply(s, config, step).jobs ==> Apply(s, config, step).jobs[id].attempt == 0
  {}

  lemma {:induction false} UnknownJobIsUnclaimed(s: State, config: Config, steps: seq<Step>, id: string)
    requires Orderly(s) && id !in s.jobs
    ensures id in Run(s, config, steps).jobs ==>
      Run(s, config, steps).jobs[id].attempt == TimesClaimed(s, config, steps, id)
    ensures id !in Run(s, config, steps).jobs ==> TimesClaimed(s, config, steps, id) == 0
    decreases |steps|
  {
    if steps != [] {
      var next := Apply(s, config, steps[0]);
      UnknownIsNotClaimed(s, config, steps[0], id);
      StepIsOrderly(s, config, steps[0]);
      if id in next.jobs {
        RunProgresses(next, config, steps[1..], id);
      } else {
        UnknownJobIsUnclaimed(next, config, steps[1..], id);
      }
    }
  }

  lemma {:induction false} RunIsOrderly(s: State, config: Config, steps: seq<Step>)
    requires Orderly(s)
    ensures Orderly(Run(s, config, steps))
    decreases |steps|
  {
    if steps != [] {
      StepIsOrderly(s, config, steps[0]);
      RunIsOrderly(Apply(s, config, steps[0]), config, steps[1..]);
    }
  }

  /** From an empty queue, a job is claimed exactly `attempt` times, and never more than it may be. */
  lemma ClaimsAreBounded(config: Config, steps: seq<Step>, id: string)
    requires id in Run(EMPTY, config, steps).jobs
    ensures var job := Run(EMPTY, config, steps).jobs[id];
      && TimesClaimed(EMPTY, config, steps, id) == job.attempt <= job.maxAttempts
      && (job.status in {Queued, Waiting} && job.leaseOwner.None? ==> job.attempt < job.maxAttempts)
  {
    UnknownJobIsUnclaimed(EMPTY, config, steps, id);
    RunIsOrderly(EMPTY, config, steps);
    assert JobOk(Run(EMPTY, config, steps).jobs[id]);
  }

  /**
   In every run, however late its heartbeats, a claim that commits takes a job that nobody holds, and
   no other claim is about to take the same one.
   */
  lemma ClaimsAreExclusive(config: Config, steps: seq<Step>, c: int)
    requires c in Run(EMPTY, config, steps).claims && Run(EMPTY, config, steps).claims[c].phase == Written
    ensures
      var s := Run(EMPTY, config, steps);
      var id := s.claims[c].job;
      && id in s.jobs && s.jobs[id].leaseOwner.None?
      && Commit(s, config, c).jobs[id].leaseOwner == Some(s.claims[c].worker)
      && Commit(s, config, c).jobs[id].attempt == s.jobs[id].attempt + 1 <= s.jobs[id].maxAttempts
      && forall d | d in s.claims && s.claims[d].phase == Written && s.claims[d].job == id :: d == c
  {
    var s := Run(EMPTY, config, steps);
    RunIsOrderly(EMPTY, config, steps);
    assert ClaimOrderly(s, c);
    assert JobOk(s.jobs[s.claims[c].job]);
  }

  /** Ended jobs never change again, and a job with a saved result is never queued again. */
  lemma OutcomesAreFinal(s: State, config: Config, steps: seq<Step>, id: string)
    requires Orderly(s) && id in s.jobs
    ensures id in Run(s, config, steps).jobs
    ensures s.jobs[id].Terminal() ==> Run(s, config, steps).jobs[id] == s.jobs[id]
    ensures s.jobs[id].hasResult ==>
      Run(s, config, steps).jobs[id].hasResult && Run(s, config, steps).jobs[id].status != Queued
  {
    RunProgresses(s, config, steps, id);
  }

  // ---- reservations ----

  ghost predicate HoldOk(s: State, id: string)
    requires id in s.jobs
  {
    s.jobs[id].reservation.Some? ==>
      && s.jobs[id].reservation.value in s.holds
      && (s.jobs[id].status in {Failed, Cancelled} ==> s.holds[s.jobs[id].reservation.value].status != Reserved)
  }

  /** Each job has its own reservation; a job ended as failed or cancelled holds none. */
  ghost predicate HoldsOk(s: State) {
    && (forall id | id in s.jobs :: HoldOk(s, id))
    && (forall a, b | a in s.jobs && b in s.jobs && a != b && s.jobs[a].reservation.Some? ::
          s.jobs[a].reservation != s.jobs[b].reservation)
  }

  /** Reservations only leave `reserved`, never return to it, and are never dropped. */
  ghost predicate HoldsAge(s: State, next: State) {
    forall h | h in s.holds ::
      h in next.holds && (next.holds[h].status == s.holds[h].status || s.holds[h].status == Reserved)
  }

  lemma StepAgesHolds(s: State, config: Config, step: Step)
    ensures HoldsAge(s, Apply(s, config, step))
  {}

  lemma RecoveredHoldOk(s: State, id: string)
    requires id in s.jobs && HoldOk(s, id)
    ensures HoldOk(Recover(s), id) && Recover(s).jobs[id].reservation == s.jobs[id].reservation
  {
    var next := Recover(s);
    if Due(s, id) && next.jobs[id].Terminal() && next.jobs[id].reservation.Some? {
      assert FreedByRecovery(s, next.jobs[id].reservation.value);
    }
  }

  lemma RecoverKeepsHolds(s: State)
    requires HoldsOk(s)
    ensures HoldsOk(Recover(s))
  {
    forall id | id in s.jobs
      ensures HoldOk(Recover(s), id) && Recover(s).jobs[id].reservation == s.jobs[id].reservation
    {
      RecoveredHoldOk(s, id);
    }
  }

  /** A step that rewrites one job, ending its hold if it ends the job as failed or cancelled. */
  lemma OneJobKeepsHolds(s: State, next: State, id: string)
    requires HoldsOk(s) && id in s.jobs && HoldsAge(s, next)
    requires next.jobs.Keys == s.jobs.Keys
    requires forall other | other in s.jobs && other != id :: next.jobs[other] == s.jobs[other]
    requires next.jobs[id].reservation == s.jobs[id].reservation && HoldOk(next, id)
    ensures HoldsOk(next)
  {
    forall other | other in next.jobs ensures HoldOk(next, other) {
      assert HoldOk(s, other);
      if other != id && s.jobs[other].reservation.Some? {
        var h := s.jobs[other].reservation.value;
        assert next.jobs[other] == s.jobs[other] && h in s.holds;
        assert h in next.holds;
      }
    }
  }

  lemma OneJobHold(s: State, config: Config, step: Step)
    requires OnOneJob(step) && !step.DoAttach? && step.id in s.jobs && HoldOk(s, step.id) && JobOk(s.jobs[step.id])
    ensures var next := Apply(s, config, step);
      && next.jobs.Keys == s.jobs.Keys
      && (forall other | other in s.jobs && other != step.id :: next.jobs[other] == s.jobs[other])
      && next.jobs[step.id].reservation == s.jobs[step.id].reservation && HoldOk(next, step.id)
  {
    match step
    case DoHeartbeat(worker, id) => HeartbeatHold(s, config, worker, id);
    case DoFail(id, retryable) => FailureHold(s, config, id, retryable);
    case _ =>
  }

  lemma HeartbeatHold(s: State, config: Config, worker: string, id: string)
    requires id in s.jobs && HoldOk(s, id) && JobOk(s.jobs[id])
    ensures var next := Heartbeat(s, config, worker, id);
      && next.jobs.Keys == s.jobs.Keys
      && (forall other | other in s.jobs && other != id :: next.jobs[other] == s.jobs[other])
      && next.jobs[id].reservation == s.jobs[id].reservation && HoldOk(next, id)
  {}

  lemma FailureHold(s: State, config: Config, id: string, retryable: bool)
    requires id in s.jobs && HoldOk(s, id) && JobOk(s.jobs[id])
    ensures var next := RecordFailure(s, config, id, retryable);
      && next.jobs.Keys == s.jobs.Keys
      && (forall other | other in s.jobs && other != id :: next.jobs[other] == s.jobs[other])
      && next.jobs[id].reservation == s.jobs[id].reservation && HoldOk(next, id)
  {}

  lemma CommitKeepsHolds(s: State, config: Config, c: int)
    requires HoldsOk(s) && Orderly(s)
    ensures HoldsOk(Commit(s, config, c))
  {}

  lemma OneJobStepKeepsHolds(s: State, config: Config, step: Step)
    requires HoldsOk(s) && Orderly(s) && OnOneJob(step) && !step.DoAttach?
    ensures HoldsOk(Apply(s, config, step))
  {
    if step.id in s.jobs {
      assert HoldOk(s, step.id) && JobOk(s.jobs[step.id]);
      OneJobHold(s, config, step);
      StepAgesHolds(s, config, step);
      OneJobKeepsHolds(s, Apply(s, config, step), step.id);
    } else {
      assert Apply(s, config, step) == s;
    }
  }

  lemma StepKeepsHolds(s: State, config: Config, step: Step)
    requires HoldsOk(s) && Orderly(s)
    ensures HoldsOk(Apply(s, config, step))
  {
    var next := Apply(s, config, step);
    if step.DoRecover? {
      RecoverKeepsHolds(s);
    } else if step.DoCommit? {
      CommitKeepsHolds(s, config, step.c);
    } else if step.DoAttach? {
      if next != s { AttachKeepsHolds(s, step.id, step.hold, step.ttl); }
    } else if OnOneJob(step) {
      OneJobStepKeepsHolds(s, config, step);
    } else if step.DoEnqueue? {
      EnqueueKeepsHolds(s, step.id, step.room, step.maxAttempts);
    } else if step.DoReap? {
      ReapKeepsHolds(s);
    } else {
      SameTablesKeepHolds(s, next);
    }
  }

  lemma EnqueueKeepsHolds(s: State, id: string, room: string, maxAttempts: nat)
    requires HoldsOk(s)
    ensures HoldsOk(Enqueue(s, id, room, maxAttempts))
  {
    var next := Enqueue(s, id, room, maxAttempts);
    forall other | other in next.jobs ensures HoldOk(next, other) { assert other in s.jobs ==> HoldOk(s, other); }
  }

  lemma ReapKeepsHolds(s: State)
    requires HoldsOk(s)
    ensures HoldsOk(Reap(s))
  {
    forall id | id in s.jobs ensures HoldOk(Reap(s), id) { assert HoldOk(s, id); }
  }

  lemma SameTablesKeepHolds(s: State, next: State)
    requires HoldsOk(s) && next.jobs == s.jobs && next.holds == s.holds
    ensures HoldsOk(next)
  {}

  lemma AttachKeepsHolds(s: State, id: string, hold: int, ttl: nat)
    requires HoldsOk(s) && Attach(s, id, hold, ttl) != s
    ensures HoldsOk(Attach(s, id, hold, ttl))
  {}

  /**
   Over every run: a job ended as failed or cancelled leaves its reservation not reserved, and
   reservations never return to reserved.
   */
  lemma {:induction false} EndedJobsHoldNothing(s: State, config: Config, steps: seq<Step>)
    requires HoldsOk(s) && Orderly(s)
    ensures HoldsOk(Run(s, config, steps)) && HoldsAge(s, Run(s, config, steps))
    decreases |steps|
  {
    if steps != [] {
      StepKeepsHolds(s, config, steps[0]);
      StepAgesHolds(s, config, steps[0]);
      StepIsOrderly(s, config, steps[0]);
      EndedJobsHoldNothing(Apply(s, config, steps[0]), config, steps[1..]);
    }
  }

  /**
   No step but the executor's own settlement frees the reservation of a job that is still queued,
   running or waiting after it, however late the reservation's expiry.
   */
  lemma ActiveJobsKeepTheirHold(s: State, config: Config, step: Step, id: string)
    requires HoldsOk(s) && id in s.jobs && s.jobs[id].reservation.Some?
    requires id in Apply(s, config, step).jobs && Apply(s, config, step).jobs[id].Active()
    requires !(step.DoStore? && step.id == id)
    ensures var h := s.jobs[id].reservation.value;
      h in s.holds && h in Apply(s, config, step).holds
      && Apply(s, config, step).holds[h].status == s.holds[h].status
  {
    var h := s.jobs[id].reservation.value;
    assert HoldOk(s, id);
    if step.DoRecover? {
      RecoveryKeepsHold(s, id, h);
    } else if step.DoReap? {
      assert Owned(s.jobs, h);
    } else if OnOneJob(step) {
      OneJobStepKeepsHold(s, config, step, id, h);
    }
  }

  lemma OneJobStepKeepsHold(s: State, config: Config, step: Step, id: string, h: int)
    requires OnOneJob(step) && id in s.jobs && s.jobs[id].reservation == Some(h) && h in s.holds
    requires forall other | other in s.jobs && other != id :: s.jobs[other].reservation != Some(h)
    requires id in Apply(s, config, step).jobs && Apply(s, config, step).jobs[id].Active()
    requires !(step.DoStore? && step.id == id)
    ensures h in Apply(s, config, step).holds && Apply(s, config, step).holds[h].status == s.holds[h].status
  {
    if step.id !in s.jobs || s.jobs[step.id].reservation != Some(h) {
      OtherHoldsStay(s, config, step, h);
    } else {
      assert step.id == id;
    }
  }

  /** A step on one job touches no reservation but that job's own. */
  lemma OtherHoldsStay(s: State, config: Config, step: Step, h: int)
    requires OnOneJob(step) && h in s.holds
    requires step.id !in s.jobs || s.jobs[step.id].reservation != Some(h)
    ensures h in Apply(s, config, step).holds && Apply(s, config, step).holds[h] == s.holds[h]
  {}

  lemma RecoveryKeepsHold(s: State, id: string, h: int)
    requires HoldsOk(s) && id in s.jobs && s.jobs[id].reservation == Some(h) && h in s.holds
    requires Recover(s).jobs[id].Active()
    ensures h in Recover(s).holds && Recover(s).holds[h].status == s.holds[h].status
  {}

  /** A job still active, whose result has not been stored, has its reservation reserved. */
  ghost predicate Covered(s: State) {
    forall id | id in s.jobs && s.jobs[id].Active() && !s.jobs[id].hasResult && s.jobs[id].reservation.Some? ::
      s.jobs[id].reservation.value in s.holds && s.holds[s.jobs[id].reservation.value].status == Reserved
  }

  /** What a job that a step leaves active, without a result, was before. */
  lemma ActiveWasActive(s: State, config: Config, step: Step, id: string)
    requires Orderly(s) && id in s.jobs && id in Apply(s, config, step).jobs
    requires Apply(s, config, step).jobs[id].Active() && !Apply(s, config, step).jobs[id].hasResult
    ensures s.jobs[id].Active() && !s.jobs[id].hasResult
    ensures s.jobs[id].reservation.Some? ==> Apply(s, config, step).jobs[id].reservation == s.jobs[id].reservation
    ensures step.DoStore? && step.id == id ==> Apply(s, config, step) == s
  {
    StepProgresses(s, config, step, id);
    EndedOrActive(s.jobs[id]);
  }

  lemma EndedOrActive(job: Job)
    ensures job.Terminal() <==> !job.Active()
  {
    match job.status
    case Queued =>
    case _ =>
  }

  /** A reservation that a step attaches is reserved; a new job has none. */
  lemma AttachedIsReserved(s: State, config: Config, step: Step, id: string)
    requires Orderly(s) && id in Apply(s, config, step).jobs && Apply(s, config, step).jobs[id].reservation.Some?
    requires id in s.jobs ==> s.jobs[id].reservation.None?
    ensures var next := Apply(s, config, step);
      && next.jobs[id].reservation.value in next.holds
      && next.holds[next.jobs[id].reservation.value].status == Reserved
  {
    if !step.DoAttach? {
      NoneIsAttached(s, config, step, id);
    }
  }

  lemma NoneIsAttached(s: State, config: Config, step: Step, id: string)
    requires id in Apply(s, config, step).jobs && !step.DoAttach?
    requires id in s.jobs ==> s.jobs[id].reservation.None?
    ensures Apply(s, config, step).jobs[id].reservation.None?
  {
    if !OnOneJob(step) {
    } else if step.id == id {
    }
  }

  lemma StepKeepsCovered(s: State, config: Config, step: Step)
    requires Orderly(s) && HoldsOk(s) && Covered(s)
    ensures Covered(Apply(s, config, step))
  {
    var next := Apply(s, config, step);
    forall id | id in next.jobs && next.jobs[id].Active() && !next.jobs[id].hasResult && next.jobs[id].reservation.Some?
      ensures next.jobs[id].reservation.value in next.holds
      ensures next.holds[next.jobs[id].reservation.value].status == Reserved
    {
      if id in s.jobs && s.jobs[id].reservation.Some? {
        ActiveWasActive(s, config, step, id);
        if next != s {
          ActiveJobsKeepTheirHold(s, config, step, id);
        }
      } else {
        AttachedIsReserved(s, config, step, id);
      }
    }
  }

  lemma {:induction false} RunStaysCovered(s: State, config: Config, steps: seq<Step>)
    requires Orderly(s) && HoldsOk(s) && Covered(s)
    ensures Covered(Run(s, config, steps))
    decreases |steps|
  {
    if steps != [] {
      StepKeepsCovered(s, config, steps[0]);
      StepKeepsHolds(s, config, steps[0]);
      StepIsOrderly(s, config, steps[0]);
      RunStaysCovered(Apply(s, config, steps[0]), config, steps[1..]);
    }
  }

  /**
   In every run from an empty queue, however late its expiry and its heartbeats, the reservation of
   a job that is queued, running or waiting and has no stored result is reserved.
   */
  lemma ActiveJobsAreCovered(config: Config, steps: seq<Step>, id: string)
    requires id in Run(EMPTY, config, steps).jobs
    requires var job := Run(EMPTY, config, steps).jobs[id];
      job.Active() && !job.hasResult && job.reservation.Some?
    ensures var s := Run(EMPTY, config, steps);
      s.jobs[id].reservation.value in s.holds && s.holds[s.jobs[id].reservation.value].status == Reserved
  {
    RunStaysCovered(EMPTY, config, steps);
  }
}
