/** How a job's failure, recovery or cancellation ends it or sends it back, and what becomes of its reservation. */
module RoomJobsEndings {
  import opened Tables
  import opened RoomJobs
  import opened RoomJobsLeases
  import opened RoomJobsOutcomes

  /** A job that a transaction can change now: known, not ended, and no uncommitted claim has its row. */
  predicate Open(s: State, id: string) {
    id in s.jobs && s.jobs[id].status in {Queued, Running, Waiting}
    && forall c | c in s.claims :: !(s.claims[c].phase == Written && s.claims[c].job == id)
  }

  lemma OpenMeans(s: State, id: string)
    ensures Open(s, id) <==> id in s.jobs && !RowLocked(s, id) && !s.jobs[id].Terminal()
  {
    if id in s.jobs { EndedOrActive(s.jobs[id]); }
  }

  /** Nothing but one job and the reservations differs. */
  ghost predicate OnlyJobDiffers(s: State, next: State, id: string)
    requires id in s.jobs
  {
    id in next.jobs && next == s.(jobs := s.jobs[id := next.jobs[id]], holds := next.holds)
  }

  /** The reservations once a job has ended: its own, if it was reserved, is released; no other moves. */
  predicate GivenBack(s: State, next: State, reservation: Option<int>) {
    && next.holds.Keys == s.holds.Keys
    && forall h | h in s.holds ::
         next.holds[h] ==
           if reservation == Some(h) && s.holds[h].status == Reserved then Hold(Released, s.holds[h].expiresAt)
           else s.holds[h]
  }

  /** Where a job goes that will be tried again: back to the queue, or to wait if its result is saved. */
  predicate SentBack(job: Job, later: Job, due: int) {
    later == job.(status := if job.hasResult then Waiting else Queued, availableAt := due,
                  leaseOwner := None, leaseExpires := None)
  }

  predicate EndedAs(job: Job, later: Job, status: JobStatus) {
    later == job.(status := status, leaseOwner := None, leaseExpires := None)
  }

  // ---- failures ----

  /** How long a job waits before it is tried again: longer with each attempt. */
  function Delay(config: Config, attempt: nat): int {
    config.retrySeconds * if attempt == 0 then 1 else attempt
  }

  /**
   An executor's error ends its job as cancelled if a cancel was requested, and otherwise as failed if the
   error is final or no attempt is left, giving the reservation back; else the job is sent back unleased,
   due after a delay that grows with its attempts, and keeps its reservation.  Other jobs are not touched.
   */
  lemma FailureOutcome(s: State, config: Config, id: string, retryable: bool)
    requires Open(s, id)
    ensures
      var job, next := s.jobs[id], RecordFailure(s, config, id, retryable);
      OnlyJobDiffers(s, next, id)
      && var later := next.jobs[id];
         && (job.cancelRequested ==> EndedAs(job, later, Cancelled) && GivenBack(s, next, job.reservation))
         && (!job.cancelRequested && (!retryable || job.attempt >= job.maxAttempts) ==>
               EndedAs(job, later, Failed) && GivenBack(s, next, job.reservation))
         && (!job.cancelRequested && retryable && job.attempt < job.maxAttempts ==>
               SentBack(job, later, s.clock + Delay(config, job.attempt)) && next.holds == s.holds)
  {
    OpenMeans(s, id);
  }

  /** A job that has ended, is unknown, or is being claimed at that moment, does not notice an error. */
  lemma OthersDoNotFail(s: State, config: Config, id: string, retryable: bool)
    requires !Open(s, id)
    ensures RecordFailure(s, config, id, retryable) == s
  {
    OpenMeans(s, id);
  }

  /** A job sent back can be claimed again once its delay is over and its room has a slot, and not before. */
  lemma RetriedJobWaits(s: State, config: Config, id: string, seconds: nat)
    requires Open(s, id) && !s.jobs[id].cancelRequested && s.jobs[id].attempt < s.jobs[id].maxAttempts
    ensures
      var next := RecordFailure(s, config, id, true);
      var later := next.(clock := s.clock + seconds);
      Claimable(later, config, id) <==>
        seconds >= Delay(config, s.jobs[id].attempt)
        && |LiveIn(later.jobs, s.jobs[id].room, later.clock)| < config.perRoom
  {
    FailureOutcome(s, config, id, true);
  }

  /** After a final error no run ever claims the job again or changes it. */
  lemma FinalErrorIsFinal(s: State, config: Config, id: string, steps: seq<Step>)
    requires Orderly(s) && Open(s, id) && !s.jobs[id].cancelRequested
    ensures var next := RecordFailure(s, config, id, false);
      && TimesClaimed(next, config, steps, id) == 0
      && id in Run(next, config, steps).jobs && Run(next, config, steps).jobs[id].status == Failed
  {
    var next := RecordFailure(s, config, id, false);
    FailureOutcome(s, config, id, false);
    assert next == Apply(s, config, DoFail(id, false));
    StepIsOrderly(s, config, DoFail(id, false));
    RunProgresses(next, config, steps, id);
  }

  // ---- recovery ----

  /** A job whose lease has run out, with no uncommitted claim on its row. */
  predicate Lapsed(s: State, id: string) {
    Open(s, id) && s.jobs[id].status != Queued && s.jobs[id].leaseExpires.Some?
    && s.jobs[id].leaseExpires.value < s.clock
  }

  lemma LapsedIsDue(s: State, id: string)
    ensures Lapsed(s, id) <==> Due(s, id)
  {
    OpenMeans(s, id);
  }

  /**
   Recovery takes exactly the jobs whose lease has run out: it ends one as cancelled if that was
   requested, as failed if no attempt is left, and sends it back at once otherwise.
   */
  lemma RecoveryOutcome(s: State, id: string)
    requires id in s.jobs
    ensures id in Recover(s).jobs
    ensures var job, later := s.jobs[id], Recover(s).jobs[id];
      && (!Lapsed(s, id) ==> later == job)
      && (Lapsed(s, id) && job.cancelRequested ==> EndedAs(job, later, Cancelled))
      && (Lapsed(s, id) && !job.cancelRequested && job.attempt >= job.maxAttempts ==> EndedAs(job, later, Failed))
      && (Lapsed(s, id) && !job.cancelRequested && job.attempt < job.maxAttempts ==> SentBack(job, later, s.clock))
  {
    LapsedIsDue(s, id);
  }

  lemma RecoveryKeepsTheRest(s: State)
    ensures Recover(s).jobs.Keys == s.jobs.Keys && Recover(s).holds.Keys == s.holds.Keys
    ensures Recover(s) == s.(jobs := Recover(s).jobs, holds := Recover(s).holds)
  {}

  /** Some job that is queued, running or waiting has the reservation. */
  predicate HasOwner(jobs: map<string, Job>, hold: int) {
    exists id | id in jobs :: jobs[id].reservation == Some(hold) && jobs[id].status in {Queued, Running, Waiting}
  }

  lemma OwnerMeans(jobs: map<string, Job>, hold: int)
    ensures HasOwner(jobs, hold) <==> Owned(jobs, hold)
  {
    forall id | id in jobs ensures jobs[id].status in {Queued, Running, Waiting} <==> jobs[id].Active() {
      EndedOrActive(jobs[id]);
    }
  }

  /** The reaper ends exactly the reserved reservations that are overdue and that no active job has. */
  lemma ReapingOutcome(s: State, hold: int)
    requires hold in s.holds
    ensures Reap(s) == s.(holds := Reap(s).holds) && Reap(s).holds.Keys == s.holds.Keys
    ensures Reap(s).holds[hold] ==
      if s.holds[hold].status == Reserved && s.holds[hold].expiresAt <= s.clock && !HasOwner(s.jobs, hold)
      then Hold(Expired, s.holds[hold].expiresAt) else s.holds[hold]
  {
    OwnerMeans(s.jobs, hold);
  }

  /** A job whose lapsed lease recovery ends for good has the reservation. */
  predicate LosesOwner(s: State, hold: int) {
    exists id | id in s.jobs :: s.jobs[id].reservation == Some(hold) && Lapsed(s, id)
      && (s.jobs[id].cancelRequested || s.jobs[id].attempt >= s.jobs[id].maxAttempts)
  }

  /**
   What recovery leaves of a reservation: released if it ended its job, else expired if it was overdue
   and no active job has it, else as it was.
   */
  lemma RecoveredHold(s: State, hold: int)
    requires hold in s.holds
    ensures hold in Recover(s).holds
    ensures Recover(s).holds[hold] ==
      if s.holds[hold].status != Reserved then s.holds[hold]
      else if LosesOwner(s, hold) then Hold(Released, s.holds[hold].expiresAt)
      else if s.holds[hold].expiresAt <= s.clock && !HasOwner(s.jobs, hold) then Hold(Expired, s.holds[hold].expiresAt)
      else s.holds[hold]
  {
    LosesOwnerMeans(s, hold);
    if !LosesOwner(s, hold) { OwnersStay(s, hold); }
    OwnerMeans(Recover(s).jobs, hold);
  }

  lemma LosesOwnerMeans(s: State, hold: int)
    ensures LosesOwner(s, hold) <==> FreedByRecovery(s, hold)
  {
    forall id | id in s.jobs
      ensures Lapsed(s, id) <==> Due(s, id)
      ensures RecoveredJob(s.jobs[id], s.clock).Terminal() <==>
        s.jobs[id].cancelRequested || s.jobs[id].attempt >= s.jobs[id].maxAttempts
    {
      LapsedIsDue(s, id);
    }
  }

  lemma OwnersStay(s: State, hold: int)
    requires !LosesOwner(s, hold)
    ensures HasOwner(Recover(s).jobs, hold) <==> HasOwner(s.jobs, hold)
  {
    forall id | id in s.jobs && s.jobs[id].reservation == Some(hold)
      ensures Recover(s).jobs[id].reservation == Some(hold)
      ensures Recover(s).jobs[id].status in {Queued, Running, Waiting} <==>
        s.jobs[id].status in {Queued, Running, Waiting}
    {
      RecoveryOutcome(s, id);
    }
    assert forall id | id in s.jobs :: Recover(s).jobs[id].reservation == s.jobs[id].reservation;
  }

  /** A leased job counts against its room for exactly as long as recovery leaves it alone. */
  lemma LiveUntilRecovered(s: State, id: string)
    requires Open(s, id) && JobOk(s.jobs[id]) && s.jobs[id].leaseOwner.Some?
    ensures id in LiveIn(s.jobs, s.jobs[id].room, s.clock) <==> !Lapsed(s, id)
  {}

  // ---- cancellation ----

  /**
   A cancel request ends a job that is not running, giving its reservation back; a running one is only
   told.  A job that has ended does not notice.
   */
  lemma CancelOutcome(s: State, id: string)
    ensures
      if !Open(s, id) then RequestCancel(s, id) == s
      else
        var job, next := s.jobs[id], RequestCancel(s, id);
        OnlyJobDiffers(s, next, id)
        && if job.status == Running
           then next.jobs[id] == job.(cancelRequested := true) && next.holds == s.holds
           else EndedAs(job.(cancelRequested := true), next.jobs[id], Cancelled)
                && GivenBack(s, next, job.reservation)
  {
    OpenMeans(s, id);
  }

  /** A running job that was told to stop. */
  predicate Told(s: State, id: string) {
    id in s.jobs && s.jobs[id].cancelRequested && s.jobs[id].status in {Running, Cancelled}
  }

  lemma FailureKeepsTold(s: State, config: Config, failed: string, retryable: bool, id: string)
    requires Told(s, id)
    ensures Told(RecordFailure(s, config, failed, retryable), id)
  {
    if Open(s, failed) {
      FailureOutcome(s, config, failed, retryable);
    } else {
      OthersDoNotFail(s, config, failed, retryable);
    }
  }

  lemma ClaimKeepsTold(s: State, config: Config, step: Step, id: string)
    requires Orderly(s) && Told(s, id) && step.DoCommit?
    ensures Told(Apply(s, config, step), id) && !Claims(s, step, id)
  {
    if step.c in s.claims { assert ClaimOrderly(s, step.c); }
  }

  lemma RecoveryKeepsTold(s: State, id: string)
    requires Told(s, id)
    ensures Told(Recover(s), id)
  {
    RecoveryOutcome(s, id);
  }

  /** The other transactions on one job leave a request to stop in place. */
  lemma OtherKeepsTold(s: State, config: Config, step: Step, id: string)
    requires Orderly(s) && Told(s, id) && OnOneJob(step) && !step.DoFail?
    ensures Told(Apply(s, config, step), id)
  {
    match step
    case DoCancel(other) => if other == id { CancelOutcome(s, id); }
    case _ =>
  }

  lemma StepKeepsTold(s: State, config: Config, step: Step, id: string)
    requires Orderly(s) && Told(s, id)
    ensures Told(Apply(s, config, step), id) && !Claims(s, step, id)
  {
    if step.DoCommit? {
      ClaimKeepsTold(s, config, step, id);
    } else if step.DoFail? {
      FailureKeepsTold(s, config, step.id, step.retryable, id);
    } else if step.DoRecover? {
      RecoveryKeepsTold(s, id);
    } else if OnOneJob(step) {
      OtherKeepsTold(s, config, step, id);
    } else {
      assert Apply(s, config, step).jobs[id] == s.jobs[id];
    }
  }

  /** A running job that is told to stop never succeeds and is never tried again, in any run. */
  lemma {:induction false} ToldJobsNeverSucceed(s: State, config: Config, steps: seq<Step>, id: string)
    requires Orderly(s) && Told(s, id)
    ensures Told(Run(s, config, steps), id) && TimesClaimed(s, config, steps, id) == 0
    decreases |steps|
  {
    if steps != [] {
      StepKeepsTold(s, config, steps[0], id);
      StepIsOrderly(s, config, steps[0]);
      ToldJobsNeverSucceed(Apply(s, config, steps[0]), config, steps[1..], id);
    }
  }
}
