/** The per-room bound, exclusive claims and bounded retries, over every interleaving. */
module RoomJobsLeases {
  import opened Tables
  import opened RoomJobs

  ghost predicate JobOk(job: Job) {
    && 1 <= job.maxAttempts && job.attempt <= job.maxAttempts
    && (job.status in {Queued, Waiting} && job.leaseOwner.None? ==> job.attempt < job.maxAttempts)
    && (job.leaseOwner.Some? <==> job.leaseExpires.Some?)
    && (job.leaseOwner.Some? ==> job.status == Running)
    && (job.hasResult ==> job.status != Queued)
  }

  /** No room has more live leases than it may. */
  ghost predicate Bounded(s: State, config: Config) {
    forall room :: |LiveIn(s.jobs, room, s.clock)| <= config.perRoom
  }

  ghost predicate ClaimOk(s: State, config: Config, c: int)
    requires c in s.claims
  {
    var claim := s.claims[c];
    && claim.now <= s.clock && claim.job in s.jobs && s.jobs[claim.job].room == claim.room
    && claim.prior in {Queued, Waiting}
    && (claim.phase != Picked ==> claim.room in s.locks && s.locks[claim.room] == c)
    && (claim.phase in {Counted, Written} ==> |LiveIn(s.jobs, claim.room, s.clock)| < config.perRoom)
    && (claim.phase == Written ==>
          s.jobs[claim.job].status == claim.prior && s.jobs[claim.job].leaseOwner.None?)
  }

  ghost predicate LockOk(s: State, room: string)
    requires room in s.locks
  {
    HoldsRoom(s, s.locks[room]) && s.claims[s.locks[room]].room == room
  }

  ghost predicate Safe(s: State, config: Config) {
    && Bounded(s, config)
    && (forall id | id in s.jobs :: JobOk(s.jobs[id]))
    && (forall c | c in s.claims :: ClaimOk(s, config, c))
    && (forall room | room in s.locks :: LockOk(s, room))
  }

  // ---- steps that add no live lease ----

  ghost predicate NoNewLeases(s: State, next: State) {
    forall room :: LiveIn(next.jobs, room, next.clock) <= LiveIn(s.jobs, room, s.clock)
  }

  lemma FewerLeases(s: State, next: State, room: string)
    requires NoNewLeases(s, next)
    ensures |LiveIn(next.jobs, room, next.clock)| <= |LiveIn(s.jobs, room, s.clock)|
  {
    SubsetIsSmaller(LiveIn(next.jobs, room, next.clock), LiveIn(s.jobs, room, s.clock));
  }

  /** Jobs may change as long as uncommitted claims keep the rows they locked. */
  ghost predicate JobsEvolve(s: State, next: State) {
    forall id | id in s.jobs ::
      id in next.jobs && next.jobs[id].room == s.jobs[id].room
      && (RowLocked(s, id) ==> next.jobs[id] == s.jobs[id])
  }

  lemma QuietStepIsSafe(s: State, next: State, config: Config)
    requires Safe(s, config) && NoNewLeases(s, next) && JobsEvolve(s, next)
    requires next.claims == s.claims && next.locks == s.locks && next.clock >= s.clock
    requires forall id | id in next.jobs :: JobOk(next.jobs[id])
    ensures Safe(next, config)
  {
    forall room ensures |LiveIn(next.jobs, room, next.clock)| <= config.perRoom {
      FewerLeases(s, next, room);
    }
    forall c | c in next.claims ensures ClaimOk(next, config, c) {
      assert ClaimOk(s, config, c);
      assert s.claims[c].phase == Written ==> RowLocked(s, s.claims[c].job);
      FewerLeases(s, next, s.claims[c].room);
    }
    forall room | room in next.locks ensures LockOk(next, room) {
      assert LockOk(s, room);
    }
  }

  lemma ChangedJobIsSafe(s: State, next: State, config: Config, id: string, job: Job)
    requires Safe(s, config) && id in s.jobs && !RowLocked(s, id)
    requires next == s.(jobs := s.jobs[id := job], holds := next.holds)
    requires JobOk(job) && job.room == s.jobs[id].room
    requires Live(job, job.room, s.clock) ==> Live(s.jobs[id], job.room, s.clock)
    ensures Safe(next, config)
  {
    QuietStepIsSafe(s, next, config);
  }

  // ---- the claim ----

  lemma PickIsSafe(s: State, config: Config, c: int, worker: string, id: string)
    requires Safe(s, config)
    ensures Safe(Pick(s, config, c, worker, id), config)
  {}

  /** A step of one claim that leaves jobs, clock and the other claims alone. */
  lemma ClaimsStepIsSafe(s: State, next: State, config: Config, c: int)
    requires Safe(s, config) && next == s.(claims := next.claims, locks := next.locks)
    requires forall d | d != c :: d in next.claims <==> d in s.claims
    requires forall d | d != c && d in s.claims :: next.claims[d] == s.claims[d]
    requires c in next.claims ==> ClaimOk(next, config, c)
    requires forall room | room in s.locks && s.locks[room] != c ::
      room in next.locks && next.locks[room] == s.locks[room]
    requires forall room | room in next.locks && next.locks[room] != c ::
      room in s.locks && s.locks[room] == next.locks[room]
    requires forall room | room in next.locks && next.locks[room] == c :: LockOk(next, room)
    ensures Safe(next, config)
  {}

  lemma LockRoomIsSafe(s: State, config: Config, c: int)
    requires Safe(s, config)
    ensures Safe(LockRoom(s, c), config)
  {}

  lemma RollbackIsSafe(s: State, config: Config, c: int)
    requires Safe(s, config)
    ensures Safe(Rollback(s, c), config)
  {}

  /** The stale count is safe: leases only expire between the time it used and now. */
  lemma StaleCountIsHigh(s: State, config: Config, c: int)
    requires c in s.claims && ClaimOk(s, config, c)
    ensures |LiveIn(s.jobs, s.claims[c].room, s.clock)| <= |LiveIn(s.jobs, s.claims[c].room, s.claims[c].now)|
  {
    var claim := s.claims[c];
    SubsetIsSmaller(LiveIn(s.jobs, claim.room, s.clock), LiveIn(s.jobs, claim.room, claim.now));
  }

  lemma CountIsSafe(s: State, config: Config, c: int)
    requires Safe(s, config)
    ensures Safe(Count(s, config, c), config)
  {
    if c in s.claims && s.claims[c].phase == Locked {
      assert ClaimOk(s, config, c);
      StaleCountIsHigh(s, config, c);
      if |LiveIn(s.jobs, s.claims[c].room, s.claims[c].now)| >= config.perRoom {
        RollbackIsSafe(s, config, c);
      } else {
        forall room | room in s.locks && s.locks[room] == c ensures room == s.claims[c].room { assert LockOk(s, room); }
        ClaimsStepIsSafe(s, Count(s, config, c), config, c);
      }
    }
  }

  lemma WriteIsSafe(s: State, config: Config, c: int)
    requires Safe(s, config)
    ensures Safe(Write(s, config, c), config)
  {
    if c in s.claims && c in Write(s, config, c).claims {
      assert ClaimOk(s, config, c);
      WrittenIsOk(s, config, c);
      forall room | room in s.locks && s.locks[room] == c ensures room == s.claims[c].room { assert LockOk(s, room); }
      ClaimsStepIsSafe(s, Write(s, config, c), config, c);
    } else {
      RollbackIsSafe(s, config, c);
    }
  }

  lemma WrittenIsOk(s: State, config: Config, c: int)
    requires c in s.claims && ClaimOk(s, config, c) && c in Write(s, config, c).claims
    ensures ClaimOk(Write(s, config, c), config, c)
  {}

  /** A committed claim adds one lease, to a room that had a slot. */
  lemma CommitAddsOneLease(s: State, config: Config, c: int, room: string)
    requires Safe(s, config) && c in s.claims && s.claims[c].phase == Written
    ensures var next := Commit(s, config, c);
      |LiveIn(next.jobs, room, next.clock)|
        <= |LiveIn(s.jobs, room, s.clock)| + (if room == s.claims[c].room then 1 else 0)
  {
    assert ClaimOk(s, config, c);
    var next, id := Commit(s, config, c), s.claims[c].job;
    var added := if room == s.claims[c].room then {id} else {};
    SubsetIsSmaller(LiveIn(next.jobs, room, next.clock), LiveIn(s.jobs, room, s.clock) + added);
  }

  lemma CommitIsSafe(s: State, config: Config, c: int)
    requires Safe(s, config)
    ensures Safe(Commit(s, config, c), config)
  {
    if c in s.claims && s.claims[c].phase == Written {
      assert ClaimOk(s, config, c);
      var next, claim := Commit(s, config, c), s.claims[c];
      forall room ensures |LiveIn(next.jobs, room, next.clock)| <= config.perRoom {
        CommitAddsOneLease(s, config, c, room);
      }
      forall d | d in next.claims ensures ClaimOk(next, config, d) {
        assert ClaimOk(s, config, d);
        CommitAddsOneLease(s, config, c, s.claims[d].room);
        assert s.claims[d].job == claim.job ==> s.claims[d].room == claim.room;
      }
      forall room | room in next.locks ensures LockOk(next, room) {
        assert LockOk(s, room);
      }
      assert JobOk(s.jobs[claim.job]);
    }
  }

  // ---- the other transactions ----

  lemma HeartbeatIsSafe(s: State, config: Config, worker: string, id: string)
    requires Safe(s, config) && Timely(s, config, DoHeartbeat(worker, id))
    ensures Safe(Heartbeat(s, config, worker, id), config)
  {
    if Heartbeat(s, config, worker, id) != s {
      assert JobOk(s.jobs[id]);
      ChangedJobIsSafe(s, Heartbeat(s, config, worker, id), config, id,
                       s.jobs[id].(leaseExpires := Some(s.clock + config.leaseSeconds)));
    }
  }

  lemma RecoverIsSafe(s: State, config: Config)
    requires Safe(s, config)
    ensures Safe(Recover(s), config)
  {
    forall id | id in s.jobs ensures JobOk(Recover(s).jobs[id]) { assert JobOk(s.jobs[id]); }
    QuietStepIsSafe(s, Recover(s), config);
  }

  /** The transactions on one job other than claims. */
  predicate OnOneJob(step: Step) {
    step.DoHeartbeat? || step.DoFail? || step.DoAttach? || step.DoStore? || step.DoFinish? || step.DoCancel?
  }

  lemma OnlyItsJobChanges(s: State, config: Config, step: Step)
    requires OnOneJob(step) && Apply(s, config, step) != s
    ensures step.id in s.jobs && !RowLocked(s, step.id) && step.id in Apply(s, config, step).jobs
    ensures var next := Apply(s, config, step);
      next == s.(jobs := s.jobs[step.id := next.jobs[step.id]], holds := next.holds)
  {}

  lemma OneJobStaysOk(s: State, config: Config, step: Step)
    requires OnOneJob(step) && step.id in s.jobs && JobOk(s.jobs[step.id])
    ensures step.id in Apply(s, config, step).jobs && JobOk(Apply(s, config, step).jobs[step.id])
    ensures Apply(s, config, step).jobs[step.id].room == s.jobs[step.id].room
  {}

  lemma ExecutorStepIsSafe(s: State, config: Config, step: Step)
    requires Safe(s, config) && (step.DoFail? || step.DoAttach? || step.DoStore? || step.DoFinish? || step.DoCancel?)
    ensures Safe(Apply(s, config, step), config)
  {
    var next := Apply(s, config, step);
    if next != s {
      OnlyItsJobChanges(s, config, step);
      OneJobStaysOk(s, config, step);
      ChangedJobIsSafe(s, next, config, step.id, next.jobs[step.id]);
    }
  }

  /** A heartbeat extends its lease. */
  predicate Extends(s: State, config: Config, step: Step) {
    step.DoHeartbeat? && Heartbeat(s, config, step.worker, step.id) != s
  }

  predicate InTime(s: State, id: string) {
    id in s.jobs && s.jobs[id].leaseExpires.Some? && s.jobs[id].leaseExpires.value >= s.clock
  }

  /** A heartbeat that extends a lease arrives before the lease has expired. */
  predicate Timely(s: State, config: Config, step: Step) {
    Extends(s, config, step) ==> InTime(s, step.id)
  }

  lemma ClaimStepIsSafe(s: State, config: Config, step: Step)
    requires Safe(s, config)
    requires step.DoPick? || step.DoLock? || step.DoCount? || step.DoWrite? || step.DoCommit? || step.DoAbort?
    ensures Safe(Apply(s, config, step), config)
  {
    match step {
      case DoPick(c, worker, id) => PickIsSafe(s, config, c, worker, id);
      case DoLock(c) => LockRoomIsSafe(s, config, c);
      case DoCount(c) => CountIsSafe(s, config, c);
      case DoWrite(c) => WriteIsSafe(s, config, c);
      case DoCommit(c) => CommitIsSafe(s, config, c);
      case DoAbort(c) => RollbackIsSafe(s, config, c);
    }
  }

  lemma StepIsSafe(s: State, config: Config, step: Step)
    requires Safe(s, config) && config.Valid() && Timely(s, config, step)
    ensures Safe(Apply(s, config, step), config)
  {
    match step {
      case Tick(_) => QuietStepIsSafe(s, Apply(s, config, step), config);
      case DoEnqueue(_, _, _) => QuietStepIsSafe(s, Apply(s, config, step), config);
      case DoHeartbeat(worker, id) => HeartbeatIsSafe(s, config, worker, id);
      case DoRecover => RecoverIsSafe(s, config);
      case DoReap => QuietStepIsSafe(s, Apply(s, config, step), config);
      case DoFail(_, _) => ExecutorStepIsSafe(s, config, step);
      case DoAttach(_, _, _) => ExecutorStepIsSafe(s, config, step);
      case DoStore(_, _) => ExecutorStepIsSafe(s, config, step);
      case DoFinish(_) => ExecutorStepIsSafe(s, config, step);
      case DoCancel(_) => ExecutorStepIsSafe(s, config, step);
      case _ => ClaimStepIsSafe(s, config, step);
    }
  }

  predicate TimelyThroughout(s: State, config: Config, steps: seq<Step>)
    decreases |steps|
  {
    steps == [] || (Timely(s, config, steps[0]) && TimelyThroughout(Apply(s, config, steps[0]), config, steps[1..]))
  }

  lemma {:induction false} RunIsSafe(s: State, config: Config, steps: seq<Step>)
    requires Safe(s, config) && config.Valid() && TimelyThroughout(s, config, steps)
    ensures Safe(Run(s, config, steps), config)
    decreases |steps|
  {
    if steps != [] {
      StepIsSafe(s, config, steps[0]);
      RunIsSafe(Apply(s, config, steps[0]), config, steps[1..]);
    }
  }

  /**
   From an empty queue, under every interleaving of claims, timely heartbeats, recoveries, failures
   and the executor's own writes, no room ever has more live leases than its limit.
   */
  lemma RoomsNeverExceedTheirLimit(config: Config, steps: seq<Step>, room: string)
    requires config.Valid() && TimelyThroughout(EMPTY, config, steps)
    ensures var s := Run(EMPTY, config, steps); |LiveIn(s.jobs, room, s.clock)| <= config.perRoom
  {
    assert forall r :: LiveIn(EMPTY.jobs, r, EMPTY.clock) == {};
    RunIsSafe(EMPTY, config, steps);
  }

  /** A heartbeat leaves its own lease live and every other lease as it was. */
  lemma HeartbeatLeases(s: State, config: Config, worker: string, id: string, room: string)
    requires Heartbeat(s, config, worker, id) != s
    ensures LiveIn(Heartbeat(s, config, worker, id).jobs, room, s.clock)
        == LiveIn(s.jobs, room, s.clock) + (if room == s.jobs[id].room then {id} else {})
  {}

  lemma RoomAfterHeartbeat(s: State, config: Config, worker: string, id: string)
    requires Heartbeat(s, config, worker, id) != s && s.jobs[id].leaseExpires.Some?
    ensures var room := s.jobs[id].room;
      |LiveIn(Heartbeat(s, config, worker, id).jobs, room, s.clock)|
        == |LiveIn(s.jobs, room, s.clock)| + (if s.jobs[id].leaseExpires.value >= s.clock then 0 else 1)
  {
    var was := LiveIn(s.jobs, s.jobs[id].room, s.clock);
    HeartbeatLeases(s, config, worker, id, s.jobs[id].room);
    if s.jobs[id].leaseExpires.value >= s.clock {
      assert was + {id} == was;
    }
  }
}
