/**
 Durable room-turn jobs: lease claims, heartbeats, recovery, bounded retries and per-room
 concurrency across processors.  A claim is five steps that interleave with everything else;
 every other transaction is one step.  A step that is not enabled changes nothing.
 */
module RoomJobs {
  import opened Tables

  datatype JobStatus = Queued | Running | Waiting | Succeeded | Failed | Cancelled

  datatype Job = Job(
    room: string, status: JobStatus, attempt: nat, maxAttempts: nat, availableAt: int, createdAt: int,
    leaseOwner: Option<string>, leaseExpires: Option<int>,
    cancelRequested: bool, hasResult: bool, reservation: Option<int>)
  {
    predicate Terminal() { status in {Succeeded, Failed, Cancelled} }

    predicate Active() { status in {Queued, Running, Waiting} }

    function Unleased(): Job { this.(leaseOwner := None, leaseExpires := None) }
  }

  datatype HoldStatus = Reserved | Settled | Released | Expired

  /** A quota reservation, as far as jobs see it. */
  datatype Hold = Hold(status: HoldStatus, expiresAt: int)

  datatype Phase = Picked | Locked | Counted | Written

  /** A claim in progress: what it read when it picked its candidate, and how far it has come. */
  datatype Claim = Claim(phase: Phase, worker: string, now: int, job: string, room: string, prior: JobStatus)

  datatype Config = Config(perRoom: nat, leaseSeconds: nat, retrySeconds: nat, reservationTtl: nat)
  {
    predicate Valid() { perRoom >= 1 && leaseSeconds >= 1 }
  }

  datatype State = State(
    clock: int, jobs: map<string, Job>, holds: map<int, Hold>, claims: map<int, Claim>, locks: map<string, int>)

  // ---- leases ----

  predicate Live(job: Job, room: string, at: int) {
    && job.room == room && job.status in {Running, Waiting}
    && job.leaseOwner.Some? && job.leaseExpires.Some? && job.leaseExpires.value >= at
  }

  /** The unexpired leases of a room, as a claim counts them at a time. */
  function LiveIn(jobs: map<string, Job>, room: string, at: int): set<string> {
    set id | id in jobs && Live(jobs[id], room, at)
  }

  /** The row lock that an uncommitted claim holds on its job. */
  predicate RowLocked(s: State, id: string) {
    exists c | c in s.claims :: s.claims[c].phase == Written && s.claims[c].job == id
  }

  predicate HoldsRoom(s: State, c: int) {
    c in s.claims && s.claims[c].phase in {Locked, Counted, Written}
  }

  // ---- claim, step by step ----

  predicate Claimable(s: State, config: Config, id: string) {
    && id in s.jobs && s.jobs[id].status in {Queued, Waiting} && s.jobs[id].availableAt <= s.clock
    && s.jobs[id].leaseOwner.None? && |LiveIn(s.jobs, s.jobs[id].room, s.clock)| < config.perRoom
  }

  function Pick(s: State, config: Config, c: int, worker: string, id: string): State {
    if c in s.claims || !Claimable(s, config, id) then s
    else s.(claims := s.claims[c := Claim(Picked, worker, s.clock, id, s.jobs[id].room, s.jobs[id].status)])
  }

  function LockRoom(s: State, c: int): State {
    if c !in s.claims || s.claims[c].phase != Picked || s.claims[c].room in s.locks then s
    else s.(locks := s.locks[s.claims[c].room := c], claims := s.claims[c := s.claims[c].(phase := Locked)])
  }

  /** Rollback: the claim ends and its room lock is released. */
  function Rollback(s: State, c: int): State {
    if c !in s.claims then s
    else s.(claims := s.claims - {c},
            locks := if HoldsRoom(s, c) then s.locks - {s.claims[c].room} else s.locks)
  }

  function Count(s: State, config: Config, c: int): State {
    if c !in s.claims || s.claims[c].phase != Locked then s
    else if |LiveIn(s.jobs, s.claims[c].room, s.claims[c].now)| >= config.perRoom then Rollback(s, c)
    else s.(claims := s.claims[c := s.claims[c].(phase := Counted)])
  }

  /** The conditional update; it waits for the row if another transaction has it. */
  function Write(s: State, config: Config, c: int): State {
    if c !in s.claims || s.claims[c].phase != Counted || RowLocked(s, s.claims[c].job) then s
    else
      var claim := s.claims[c];
      if claim.job in s.jobs && s.jobs[claim.job].status == claim.prior && s.jobs[claim.job].leaseOwner.None?
        && |LiveIn(s.jobs, claim.room, claim.now)| < config.perRoom
      then s.(claims := s.claims[c := claim.(phase := Written)])
      else Rollback(s, c)
  }

  function ClaimedJob(job: Job, claim: Claim, leaseSeconds: nat): Job {
    job.(status := Running, attempt := job.attempt + 1, leaseOwner := Some(claim.worker),
         leaseExpires := Some(claim.now + leaseSeconds))
  }

  function Commit(s: State, config: Config, c: int): State {
    if c !in s.claims || s.claims[c].phase != Written || s.claims[c].job !in s.jobs then s
    else
      var claim := s.claims[c];
      Rollback(s.(jobs := s.jobs[claim.job := ClaimedJob(s.jobs[claim.job], claim, config.leaseSeconds)]), c)
  }

  // ---- reservations ----

  function ReleaseHold(holds: map<int, Hold>, reservation: Option<int>): map<int, Hold> {
    if reservation.Some? && reservation.value in holds && holds[reservation.value].status == Reserved
    then holds[reservation.value := holds[reservation.value].(status := Released)]
    else holds
  }

  predicate Owned(jobs: map<string, Job>, hold: int) {
    exists id | id in jobs :: jobs[id].reservation == Some(hold) && jobs[id].Active()
  }

  /** The reaper: expires overdue reservations that no active job owns. */
  function Reap(s: State): State {
    s.(holds := map h | h in s.holds ::
      if s.holds[h].status == Reserved && s.holds[h].expiresAt <= s.clock && !Owned(s.jobs, h)
      then s.holds[h].(status := Expired) else s.holds[h])
  }

  // ---- the other transactions ----

  predicate Due(s: State, id: string) {
    && id in s.jobs && s.jobs[id].status in {Running, Waiting}
    && s.jobs[id].leaseExpires.Some? && s.jobs[id].leaseExpires.value < s.clock && !RowLocked(s, id)
  }

  function RetryState(job: Job): JobStatus { if job.hasResult then Waiting else Queued }

  /** What recovery makes of a job whose lease has expired. */
  function RecoveredJob(job: Job, now: int): Job {
    (if job.cancelRequested then job.(status := Cancelled)
     else if job.attempt >= job.maxAttempts then job.(status := Failed)
     else job.(status := RetryState(job), availableAt := now)).Unleased()
  }

  /** A reservation whose job recovery ends. */
  predicate FreedByRecovery(s: State, hold: int) {
    exists id | id in s.jobs :: Due(s, id) && s.jobs[id].reservation == Some(hold)
      && RecoveredJob(s.jobs[id], s.clock).Terminal()
  }

  function Recover(s: State): State {
    Reap(s.(
      jobs := map id | id in s.jobs :: if Due(s, id) then RecoveredJob(s.jobs[id], s.clock) else s.jobs[id],
      holds := map h | h in s.holds ::
        if s.holds[h].status == Reserved && FreedByRecovery(s, h) then s.holds[h].(status := Released)
        else s.holds[h]))
  }

  function Heartbeat(s: State, config: Config, worker: string, id: string): State {
    if id !in s.jobs || RowLocked(s, id) || s.jobs[id].leaseOwner != Some(worker)
      || s.jobs[id].status !in {Running, Waiting} then s
    else
      var job := s.jobs[id].(leaseExpires := Some(s.clock + config.leaseSeconds));
      match job.reservation
      case None => s.(jobs := s.jobs[id := job])
      case Some(h) =>
        // A reservation that can no longer be renewed rolls the whole heartbeat back.
        if h !in s.holds || s.holds[h].status != Reserved then s
        else s.(jobs := s.jobs[id := job],
                holds := s.holds[h := Hold(Reserved, s.clock + config.reservationTtl)])
  }

  function Max(a: nat, b: nat): nat { if a >= b then a else b }

  /** What a raised executor makes of its job. */
  function FailedJob(job: Job, config: Config, retryable: bool, now: int): Job {
    (if job.cancelRequested then job.(status := Cancelled)
     else if retryable && job.attempt < job.maxAttempts then
       job.(status := RetryState(job), availableAt := now + config.retrySeconds * Max(1, job.attempt))
     else job.(status := Failed)).Unleased()
  }

  function RecordFailure(s: State, config: Config, id: string, retryable: bool): State {
    if id !in s.jobs || RowLocked(s, id) || s.jobs[id].Terminal() then s
    else
      var job := FailedJob(s.jobs[id], config, retryable, s.clock);
      s.(jobs := s.jobs[id := job],
         holds := if job.Terminal() then ReleaseHold(s.holds, job.reservation) else s.holds)
  }

  function Enqueue(s: State, id: string, room: string, maxAttempts: nat): State {
    if id in s.jobs || maxAttempts == 0 then s
    else s.(jobs := s.jobs[id := Job(room, Queued, 0, maxAttempts, s.clock, s.clock, None, None, false, false, None)])
  }

  /** The executor reserves quota for its job. */
  function Attach(s: State, id: string, hold: int, ttl: nat): State {
    if id !in s.jobs || RowLocked(s, id) || s.jobs[id].status != Running || s.jobs[id].reservation.Some?
      || hold in s.holds then s
    else s.(jobs := s.jobs[id := s.jobs[id].(reservation := Some(hold))],
            holds := s.holds[hold := Hold(Reserved, s.clock + ttl)])
  }

  /** The executor stores the agent's result, settling or giving back the reservation. */
  function StoreResult(s: State, id: string, usageKnown: bool): State {
    if id !in s.jobs || RowLocked(s, id) || s.jobs[id].status != Running || s.jobs[id].hasResult
      || s.jobs[id].reservation.None? || s.jobs[id].reservation.value !in s.holds then s
    else
      var h := s.jobs[id].reservation.value;
      if usageKnown && s.holds[h].status != Reserved then s
      else s.(jobs := s.jobs[id := s.jobs[id].(hasResult := true)],
              holds := if usageKnown then s.holds[h := s.holds[h].(status := Settled)]
                       else ReleaseHold(s.holds, Some(h)))
  }

  function Finish(s: State, id: string): State {
    if id !in s.jobs || RowLocked(s, id) || s.jobs[id].status != Running || s.jobs[id].cancelRequested then s
    else s.(jobs := s.jobs[id := s.jobs[id].(status := Succeeded).Unleased()])
  }

  function CancelledByUser(job: Job): Job {
    var asked := job.(cancelRequested := true);
    if job.status in {Queued, Waiting} then asked.(status := Cancelled).Unleased() else asked
  }

  function RequestCancel(s: State, id: string): State {
    if id !in s.jobs || RowLocked(s, id) || s.jobs[id].Terminal() then s
    else
      var job := CancelledByUser(s.jobs[id]);
      s.(jobs := s.jobs[id := job],
         holds := if job.Terminal() then ReleaseHold(s.holds, job.reservation) else s.holds)
  }

  // ---- runs ----

  datatype Step =
    | Tick(seconds: nat)
    | DoEnqueue(id: string, room: string, maxAttempts: nat)
    | DoPick(c: int, worker: string, id: string)
    | DoLock(c: int)
    | DoCount(c: int)
    | DoWrite(c: int)
    | DoCommit(c: int)
    | DoAbort(c: int)
    | DoHeartbeat(worker: string, id: string)
    | DoRecover
    | DoReap
    | DoFail(id: string, retryable: bool)
    | DoAttach(id: string, hold: int, ttl: nat)
    | DoStore(id: string, usageKnown: bool)
    | DoFinish(id: string)
    | DoCancel(id: string)

  function Apply(s: State, config: Config, step: Step): State {
    match step
    case Tick(seconds) => s.(clock := s.clock + seconds)
    case DoEnqueue(id, room, maxAttempts) => Enqueue(s, id, room, maxAttempts)
    case DoPick(c, worker, id) => Pick(s, config, c, worker, id)
    case DoLock(c) => LockRoom(s, c)
    case DoCount(c) => Count(s, config, c)
    case DoWrite(c) => Write(s, config, c)
    case DoCommit(c) => Commit(s, config, c)
    case DoAbort(c) => Rollback(s, c)
    case DoHeartbeat(worker, id) => Heartbeat(s, config, worker, id)
    case DoRecover => Recover(s)
    case DoReap => Reap(s)
    case DoFail(id, retryable) => RecordFailure(s, config, id, retryable)
    case DoAttach(id, hold, ttl) => Attach(s, id, hold, ttl)
    case DoStore(id, usageKnown) => StoreResult(s, id, usageKnown)
    case DoFinish(id) => Finish(s, id)
    case DoCancel(id) => RequestCancel(s, id)
  }

  function Run(s: State, config: Config, steps: seq<Step>): State
    decreases |steps|
  {
    if steps == [] then s else Run(Apply(s, config, steps[0]), config, steps[1..])
  }

  const EMPTY: State := State(0, map[], map[], map[], map[])
}
