/** The sections of a claim, the heartbeat, and the executor's writes: what each does, and exactly when. */
module RoomJobsSections {
  import opened Tables
  import opened RoomJobs
  import opened RoomJobsOutcomes
  import opened RoomJobsEndings

  // ---- a claim, section by section ----

  /** The leases that a claim counts: those of its room that had not run out when it began. */
  ghost predicate RoomIsFull(s: State, config: Config, claim: Claim) {
    |LiveIn(s.jobs, claim.room, claim.now)| >= config.perRoom
  }

  /** A job is counted for its room while it is running or waiting under a lease that has not run out. */
  lemma CountedMeans(s: State, room: string, at: int, id: string)
    ensures id in LiveIn(s.jobs, room, at) <==>
      && id in s.jobs && s.jobs[id].room == room && s.jobs[id].status in {Running, Waiting}
      && s.jobs[id].leaseOwner.Some? && s.jobs[id].leaseExpires.Some? && at <= s.jobs[id].leaseExpires.value
  {}

  /** The claim is over: it is forgotten, and its room is free for the next one. */
  predicate GivenUp(s: State, next: State, c: int)
    requires c in s.claims
  {
    next == s.(claims := s.claims - {c}, locks := s.locks - {s.claims[c].room})
  }

  /** A new claim starts exactly on a job that is due, unheld, and in a room with a slot, and changes no job. */
  lemma PickOutcome(s: State, config: Config, c: int, worker: string, id: string)
    requires c !in s.claims
    ensures var next := Pick(s, config, c, worker, id);
      if id in s.jobs && s.jobs[id].status in {Queued, Waiting} && s.jobs[id].availableAt <= s.clock
        && s.jobs[id].leaseOwner.None? && |LiveIn(s.jobs, s.jobs[id].room, s.clock)| < config.perRoom
      then
        next == s.(claims := s.claims[c := Claim(Picked, worker, s.clock, id, s.jobs[id].room, s.jobs[id].status)])
      else next == s
  {}

  /** One claim at a time has a room; the others wait. */
  lemma LockOutcome(s: State, c: int)
    requires c in s.claims && s.claims[c].phase == Picked
    ensures var room, next := s.claims[c].room, LockRoom(s, c);
      if room in s.locks then next == s
      else next == s.(locks := s.locks[room := c], claims := s.claims[c := s.claims[c].(phase := Locked)])
  {}

  /** A claim that finds its room full gives up; otherwise it goes on, still alone in its room. */
  lemma CountOutcome(s: State, config: Config, c: int)
    requires c in s.claims && s.claims[c].phase == Locked
    ensures var next := Count(s, config, c);
      if RoomIsFull(s, config, s.claims[c]) then GivenUp(s, next, c)
      else next == s.(claims := s.claims[c := s.claims[c].(phase := Counted)])
  {}

  /**
   A claim writes its job exactly if the job is still as it was picked, unheld, and the room still has a
   slot; it gives up otherwise, and waits while another claim's write of the job is not committed.
   */
  lemma WriteOutcome(s: State, config: Config, c: int)
    requires c in s.claims && s.claims[c].phase == Counted
    ensures
      var claim, next := s.claims[c], Write(s, config, c);
      if exists d | d in s.claims :: s.claims[d].phase == Written && s.claims[d].job == claim.job then next == s
      else if claim.job in s.jobs && s.jobs[claim.job].status == claim.prior && s.jobs[claim.job].leaseOwner.None?
        && !RoomIsFull(s, config, claim)
      then next == s.(claims := s.claims[c := claim.(phase := Written)])
      else GivenUp(s, next, c)
  {}

  /** A commit runs the job for the worker, one attempt on, under a lease counted from the claim's beginning. */
  lemma CommitOutcome(s: State, config: Config, c: int)
    requires c in s.claims && s.claims[c].phase == Written && s.claims[c].job in s.jobs
    ensures
      var claim, next := s.claims[c], Commit(s, config, c);
      var job := s.jobs[claim.job];
      GivenUp(s.(jobs := next.jobs), next, c)
      && next.jobs == s.jobs[claim.job := job.(status := Running, attempt := job.attempt + 1,
           leaseOwner := Some(claim.worker), leaseExpires := Some(claim.now + config.leaseSeconds))]
  {}

  /** A section out of turn changes nothing, and an aborted claim leaves no lock and no job behind. */
  lemma OutOfTurn(s: State, config: Config, c: int)
    ensures c in s.claims && s.claims[c].phase != Picked ==> LockRoom(s, c) == s
    ensures c in s.claims && s.claims[c].phase != Locked ==> Count(s, config, c) == s
    ensures c in s.claims && s.claims[c].phase != Counted ==> Write(s, config, c) == s
    ensures c in s.claims && s.claims[c].phase != Written ==> Commit(s, config, c) == s
    ensures c in s.claims && s.claims[c].phase == Picked ==> Rollback(s, c) == s.(claims := s.claims - {c})
    ensures c in s.claims && s.claims[c].phase != Picked ==> GivenUp(s, Rollback(s, c), c)
  {}

  /** A committed lease counts against its room until the lease runs out, unless something ends it before. */
  lemma LeaseLasts(s: State, config: Config, c: int, seconds: nat)
    requires c in s.claims && s.claims[c].phase == Written && s.claims[c].job in s.jobs
    requires s.jobs[s.claims[c].job].room == s.claims[c].room
    ensures var claim, next := s.claims[c], Commit(s, config, c);
      claim.job in LiveIn(next.jobs, claim.room, s.clock + seconds) <==>
        s.clock + seconds <= claim.now + config.leaseSeconds
  {
    CommitOutcome(s, config, c);
  }

  // ---- heartbeats ----

  /** The reservation of a job can still be renewed, or it has none. */
  predicate Renewable(s: State, id: string)
    requires id in s.jobs
  {
    s.jobs[id].reservation.Some? ==>
      s.jobs[id].reservation.value in s.holds && s.holds[s.jobs[id].reservation.value].status == Reserved
  }

  /**
   A heartbeat moves the lease and the reservation's expiry together, exactly if it comes from the worker
   that has the job and the reservation is still reserved; otherwise it moves neither.
   */
  lemma HeartbeatOutcome(s: State, config: Config, worker: string, id: string)
    ensures
      var next := Heartbeat(s, config, worker, id);
      if Open(s, id) && s.jobs[id].status in {Running, Waiting} && s.jobs[id].leaseOwner == Some(worker)
        && Renewable(s, id)
      then
        && next.jobs == s.jobs[id := s.jobs[id].(leaseExpires := Some(s.clock + config.leaseSeconds))]
        && next == s.(jobs := next.jobs, holds := next.holds)
        && next.holds == (match s.jobs[id].reservation
             case None => s.holds
             case Some(h) => s.holds[h := Hold(Reserved, s.clock + config.reservationTtl)])
      else next == s
  {
    OpenMeans(s, id);
    if id in s.jobs { EndedOrActive(s.jobs[id]); }
  }

  // ---- the executor ----

  /** A new job is queued at once, with all its attempts before it. */
  lemma EnqueueOutcome(s: State, id: string, room: string, maxAttempts: nat)
    ensures
      if id !in s.jobs && maxAttempts >= 1 then
        Enqueue(s, id, room, maxAttempts) == s.(jobs := s.jobs[id :=
          Job(room, Queued, 0, maxAttempts, s.clock, s.clock, None, None, false, false, None)])
      else Enqueue(s, id, room, maxAttempts) == s
  {}

  /** A running job gets one reservation, a new one that is reserved for a time. */
  lemma AttachOutcome(s: State, id: string, hold: int, ttl: nat)
    ensures
      if Open(s, id) && s.jobs[id].status == Running && s.jobs[id].reservation.None? && hold !in s.holds then
        Attach(s, id, hold, ttl) == s.(jobs := s.jobs[id := s.jobs[id].(reservation := Some(hold))],
                                       holds := s.holds[hold := Hold(Reserved, s.clock + ttl)])
      else Attach(s, id, hold, ttl) == s
  {
    OpenMeans(s, id);
  }

  /**
   A result is stored once, and closes the reservation: known usage settles it, and is refused if it is no
   longer reserved; unknown usage gives back whatever is still reserved.
   */
  lemma StoreOutcome(s: State, id: string, usageKnown: bool)
    ensures
      var next := StoreResult(s, id, usageKnown);
      if Open(s, id) && s.jobs[id].status == Running && !s.jobs[id].hasResult
        && s.jobs[id].reservation.Some? && s.jobs[id].reservation.value in s.holds
        && (usageKnown ==> s.holds[s.jobs[id].reservation.value].status == Reserved)
      then
        var h := s.jobs[id].reservation.value;
        && next == s.(jobs := s.jobs[id := s.jobs[id].(hasResult := true)], holds := next.holds)
        && (usageKnown ==> next.holds == s.holds[h := Hold(Settled, s.holds[h].expiresAt)])
        && (!usageKnown ==> GivenBack(s, next, Some(h)))
      else next == s
  {
    OpenMeans(s, id);
  }

  /** A running job succeeds unless it was told to stop; it leaves its lease behind. */
  lemma FinishOutcome(s: State, id: string)
    ensures
      if Open(s, id) && s.jobs[id].status == Running && !s.jobs[id].cancelRequested then
        OnlyJobDiffers(s, Finish(s, id), id) && EndedAs(s.jobs[id], Finish(s, id).jobs[id], Succeeded)
        && Finish(s, id).holds == s.holds
      else Finish(s, id) == s
  {
    OpenMeans(s, id);
  }
}
