/** The job and reservation tables, updated in place by the processors' transactions. */
module RoomJobsService {
  import opened Tables
  import opened RoomJobs

  /** Reservations whose jobs are ended among the jobs recovered so far. */
  predicate FreedBy(s: State, done: set<string>, hold: int) {
    exists id | id in done :: id in s.jobs && s.jobs[id].reservation == Some(hold)
      && RecoveredJob(s.jobs[id], s.clock).Terminal()
  }

  /** The tables after recovery has handled some of the rows. */
  function PartlyRecovered(s: State, done: set<string>): State {
    s.(jobs := map id | id in s.jobs :: if id in done then RecoveredJob(s.jobs[id], s.clock) else s.jobs[id],
       holds := map h | h in s.holds ::
         if s.holds[h].status == Reserved && FreedBy(s, done, h) then s.holds[h].(status := Released)
         else s.holds[h])
  }

  function RecoverRow(s: State, id: string): State
    requires id in s.jobs
  {
    var job := RecoveredJob(s.jobs[id], s.clock);
    s.(jobs := s.jobs[id := job],
       holds := if job.Terminal() then ReleaseHold(s.holds, job.reservation) else s.holds)
  }

  lemma PartlyRecoveredStart(s: State)
    ensures PartlyRecovered(s, {}) == s
  {}

  lemma RecoverRowAdvances(s: State, done: set<string>, id: string)
    requires id in s.jobs && id !in done
    ensures RecoverRow(PartlyRecovered(s, done), id) == PartlyRecovered(s, done + {id})
  {
    var before, after := PartlyRecovered(s, done), PartlyRecovered(s, done + {id});
    var job := RecoveredJob(s.jobs[id], s.clock);
    assert before.jobs[id := job] == after.jobs;
    forall h | h in s.holds
      ensures h in RecoverRow(before, id).holds && RecoverRow(before, id).holds[h] == after.holds[h]
    {
      HoldAdvances(s, done, id, h);
    }
    assert RecoverRow(before, id).holds.Keys == after.holds.Keys;
    assert RecoverRow(before, id).holds == after.holds;
  }

  lemma HoldAdvances(s: State, done: set<string>, id: string, h: int)
    requires id in s.jobs && id !in done && h in s.holds
    ensures var before := PartlyRecovered(s, done);
      h in RecoverRow(before, id).holds
      && RecoverRow(before, id).holds[h] == PartlyRecovered(s, done + {id}).holds[h]
  {
    FreedByOneMore(s, done, id, h);
  }

  lemma FreedByOneMore(s: State, done: set<string>, id: string, h: int)
    requires id in s.jobs && id !in done
    ensures FreedBy(s, done + {id}, h)
      <==> FreedBy(s, done, h) || (s.jobs[id].reservation == Some(h) && RecoveredJob(s.jobs[id], s.clock).Terminal())
  {}

  lemma PartlyRecoveredEnd(s: State, due: set<string>)
    requires due == set id | id in s.jobs && Due(s, id)
    ensures Reap(PartlyRecovered(s, due)) == Recover(s)
  {
    var rows := s.(
      jobs := map id | id in s.jobs :: if Due(s, id) then RecoveredJob(s.jobs[id], s.clock) else s.jobs[id],
      holds := map h | h in s.holds ::
        if s.holds[h].status == Reserved && FreedByRecovery(s, h) then s.holds[h].(status := Released)
        else s.holds[h]);
    assert Recover(s) == Reap(rows);
    assert PartlyRecovered(s, due).jobs == rows.jobs;
    forall h | h in s.holds ensures FreedBy(s, due, h) <==> FreedByRecovery(s, h) { FreedByAllDue(s, due, h); }
    assert PartlyRecovered(s, due).holds == rows.holds;
  }

  lemma FreedByAllDue(s: State, due: set<string>, h: int)
    requires due == set id | id in s.jobs && Due(s, id)
    ensures FreedBy(s, due, h) <==> FreedByRecovery(s, h)
  {}

  /** A heartbeat by the worker that has the job, whose reservation, if any, is still reserved. */
  predicate Beats(s: State, worker: string, id: string) {
    && id in s.jobs && !RowLocked(s, id) && s.jobs[id].leaseOwner == Some(worker)
    && s.jobs[id].status in {Running, Waiting}
    && (s.jobs[id].reservation.Some? ==>
          s.jobs[id].reservation.value in s.holds && s.holds[s.jobs[id].reservation.value].status == Reserved)
  }

  /** The order in which claims take jobs: by the time they became due, then by age. */
  predicate Sooner(a: Job, b: Job) {
    a.availableAt < b.availableAt || (a.availableAt == b.availableAt && a.createdAt < b.createdAt)
  }

  lemma {:induction false} SomeJobIsFirst(jobs: map<string, Job>, ready: set<string>)
    requires ready != {} && ready <= jobs.Keys
    ensures exists id | id in ready :: forall other | other in ready :: !Sooner(jobs[other], jobs[id])
    decreases ready
  {
    var some :| some in ready;
    var rest := ready - {some};
    if rest == {} {
      assert ready == {some};
    } else {
      SomeJobIsFirst(jobs, rest);
      var first :| first in rest && forall other | other in rest :: !Sooner(jobs[other], jobs[first]);
      var id := if Sooner(jobs[some], jobs[first]) then some else first;
      assert forall other | other in ready :: other == some || other in rest;
      assert forall other | other in ready :: !Sooner(jobs[other], jobs[id]);
    }
  }

  class RoomTurnJobTables {
    const config: Config
    var clock: int
    var jobs: map<string, Job>
    var holds: map<int, Hold>
    var claims: map<int, Claim>
    var locks: map<string, int>

    function Now(): (s: State)
      reads this
    {
      State(clock, jobs, holds, claims, locks)
    }

    constructor (config: Config)
      ensures Now() == EMPTY && this.config == config
    {
      this.config := config;
      clock, jobs, holds, claims, locks := 0, map[], map[], map[], map[];
    }

    /** Gives back a reservation that is still reserved. */
    method Release(reservation: Option<int>)
      modifies this`holds
      ensures holds == ReleaseHold(old(holds), reservation)
    {
      if reservation.Some? && reservation.value in holds && holds[reservation.value].status == Reserved {
        holds := holds[reservation.value := holds[reservation.value].(status := Released)];
      }
    }

    /** Expires overdue reservations that no active job owns. */
    method ExpireAbandoned()
      modifies this`holds
      ensures Now() == Reap(old(Now()))
    {
      ghost var s := old(Now());
      var todo := set h | h in holds && holds[h].status == Reserved && holds[h].expiresAt <= clock;
      ghost var overdue := todo;
      while exists h :: h in todo
        invariant todo <= overdue && holds.Keys == s.holds.Keys
        invariant forall h | h in todo :: holds[h] == s.holds[h]
        invariant forall h | h in s.holds && h !in todo :: holds[h] == Reap(s).holds[h]
        decreases todo
      {
        var h :| h in todo;
        if !Owned(jobs, h) {
          holds := holds[h := holds[h].(status := Expired)];
        }
        todo := todo - {h};
      }
      assert holds == Reap(s).holds;
    }

    /** Ends or requeues one job whose lease has expired. */
    method RecoverJob(id: string)
      requires id in jobs
      modifies this`jobs, this`holds
      ensures Now() == RecoverRow(old(Now()), id)
    {
      var job := jobs[id];
      if job.cancelRequested {
        job := job.(status := Cancelled);
        Release(job.reservation);
      } else if job.attempt >= job.maxAttempts {
        job := job.(status := Failed);
        Release(job.reservation);
      } else {
        job := job.(status := RetryState(job), availableAt := clock);
      }
      jobs := jobs[id := job.Unleased()];
    }

    /** Ends or requeues every job whose lease has expired, then runs the reaper. */
    method RecoverExpired() returns (recovered: nat)
      modifies this`jobs, this`holds
      ensures Now() == Recover(old(Now()))
      ensures recovered == |set id | id in old(jobs) && Due(old(Now()), id)|
    {
      ghost var s := old(Now());
      var todo := set id | id in jobs && Due(Now(), id);
      ghost var due := todo;
      recovered := 0;
      PartlyRecoveredStart(s);
      while exists id :: id in todo
        invariant todo <= due && Now() == PartlyRecovered(s, due - todo) && recovered + |todo| == |due|
        decreases todo
      {
        var id :| id in todo;
        RecoverRowAdvances(s, due - todo, id);
        RecoverJob(id);
        assert due - (todo - {id}) == due - todo + {id};
        todo := todo - {id};
        recovered := recovered + 1;
      }
      assert due - todo == due;
      PartlyRecoveredEnd(s, due);
      ExpireAbandoned();
    }

    // The five steps of a claim.

    /** Picks the claimable job that was due first, skipping the rows that other transactions hold. */
    method PickCandidate(c: int, worker: string, skipped: set<string>) returns (candidate: Option<string>)
      requires c !in claims
      modifies this`claims
      ensures candidate.Some? ==>
        Claimable(old(Now()), config, candidate.value) && candidate.value !in skipped
        && Now() == Pick(old(Now()), config, c, worker, candidate.value)
      ensures candidate.Some? ==> forall id | id in jobs && id !in skipped && Claimable(old(Now()), config, id) ::
        !Sooner(jobs[id], jobs[candidate.value])
      ensures candidate.None? ==>
        Now() == old(Now()) && forall id | id in jobs && id !in skipped :: !Claimable(Now(), config, id)
    {
      var ready := set id | id in jobs && id !in skipped && Claimable(Now(), config, id);
      if ready == {} {
        assert forall id | id in jobs && id !in skipped :: Claimable(Now(), config, id) ==> id in ready;
        return None;
      }
      SomeJobIsFirst(jobs, ready);
      var id :| id in ready && forall other | other in ready :: !Sooner(jobs[other], jobs[id]);
      claims := claims[c := Claim(Picked, worker, clock, id, jobs[id].room, jobs[id].status)];
      return Some(id);
    }

    method LockTheRoom(c: int) returns (locked: bool)
      requires c in claims && claims[c].phase == Picked
      modifies this`claims, this`locks
      ensures Now() == LockRoom(old(Now()), c) && (locked <==> c in claims && claims[c].phase == Locked)
    {
      var room := claims[c].room;
      if room in locks {
        return false;
      }
      locks := locks[room := c];
      claims := claims[c := claims[c].(phase := Locked)];
      return true;
    }

    method RollbackClaim(c: int)
      modifies this`claims, this`locks
      ensures Now() == Rollback(old(Now()), c)
    {
      if c in claims {
        if claims[c].phase != Picked {
          locks := locks - {claims[c].room};
        }
        claims := claims - {c};
      }
    }

    method CountLeases(c: int) returns (room: bool)
      requires c in claims && claims[c].phase == Locked
      modifies this`claims, this`locks
      ensures Now() == Count(old(Now()), config, c) && (room <==> c in claims)
    {
      var leased := |LiveIn(jobs, claims[c].room, claims[c].now)|;
      if leased >= config.perRoom {
        RollbackClaim(c);
        return false;
      }
      claims := claims[c := claims[c].(phase := Counted)];
      return true;
    }

    method UpdateCandidate(c: int) returns (claimed: bool)
      requires c in claims && claims[c].phase == Counted && !RowLocked(Now(), claims[c].job)
      modifies this`claims, this`locks
      ensures Now() == Write(old(Now()), config, c) && (claimed <==> c in claims)
    {
      var claim := claims[c];
      if claim.job in jobs && jobs[claim.job].status == claim.prior && jobs[claim.job].leaseOwner.None?
        && |LiveIn(jobs, claim.room, claim.now)| < config.perRoom {
        claims := claims[c := claim.(phase := Written)];
        return true;
      }
      RollbackClaim(c);
      return false;
    }

    method CommitClaim(c: int) returns (id: string)
      requires c in claims && claims[c].phase == Written && claims[c].job in jobs
      modifies this`jobs, this`claims, this`locks
      ensures Now() == Commit(old(Now()), config, c) && id == old(claims[c].job)
    {
      var claim := claims[c];
      id := claim.job;
      jobs := jobs[id := jobs[id].(
        status := Running, attempt := jobs[id].attempt + 1, leaseOwner := Some(claim.worker),
        leaseExpires := Some(claim.now + config.leaseSeconds))];
      RollbackClaim(c);
    }

    /** Extends a lease and renews its reservation; false asks the worker to stop. */
    method HeartbeatJob(worker: string, id: string) returns (active: bool)
      modifies this`jobs, this`holds
      ensures Now() == Heartbeat(old(Now()), config, worker, id)
      ensures active <==> Beats(old(Now()), worker, id) && !old(jobs)[id].cancelRequested
      ensures active ==> jobs[id].leaseExpires == Some(clock + config.leaseSeconds)
    {
      if id !in jobs || RowLocked(Now(), id) || jobs[id].leaseOwner != Some(worker)
        || jobs[id].status !in {Running, Waiting} {
        return false;
      }
      var reservation := jobs[id].reservation;
      if reservation.Some? {
        var h := reservation.value;
        if h !in holds || holds[h].status != Reserved {
          return false;
        }
        holds := holds[h := Hold(Reserved, clock + config.reservationTtl)];
      }
      jobs := jobs[id := jobs[id].(leaseExpires := Some(clock + config.leaseSeconds))];
      return !jobs[id].cancelRequested;
    }

    /** Retries, fails or cancels a job whose executor raised. */
    method RecordJobFailure(id: string, retryable: bool)
      modifies this`jobs, this`holds
      ensures Now() == RecordFailure(old(Now()), config, id, retryable)
    {
      if id !in jobs || RowLocked(Now(), id) || jobs[id].Terminal() {
        return;
      }
      var job := jobs[id].Unleased();
      if job.cancelRequested {
        job := job.(status := Cancelled);
        Release(job.reservation);
      } else if retryable && job.attempt < job.maxAttempts {
        var delay := config.retrySeconds * Max(1, job.attempt);
        job := job.(status := RetryState(job), availableAt := clock + delay);
      } else {
        job := job.(status := Failed);
        Release(job.reservation);
      }
      jobs := jobs[id := job];
    }
  }
}
