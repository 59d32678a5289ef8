/** Entitlement quota over whole runs. */
module QuotaRuns {
  import opened Tables
  import opened Quota
  import opened QuotaAllocation
  import opened QuotaLaw
  import opened QuotaGrants

  // ---- the reservations table ----

  lemma ReapLowersHolds(db: Db, account: Account)
    requires Sound(db)
    ensures Held(Reap(db), account) <= Held(db, account)
  {
    SumBelow(Reap(db).reservations, db.reservations, HeldFor(account));
  }

  lemma ReapKeepsSound(db: Db)
    requires Sound(db)
    ensures Sound(Reap(db))
  {}

  lemma SameUsageStaysSound(db: Db, next: Db)
    requires Sound(db) && next == db.(reservations := next.reservations)
    requires forall i, j | 0 <= i < j < |next.reservations| :: next.reservations[i].id != next.reservations[j].id
    requires forall i | 0 <= i < |next.reservations| :: next.reservations[i].quantity > 0
    ensures Sound(next)
  {}

  /** A step that changes one reservation in place without raising what it holds. */
  lemma ChangeOneReservation(db: Db, i: nat, r: Reservation, account: Account)
    requires Sound(db) && i < |db.reservations| && r.id == db.reservations[i].id
    requires r.account == db.reservations[i].account && r.quantity == db.reservations[i].quantity
    requires r.status == Reserved ==> db.reservations[i].status == Reserved
    ensures Sound(SetReservation(db, i, r)) && Held(SetReservation(db, i, r), account) <= Held(db, account)
  {
    SameUsageStaysSound(db, SetReservation(db, i, r));
    SumChangeOne(db.reservations, db.reservations[i := r], i, HeldFor(account));
  }

  // ---- reserve ----

  lemma ReserveKeepsSound(db: Db, step: Step)
    requires Sound(db) && step.DoReserve?
    ensures Sound(Apply(db, step))
  {
    var reaped, next := Reap(db), Apply(db, step);
    ReapKeepsSound(db);
    if |next.reservations| > |db.reservations| {
      forall i | 0 <= i < |db.reservations| ensures next.reservations[i].id != next.reservations[|db.reservations|].id {
        assert db.reservations[i] in db.reservations;
      }
      SameUsageStaysSound(reaped, next);
    }
  }

  lemma ReapKeepsLaw(db: Db, account: Account)
    requires Sound(db) && Law(db, account)
    ensures Law(Reap(db), account)
  {
    ReapLowersHolds(db, account);
  }

  lemma ReserveKeepsLaw(db: Db, step: Step, account: Account)
    requires Sound(db) && step.DoReserve? && Law(db, account)
    ensures Law(Apply(db, step), account)
  {
    var reaped, next := Reap(db), Apply(db, step);
    ReapKeepsLaw(db, account);
    if |next.reservations| > |db.reservations| {
      if step.account == account {
        ReserveRestoresLaw(db, step.id, account, step.campaign, step.quantity, step.key, step.ttl);
      } else {
        SumAppend(reaped.reservations, next.reservations[|db.reservations|], HeldFor(account));
      }
    }
  }

  /** A reservation is only made within the balance: it re-establishes the law even where it was broken. */
  lemma ReserveRestoresLaw(
      db: Db, id: int, account: Account, campaign: string, quantity: int, key: string, ttl: int)
    requires var r := Reserve(db, id, account, campaign, quantity, key, ttl);
      r.Done? && |r.db.reservations| > |db.reservations|
    ensures Law(Reserve(db, id, account, campaign, quantity, key, ttl).db, account)
  {
    var reaped, next := Reap(db), Reserve(db, id, account, campaign, quantity, key, ttl).db;
    SumAppend(reaped.reservations, next.reservations[|db.reservations|], HeldFor(account));
  }

  // ---- every step ----

  lemma GrantKeepsSound(db: Db, grant: Grant)
    requires Sound(db)
    ensures Sound(AddGrant(db, grant))
  {
    var next := AddGrant(db, grant);
    if next != db {
      forall r | 0 <= r < |next.usage| ensures RowSound(next.usage[r], next.grants, next.clock) {
        assert RowSound(db.usage[r], db.grants, db.clock);
        forall item | item in db.usage[r].items ensures NamesGrant(item, db.usage[r], next.grants) {
          assert NamesGrant(item, db.usage[r], db.grants);
        }
      }
      forall k | 0 <= k < |next.grants| ensures WithinGrant(next, next.grants[k]) {
        if k < |db.grants| {
          assert WithinGrant(db, db.grants[k]);
        } else {
          NewGrantIsUnconsumed(db, grant);
        }
      }
    }
  }

  lemma NewGrantIsUnconsumed(db: Db, grant: Grant)
    requires Sound(db) && forall g | g in db.grants :: g.id != grant.id
    ensures Consumed(db.usage, grant.account, grant.id, db.clock) == 0
  {
    forall r | 0 <= r < |db.usage| ensures ConsumedOn(grant.account, grant.id, db.clock)(db.usage[r]) == 0 {
      assert RowSound(db.usage[r], db.grants, db.clock);
      forall k | 0 <= k < |db.usage[r].items| ensures ShareOf(grant.id)(db.usage[r].items[k]) == 0 {
        assert NamesGrant(db.usage[r].items[k], db.usage[r], db.grants);
      }
      SumZero(db.usage[r].items, ShareOf(grant.id));
    }
    SumZero(db.usage, ConsumedOn(grant.account, grant.id, db.clock));
  }

  lemma TickKeepsSound(db: Db, seconds: nat)
    requires Sound(db)
    ensures Sound(Apply(db, Tick(seconds)))
  {
    var next := Apply(db, Tick(seconds));
    forall r | 0 <= r < |next.usage| ensures RowSound(next.usage[r], next.grants, next.clock) {
      assert RowSound(db.usage[r], db.grants, db.clock);
    }
    forall k | 0 <= k < |next.grants| ensures WithinGrant(next, next.grants[k]) {
      assert WithinGrant(db, db.grants[k]);
      SumEqualWeights(db.usage, ConsumedOn(db.grants[k].account, db.grants[k].id, db.clock),
                      ConsumedOn(db.grants[k].account, db.grants[k].id, next.clock));
    }
  }

  /** The reservation a settlement closes, when it closes one. */
  predicate Settles(db: Db, step: Step, i: nat) {
    step.DoSettle? && i < |db.reservations| && db.reservations[i].status == Reserved
    && 0 <= step.quantity <= db.reservations[i].quantity && db.reservations[i].id == step.id
    && Apply(db, step) == SettleAt(db, i, step.quantity, step.key, step.unit)
  }

  lemma SettlesOrNot(db: Db, step: Step) returns (i: nat)
    requires step.DoSettle? && Apply(db, step) != db
    ensures Settles(db, step, i)
  {
    i := FindReservation(db.reservations, (r: Reservation) => HasId(r, step.id)).value;
  }

  lemma ChangeInPlaceKeepsSound(db: Db, step: Step)
    requires Sound(db) && (step.DoRenew? || step.DoRelease?)
    ensures Sound(Apply(db, step))
  {}

  lemma StepKeepsSound(db: Db, step: Step)
    requires Sound(db)
    ensures Sound(Apply(db, step))
  {
    match step {
      case Tick(seconds) => TickKeepsSound(db, seconds);
      case DoGrant(grant) => GrantKeepsSound(db, grant);
      case DoReserve(_, _, _, _, _, _) => ReserveKeepsSound(db, step);
      case DoRenew(_, _) => ChangeInPlaceKeepsSound(db, step);
      case DoRelease(_) => ChangeInPlaceKeepsSound(db, step);
      case DoSettle(id, quantity, key, unit) =>
        if Apply(db, step) != db {
          var i := SettlesOrNot(db, step);
          SettleKeepsSound(db, i, quantity, key, unit);
        }
      case DoReap => ReapKeepsSound(db);
      case DoOwn(_) => OwnedIsNotRead(db, Apply(db, step));
      case DoDisown(_) => OwnedIsNotRead(db, Apply(db, step));
    }
  }

  lemma OwnedIsNotRead(db: Db, next: Db)
    requires Sound(db) && next == db.(owned := next.owned)
    ensures Sound(next)
  {}

  /** Over every run, whatever expires and whatever the balance, no grant is allocated past its quantity. */
  lemma {:induction false} GrantsAreNeverOverdrawn(db: Db, steps: seq<Step>)
    requires Sound(db)
    ensures var last := Run(db, steps);
      Sound(last) && forall k | 0 <= k < |last.grants| :: WithinGrant(last, last.grants[k])
    decreases |steps|
  {
    if steps != [] {
      StepKeepsSound(db, steps[0]);
      GrantsAreNeverOverdrawn(Apply(db, steps[0]), steps[1..]);
    }
  }

  // ---- the conservation law ----

  lemma SettleKeepsLaw(db: Db, step: Step, i: nat, account: Account)
    requires Sound(db) && Law(db, account) && Settles(db, step, i)
    ensures Law(Apply(db, step), account)
  {
    if db.reservations[i].account == account {
      SettlementIsExact(db, i, step.quantity, step.key, step.unit);
    } else {
      SettlementIsLocal(db, i, step.quantity, step.key, step.unit, account);
    }
  }

  lemma ChangeInPlaceKeepsLaw(db: Db, step: Step, account: Account)
    requires Sound(db) && Law(db, account) && (step.DoRenew? || step.DoRelease?)
    ensures Law(Apply(db, step), account)
  {
    var next := Apply(db, step);
    if next != db {
      var i := FindReservation(db.reservations, (r: Reservation) => HasId(r, step.id)).value;
      ChangeOneReservation(db, i, next.reservations[i], account);
    }
  }

  /** What a step must meet to keep an account's law: only waits and new grants can fail to. */
  ghost predicate KeepsLaw(db: Db, step: Step, account: Account) {
    match step
    case Tick(seconds) => Held(db, account) <= UnspentAt(db, account, db.clock + seconds)
    case DoGrant(grant) => GrantKeeps(db, grant, account)
    case _ => true
  }

  /** Exactly when a step keeps the law. */
  lemma StepKeepsLawExactly(db: Db, step: Step, account: Account)
    requires Sound(db) && Law(db, account)
    ensures Law(Apply(db, step), account) <==> KeepsLaw(db, step, account)
  {
    match step {
      case Tick(seconds) => LawAfterTick(db, account, seconds);
      case DoGrant(grant) => NewGrantKeepsLawExactly(db, grant, account);
      case DoReserve(_, _, _, _, _, _) => ReserveKeepsLaw(db, step, account);
      case DoRenew(_, _) => ChangeInPlaceKeepsLaw(db, step, account);
      case DoRelease(_) => ChangeInPlaceKeepsLaw(db, step, account);
      case DoSettle(_, _, _, _) =>
        if Apply(db, step) != db {
          var i := SettlesOrNot(db, step);
          SettleKeepsLaw(db, step, i, account);
        }
      case DoReap => ReapKeepsLaw(db, account);
      case DoOwn(_) =>
      case DoDisown(_) =>
    }
  }

  ghost predicate LawThroughout(db: Db, steps: seq<Step>, account: Account)
    decreases |steps|
  {
    Law(db, account) && (steps == [] || LawThroughout(Apply(db, steps[0]), steps[1..], account))
  }

  ghost predicate KeepsLawThroughout(db: Db, steps: seq<Step>, account: Account)
    decreases |steps|
  {
    steps == [] || (KeepsLaw(db, steps[0], account) && KeepsLawThroughout(Apply(db, steps[0]), steps[1..], account))
  }

  /**
   The law holds all along a run if and only if each wait leaves the holds covered by the grants
   still active, and each new grant can afford the use its period reaches back to.
   */
  lemma {:induction false} LawHoldsExactly(db: Db, steps: seq<Step>, account: Account)
    requires Sound(db) && Law(db, account)
    ensures LawThroughout(db, steps, account) <==> KeepsLawThroughout(db, steps, account)
    decreases |steps|
  {
    if steps != [] {
      StepKeepsLawExactly(db, steps[0], account);
      StepKeepsSound(db, steps[0]);
      if KeepsLaw(db, steps[0], account) {
        LawHoldsExactly(Apply(db, steps[0]), steps[1..], account);
      }
    }
  }

  // ---- while no grant expires ----

  predicate Gentle(db: Db, step: Step, account: Account) {
    step.Tick? ==> NoneExpires(db, account, step.seconds)
  }

  predicate GentleThroughout(db: Db, steps: seq<Step>, account: Account)
    decreases |steps|
  {
    steps == [] || (Gentle(db, steps[0], account) && GentleThroughout(Apply(db, steps[0]), steps[1..], account))
  }

  /** Under the law a settlement records what it used, so no use is left uncovered. */
  lemma StepKeepsCover(db: Db, step: Step, account: Account)
    requires Sound(db) && Law(db, account) && LegacyCovered(db, account)
    ensures LegacyCovered(Apply(db, step), account)
  {
    var next := Apply(db, step);
    if step.DoGrant? {
      NewGrantKeepsCover(db, step.grant, account);
    } else if step.DoSettle? && next != db {
      var i := SettlesOrNot(db, step);
      if db.reservations[i].account == account {
        SettlementIsExact(db, i, step.quantity, step.key, step.unit);
      }
      forall u | 0 <= u < |next.usage| ensures RowCovered(next.usage[u], next.grants, account) {
        if u < |db.usage| { assert RowCovered(db.usage[u], db.grants, account); }
      }
    } else {
      SameRowsStayCovered(db, next, account);
    }
  }

  lemma SameRowsStayCovered(db: Db, next: Db, account: Account)
    requires LegacyCovered(db, account) && next.usage == db.usage && next.grants == db.grants
    ensures LegacyCovered(next, account)
  {}

  lemma StepKeepsLaw(db: Db, step: Step, account: Account)
    requires Sound(db) && Law(db, account) && LegacyCovered(db, account) && Gentle(db, step, account)
    ensures Law(Apply(db, step), account) && LegacyCovered(Apply(db, step), account)
  {
    StepKeepsCover(db, step, account);
    match step {
      case Tick(seconds) => WaitWithoutExpiryKeepsLaw(db, account, seconds);
      case DoGrant(grant) => NewGrantKeepsLaw(db, grant, account);
      case _ => StepKeepsLawExactly(db, step, account);
    }
  }

  /**
   While no active grant of an account expires, what it has used plus what it holds stays within
   what it is granted, through every grant, reservation, renewal, settlement, release and reaping.
   */
  lemma {:induction false} LawIsKept(db: Db, steps: seq<Step>, account: Account)
    requires Sound(db) && Law(db, account) && LegacyCovered(db, account)
    requires GentleThroughout(db, steps, account)
    ensures Law(Run(db, steps), account) && LegacyCovered(Run(db, steps), account)
    decreases |steps|
  {
    if steps != [] {
      StepKeepsLaw(db, steps[0], account);
      StepKeepsSound(db, steps[0]);
      LawIsKept(Apply(db, steps[0]), steps[1..], account);
    }
  }

  // ---- end states ----

  /** A usage row of a reservation is that reservation's one settlement. */
  ghost predicate Matches(db: Db, u: nat, i: nat)
    requires u < |db.usage| && i < |db.reservations|
  {
    && db.usage[u].reservation == Some(db.reservations[i].id)
    && db.reservations[i].status == Settled
    && db.usage[u].quantity == db.reservations[i].settled
    && db.usage[u].account == db.reservations[i].account
  }

  ghost predicate Bills(db: Db, u: nat)
    requires u < |db.usage|
  {
    db.usage[u].reservation.Some? ==> exists i :: 0 <= i < |db.reservations| && Matches(db, u, i)
  }

  ghost predicate Receipts(db: Db) {
    && (forall i, j | 0 <= i < j < |db.reservations| :: db.reservations[i].id != db.reservations[j].id)
    && (forall u | 0 <= u < |db.usage| :: Bills(db, u))
    && (forall u, v | 0 <= u < v < |db.usage| && db.usage[u].reservation.Some? ::
          db.usage[u].reservation != db.usage[v].reservation)
  }

  /** Reservations are only added; a reservation that has left `reserved` never changes again. */
  ghost predicate FinalStays(db: Db, next: Db) {
    && |db.reservations| <= |next.reservations| && |db.usage| <= |next.usage|
    && (forall i | 0 <= i < |db.reservations| ::
          next.reservations[i].id == db.reservations[i].id
          && (db.reservations[i].status != Reserved ==> next.reservations[i] == db.reservations[i]))
    && (forall u | 0 <= u < |db.usage| :: next.usage[u] == db.usage[u])
  }

  lemma StepIsFinal(db: Db, step: Step)
    ensures FinalStays(db, Apply(db, step))
  {
    if step.DoSettle? && Apply(db, step) != db {
      var i := SettlesOrNot(db, step);
    }
  }

  lemma KeptReceipts(db: Db, next: Db)
    requires Receipts(db) && FinalStays(db, next) && next.usage == db.usage
    requires forall i, j | 0 <= i < j < |next.reservations| :: next.reservations[i].id != next.reservations[j].id
    ensures Receipts(next)
  {
    forall u | 0 <= u < |next.usage| ensures Bills(next, u) {
      assert Bills(db, u);
      if next.usage[u].reservation.Some? {
        var i :| 0 <= i < |db.reservations| && Matches(db, u, i);
        assert Matches(next, u, i);
      }
    }
  }

  lemma SettleKeepsReceipts(db: Db, step: Step, i: nat)
    requires Receipts(db) && Settles(db, step, i)
    ensures Receipts(Apply(db, step))
  {
    var next, n := Apply(db, step), |db.usage|;
    forall u | 0 <= u < n ensures Bills(next, u) && next.usage[u].reservation != Some(db.reservations[i].id) {
      assert Bills(db, u);
      if db.usage[u].reservation.Some? {
        var k :| 0 <= k < |db.reservations| && Matches(db, u, k);
        assert Matches(next, u, k);
      }
    }
    assert Matches(next, n, i);
  }

  lemma StepKeepsReceipts(db: Db, step: Step)
    requires Receipts(db)
    ensures Receipts(Apply(db, step))
  {
    var next := Apply(db, step);
    StepIsFinal(db, step);
    if step.DoSettle? && next != db {
      var i := SettlesOrNot(db, step);
      SettleKeepsReceipts(db, step, i);
    } else {
      forall i | 0 <= i < |db.reservations| && |next.reservations| > |db.reservations|
        ensures next.reservations[i].id != next.reservations[|db.reservations|].id
      {
        assert db.reservations[i] in db.reservations;
      }
      KeptReceipts(db, next);
    }
  }

  /** Over every run a reservation is billed at most once, and its end state is final. */
  lemma {:induction false} EndStatesAreFinal(db: Db, steps: seq<Step>)
    requires Receipts(db)
    ensures Receipts(Run(db, steps)) && FinalStays(db, Run(db, steps))
    decreases |steps|
  {
    if steps != [] {
      StepIsFinal(db, steps[0]);
      StepKeepsReceipts(db, steps[0]);
      EndStatesAreFinal(Apply(db, steps[0]), steps[1..]);
    }
  }
}
