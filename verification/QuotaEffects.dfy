/** What each quota operation does to the tables and the balances, and exactly when it succeeds. */
module QuotaEffects {
  import opened Tables
  import opened Quota
  import opened QuotaAllocation
  import opened QuotaLaw
  import opened QuotaRuns

  /** Everything but the reservations. */
  predicate OnlyReservationsDiffer(db: Db, next: Db) { next == db.(reservations := next.reservations) }

  lemma ById(db: Db, i: nat, id: int)
    requires Sound(db) && i < |db.reservations| && db.reservations[i].id == id
    ensures FindReservation(db.reservations, (r: Reservation) => HasId(r, id)) == Some(i)
  {
    var found := FindReservation(db.reservations, (r: Reservation) => HasId(r, id));
    assert db.reservations[i] in db.reservations && HasId(db.reservations[i], id);
    assert found.Some? && HasId(db.reservations[found.value], id);
  }

  lemma UnknownId(db: Db, id: int)
    requires forall r | r in db.reservations :: r.id != id
    ensures FindReservation(db.reservations, (r: Reservation) => HasId(r, id)).None?
  {}

  /** What ending one reserved reservation does to the holds: its account's fall by it, no other's move. */
  lemma HoldEnds(db: Db, i: nat, r: Reservation, account: Account)
    requires i < |db.reservations| && db.reservations[i].status == Reserved && r.status != Reserved
    ensures Held(SetReservation(db, i, r), account)
      == Held(db, account) - if account == db.reservations[i].account then db.reservations[i].quantity else 0
  {
    SumChangeOne(db.reservations, db.reservations[i := r], i, HeldFor(account));
  }

  // ---- release ----

  /**
   Releasing a reserved reservation gives back exactly what it held, to its own account, and records
   nothing; releasing one that has ended, or that is unknown, changes nothing.
   */
  lemma ReleaseGivesBack(db: Db, id: int, i: nat, account: Account)
    requires Sound(db) && i < |db.reservations| && db.reservations[i].id == id
    ensures var r, next := db.reservations[i], Release(db, id);
      if r.status == Reserved then
        && OnlyReservationsDiffer(db, next)
        && next.reservations == db.reservations[i := r.(status := Released)]
        && Held(next, account) == Held(db, account) - (if account == r.account then r.quantity else 0)
        && Used(next, account) == Used(db, account) && Granted(next, account) == Granted(db, account)
        && (Law(db, account) ==>
              Available(next, account) == Available(db, account) + if account == r.account then r.quantity else 0)
      else next == db
  {
    ById(db, i, id);
    if db.reservations[i].status == Reserved {
      HoldEnds(db, i, db.reservations[i].(status := Released), account);
    }
  }

  lemma UnknownIsNotReleased(db: Db, id: int)
    requires forall r | r in db.reservations :: r.id != id
    ensures Release(db, id) == db
  {
    UnknownId(db, id);
  }

  // ---- renewal and reaping ----

  /** Exactly a reserved reservation is renewed, and only the time of its expiry moves. */
  lemma RenewalMovesExpiry(db: Db, id: int, ttl: int, i: nat, account: Account)
    requires Sound(db) && i < |db.reservations| && db.reservations[i].id == id
    ensures var r, next := db.reservations[i], Renew(db, id, ttl);
      if ttl > 0 && r.status == Reserved then
        && next == Done(db.(reservations := db.reservations[i := r.(expiresAt := db.clock + ttl)]))
        && Held(next.db, account) == Held(db, account)
      else next == Failed(db)
  {
    ById(db, i, id);
    if ttl > 0 && db.reservations[i].status == Reserved {
      var r := db.reservations[i].(expiresAt := db.clock + ttl);
      SumChangeOne(db.reservations, db.reservations[i := r], i, HeldFor(account));
    }
  }

  /** A reservation that is overdue and that no durable job owns. */
  predicate Abandoned(db: Db, r: Reservation) {
    r.status == Reserved && r.expiresAt <= db.clock && r.id !in db.owned
  }

  function AbandonedFor(db: Db, account: Account): Reservation -> int {
    (r: Reservation) => if r.account == account && Abandoned(db, r) then r.quantity else 0
  }

  /** The reaper ends exactly the abandoned reservations, as expired, and gives back what they held. */
  lemma ReapingGivesBack(db: Db, account: Account)
    ensures OnlyReservationsDiffer(db, Reap(db)) && |Reap(db).reservations| == |db.reservations|
    ensures forall i | 0 <= i < |db.reservations| && !Abandoned(db, db.reservations[i]) ::
      Reap(db).reservations[i] == db.reservations[i]
    ensures forall i | 0 <= i < |db.reservations| && Abandoned(db, db.reservations[i]) ::
      Reap(db).reservations[i] == db.reservations[i].(status := Expired)
    ensures Held(Reap(db), account) == Held(db, account) - SumBy(db.reservations, AbandonedFor(db, account))
  {
    SumDiffers(db.reservations, Reap(db).reservations, HeldFor(account), AbandonedFor(db, account));
  }

  lemma {:induction false} SumDiffers<T>(a: seq<T>, b: seq<T>, weight: T -> int, lost: T -> int)
    requires |a| == |b| && forall i | 0 <= i < |a| :: weight(b[i]) == weight(a[i]) - lost(a[i])
    ensures SumBy(b, weight) == SumBy(a, weight) - SumBy(a, lost)
    decreases |a|
  {
    if a != [] {
      SumDiffers(a[..|a| - 1], b[..|b| - 1], weight, lost);
    }
  }

  /**
   A renewed reservation survives reaping for exactly as long as it was renewed for, or for as long as
   a durable job owns it.
   */
  lemma RenewedUntil(db: Db, id: int, ttl: int, i: nat, seconds: nat)
    requires Sound(db) && i < |db.reservations| && db.reservations[i].id == id && db.reservations[i].status == Reserved
    requires ttl > 0
    ensures var later := Reap(Renew(db, id, ttl).db.(clock := db.clock + seconds));
      && i < |later.reservations|
      && later.reservations[i].status == if seconds < ttl || id in db.owned then Reserved else Expired
  {
    var account := db.reservations[i].account;
    RenewalMovesExpiry(db, id, ttl, i, account);
    ReapingGivesBack(Renew(db, id, ttl).db.(clock := db.clock + seconds), account);
  }

  // ---- reservation ----

  /** No reservation of the user carries the key yet. */
  predicate KeyIsNew(db: Db, user: string, key: string) {
    forall r | r in db.reservations :: r.account.user != user || r.key != key
  }

  /**
   With a new key, a reservation is made if and only if it asks for something and that much is left once
   abandoned reservations have been reaped; it then takes exactly that out of its account's balance.
   */
  lemma ReservedExactly(
      db: Db, id: int, account: Account, campaign: string, quantity: int, key: string, ttl: int, other: Account)
    requires KeyIsNew(db, account.user, key) && forall r | r in db.reservations :: r.id != id
    ensures var reaped, next := Reap(db), Reserve(db, id, account, campaign, quantity, key, ttl);
      if quantity > 0 && Used(reaped, account) + Held(reaped, account) + quantity <= Granted(reaped, account) then
        && next == Done(reaped.(reservations := reaped.reservations
             + [Reservation(id, account, campaign, quantity, 0, Reserved, key, db.clock + ttl)]))
        && Held(next.db, other) == Held(reaped, other) + (if other == account then quantity else 0)
        && Available(next.db, account) == Available(reaped, account) - quantity
      else next == Failed(reaped)
  {
    ReserveAnswers(db, id, account, campaign, quantity, key, ttl);
    var row := Reservation(id, account, campaign, quantity, 0, Reserved, key, db.clock + ttl);
    NewHold(Reap(db), row, other);
    NewHold(Reap(db), row, account);
  }

  lemma ReserveAnswers(db: Db, id: int, account: Account, campaign: string, quantity: int, key: string, ttl: int)
    requires KeyIsNew(db, account.user, key) && forall r | r in db.reservations :: r.id != id
    ensures var reaped, next := Reap(db), Reserve(db, id, account, campaign, quantity, key, ttl);
      if quantity > 0 && Used(reaped, account) + Held(reaped, account) + quantity <= Granted(reaped, account) then
        next == Done(reaped.(reservations := reaped.reservations
             + [Reservation(id, account, campaign, quantity, 0, Reserved, key, db.clock + ttl)]))
      else next == Failed(reaped)
  {
    assert FindReservation(db.reservations, (r: Reservation) => r.account.user == account.user && r.key == key).None?;
  }

  lemma NewHold(db: Db, r: Reservation, account: Account)
    requires r.status == Reserved
    ensures Held(db.(reservations := db.reservations + [r]), account)
      == Held(db, account) + if account == r.account then r.quantity else 0
  {
    SumAppend(db.reservations, r, HeldFor(account));
  }

  /** With a key that is taken, the answer is whether the request is the one that took it; nothing changes. */
  lemma ReservationIsReplayed(
      db: Db, id: int, account: Account, campaign: string, quantity: int, key: string, ttl: int, i: nat)
    requires i < |db.reservations| && db.reservations[i].account.user == account.user && db.reservations[i].key == key
    requires forall j | 0 <= j < i :: db.reservations[j].account.user != account.user || db.reservations[j].key != key
    ensures var r := db.reservations[i];
      Reserve(db, id, account, campaign, quantity, key, ttl) ==
        if r.campaign == campaign && r.account.metric == account.metric && r.quantity == quantity
        then Done(db) else Failed(db)
  {
    var found := FindReservation(db.reservations, (r: Reservation) => r.account.user == account.user && r.key == key);
    assert db.reservations[i] in db.reservations;
    assert found == Some(i);
  }

  // ---- settlement ----

  /**
   With a new key, exactly a reserved reservation is settled, for no more than it holds: it ends, its
   whole hold is given back, and its account gets one usage row for the quantity, now.
   */
  lemma SettledExactly(db: Db, id: int, quantity: int, key: string, unit: string, i: nat, account: Account)
    requires Sound(db) && i < |db.reservations| && db.reservations[i].id == id
    requires (forall row | row in db.usage :: row.key != key) && db.reservations[i].status != Settled
    ensures var r, next := db.reservations[i], Settle(db, id, quantity, key, unit);
      if r.status == Reserved && 0 <= quantity <= r.quantity then
        && next.Done? && next.db == db.(reservations := next.db.reservations, usage := next.db.usage)
        && next.db.reservations == db.reservations[i := r.(status := Settled, settled := quantity)]
        && Held(next.db, account) == Held(db, account) - (if account == r.account then r.quantity else 0)
        && |next.db.usage| == |db.usage| + 1 && next.db.usage[..|db.usage|] == db.usage
        && var row := next.db.usage[|db.usage|];
           row == Usage(r.account, Some(id), quantity, unit, key, db.clock, row.items)
      else next == Failed(db)
  {
    ById(db, i, id);
    assert FindUsage(db.usage, (row: Usage) => row.key == key).None?;
    if db.reservations[i].status == Reserved {
      HoldEnds(db, i, db.reservations[i].(status := Settled, settled := quantity), account);
    }
  }

  /**
   A settlement again, with its key or another, is accepted exactly if it says what the first one said,
   and changes nothing either way.
   */
  lemma SettlementIsReplayed(db: Db, id: int, quantity: int, key: string, unit: string, u: nat, i: nat)
    requires Receipts(db) && u < |db.usage| && i < |db.reservations| && db.reservations[i].id == id
    requires db.usage[u].reservation == Some(id)
    ensures db.reservations[i].status == Settled && db.usage[u].quantity == db.reservations[i].settled
    ensures (forall v | 0 <= v < |db.usage| && v != u :: db.usage[v].key != key) ==>
      var row := db.usage[u];
      Settle(db, id, quantity, key, unit) ==
        if row.quantity == quantity && (row.key == key ==> row.unit == unit) then Done(db) else Failed(db)
  {
    assert Bills(db, u);
    var k :| 0 <= k < |db.reservations| && Matches(db, u, k);
    assert k == i;
    var byKey := FindUsage(db.usage, (row: Usage) => row.key == key);
    var byReservation := FindUsage(db.usage, (row: Usage) => row.reservation == Some(id));
    assert db.usage[u] in db.usage && db.reservations[i] in db.reservations;
    assert byReservation == Some(u);
    var found := FindReservation(db.reservations, (r: Reservation) => HasId(r, id));
    assert found.Some? && HasId(db.reservations[found.value], id) && found == Some(i);
    if forall v | 0 <= v < |db.usage| && v != u :: db.usage[v].key != key {
      assert byKey.Some? ==> byKey == Some(u);
    }
  }

  lemma UnknownIsNotSettled(db: Db, id: int, quantity: int, key: string, unit: string)
    requires (forall r | r in db.reservations :: r.id != id) && forall row | row in db.usage :: row.key != key
    ensures Settle(db, id, quantity, key, unit) == Failed(db)
  {
    UnknownId(db, id);
    assert FindUsage(db.usage, (row: Usage) => row.key == key).None?;
  }

  // ---- grants ----

  /** A new grant adds its quantity to its account's balance from its start until just before its end. */
  lemma GrantCountsInItsPeriod(db: Db, grant: Grant, account: Account, at: int)
    requires grant.quantity > 0 && forall g | g in db.grants :: g.id != grant.id
    ensures Granted(AddGrant(db, grant).(clock := at), account) == Granted(db.(clock := at), account)
      + if grant.account == account && grant.start <= at && at < grant.end then grant.quantity else 0
  {
    SumAppend(db.grants, grant, GrantedAt(account, at));
  }

  lemma OnlyProperGrantsAreAdded(db: Db, grant: Grant)
    ensures AddGrant(db, grant) != db <==> grant.quantity > 0 && forall g | g in db.grants :: g.id != grant.id
  {
    if grant.quantity > 0 && forall g | g in db.grants :: g.id != grant.id {
      assert |AddGrant(db, grant).grants| == |db.grants| + 1;
    }
  }

  /** One grant is spent before another: it ends first, or started first, or has the smaller id. */
  predicate Sooner(a: Grant, b: Grant) {
    a.end < b.end || (a.end == b.end && a.start < b.start) || (a.end == b.end && a.start == b.start && a.id < b.id)
  }

  /** The grants that settlements draw on are the account's running ones, each once, soonest to end first. */
  lemma SoonestEndingFirst(db: Db, account: Account)
    requires UniqueIds(db.grants)
    ensures var active := ActiveInOrder(db, account);
      && (forall i, j | 0 <= i < j < |active| :: Sooner(active[i], active[j]))
      && (forall g :: g in active <==>
            g in db.grants && g.account == account && g.start <= db.clock && db.clock < g.end)
  {
    ActiveInOrderIs(db, account);
  }

  /** No part of the row's record names a grant and a positive quantity. */
  predicate Unallocated(row: Usage) {
    forall item | item in row.items :: item.grant.None? || item.quantity.None? || item.quantity.value <= 0
  }

  predicate Contains(grant: Grant, account: Account, at: int) {
    grant.account == account && grant.start <= at && at < grant.end
  }

  /**
   Use without recorded allocations is charged whole to the soonest-ending grant whose period contains
   it, as long as that grant is running; where no period contains it, to none.
   */
  lemma UnallocatedUseIsCharged(db: Db, row: Usage, grant: Grant)
    requires UniqueIds(db.grants) && Unallocated(row) && row.occurredAt <= db.clock
    ensures (forall g | g in db.grants :: !Contains(g, row.account, row.occurredAt))
      ==> RowUse(row, db.grants, row.account, db.clock) == 0
    ensures grant in db.grants && Contains(grant, row.account, row.occurredAt)
      && (forall g | g in db.grants && Contains(g, row.account, row.occurredAt) :: g == grant || Sooner(grant, g))
      ==> RowUse(row, db.grants, row.account, db.clock)
            == if grant.start <= db.clock && db.clock < grant.end then row.quantity else 0
  {
    var ordered := InOrder(db.grants, row.account);
    InOrderIsSorted(db.grants, row.account);
    SoonestIsFirst(ordered, row.occurredAt);
    var first := FirstCovering(ordered, row.occurredAt);
    if first.Some? && grant in db.grants && Contains(grant, row.account, row.occurredAt)
      && forall g | g in db.grants && Contains(g, row.account, row.occurredAt) :: g == grant || Sooner(grant, g) {
      assert first.value == grant;
      ActiveId(db, grant);
    }
  }

  lemma ActiveId(db: Db, grant: Grant)
    requires UniqueIds(db.grants) && grant in db.grants
    ensures grant.id in ActiveIds(db.grants, grant.account, db.clock) <==>
      grant.start <= db.clock && db.clock < grant.end
  {}

  /** The first grant of an ordered list that contains a time comes before the others that do. */
  lemma {:induction false} SoonestIsFirst(ordered: seq<Grant>, at: int)
    requires Ordered(ordered) && UniqueIds(ordered)
    ensures match FirstCovering(ordered, at)
      case None => forall g | g in ordered :: !(g.start <= at && at < g.end)
      case Some(first) =>
        && first in ordered && first.start <= at && at < first.end
        && forall g | g in ordered && g.start <= at && at < g.end :: g == first || Sooner(first, g)
    decreases |ordered|
  {
    if ordered != [] {
      SoonestIsFirst(ordered[1..], at);
      assert forall g | g in ordered :: g == ordered[0] || g in ordered[1..];
      forall g | g in ordered[1..] ensures Sooner(ordered[0], g) {
        var k :| 0 <= k < |ordered| - 1 && ordered[1..][k] == g;
        assert ordered[k + 1] == g;
      }
    }
  }
}
