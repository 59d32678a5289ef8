/** The conservation law of entitlement quota, and what can break it. */
module QuotaLaw {
  import opened Tables
  import opened Quota
  import opened QuotaAllocation

  /** Nothing is promised twice: what is used and held fits in what is granted. */
  ghost predicate Law(db: Db, account: Account) { Used(db, account) + Held(db, account) <= Granted(db, account) }

  ghost predicate NamesGrant(item: Item, row: Usage, grants: seq<Grant>) {
    item.Counts() ==>
      exists g | g in grants :: g.id == item.grant.value && g.account == row.account && g.start <= row.occurredAt
  }

  ghost predicate RowSound(row: Usage, grants: seq<Grant>, clock: int) {
    row.occurredAt <= clock && row.quantity >= 0 && forall item | item in row.items :: NamesGrant(item, row, grants)
  }

  ghost predicate WithinGrant(db: Db, grant: Grant) {
    Consumed(db.usage, grant.account, grant.id, db.clock) <= grant.quantity
  }

  /** What every run keeps; in particular, no grant's recorded allocations exceed it. */
  ghost predicate Sound(db: Db) {
    && UniqueIds(db.grants)
    && (forall k | 0 <= k < |db.grants| :: db.grants[k].quantity > 0 && WithinGrant(db, db.grants[k]))
    && (forall i, j | 0 <= i < j < |db.reservations| :: db.reservations[i].id != db.reservations[j].id)
    && (forall i | 0 <= i < |db.reservations| :: db.reservations[i].quantity > 0)
    && (forall r | 0 <= r < |db.usage| :: RowSound(db.usage[r], db.grants, db.clock))
  }

  // ---- settlement ----

  lemma ActiveAllocationFits(db: Db, account: Account, quantity: int, grant: Grant)
    requires UniqueIds(db.grants) && grant in ActiveInOrder(db, account)
    requires Consumed(db.usage, account, grant.id, db.clock) <= grant.quantity
    ensures Charged(Allocate(db, account, quantity), grant.id) + Consumed(db.usage, account, grant.id, db.clock)
      <= grant.quantity
  {
    var active := ActiveInOrder(db, account);
    ActiveInOrderIs(db, account);
    var i :| 0 <= i < |active| && active[i] == grant;
    FillWithinCapacity(active, CapacityAt(db.usage, account, db.clock), quantity, i);
  }

  /** Only active grants of the account are charged, none beyond what it has left. */
  lemma AllocationFits(db: Db, account: Account, quantity: int, grant: Grant)
    requires Sound(db) && grant in db.grants && grant.account == account
    ensures Charged(Allocate(db, account, quantity), grant.id) + Consumed(db.usage, account, grant.id, db.clock)
      <= grant.quantity
  {
    var active, capacity := ActiveInOrder(db, account), CapacityAt(db.usage, account, db.clock);
    ActiveInOrderIs(db, account);
    var k :| 0 <= k < |db.grants| && db.grants[k] == grant;
    assert WithinGrant(db, db.grants[k]);
    if grant in active {
      ActiveAllocationFits(db, account, quantity, grant);
    } else {
      forall g | g in active ensures g.id != grant.id {
        assert g in db.grants;
      }
      FillSparesOthers(active, capacity, quantity, grant.id);
    }
  }

  lemma AllocationNamesGrants(db: Db, i: nat, quantity: int, key: string, unit: string)
    requires Sound(db) && i < |db.reservations| && quantity >= 0
    ensures RowSound(UsageRow(db, db.reservations[i], quantity, key, unit), db.grants, db.clock)
  {
    var account := db.reservations[i].account;
    ActiveInOrderIs(db, account);
    FillPlacesAllThatFits(ActiveInOrder(db, account), CapacityAt(db.usage, account, db.clock), quantity);
  }

  lemma SettleKeepsSound(db: Db, i: nat, quantity: int, key: string, unit: string)
    requires Sound(db) && i < |db.reservations| && quantity >= 0
    ensures Sound(SettleAt(db, i, quantity, key, unit))
  {
    var next, row := SettleAt(db, i, quantity, key, unit), UsageRow(db, db.reservations[i], quantity, key, unit);
    AllocationNamesGrants(db, i, quantity, key, unit);
    forall k | 0 <= k < |next.grants| ensures WithinGrant(next, next.grants[k]) {
      var grant := db.grants[k];
      assert WithinGrant(db, grant);
      SumAppend(db.usage, row, ConsumedOn(grant.account, grant.id, db.clock));
      if grant.account == row.account { AllocationFits(db, row.account, quantity, grant); }
    }
  }

  /** Room on the active grants is at least what the balance says is unspent. */
  lemma RoomCoversBalance(db: Db, account: Account)
    requires Sound(db)
    ensures SumBy(ActiveInOrder(db, account), CapacityAt(db.usage, account, db.clock))
      >= Granted(db, account) - Used(db, account)
  {
    var capacity := CapacityAt(db.usage, account, db.clock);
    assert forall r | 0 <= r < |db.usage| :: RowSound(db.usage[r], db.grants, db.clock);
    BalanceIsUnspent(db, account);
    ActiveInOrderSum(db, account, capacity);
    forall k | 0 <= k < |db.grants| && db.grants[k].account == account
      ensures LeftOn(db.usage, db.grants)(db.grants[k]) <= capacity(db.grants[k])
    {
      RecordedIsUsed(db, db.grants[k]);
    }
    SumMonotone(db.grants, OfActive(account, db.clock, LeftOn(db.usage, db.grants)),
                OfActive(account, db.clock, capacity));
  }

  /** Recorded allocations to a grant are part of its use; older rows may add to it. */
  lemma RecordedIsUsed(db: Db, grant: Grant)
    requires forall r | 0 <= r < |db.usage| :: RowSound(db.usage[r], db.grants, db.clock)
    ensures Consumed(db.usage, grant.account, grant.id, db.clock) <= UsedOn(db.usage, db.grants, grant)
  {
    var recorded, used := ConsumedOn(grant.account, grant.id, db.clock), GrantShare(db.grants, grant);
    forall r | 0 <= r < |db.usage| ensures recorded(db.usage[r]) <= used(db.usage[r]) {
      assert RowSound(db.usage[r], db.grants, db.clock);
      if !HasAllocations(db.usage[r].items) {
        SumZero(db.usage[r].items, ShareOf(grant.id));
      }
    }
    SumMonotone(db.usage, recorded, used);
  }

  /** Every item of an allocation is on an active grant, so the balance counts all of it. */
  lemma AllocationIsCounted(db: Db, account: Account, quantity: int)
    requires Sound(db)
    ensures var items, active := Allocate(db, account, quantity), ActiveIds(db.grants, account, db.clock);
      && SumBy(items, ShareIn(active)) == SumBy(items, AmountOf())
      && SumBy(items, AmountOf())
           == Min(AtLeastZero(quantity),
                  SumBy(ActiveInOrder(db, account), CapacityAt(db.usage, account, db.clock)))
      && (HasAllocations(items) <==> items != [])
  {
    var active, capacity := ActiveInOrder(db, account), CapacityAt(db.usage, account, db.clock);
    var items := Allocate(db, account, quantity);
    ActiveInOrderIs(db, account);
    FillPlacesAllThatFits(active, capacity, quantity);
    forall k | 0 <= k < |items| ensures items[k].grant.value in ActiveIds(db.grants, account, db.clock) {
      assert items[k] in items;
    }
    SumEqualWeights(items, ShareIn(ActiveIds(db.grants, account, db.clock)), AmountOf());
    if items != [] { assert items[0] in items; }
  }

  /**
   Under the law, a settlement is allocated in full: use rises by exactly the settled quantity
   and holds fall by the whole reservation.
   */
  lemma SettlementIsExact(db: Db, i: nat, quantity: int, key: string, unit: string)
    requires Sound(db) && i < |db.reservations| && db.reservations[i].status == Reserved
    requires 0 <= quantity <= db.reservations[i].quantity && Law(db, db.reservations[i].account)
    ensures var account, next := db.reservations[i].account, SettleAt(db, i, quantity, key, unit);
      && SumBy(next.usage[|db.usage|].items, AmountOf()) == quantity
      && Used(next, account) == Used(db, account) + quantity
      && Held(next, account) == Held(db, account) - db.reservations[i].quantity
      && Granted(next, account) == Granted(db, account)
      && (quantity > 0 ==> HasAllocations(next.usage[|db.usage|].items))
  {
    var r := db.reservations[i];
    var next, row := SettleAt(db, i, quantity, key, unit), UsageRow(db, r, quantity, key, unit);
    HeldCovers(db, i);
    RoomCoversBalance(db, r.account);
    AllocationIsCounted(db, r.account, quantity);
    SumAppend(db.usage, row, UseAt(db.grants, r.account, db.clock));
    SumChangeOne(db.reservations, next.reservations, i, HeldFor(r.account));
  }

  /** A held reservation is part of its account's holds. */
  lemma HeldCovers(db: Db, i: nat)
    requires Sound(db) && i < |db.reservations| && db.reservations[i].status == Reserved
    ensures db.reservations[i].quantity <= Held(db, db.reservations[i].account)
  {
    var weight := HeldFor(db.reservations[i].account);
    var others := db.reservations[i := db.reservations[i].(status := Released)];
    SumChangeOne(db.reservations, others, i, weight);
    SumNonNegative(others, weight);
  }

  /** A settlement for one account leaves every other account's balance alone. */
  lemma SettlementIsLocal(db: Db, i: nat, quantity: int, key: string, unit: string, account: Account)
    requires i < |db.reservations| && account != db.reservations[i].account
    ensures var next := SettleAt(db, i, quantity, key, unit);
      Used(next, account) == Used(db, account) && Held(next, account) == Held(db, account)
      && Granted(next, account) == Granted(db, account)
  {
    var r, next := db.reservations[i], SettleAt(db, i, quantity, key, unit);
    SumAppend(db.usage, UsageRow(db, r, quantity, key, unit), UseAt(db.grants, account, db.clock));
    SumChangeOne(db.reservations, next.reservations, i, HeldFor(account));
  }

  // ---- time ----

  /** No active grant of the account ends within the wait. */
  predicate NoneExpires(db: Db, account: Account, seconds: nat) {
    forall g | g in db.grants :: g.account == account && g.ActiveAt(db.clock) ==> g.end > db.clock + seconds
  }

  /** Exactly when the law survives a wait: the holds fit what is left on the grants still active then. */
  lemma LawAfterTick(db: Db, account: Account, seconds: nat)
    requires Sound(db)
    ensures Law(Apply(db, Tick(seconds)), account)
      <==> Held(db, account) <= UnspentAt(db, account, db.clock + seconds)
  {
    assert forall r | 0 <= r < |db.usage| :: RowSound(db.usage[r], db.grants, db.clock);
    BalanceIsUnspent(Apply(db, Tick(seconds)), account);
  }

  /** Nothing can have been charged to a grant before it starts. */
  lemma UnstartedIsUnused(db: Db, grant: Grant)
    requires Sound(db) && grant in db.grants && grant.start > db.clock
    ensures UsedOn(db.usage, db.grants, grant) == 0
  {
    forall r | 0 <= r < |db.usage| ensures GrantShare(db.grants, grant)(db.usage[r]) == 0 {
      var row := db.usage[r];
      assert RowSound(row, db.grants, db.clock);
      if HasAllocations(row.items) {
        forall k | 0 <= k < |row.items| ensures ShareOf(grant.id)(row.items[k]) == 0 {
          assert NamesGrant(row.items[k], row, db.grants);
        }
        SumZero(row.items, ShareOf(grant.id));
      } else {
        FirstCoveringIs(InOrder(db.grants, grant.account), row.occurredAt);
      }
    }
    SumZero(db.usage, GrantShare(db.grants, grant));
  }

  lemma WaitWithoutExpiryKeepsLaw(db: Db, account: Account, seconds: nat)
    requires Sound(db) && Law(db, account) && NoneExpires(db, account, seconds)
    ensures Law(Apply(db, Tick(seconds)), account)
  {
    var left := LeftOn(db.usage, db.grants);
    assert forall r | 0 <= r < |db.usage| :: RowSound(db.usage[r], db.grants, db.clock);
    BalanceIsUnspent(db, account);
    LawAfterTick(db, account, seconds);
    forall k | 0 <= k < |db.grants|
      ensures OfActive(account, db.clock, left)(db.grants[k])
        <= OfActive(account, db.clock + seconds, left)(db.grants[k])
    {
      var grant := db.grants[k];
      assert grant in db.grants;
      if grant.account == account && grant.start > db.clock { UnstartedIsUnused(db, grant); }
    }
    SumMonotone(db.grants, OfActive(account, db.clock, left), OfActive(account, db.clock + seconds, left));
  }
}
