/** The quota tables, updated in place by the service's calls. */
module QuotaService {
  import opened Tables
  import opened Quota

  /** One entry of the dictionary that a row's allocations are read into. */
  datatype Entry = Entry(grant: int, quantity: int)

  function EntryIn(grants: set<int>): Entry -> int {
    (entry: Entry) => if entry.grant in grants then entry.quantity else 0
  }

  function EntryOf(grant: int): Entry -> int {
    (entry: Entry) => if entry.grant == grant then entry.quantity else 0
  }

  predicate DistinctKeys(entries: seq<Entry>) {
    forall i, j | 0 <= i < j < |entries| :: entries[i].grant != entries[j].grant
  }

  /** The dictionary agrees with the list: per set of grants, and so per grant. */
  ghost predicate Reads(entries: seq<Entry>, items: seq<Item>) {
    && DistinctKeys(entries)
    && (entries == [] <==> !HasAllocations(items))
    && (forall ids :: SumBy(entries, EntryIn(ids)) == SumBy(items, ShareIn(ids)))
  }

  lemma PerGrant(entries: seq<Entry>, items: seq<Item>, grant: int)
    requires Reads(entries, items)
    ensures SumBy(entries, EntryOf(grant)) == Charged(items, grant)
  {
    SumEqualWeights(entries, EntryOf(grant), EntryIn({grant}));
    SumEqualWeights(items, ShareOf(grant), ShareIn({grant}));
  }

  /** Reads recorded allocations, skipping malformed items and merging repeated grants. */
  method GrantAllocations(items: seq<Item>) returns (entries: seq<Entry>)
    ensures Reads(entries, items)
    ensures forall e | e in entries :: e.quantity > 0
  {
    entries := [];
    for k := 0 to |items|
      invariant Reads(entries, items[..k])
      invariant forall e | e in entries :: e.quantity > 0
    {
      var item := items[k];
      assert items[..k + 1] == items[..k] + [item];
      ghost var before := entries;
      if item.Counts() {
        var at := 0;
        while at < |entries| && entries[at].grant != item.grant.value
          invariant 0 <= at <= |entries|
          invariant forall m | 0 <= m < at :: entries[m].grant != item.grant.value
        {
          at := at + 1;
        }
        if at < |entries| {
          entries := entries[at := Entry(item.grant.value, entries[at].quantity + item.quantity.value)];
        } else {
          entries := entries + [Entry(item.grant.value, item.quantity.value)];
        }
        forall ids ensures SumBy(entries, EntryIn(ids)) == SumBy(before, EntryIn(ids)) + ShareIn(ids)(item) {
          if at < |before| {
            SumChangeOne(before, entries, at, EntryIn(ids));
          } else {
            SumAppend(before, entries[at], EntryIn(ids));
          }
        }
        assert item in items[..k + 1];
      }
      forall ids ensures SumBy(items[..k + 1], ShareIn(ids)) == SumBy(items[..k], ShareIn(ids)) + ShareIn(ids)(item) {
        SumAppend(items[..k], item, ShareIn(ids));
      }
    }
    assert items[..|items|] == items;
  }

  function Charge(grant: Grant, amount: int): seq<Item> {
    if amount > 0 then [Item(Some(grant.id), Some(amount))] else []
  }

  lemma FillFrom(sofar: seq<Item>, grants: seq<Grant>, capacity: Grant -> int, remaining: int, k: nat)
    requires k < |grants| && remaining > 0 && capacity(grants[k]) >= 0
    ensures var amount := Min(remaining, capacity(grants[k]));
      sofar + Fill(grants[k..], capacity, remaining)
        == sofar + Charge(grants[k], amount) + Fill(grants[k + 1..], capacity, remaining - amount)
  {}

  /** Places a quantity on grants in order, each up to what history has left of it. */
  method FillInOrder(active: seq<Grant>, consumed: map<int, int>, quantity: int, ghost capacity: Grant -> int)
    returns (allocations: seq<Item>)
    requires quantity > 0
    requires forall g | g in active :: g.id in consumed
    requires forall g | g in active :: capacity(g) == Max(0, g.quantity - consumed[g.id])
    ensures allocations == Fill(active, capacity, quantity)
  {
    allocations := [];
    var remaining := quantity;
    for k := 0 to |active|
      invariant remaining > 0
      invariant allocations + Fill(active[k..], capacity, remaining) == Fill(active, capacity, quantity)
    {
      var grant := active[k];
      assert grant in active;
      FillFrom(allocations, active, capacity, remaining, k);
      var amount := Min(remaining, Max(0, grant.quantity - consumed[grant.id]));
      if amount > 0 {
        allocations := allocations + [Item(Some(grant.id), Some(amount))];
        remaining := remaining - amount;
      }
      if remaining <= 0 {
        return;
      }
    }
  }

  function Max(a: int, b: int): int { if a < b then b else a }

  /** Counts a reservation that is overdue and that no durable job owns. */
  function Lapses(clock: int, owned: set<int>): Reservation -> int {
    (r: Reservation) => if r.status == Reserved && r.expiresAt <= clock && r.id !in owned then 1 else 0
  }

  class QuotaTables {
    var clock: int
    var grants: seq<Grant>
    var reservations: seq<Reservation>
    var usage: seq<Usage>
    var owned: set<int>

    function Now(): (db: Db)
      reads this
    {
      Db(clock, grants, reservations, usage, owned)
    }

    /** Totals what history has recorded on each of some grants. */
    method ReadConsumed(account: Account, active: seq<Grant>) returns (consumed: map<int, int>)
      ensures forall g | g in active :: g.id in consumed && consumed[g.id] == Consumed(usage, account, g.id, clock)
    {
      consumed := map g | g in active :: g.id := 0;
      for r := 0 to |usage|
        invariant forall g | g in active ::
          g.id in consumed && consumed[g.id] == Consumed(usage[..r], account, g.id, clock)
      {
        ghost var before := consumed;
        if usage[r].account == account && usage[r].occurredAt <= clock {
          var entries := GrantAllocations(usage[r].items);
          for e := 0 to |entries|
            invariant forall g | g in active ::
              g.id in consumed && consumed[g.id] == before[g.id] + SumBy(entries[..e], EntryOf(g.id))
          {
            assert entries[..e + 1] == entries[..e] + [entries[e]];
            if entries[e].grant in consumed {
              consumed := consumed[entries[e].grant := consumed[entries[e].grant] + entries[e].quantity];
            }
            forall g | g in active
              ensures SumBy(entries[..e + 1], EntryOf(g.id))
                == SumBy(entries[..e], EntryOf(g.id)) + EntryOf(g.id)(entries[e])
            {
              SumAppend(entries[..e], entries[e], EntryOf(g.id));
            }
          }
          assert entries[..|entries|] == entries;
          forall g | g in active ensures SumBy(entries, EntryOf(g.id)) == Charged(usage[r].items, g.id) {
            PerGrant(entries, usage[r].items, g.id);
          }
        }
        assert usage[..r + 1] == usage[..r] + [usage[r]];
        forall g | g in active
          ensures Consumed(usage[..r + 1], account, g.id, clock)
            == Consumed(usage[..r], account, g.id, clock) + ConsumedOn(account, g.id, clock)(usage[r])
        {
          SumAppend(usage[..r], usage[r], ConsumedOn(account, g.id, clock));
        }
      }
      assert usage[..|usage|] == usage;
    }

    /** The greedy allocation loop. */
    method AllocateToGrants(account: Account, quantity: int) returns (allocations: seq<Item>)
      ensures allocations == Allocate(Now(), account, quantity)
    {
      if quantity <= 0 {
        return [];
      }
      var active := ActiveInOrder(Now(), account);
      var consumed := ReadConsumed(account, active);
      allocations := FillInOrder(active, consumed, quantity, CapacityAt(usage, account, clock));
    }

    /** Expires overdue reservations that no durable job owns. */
    method ExpireAbandoned() returns (expired: nat)
      modifies this`reservations
      ensures Now() == Reap(old(Now()))
      ensures expired == SumBy(old(reservations), Lapses(clock, owned))
    {
      expired := 0;
      for i := 0 to |reservations|
        invariant |reservations| == |old(reservations)|
        invariant reservations[..i] == Reap(old(Now())).reservations[..i]
        invariant reservations[i..] == old(reservations)[i..]
        invariant expired == SumBy(old(reservations)[..i], Lapses(clock, owned))
      {
        var r := reservations[i];
        assert r == old(reservations)[i];
        assert old(reservations)[..i + 1] == old(reservations)[..i] + [r];
        SumAppend(old(reservations)[..i], r, Lapses(clock, owned));
        if r.status == Reserved && r.expiresAt <= clock {
          if r.id !in owned {
            reservations := reservations[i := r.(status := Expired)];
            expired := expired + 1;
          }
        }
      }
      assert old(reservations)[..|reservations|] == old(reservations);
    }

    /** The balance: grants in force, what they were used for, and what is held. */
    method Balance(account: Account) returns (granted: int, used: int, held: int)
      modifies this`reservations
      ensures Now() == Reap(old(Now()))
      ensures granted == Granted(Now(), account) && used == Used(Now(), account) && held == Held(Now(), account)
    {
      var _ := ExpireAbandoned();
      var active := ActiveIds(grants, account, clock);
      var ordered := InOrder(grants, account);
      granted := SumBy(grants, GrantedAt(account, clock));
      used := 0;
      for r := 0 to |usage|
        invariant Now() == Reap(old(Now()))
        invariant used == SumBy(usage[..r], UseAt(grants, account, clock))
      {
        assert usage[..r + 1] == usage[..r] + [usage[r]];
        SumAppend(usage[..r], usage[r], UseAt(grants, account, clock));
        if usage[r].account == account && usage[r].occurredAt <= clock {
          var entries := GrantAllocations(usage[r].items);
          if entries != [] {
            used := used + SumBy(entries, EntryIn(active));
          } else {
            var covering := FirstCovering(ordered, usage[r].occurredAt);
            if covering.Some? && covering.value.id in active {
              used := used + usage[r].quantity;
            }
          }
        }
      }
      assert usage[..|usage|] == usage;
      held := SumBy(reservations, HeldFor(account));
    }

    method ReserveQuota(id: int, account: Account, campaign: string, quantity: int, key: string, ttl: int)
      returns (ok: bool)
      modifies this`reservations
      ensures Now() == Reserve(old(Now()), id, account, campaign, quantity, key, ttl).db
      ensures ok <==> Reserve(old(Now()), id, account, campaign, quantity, key, ttl).Done?
    {
      var existing := FindReservation(reservations, (r: Reservation) => r.account.user == account.user && r.key == key);
      if existing.Some? {
        var r := reservations[existing.value];
        return r.campaign == campaign && r.account.metric == account.metric && r.quantity == quantity;
      }
      var before := reservations;
      var granted, used, held := Balance(account);
      var left := granted - used - held;
      var available := if left < 0 then 0 else left;
      if quantity <= 0 || available < quantity {
        return false;
      }
      if exists r | r in before :: r.id == id {
        reservations := before;
        return false;
      }
      reservations := reservations + [Reservation(id, account, campaign, quantity, 0, Reserved, key, clock + ttl)];
      return true;
    }

    method RenewReservation(id: int, ttl: int) returns (ok: bool)
      modifies this`reservations
      ensures Now() == Renew(old(Now()), id, ttl).db && (ok <==> Renew(old(Now()), id, ttl).Done?)
    {
      if ttl <= 0 {
        return false;
      }
      var found := FindReservation(reservations, (r: Reservation) => HasId(r, id));
      if found.None? || reservations[found.value].status != Reserved {
        return false;
      }
      reservations := reservations[found.value := reservations[found.value].(expiresAt := clock + ttl)];
      return true;
    }

    method ReleaseReservation(id: int)
      modifies this`reservations
      ensures Now() == Release(old(Now()), id)
    {
      var found := FindReservation(reservations, (r: Reservation) => HasId(r, id));
      if found.Some? && reservations[found.value].status == Reserved {
        reservations := reservations[found.value := reservations[found.value].(status := Released)];
      }
    }

    method SettleReservation(id: int, quantity: int, key: string, unit: string) returns (ok: bool)
      modifies this`reservations, this`usage
      ensures Now() == Settle(old(Now()), id, quantity, key, unit).db
      ensures ok <==> Settle(old(Now()), id, quantity, key, unit).Done?
    {
      var existing := FindUsage(usage, (row: Usage) => row.key == key);
      if existing.Some? {
        var row := usage[existing.value];
        return row.reservation == Some(id) && row.quantity == quantity && row.unit == unit;
      }
      var found := FindReservation(reservations, (r: Reservation) => HasId(r, id));
      if found.None? {
        return false;
      }
      var r := reservations[found.value];
      if r.status == Settled {
        var settled := FindUsage(usage, (row: Usage) => row.reservation == Some(id));
        return settled.Some? && usage[settled.value].quantity == quantity;
      }
      if r.status != Reserved || quantity < 0 || quantity > r.quantity {
        return false;
      }
      var allocations := AllocateToGrants(r.account, quantity);
      reservations := reservations[found.value := r.(status := Settled, settled := quantity)];
      usage := usage + [Usage(r.account, Some(r.id), quantity, unit, key, clock, allocations)];
      return true;
    }
  }
}
