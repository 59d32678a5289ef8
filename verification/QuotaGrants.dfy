/** What a new grant does to the conservation law, and when it keeps it. */
module QuotaGrants {
  import opened Tables
  import opened Quota
  import opened QuotaAllocation
  import opened QuotaLaw

  // ---- rows of the history, before and after ----

  /** Inserting a grant moves a row only to that grant, and only if it is spent earlier. */
  lemma {:induction false} InsertMovesCoverage(grant: Grant, sorted: seq<Grant>, at: int)
    requires Ordered(sorted)
    ensures var was, now := FirstCovering(sorted, at), FirstCovering(Insert(grant, sorted), at);
      now == was || (now == Some(grant) && (was.Some? ==> Before(grant, was.value)))
    decreases |sorted|
  {
    if sorted != [] {
      if Before(grant, sorted[0]) {
        FirstCoveringIs(sorted, at);
        assert ([grant] + sorted)[1..] == sorted;
        if FirstCovering(sorted, at).Some? {
          var k :| 0 <= k < |sorted| && sorted[k] == FirstCovering(sorted, at).value;
          assert Before(sorted[0], sorted[k]) || k == 0;
        }
      } else {
        InsertMovesCoverage(grant, sorted[1..], at);
        var result := Insert(grant, sorted);
        assert result[0] == sorted[0] && result[1..] == Insert(grant, sorted[1..]);
      }
    }
  }

  lemma NewGrantOrder(grants: seq<Grant>, grant: Grant, account: Account)
    ensures InOrder(grants + [grant], account)
      == if grant.account == account then Insert(grant, InOrder(grants, account)) else InOrder(grants, account)
  {}

  lemma NewGrantIds(grants: seq<Grant>, grant: Grant, account: Account, now: int)
    ensures var was := ActiveIds(grants, account, now);
      ActiveIds(grants + [grant], account, now)
        == if grant.account == account && grant.ActiveAt(now) then was + {grant.id} else was
  {}

  lemma OneGrantInOrder(grant: Grant)
    ensures InOrder([grant], grant.account) == [grant]
  {}

  /** A grant with an id of its own. */
  predicate Fresh(db: Db, grant: Grant) { grant.quantity > 0 && forall g | g in db.grants :: g.id != grant.id }

  lemma AllocatedRowUnmoved(db: Db, grant: Grant, account: Account, r: nat)
    requires Sound(db) && r < |db.usage| && db.usage[r].account == account && HasAllocations(db.usage[r].items)
    requires Fresh(db, grant)
    ensures RowUse(db.usage[r], db.grants + [grant], account, db.clock)
         == RowUse(db.usage[r], db.grants, account, db.clock)
  {
    var row, next := db.usage[r], db.grants + [grant];
    var was, now := ActiveIds(db.grants, account, db.clock), ActiveIds(next, account, db.clock);
    assert RowSound(row, db.grants, db.clock);
    NewGrantIds(db.grants, grant, account, db.clock);
    forall k | 0 <= k < |row.items| ensures ShareIn(was)(row.items[k]) == ShareIn(now)(row.items[k]) {
      assert NamesGrant(row.items[k], row, db.grants);
    }
    SumEqualWeights(row.items, ShareIn(was), ShareIn(now));
  }

  /** Use that recorded no allocations, that no grant covers yet, and that falls in this one's period. */
  function LateOn(grants: seq<Grant>, grant: Grant): Usage -> int {
    (row: Usage) =>
      if row.account == grant.account && !HasAllocations(row.items) && grant.ActiveAt(row.occurredAt)
        && FirstCovering(InOrder(grants, grant.account), row.occurredAt).None?
      then row.quantity else 0
  }

  function LateUse(db: Db, grant: Grant): int { SumBy(db.usage, LateOn(db.grants, grant)) }

  /** Where a row without allocations was covered, and where it is with the new grant. */
  lemma CoverageMoves(db: Db, grant: Grant, row: Usage)
    requires UniqueIds(db.grants) && Fresh(db, grant)
    ensures var was := FirstCovering(InOrder(db.grants, grant.account), row.occurredAt);
      var now := FirstCovering(InOrder(db.grants + [grant], grant.account), row.occurredAt);
      && (now == was || (now == Some(grant) && (was.Some? ==> Before(grant, was.value))))
      && (was.None? ==> now == if grant.ActiveAt(row.occurredAt) then Some(grant) else None)
      && (was.Some? ==> was.value in db.grants && was.value.account == grant.account
                        && was.value.ActiveAt(row.occurredAt))
  {
    var ordered, next := InOrder(db.grants, grant.account), InOrder(db.grants + [grant], grant.account);
    NewGrantOrder(db.grants, grant, grant.account);
    InOrderIsSorted(db.grants, grant.account);
    InsertMovesCoverage(grant, ordered, row.occurredAt);
    FirstCoveringIs(ordered, row.occurredAt);
    FirstCoveringIs(next, row.occurredAt);
    InsertKeepsGrant(grant, ordered);
  }

  lemma {:induction false} InsertKeepsGrant(grant: Grant, sorted: seq<Grant>)
    ensures grant in Insert(grant, sorted)
    decreases |sorted|
  {
    if sorted != [] && !Before(grant, sorted[0]) {
      InsertKeepsGrant(grant, sorted[1..]);
    }
  }

  /** An active new grant is charged for exactly the late use; no other row counts differently. */
  lemma ActiveGrantRow(db: Db, grant: Grant, r: nat)
    requires Sound(db) && Fresh(db, grant) && grant.ActiveAt(db.clock) && r < |db.usage|
    ensures RowUse(db.usage[r], db.grants + [grant], grant.account, db.clock)
      == RowUse(db.usage[r], db.grants, grant.account, db.clock) + LateOn(db.grants, grant)(db.usage[r])
  {
    var row := db.usage[r];
    assert RowSound(row, db.grants, db.clock);
    if row.account == grant.account {
      if HasAllocations(row.items) {
        AllocatedRowUnmoved(db, grant, grant.account, r);
      } else {
        CoverageMoves(db, grant, row);
        NewGrantIds(db.grants, grant, grant.account, db.clock);
      }
    }
  }

  /** A new grant that is not active can only take rows away from grants that are. */
  lemma InactiveGrantRow(db: Db, grant: Grant, r: nat)
    requires Sound(db) && Fresh(db, grant) && !grant.ActiveAt(db.clock) && r < |db.usage|
    ensures RowUse(db.usage[r], db.grants + [grant], grant.account, db.clock)
      <= RowUse(db.usage[r], db.grants, grant.account, db.clock)
  {
    var row := db.usage[r];
    assert RowSound(row, db.grants, db.clock);
    if row.account == grant.account {
      if HasAllocations(row.items) {
        AllocatedRowUnmoved(db, grant, grant.account, r);
      } else {
        CoverageMoves(db, grant, row);
        NewGrantIds(db.grants, grant, grant.account, db.clock);
        assert grant.id !in ActiveIds(db.grants, grant.account, db.clock);
      }
    }
  }

  /** A grant to one account moves no row of another. */
  lemma OtherAccountRow(db: Db, grant: Grant, account: Account, r: nat)
    requires grant.account != account && r < |db.usage|
    ensures RowUse(db.usage[r], db.grants + [grant], account, db.clock)
      == RowUse(db.usage[r], db.grants, account, db.clock)
  {
    if db.usage[r].account == account {
      NewGrantIds(db.grants, grant, account, db.clock);
      NewGrantOrder(db.grants, grant, account);
      SameReadingSameUse(db.usage[r], db.grants + [grant], db.grants, account, db.clock);
    }
  }

  lemma SameReadingSameUse(row: Usage, a: seq<Grant>, b: seq<Grant>, account: Account, now: int)
    requires ActiveIds(a, account, now) == ActiveIds(b, account, now) && InOrder(a, account) == InOrder(b, account)
    ensures RowUse(row, a, account, now) == RowUse(row, b, account, now)
  {}

  // ---- the law ----

  /** Everything an active new grant is charged for at once fits beside what it brings. */
  ghost predicate Affordable(db: Db, grant: Grant) {
    Used(db, grant.account) + Held(db, grant.account) + LateUse(db, grant)
      <= Granted(db, grant.account) + grant.quantity
  }

  /** What a new grant must meet to keep an account's law. */
  ghost predicate GrantKeeps(db: Db, grant: Grant, account: Account) {
    Fresh(db, grant) && grant.account == account && grant.ActiveAt(db.clock) ==> Affordable(db, grant)
  }

  lemma ActiveGrantUse(db: Db, grant: Grant)
    requires Sound(db) && Fresh(db, grant) && grant.ActiveAt(db.clock)
    ensures Used(AddGrant(db, grant), grant.account) == Used(db, grant.account) + LateUse(db, grant)
  {
    var next := AddGrant(db, grant);
    forall r | 0 <= r < |db.usage|
      ensures UseAt(next.grants, grant.account, db.clock)(db.usage[r])
        == UseAt(db.grants, grant.account, db.clock)(db.usage[r]) + LateOn(db.grants, grant)(db.usage[r])
    {
      ActiveGrantRow(db, grant, r);
    }
    SumAdds(db.usage, UseAt(db.grants, grant.account, db.clock), LateOn(db.grants, grant),
            UseAt(next.grants, grant.account, db.clock));
  }

  lemma ActiveGrantTotals(db: Db, grant: Grant)
    requires Sound(db) && Fresh(db, grant) && grant.ActiveAt(db.clock)
    ensures var next, account := AddGrant(db, grant), grant.account;
      && Used(next, account) == Used(db, account) + LateUse(db, grant)
      && Held(next, account) == Held(db, account)
      && Granted(next, account) == Granted(db, account) + grant.quantity
  {
    ActiveGrantUse(db, grant);
    SumAppend(db.grants, grant, GrantedAt(grant.account, db.clock));
  }

  lemma InactiveGrantTotals(db: Db, grant: Grant, account: Account)
    requires Sound(db) && Fresh(db, grant) && (grant.account == account ==> !grant.ActiveAt(db.clock))
    ensures var next := AddGrant(db, grant);
      && Used(next, account) <= Used(db, account)
      && Held(next, account) == Held(db, account) && Granted(next, account) == Granted(db, account)
  {
    var next := AddGrant(db, grant);
    forall r | 0 <= r < |db.usage|
      ensures UseAt(next.grants, account, db.clock)(db.usage[r]) <= UseAt(db.grants, account, db.clock)(db.usage[r])
    {
      if grant.account == account {
        InactiveGrantRow(db, grant, r);
      } else {
        OtherAccountRow(db, grant, account, r);
      }
    }
    SumMonotone(db.usage, UseAt(next.grants, account, db.clock), UseAt(db.grants, account, db.clock));
    SumAppend(db.grants, grant, GrantedAt(account, db.clock));
  }

  /**
   Exactly when a new grant keeps the law.  One that is not active now always does; an active one
   does if and only if the use that no grant covered, and that its period reaches back to, fits
   beside what is used and held already.
   */
  lemma NewGrantKeepsLawExactly(db: Db, grant: Grant, account: Account)
    requires Sound(db) && Law(db, account)
    ensures Law(AddGrant(db, grant), account) <==> GrantKeeps(db, grant, account)
  {
    if Fresh(db, grant) {
      if grant.account == account && grant.ActiveAt(db.clock) {
        ActiveGrantTotals(db, grant);
      } else {
        InactiveGrantTotals(db, grant, account);
      }
    } else {
      assert AddGrant(db, grant) == db;
    }
  }

  // ---- grants that are always affordable ----

  /** A grant that starts after every recorded use, as the administrator's grants do, keeps the law. */
  lemma GrantFromNowOnKeepsLaw(db: Db, grant: Grant, account: Account)
    requires Sound(db) && Law(db, account)
    requires forall r | 0 <= r < |db.usage| && db.usage[r].account == account :: db.usage[r].occurredAt < grant.start
    ensures Law(AddGrant(db, grant), account)
  {
    if grant.account == account {
      SumZero(db.usage, LateOn(db.grants, grant));
    }
    NewGrantKeepsLawExactly(db, grant, account);
  }

  /** Use without recorded allocations falls in the period of some grant. */
  ghost predicate LegacyCovered(db: Db, account: Account) {
    forall r | 0 <= r < |db.usage| :: RowCovered(db.usage[r], db.grants, account)
  }

  ghost predicate RowCovered(row: Usage, grants: seq<Grant>, account: Account) {
    row.account == account && row.quantity > 0 && !HasAllocations(row.items) ==>
      FirstCovering(InOrder(grants, account), row.occurredAt).Some?
  }

  lemma NewGrantKeepsCover(db: Db, grant: Grant, account: Account)
    requires Sound(db) && LegacyCovered(db, account)
    ensures LegacyCovered(AddGrant(db, grant), account)
  {
    var next := AddGrant(db, grant);
    if next != db {
      forall r | 0 <= r < |db.usage| ensures RowCovered(next.usage[r], next.grants, account) {
        assert RowCovered(db.usage[r], db.grants, account);
        NewGrantOrder(db.grants, grant, account);
        if grant.account == account { CoverageMoves(db, grant, db.usage[r]); }
      }
    }
  }

  /** Where every such use is covered there is no late use, so any grant keeps the law. */
  lemma NewGrantKeepsLaw(db: Db, grant: Grant, account: Account)
    requires Sound(db) && Law(db, account) && LegacyCovered(db, account)
    ensures Law(AddGrant(db, grant), account) && LegacyCovered(AddGrant(db, grant), account)
  {
    NewGrantKeepsCover(db, grant, account);
    if grant.account == account {
      forall r | 0 <= r < |db.usage| ensures LateOn(db.grants, grant)(db.usage[r]) == 0 {
        assert RowCovered(db.usage[r], db.grants, account) && RowSound(db.usage[r], db.grants, db.clock);
      }
      SumZero(db.usage, LateOn(db.grants, grant));
    }
    NewGrantKeepsLawExactly(db, grant, account);
  }
}
