/** What the greedy allocation places where, and how it relates to the balance. */
module QuotaAllocation {
  import opened Tables
  import opened Quota

  function AmountOf(): Item -> int {
    (item: Item) => if item.Counts() then item.quantity.value else 0
  }

  function AtLeastZero(x: int): int { if x < 0 then 0 else x }

  predicate UniqueIds(grants: seq<Grant>) {
    forall i, j | 0 <= i < j < |grants| :: grants[i].id != grants[j].id
  }

  ghost predicate Ordered(grants: seq<Grant>) {
    forall i, j | 0 <= i < j < |grants| :: Before(grants[i], grants[j])
  }

  // ---- the allocator ----

  lemma SumFirst<T>(rows: seq<T>, weight: T -> int)
    requires rows != []
    ensures SumBy(rows, weight) == weight(rows[0]) + SumBy(rows[1..], weight)
  {
    assert rows == [rows[0]] + rows[1..];
    SumConcat([rows[0]], rows[1..], weight);
    SumAppend([], rows[0], weight);
    assert [] + [rows[0]] == [rows[0]];
  }

  lemma {:induction false} FillNamesGrants(grants: seq<Grant>, capacity: Grant -> int, quantity: int)
    ensures forall item | item in Fill(grants, capacity, quantity) ::
      item.Counts() && exists grant | grant in grants :: grant.id == item.grant.value
    decreases |grants|
  {
    if quantity > 0 && grants != [] {
      var amount := Min(quantity, capacity(grants[0]));
      FillNamesGrants(grants[1..], capacity, if amount > 0 then quantity - amount else quantity);
    }
  }

  lemma {:induction false} FillAmounts(grants: seq<Grant>, capacity: Grant -> int, quantity: int)
    requires forall i | 0 <= i < |grants| :: capacity(grants[i]) >= 0
    ensures SumBy(Fill(grants, capacity, quantity), AmountOf())
      == Min(AtLeastZero(quantity), SumBy(grants, capacity))
    decreases |grants|
  {
    SumNonNegative(grants, capacity);
    if quantity > 0 && grants != [] {
      SumFirst(grants, capacity);
      SumNonNegative(grants[1..], capacity);
      var amount := Min(quantity, capacity(grants[0]));
      FillAmounts(grants[1..], capacity, if amount > 0 then quantity - amount else quantity);
      if amount > 0 {
        SumFirst(Fill(grants, capacity, quantity), AmountOf());
      }
    }
  }

  /** The allocator places exactly as much as is asked for and fits. */
  lemma FillPlacesAllThatFits(grants: seq<Grant>, capacity: Grant -> int, quantity: int)
    requires forall i | 0 <= i < |grants| :: capacity(grants[i]) >= 0
    ensures SumBy(Fill(grants, capacity, quantity), AmountOf())
      == Min(AtLeastZero(quantity), SumBy(grants, capacity))
    ensures forall item | item in Fill(grants, capacity, quantity) ::
      item.Counts() && exists grant | grant in grants :: grant.id == item.grant.value
  {
    FillAmounts(grants, capacity, quantity);
    FillNamesGrants(grants, capacity, quantity);
  }

  lemma {:induction false} FillSparesOthers(grants: seq<Grant>, capacity: Grant -> int, quantity: int, id: int)
    requires forall grant | grant in grants :: grant.id != id
    ensures Charged(Fill(grants, capacity, quantity), id) == 0
    decreases |grants|
  {
    if quantity > 0 && grants != [] {
      var amount := Min(quantity, capacity(grants[0]));
      FillSparesOthers(grants[1..], capacity, if amount > 0 then quantity - amount else quantity, id);
      if amount > 0 {
        SumFirst(Fill(grants, capacity, quantity), ShareOf(id));
      }
    }
  }

  /** Each grant gets what the grants before it could not hold, up to its own capacity. */
  lemma {:induction false} FillClosedForm(grants: seq<Grant>, capacity: Grant -> int, quantity: int, i: nat)
    requires i < |grants| && UniqueIds(grants)
    requires forall k | 0 <= k < |grants| :: capacity(grants[k]) >= 0
    ensures Charged(Fill(grants, capacity, quantity), grants[i].id)
      == Min(capacity(grants[i]), AtLeastZero(quantity - SumBy(grants[..i], capacity)))
    decreases |grants|
  {
    SumNonNegative(grants[..i], capacity);
    if quantity > 0 {
      var rest, left := grants[1..], quantity - Min(quantity, capacity(grants[0]));
      FillCharges(grants, capacity, quantity, grants[i].id);
      if i == 0 {
        FillSparesOthers(rest, capacity, left, grants[0].id);
      } else {
        FillClosedForm(rest, capacity, left, i - 1);
        SumFirst(grants[..i], capacity);
        assert grants[..i][1..] == rest[..i - 1];
        SumNonNegative(rest[..i - 1], capacity);
      }
    }
  }

  /** What a fill charges one grant: its share of the first grant's item, and of the rest. */
  lemma FillCharges(grants: seq<Grant>, capacity: Grant -> int, quantity: int, id: int)
    requires grants != [] && quantity > 0 && capacity(grants[0]) >= 0
    ensures var amount := Min(quantity, capacity(grants[0]));
      Charged(Fill(grants, capacity, quantity), id)
        == (if grants[0].id == id then amount else 0) + Charged(Fill(grants[1..], capacity, quantity - amount), id)
  {
    if capacity(grants[0]) > 0 {
      SumFirst(Fill(grants, capacity, quantity), ShareOf(id));
    }
  }

  lemma FillWithinCapacity(grants: seq<Grant>, capacity: Grant -> int, quantity: int, i: nat)
    requires i < |grants| && UniqueIds(grants)
    requires forall k | 0 <= k < |grants| :: capacity(grants[k]) >= 0
    ensures Charged(Fill(grants, capacity, quantity), grants[i].id) <= capacity(grants[i])
  {
    FillClosedForm(grants, capacity, quantity, i);
  }

  /** A grant left unfilled means that no later one is touched. */
  lemma EarlierGrantsFillFirst(grants: seq<Grant>, capacity: Grant -> int, quantity: int, i: nat, j: nat)
    requires i < j < |grants| && UniqueIds(grants)
    requires forall k | 0 <= k < |grants| :: capacity(grants[k]) >= 0
    requires Charged(Fill(grants, capacity, quantity), grants[i].id) < capacity(grants[i])
    ensures Charged(Fill(grants, capacity, quantity), grants[j].id) == 0
  {
    FillClosedForm(grants, capacity, quantity, i);
    FillClosedForm(grants, capacity, quantity, j);
    PrefixIncludes(grants, capacity, i, j);
  }

  lemma PrefixIncludes(grants: seq<Grant>, capacity: Grant -> int, i: nat, j: nat)
    requires i < j <= |grants|
    requires forall k | 0 <= k < |grants| :: capacity(grants[k]) >= 0
    ensures SumBy(grants[..j], capacity) >= SumBy(grants[..i], capacity) + capacity(grants[i])
  {
    SumAppend(grants[..i], grants[i], capacity);
    assert grants[..i + 1] == grants[..i] + [grants[i]];
    assert grants[..j] == grants[..i + 1] + grants[i + 1..j];
    SumConcat(grants[..i + 1], grants[i + 1..j], capacity);
    SumNonNegative(grants[i + 1..j], capacity);
  }

  // ---- spending order ----

  lemma {:induction false} InsertKeepsOrder(grant: Grant, sorted: seq<Grant>)
    requires Ordered(sorted)
    ensures Ordered(Insert(grant, sorted))
    ensures forall g :: g in Insert(grant, sorted) <==> g == grant || g in sorted
    ensures |Insert(grant, sorted)| == |sorted| + 1
    decreases |sorted|
  {
    if sorted != [] {
      if Before(grant, sorted[0]) {
      } else {
        InsertKeepsOrder(grant, sorted[1..]);
        assert forall g | g in Insert(grant, sorted[1..]) :: Before(sorted[0], g);
        assert forall g :: g in sorted <==> g == sorted[0] || g in sorted[1..];
      }
    }
  }

  lemma {:induction false} InsertKeepsUnique(grant: Grant, sorted: seq<Grant>)
    requires UniqueIds(sorted) && (forall g | g in sorted :: g.id != grant.id) && Ordered(sorted)
    ensures UniqueIds(Insert(grant, sorted))
    decreases |sorted|
  {
    if sorted != [] && !Before(grant, sorted[0]) {
      var rest := Insert(grant, sorted[1..]);
      InsertKeepsUnique(grant, sorted[1..]);
      InsertKeepsOrder(grant, sorted[1..]);
      forall k | 0 <= k < |rest| ensures rest[k].id != sorted[0].id {
        assert rest[k] in rest;
        assert rest[k] == grant || rest[k] in sorted[1..];
      }
    }
  }

  lemma {:induction false} InsertAddsWeight(grant: Grant, sorted: seq<Grant>, weight: Grant -> int)
    ensures SumBy(Insert(grant, sorted), weight) == SumBy(sorted, weight) + weight(grant)
    decreases |sorted|
  {
    var result := Insert(grant, sorted);
    SumFirst(result, weight);
    if sorted != [] {
      SumFirst(sorted, weight);
      if Before(grant, sorted[0]) {
        assert result[1..] == sorted;
      } else {
        assert result[1..] == Insert(grant, sorted[1..]);
        InsertAddsWeight(grant, sorted[1..], weight);
      }
    } else {
      assert result[1..] == sorted;
    }
  }

  function OfAccount(account: Account, weight: Grant -> int): Grant -> int {
    (grant: Grant) => if grant.account == account then weight(grant) else 0
  }

  function OfActive(account: Account, at: int, weight: Grant -> int): Grant -> int {
    (grant: Grant) => if grant.account == account && grant.ActiveAt(at) then weight(grant) else 0
  }

  /** InOrder is the account's grants, each once, by end, start and id. */
  lemma {:induction false} InOrderIsSorted(grants: seq<Grant>, account: Account)
    requires UniqueIds(grants)
    ensures Ordered(InOrder(grants, account)) && UniqueIds(InOrder(grants, account))
    ensures forall g :: g in InOrder(grants, account) <==> g in grants && g.account == account
    decreases |grants|
  {
    if grants != [] {
      var n := |grants| - 1;
      InOrderIsSorted(grants[..n], account);
      assert forall g :: g in grants <==> g in grants[..n] || g == grants[n];
      if grants[n].account == account {
        InsertKeepsOrder(grants[n], InOrder(grants[..n], account));
        InsertKeepsUnique(grants[n], InOrder(grants[..n], account));
      }
    }
  }

  lemma {:induction false} InOrderSum(grants: seq<Grant>, account: Account, weight: Grant -> int)
    ensures SumBy(InOrder(grants, account), weight) == SumBy(grants, OfAccount(account, weight))
    decreases |grants|
  {
    if grants != [] {
      var n := |grants| - 1;
      InOrderSum(grants[..n], account, weight);
      if grants[n].account == account {
        InsertAddsWeight(grants[n], InOrder(grants[..n], account), weight);
      }
    }
  }

  lemma {:induction false} OnlyActiveKeeps(grants: seq<Grant>, at: int)
    requires Ordered(grants) && UniqueIds(grants)
    ensures Ordered(OnlyActive(grants, at)) && UniqueIds(OnlyActive(grants, at))
    ensures forall g :: g in OnlyActive(grants, at) <==> g in grants && g.ActiveAt(at)
    decreases |grants|
  {
    if grants != [] {
      OnlyActiveKeeps(grants[1..], at);
      assert forall g :: g in grants <==> g == grants[0] || g in grants[1..];
      var rest := OnlyActive(grants[1..], at);
      forall k | 0 <= k < |rest| ensures Before(grants[0], rest[k]) && rest[k].id != grants[0].id {
        assert rest[k] in grants[1..];
        var j :| 0 <= j < |grants| - 1 && grants[1..][j] == rest[k];
        assert grants[j + 1] == rest[k];
      }
      assert OnlyActive(grants, at) == if grants[0].ActiveAt(at) then [grants[0]] + rest else rest;
    }
  }

  lemma {:induction false} OnlyActiveSum(grants: seq<Grant>, account: Account, at: int, weight: Grant -> int)
    requires forall g | g in grants :: g.account == account
    ensures SumBy(OnlyActive(grants, at), weight) == SumBy(grants, OfActive(account, at, weight))
    decreases |grants|
  {
    if grants != [] {
      OnlyActiveSum(grants[1..], account, at, weight);
      SumFirst(grants, OfActive(account, at, weight));
      var rest := OnlyActive(grants[1..], at);
      if grants[0].ActiveAt(at) {
        assert OnlyActive(grants, at) == [grants[0]] + rest;
        SumFirst([grants[0]] + rest, weight);
        assert ([grants[0]] + rest)[1..] == rest;
      } else {
        assert OnlyActive(grants, at) == rest;
      }
    }
  }

  lemma ActiveInOrderIs(db: Db, account: Account)
    requires UniqueIds(db.grants)
    ensures var active := ActiveInOrder(db, account);
      && Ordered(active) && UniqueIds(active)
      && forall g :: g in active <==> g in db.grants && g.account == account && g.ActiveAt(db.clock)
  {
    InOrderIsSorted(db.grants, account);
    OnlyActiveKeeps(InOrder(db.grants, account), db.clock);
  }

  /** While no grant of the account is active, nothing is allocated. */
  lemma NothingToAllocate(db: Db, account: Account, quantity: int)
    requires UniqueIds(db.grants)
    requires forall g | g in db.grants && g.account == account :: !g.ActiveAt(db.clock)
    ensures Allocate(db, account, quantity) == []
  {
    ActiveInOrderIs(db, account);
    FirstIsMember(ActiveInOrder(db, account));
  }

  lemma FirstIsMember(grants: seq<Grant>)
    ensures grants != [] ==> grants[0] in grants
  {}

  lemma ActiveInOrderSum(db: Db, account: Account, weight: Grant -> int)
    requires UniqueIds(db.grants)
    ensures SumBy(ActiveInOrder(db, account), weight) == SumBy(db.grants, OfActive(account, db.clock, weight))
  {
    InOrderIsSorted(db.grants, account);
    OnlyActiveSum(InOrder(db.grants, account), account, db.clock, weight);
    InOrderSum(db.grants, account, OfActive(account, db.clock, weight));
    SumEqualWeights(db.grants, OfAccount(account, OfActive(account, db.clock, weight)),
                    OfActive(account, db.clock, weight));
  }

  // ---- the balance, grant by grant ----

  /** What one usage row takes from one grant, whether by allocation or by its period. */
  function UsedOnRow(row: Usage, grants: seq<Grant>, grant: Grant): int {
    if row.account != grant.account then 0
    else if HasAllocations(row.items) then Charged(row.items, grant.id)
    else if FirstCovering(InOrder(grants, grant.account), row.occurredAt) == Some(grant) then row.quantity
    else 0
  }

  function RowShare(row: Usage, grants: seq<Grant>): Grant -> int {
    (grant: Grant) => UsedOnRow(row, grants, grant)
  }

  function GrantShare(grants: seq<Grant>, grant: Grant): Usage -> int {
    (row: Usage) => UsedOnRow(row, grants, grant)
  }

  function UsedOn(usage: seq<Usage>, grants: seq<Grant>, grant: Grant): int {
    SumBy(usage, GrantShare(grants, grant))
  }

  function UsedOnEach(usage: seq<Usage>, grants: seq<Grant>): Grant -> int {
    (grant: Grant) => UsedOn(usage, grants, grant)
  }

  /** What is left on a grant; it does not depend on the time. */
  function LeftOn(usage: seq<Usage>, grants: seq<Grant>): Grant -> int {
    (grant: Grant) => grant.quantity - UsedOn(usage, grants, grant)
  }

  /** What is left on the grants of an account that are active at a time. */
  function UnspentAt(db: Db, account: Account, at: int): int {
    SumBy(db.grants, OfActive(account, at, LeftOn(db.usage, db.grants)))
  }

  lemma {:induction false} SumAdds<T>(rows: seq<T>, f: T -> int, g: T -> int, h: T -> int)
    requires forall i | 0 <= i < |rows| :: h(rows[i]) == f(rows[i]) + g(rows[i])
    ensures SumBy(rows, h) == SumBy(rows, f) + SumBy(rows, g)
    decreases |rows|
  {
    if rows != [] {
      SumAdds(rows[..|rows| - 1], f, g, h);
    }
  }

  function ChargedEach(items: seq<Item>): Grant -> int {
    (grant: Grant) => Charged(items, grant.id)
  }

  /** A recorded share of an active grant is counted once: at that grant. */
  lemma OneShare(item: Item, grants: seq<Grant>, account: Account, at: int)
    requires UniqueIds(grants)
    ensures ShareIn(ActiveIds(grants, account, at))(item)
      == SumBy(grants, OfActive(account, at, ChargedEach([item])))
  {
    var weight := OfActive(account, at, ChargedEach([item]));
    forall k | 0 <= k < |grants| ensures ChargedEach([item])(grants[k]) == ShareOf(grants[k].id)(item) {
      SumAppend([], item, ShareOf(grants[k].id));
      assert [] + [item] == [item];
    }
    if item.Counts() && item.grant.value in ActiveIds(grants, account, at) {
      var j :| 0 <= j < |grants| && grants[j].id == item.grant.value
        && grants[j].account == account && grants[j].ActiveAt(at);
      SumSingle(grants, j, weight);
    } else {
      forall k | 0 <= k < |grants| ensures weight(grants[k]) == 0 {
        assert grants[k] in grants;
      }
      SumZero(grants, weight);
    }
  }

  lemma {:induction false} SharesSpread(items: seq<Item>, grants: seq<Grant>, account: Account, at: int)
    requires UniqueIds(grants)
    ensures SumBy(items, ShareIn(ActiveIds(grants, account, at)))
      == SumBy(grants, OfActive(account, at, ChargedEach(items)))
    decreases |items|
  {
    if items == [] {
      SumZero(grants, OfActive(account, at, ChargedEach(items)));
    } else {
      var n := |items| - 1;
      SharesSpread(items[..n], grants, account, at);
      OneShare(items[n], grants, account, at);
      forall k | 0 <= k < |grants|
        ensures ChargedEach(items)(grants[k]) == ChargedEach(items[..n])(grants[k]) + ChargedEach([items[n]])(grants[k])
      {
        SumAppend([], items[n], ShareOf(grants[k].id));
        assert [] + [items[n]] == [items[n]];
      }
      SumAdds(grants, OfActive(account, at, ChargedEach(items[..n])), OfActive(account, at, ChargedEach([items[n]])),
              OfActive(account, at, ChargedEach(items)));
    }
  }

  lemma {:induction false} FirstCoveringIs(ordered: seq<Grant>, at: int)
    ensures FirstCovering(ordered, at).Some? ==>
      FirstCovering(ordered, at).value in ordered && FirstCovering(ordered, at).value.ActiveAt(at)
    ensures FirstCovering(ordered, at).None? ==> forall g | g in ordered :: !g.ActiveAt(at)
    decreases |ordered|
  {
    if ordered != [] && !ordered[0].ActiveAt(at) {
      FirstCoveringIs(ordered[1..], at);
    }
  }

  /** What the balance takes for a row is what the row takes from each active grant. */
  lemma RowUseSpreads(row: Usage, grants: seq<Grant>, account: Account, now: int)
    requires UniqueIds(grants) && row.occurredAt <= now
    ensures RowUse(row, grants, account, now) == SumBy(grants, OfActive(account, now, RowShare(row, grants)))
  {
    var weight := OfActive(account, now, RowShare(row, grants));
    if row.account != account {
      SumZero(grants, weight);
    } else if HasAllocations(row.items) {
      SharesSpread(row.items, grants, account, now);
      SumEqualWeights(grants, OfActive(account, now, ChargedEach(row.items)), weight);
    } else {
      var first := FirstCovering(InOrder(grants, account), row.occurredAt);
      InOrderIsSorted(grants, account);
      FirstCoveringIs(InOrder(grants, account), row.occurredAt);
      if first.Some? {
        var j :| 0 <= j < |grants| && grants[j] == first.value;
        SumSingle(grants, j, weight);
        assert grants[j].id in ActiveIds(grants, account, now) <==> grants[j].ActiveAt(now);
      } else {
        SumZero(grants, weight);
      }
    }
  }

  lemma {:induction false} UsedSpreads(usage: seq<Usage>, grants: seq<Grant>, account: Account, now: int)
    requires UniqueIds(grants)
    requires forall r | 0 <= r < |usage| :: usage[r].occurredAt <= now
    ensures SumBy(usage, UseAt(grants, account, now))
      == SumBy(grants, OfActive(account, now, UsedOnEach(usage, grants)))
    decreases |usage|
  {
    if usage == [] {
      SumZero(grants, OfActive(account, now, UsedOnEach(usage, grants)));
    } else {
      var n := |usage| - 1;
      UsedSpreads(usage[..n], grants, account, now);
      RowUseSpreads(usage[n], grants, account, now);
      SumAdds(grants, OfActive(account, now, UsedOnEach(usage[..n], grants)),
              OfActive(account, now, RowShare(usage[n], grants)),
              OfActive(account, now, UsedOnEach(usage, grants)));
    }
  }

  /** The balance before holds is what is left on the active grants. */
  lemma BalanceIsUnspent(db: Db, account: Account)
    requires UniqueIds(db.grants)
    requires forall r | 0 <= r < |db.usage| :: db.usage[r].occurredAt <= db.clock
    ensures Granted(db, account) - Used(db, account) == UnspentAt(db, account, db.clock)
  {
    UsedSpreads(db.usage, db.grants, account, db.clock);
    var left, used := OfActive(account, db.clock, LeftOn(db.usage, db.grants)),
                      OfActive(account, db.clock, UsedOnEach(db.usage, db.grants));
    SumAdds(db.grants, left, used, GrantedAt(account, db.clock));
  }
}
