/** A run from the empty tables after which a new grant breaks the conservation law, or keeps it. */
module QuotaLateGrant {
  import opened Tables
  import opened Quota
  import opened QuotaAllocation
  import opened QuotaLaw
  import opened QuotaGrants
  import opened QuotaRuns
  import opened QuotaFailures

  /** The reservation, settled when no grant is active: nothing is allocated. */
  function SettledLate(account: Account, quantity: int): Db {
    Db(5, [ShortGrant(account, quantity)], [Hold(account, quantity, Settled, quantity)],
       [Usage(account, Some(1), quantity, "tokens", "s", 5, [])], {})
  }

  function LateSteps(account: Account, quantity: int): seq<Step> {
    HeldSteps(account, quantity) + [Tick(5)] + [DoSettle(1, quantity, "s", "tokens")]
  }

  lemma LateRun(account: Account, quantity: int)
    requires quantity > 0
    ensures Run(EMPTY, LateSteps(account, quantity)) == SettledLate(account, quantity)
  {
    var held := HeldWhole(account, quantity, 5);
    HeldRun(account, quantity);
    RunThen(EMPTY, HeldSteps(account, quantity), Tick(5));
    RunThen(EMPTY, HeldSteps(account, quantity) + [Tick(5)], DoSettle(1, quantity, "s", "tokens"));
    NothingToAllocate(held, account, quantity);
    assert held.reservations[0 := Hold(account, quantity, Settled, quantity)]
      == SettledLate(account, quantity).reservations;
    assert [] + SettledLate(account, quantity).usage == SettledLate(account, quantity).usage;
  }

  /** The late use counts for nothing until a grant covers it. */
  lemma LateUseIsFree(account: Account, quantity: int, grant: Grant)
    requires grant.account == account && grant.ActiveAt(5)
    ensures Used(SettledLate(account, quantity), account) == 0
    ensures LateUse(SettledLate(account, quantity), grant) == quantity
  {
    var db := SettledLate(account, quantity);
    OneGrantInOrder(ShortGrant(account, quantity));
    assert FirstCovering([ShortGrant(account, quantity)], 5).None?;
    SumSingle(db.usage, 0, UseAt(db.grants, account, 5));
    SumSingle(db.usage, 0, LateOn(db.grants, grant));
  }

  /**
   After that run every new active grant is charged for the late use at once, so the law holds
   with it if and only if it is at least as large; a smaller one breaks the law.
   */
  lemma GrantReachingBackBreaksLaw(account: Account, quantity: int, grant: Grant)
    requires quantity > 0 && grant.quantity > 0 && grant.id != 1 && grant.account == account && grant.ActiveAt(5)
    ensures var late := Run(EMPTY, LateSteps(account, quantity));
      && Law(late, account)
      && Run(EMPTY, LateSteps(account, quantity) + [DoGrant(grant)]) == AddGrant(late, grant)
      && (Law(AddGrant(late, grant), account) <==> quantity <= grant.quantity)
  {
    var late := SettledLate(account, quantity);
    LateRun(account, quantity);
    RunThen(EMPTY, LateSteps(account, quantity), DoGrant(grant));
    LateUseIsFree(account, quantity, grant);
    SumZero(late.reservations, HeldFor(account));
    SumZero(late.grants, GrantedAt(account, 5));
    GrantsAreNeverOverdrawn(EMPTY, LateSteps(account, quantity));
    NewGrantKeepsLawExactly(late, grant, account);
  }
}
