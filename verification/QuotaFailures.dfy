/** A run from the empty tables that breaks the conservation law: a grant ends while it is held. */
module QuotaFailures {
  import opened Tables
  import opened Quota
  import opened QuotaLaw

  lemma RunFirst(db: Db, step: Step, rest: seq<Step>)
    ensures Run(db, [step] + rest) == Run(Apply(db, step), rest)
  {
    assert ([step] + rest)[1..] == rest;
  }

  lemma {:induction false} RunThen(db: Db, steps: seq<Step>, step: Step)
    ensures Run(db, steps + [step]) == Apply(Run(db, steps), step)
    decreases |steps|
  {
    if steps == [] {
      RunFirst(db, step, []);
      assert [] + [step] == [step] + [];
    } else {
      RunThen(Apply(db, steps[0]), steps[1..], step);
      assert (steps + [step])[1..] == steps[1..] + [step];
    }
  }

  /** A grant for the first five seconds, of which everything is reserved. */
  function ShortGrant(account: Account, quantity: int): Grant { Grant(1, account, quantity, 0, 5) }

  function Hold(account: Account, quantity: int, status: ReservationStatus, settled: int): Reservation {
    Reservation(1, account, "c", quantity, settled, status, "k", 300)
  }

  function HeldWhole(account: Account, quantity: int, clock: int): Db {
    Db(clock, [ShortGrant(account, quantity)], [Hold(account, quantity, Reserved, 0)], [], {})
  }

  lemma GrantIsAvailable(account: Account, quantity: int)
    requires quantity > 0
    ensures Available(Db(0, [ShortGrant(account, quantity)], [], [], {}), account) == quantity
  {
    SumSingle([ShortGrant(account, quantity)], 0, GrantedAt(account, 0));
  }

  /** Grant, reserve all of it, and wait until the grant has ended. */
  function HeldSteps(account: Account, quantity: int): seq<Step> {
    [DoGrant(ShortGrant(account, quantity))] + [DoReserve(1, account, "c", quantity, "k", 300)]
  }

  lemma HeldRun(account: Account, quantity: int)
    requires quantity > 0
    ensures Run(EMPTY, HeldSteps(account, quantity)) == HeldWhole(account, quantity, 0)
  {
    var granted := Db(0, [ShortGrant(account, quantity)], [], [], {});
    RunThen(EMPTY, [DoGrant(ShortGrant(account, quantity))], DoReserve(1, account, "c", quantity, "k", 300));
    assert [] + [DoGrant(ShortGrant(account, quantity))] == [DoGrant(ShortGrant(account, quantity))];
    RunThen(EMPTY, [], DoGrant(ShortGrant(account, quantity)));
    assert [] + granted.grants == granted.grants;
    assert Reap(granted).reservations == [];
    GrantIsAvailable(account, quantity);
    assert [] + [Hold(account, quantity, Reserved, 0)] == [Hold(account, quantity, Reserved, 0)];
  }

  /** A grant that ends while it is held leaves a deficit, which the clamped balance shows as zero. */
  lemma ExpiryBreaksLaw(account: Account, quantity: int)
    requires quantity > 0
    ensures var held := Run(EMPTY, HeldSteps(account, quantity));
      Law(held, account)
    ensures var ended := Run(EMPTY, HeldSteps(account, quantity) + [Tick(5)]);
      !Law(ended, account) && Available(ended, account) == 0
  {
    HeldRun(account, quantity);
    RunThen(EMPTY, HeldSteps(account, quantity), Tick(5));
    var held, ended := HeldWhole(account, quantity, 0), HeldWhole(account, quantity, 5);
    SumSingle(held.grants, 0, GrantedAt(account, 0));
    SumSingle(held.reservations, 0, HeldFor(account));
    SumZero(ended.grants, GrantedAt(account, 5));
  }
}
