/** What a scope's spending is: exactly what is recorded for the calls charged to it. */
module ProviderBudgetSpending {
  import opened Tables
  import opened ProviderBudget
  import opened ProviderBudgetRecords
  import opened ProviderBudgetBounds
  import opened ProviderBudgetFinality

  /** The four scopes that a call is charged to. */
  function Payers(user: string, campaign: string, task: string): set<Scope> {
    {Scope(Site, "default"), Scope(User, user), Scope(Campaign, campaign), Scope(Task, task)}
  }

  /** A row of limits that applies to a scope at a time. */
  predicate Applies(row: Limit, scope: Scope, now: int) {
    row.scope == scope && row.active && row.start <= now && now < row.end
  }

  lemma InForceMeans(limits: seq<Limit>, scope: Scope, now: int)
    ensures InForce(limits, scope, now) <==> exists row | row in limits :: Applies(row, scope, now)
  {
    if InForce(limits, scope, now) {
      var row :| row in limits && Covers(row, scope, now);
      assert Applies(row, scope, now);
    }
    if exists row | row in limits :: Applies(row, scope, now) {
      var row :| row in limits && Applies(row, scope, now);
      assert Covers(row, scope, now);
    }
  }

  // ---- one settlement ----

  /** Settling a call adds its cost to what each of its scopes in force has spent, and to no other. */
  lemma SettlementIsSpent(db: Db, i: nat, cost: int, payload: Settlement, scope: Scope)
    requires Open(db, i) && cost >= 0 && Proper(scope)
    requires exists row | row in db.limits :: Applies(row, scope, db.clock)
    ensures var call, next := db.calls[i], Settle(db, i, cost, payload);
      && Spent(next, scope) == Spent(db, scope)
           + (if scope in Payers(call.user, call.campaign, call.task) then cost else 0)
      && Reserved(next, scope) == Reserved(db, scope)
           - (if scope in Payers(call.user, call.campaign, call.task) then call.reserved else 0)
  {
    SettleMovesSpent(db, i, cost, payload, scope);
    SettleMovesClaims(db, i, cost, payload, scope);
    PayersAreMembers(db.calls[i], scope);
    NewCostIsSpent(db, db.calls[i], cost, scope);
  }

  lemma NewCostIsSpent(db: Db, call: Call, cost: int, scope: Scope)
    requires Proper(scope) && exists row | row in db.limits :: Applies(row, scope, db.clock)
    ensures SpentIn(scope, db.limits, db.clock)(CostRow(db, call, cost))
      == if scope in Payers(call.user, call.campaign, call.task) then cost else 0
  {
    InForceMeans(db.limits, scope, db.clock);
    var row :| row in db.limits && Covers(row, scope, db.clock);
    assert Counted(db.limits, scope, db.clock, db.clock);
    ChargedToPayers(CostRow(db, call, cost), call, scope);
  }

  lemma PayersAreMembers(call: Call, scope: Scope)
    requires Proper(scope)
    ensures Member(call, scope) <==> scope in Payers(call.user, call.campaign, call.task)
  {
    match scope.kind
    case Site =>
    case _ =>
  }

  // ---- every run ----

  /** A consumption was recorded for a call on the books, and for the scopes of that call. */
  ghost predicate BilledFor(row: Consumption, call: Call) {
    call.id == row.call && call.user == row.user && call.campaign == row.campaign && call.task == row.task
  }

  ghost predicate IsBilled(row: Consumption, calls: seq<Call>) {
    exists i | 0 <= i < |calls| :: BilledFor(row, calls[i])
  }

  ghost predicate AllBilled(ledger: seq<Consumption>, calls: seq<Call>) {
    forall r | 0 <= r < |ledger| :: IsBilled(ledger[r], calls)
  }

  /** A step records nothing, or the cost of one call. */
  ghost predicate RecordsOneCall(db: Db, next: Db) {
    next.ledger == db.ledger
    || exists i, cost :: 0 <= i < |db.calls| && next.ledger == db.ledger + [CostRow(db, db.calls[i], cost)]
  }

  lemma SettleRecordsOneCall(db: Db, i: nat, payload: Settlement)
    requires RecordsAgree(db) && i < |db.calls| && SettleRecord(db, db.calls[i], payload).Committed?
    ensures RecordsOneCall(db, SettleRecord(db, db.calls[i], payload).db)
  {
    if db.calls[i].settlement.None? {
      SettleRecordOfOpen(db, i, payload);
      if Billable(payload.usage).Some? {
        var cost := CostOf(db.calls[i].price, Billable(payload.usage).value);
        assert Settle(db, i, cost, payload).ledger == db.ledger + [CostRow(db, db.calls[i], cost)];
      }
    }
  }

  lemma ReconcileRecordsOneCall(db: Db, step: Step)
    requires RecordsAgree(db) && step.DoReconcile? && Attempt(db, step).Committed?
    ensures RecordsOneCall(db, Apply(db, step))
  {
    var i := FindCall(db.calls, (call: Call) => call.id == step.id && call.status in {CallReserved, CallUnknown}).value;
    var payload := OperatorPayload(step.id, step.counts, step.requestId);
    var reopened := Reopened(db, i);
    ReopenedAgrees(db, i);
    ReconcileIsSettlement(db, i, payload);
    SettleRecordsOneCall(reopened, i, payload);
    forall k, cost | 0 <= k < |db.calls|
      ensures CostRow(reopened, reopened.calls[k], cost) == CostRow(db, db.calls[k], cost)
    {}
  }

  lemma StepRecordsOneCall(db: Db, step: Step)
    requires RecordsAgree(db) && step.Valid()
    ensures RecordsOneCall(db, Apply(db, step))
  {
    if step.DoSettle? && Attempt(db, step).Committed? {
      var i := FindCall(db.calls, (call: Call) =>
        call.id == step.payload.call && call.user == step.user && call.campaign == step.campaign
        && call.task == step.task).value;
      SettleRecordsOneCall(db, i, step.payload);
    } else if step.DoReconcile? && Attempt(db, step).Committed? {
      ReconcileRecordsOneCall(db, step);
    } else if step.DoAuthorize? && Attempt(db, step).Committed? {
      AuthorizeKeeps(db, step.settings, step.userActive, step.req);
    }
  }

  lemma StepKeepsBilled(db: Db, step: Step)
    requires RecordsAgree(db) && AllBilled(db.ledger, db.calls) && step.Valid()
    ensures AllBilled(Apply(db, step).ledger, Apply(db, step).calls)
  {
    var next := Apply(db, step);
    StepRecordsOneCall(db, step);
    StepExtends(db, step);
    BilledStays(db, next);
  }

  lemma BilledStays(db: Db, next: Db)
    requires AllBilled(db.ledger, db.calls) && RecordsOneCall(db, next) && |db.calls| <= |next.calls|
    requires forall i | 0 <= i < |db.calls| :: SameTerms(db.calls[i], next.calls[i])
    ensures AllBilled(next.ledger, next.calls)
  {
    forall r | 0 <= r < |next.ledger| ensures IsBilled(next.ledger[r], next.calls) {
      if r < |db.ledger| {
        assert next.ledger[r] == db.ledger[r] && IsBilled(db.ledger[r], db.calls);
        var i :| 0 <= i < |db.calls| && BilledFor(db.ledger[r], db.calls[i]);
        assert SameTerms(db.calls[i], next.calls[i]) && BilledFor(next.ledger[r], next.calls[i]);
      } else {
        var i, cost :| 0 <= i < |db.calls| && next.ledger == db.ledger + [CostRow(db, db.calls[i], cost)];
        assert SameTerms(db.calls[i], next.calls[i]) && BilledFor(next.ledger[r], next.calls[i]);
      }
    }
  }

  lemma {:induction false} RunsStayBilled(db: Db, steps: seq<Step>)
    requires RecordsAgree(db) && AllBilled(db.ledger, db.calls) && ValidRun(steps)
    ensures AllBilled(Run(db, steps).ledger, Run(db, steps).calls)
    decreases |steps|
  {
    if steps != [] {
      assert steps[0] in steps;
      StepKeepsBilled(db, steps[0]);
      StepKeepsRecords(db, steps[0]);
      RunsStayBilled(Apply(db, steps[0]), steps[1..]);
    }
  }

  /** A time falls in a period of the scope that runs now. */
  predicate InPeriod(limits: seq<Limit>, scope: Scope, now: int, at: int) {
    exists row | row in limits :: Applies(row, scope, now) && row.start <= at && at < row.end
  }

  /** What a call has cost in the periods of a scope that run now, row by row. */
  function CostRowNow(limits: seq<Limit>, scope: Scope, now: int, call: string): Consumption -> int {
    (row: Consumption) => if row.call == call && InPeriod(limits, scope, now, row.occurredAt) then row.quantity else 0
  }

  /** What a call has cost a scope, if it is charged to it. */
  function CostTo(ledger: seq<Consumption>, limits: seq<Limit>, scope: Scope, now: int): Call -> int {
    (call: Call) =>
      if scope in Payers(call.user, call.campaign, call.task)
      then SumBy(ledger, CostRowNow(limits, scope, now, call.id)) else 0
  }

  lemma CountedIsInPeriod(limits: seq<Limit>, scope: Scope, now: int, at: int)
    ensures Counted(limits, scope, now, at) <==> InPeriod(limits, scope, now, at)
  {
    if Counted(limits, scope, now, at) {
      var row :| row in limits && Covers(row, scope, now) && row.start <= at < row.end;
      assert Applies(row, scope, now);
    }
    if InPeriod(limits, scope, now, at) {
      var row :| row in limits && Applies(row, scope, now) && row.start <= at && at < row.end;
      assert Covers(row, scope, now);
    }
  }

  /** One ledger row is spent by a scope as much as it costs the one call that it bills. */
  lemma RowBillsOneCall(db: Db, scope: Scope, row: Consumption, i: nat)
    requires Proper(scope) && i < |db.calls| && BilledFor(row, db.calls[i])
    requires forall j, k | 0 <= j < k < |db.calls| :: db.calls[j].id != db.calls[k].id
    ensures SumBy(db.calls, CostTo([row], db.limits, scope, db.clock)) == SpentIn(scope, db.limits, db.clock)(row)
  {
    var one := CostTo([row], db.limits, scope, db.clock);
    forall k | 0 <= k < |db.calls| ensures one(db.calls[k]) ==
      if k == i then SpentIn(scope, db.limits, db.clock)(row) else 0
    {
      SumOne(row, CostRowNow(db.limits, scope, db.clock, db.calls[k].id));
      if k == i {
        CountedIsInPeriod(db.limits, scope, db.clock, row.occurredAt);
        ChargedToPayers(row, db.calls[i], scope);
      }
    }
    SumSingle(db.calls, i, one);
  }

  lemma SumOne(row: Consumption, weight: Consumption -> int)
    ensures SumBy([row], weight) == weight(row)
  {
    assert [row] == [] + [row];
    SumAppend([], row, weight);
  }

  lemma ChargedToPayers(row: Consumption, call: Call, scope: Scope)
    requires Proper(scope) && BilledFor(row, call)
    ensures Charges(row, scope) <==> scope in Payers(call.user, call.campaign, call.task)
  {
    match scope.kind
    case Site =>
    case _ =>
  }

  lemma {:induction false} SumOfSums(
      calls: seq<Call>, left: seq<Consumption>, row: Consumption, limits: seq<Limit>, scope: Scope, now: int)
    ensures SumBy(calls, CostTo(left + [row], limits, scope, now))
      == SumBy(calls, CostTo(left, limits, scope, now)) + SumBy(calls, CostTo([row], limits, scope, now))
    decreases |calls|
  {
    if calls != [] {
      var n := |calls| - 1;
      SumOfSums(calls[..n], left, row, limits, scope, now);
      SumAppend(left, row, CostRowNow(limits, scope, now, calls[n].id));
      SumOne(row, CostRowNow(limits, scope, now, calls[n].id));
    }
  }

  lemma OneMoreRow(db: Db, ledger: seq<Consumption>, row: Consumption, scope: Scope)
    requires Proper(scope) && IsBilled(row, db.calls)
    requires forall j, k | 0 <= j < k < |db.calls| :: db.calls[j].id != db.calls[k].id
    ensures SumBy(db.calls, CostTo(ledger + [row], db.limits, scope, db.clock))
      == SumBy(db.calls, CostTo(ledger, db.limits, scope, db.clock)) + SpentIn(scope, db.limits, db.clock)(row)
  {
    SumOfSums(db.calls, ledger, row, db.limits, scope, db.clock);
    var i :| 0 <= i < |db.calls| && BilledFor(row, db.calls[i]);
    RowBillsOneCall(db, scope, row, i);
  }

  lemma {:induction false} LedgerIsSpent(db: Db, ledger: seq<Consumption>, scope: Scope)
    requires Proper(scope) && AllBilled(ledger, db.calls)
    requires forall j, k | 0 <= j < k < |db.calls| :: db.calls[j].id != db.calls[k].id
    ensures SumBy(ledger, SpentIn(scope, db.limits, db.clock))
      == SumBy(db.calls, CostTo(ledger, db.limits, scope, db.clock))
    decreases |ledger|
  {
    if ledger == [] {
      NothingCosts(db.calls, db.limits, scope, db.clock);
    } else {
      var n := |ledger| - 1;
      var rest, row := ledger[..n], ledger[n];
      assert AllBilled(rest, db.calls) by { assert forall r | 0 <= r < n :: IsBilled(ledger[r], db.calls); }
      LedgerIsSpent(db, rest, scope);
      assert ledger == rest + [row];
      assert IsBilled(ledger[n], db.calls);
      OneMoreRow(db, rest, row, scope);
    }
  }

  lemma NothingCosts(calls: seq<Call>, limits: seq<Limit>, scope: Scope, now: int)
    ensures SumBy(calls, CostTo([], limits, scope, now)) == 0
  {
    SumZero(calls, CostTo([], limits, scope, now));
  }

  /**
   In every run from the empty database, what a scope has spent is what has been recorded, in the
   periods of the scope that run now, for exactly the calls that name it among their payers.
   */
  lemma SpendingIsRecordedCost(steps: seq<Step>, scope: Scope)
    requires ValidRun(steps) && Proper(scope)
    ensures var db := Run(EMPTY, steps);
      Spent(db, scope) == SumBy(db.calls, CostTo(db.ledger, db.limits, scope, db.clock))
  {
    RecordsAlwaysAgree(EMPTY, steps);
    RunsStayBilled(EMPTY, steps);
    LedgerIsSpent(Run(EMPTY, steps), Run(EMPTY, steps).ledger, scope);
  }
}
