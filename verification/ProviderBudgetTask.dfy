/** The lifetime bound of one task, the finality of settlements, and the fate of calls within bounds. */
module ProviderBudgetTask {
  import opened Tables
  import opened ProviderBudget
  import opened ProviderBudgetRecords
  import opened ProviderBudgetBounds

  function TaskScope(task: string): Scope { Scope(Task, task) }

  function ChargedTo(task: string): Consumption -> int {
    (row: Consumption) => if row.task == task then row.quantity else 0
  }

  /** Everything ever recorded against a task, in whatever period. */
  function TaskTotal(db: Db, task: string): int { SumBy(db.ledger, ChargedTo(task)) }

  predicate IsCapOf(row: Limit, task: string) { row.scope == TaskScope(task) }

  ghost predicate HasCap(limits: seq<Limit>, task: string) {
    exists l | 0 <= l < |limits| :: IsCapOf(limits[l], task)
  }

  /** A task has one cap, opened before anything is charged to it. */
  ghost predicate CapsAreLifelong(db: Db) {
    && (forall a, b | 0 <= a < b < |db.limits| && db.limits[a].scope.kind == Task ::
          db.limits[a].scope != db.limits[b].scope)
    && (forall l | 0 <= l < |db.limits| && db.limits[l].scope.kind == Task :: LifelongCap(db, db.limits[l]))
    && (forall i | 0 <= i < |db.calls| :: HasCap(db.limits, db.calls[i].task))
    && (forall r | 0 <= r < |db.ledger| :: HasCap(db.limits, db.ledger[r].task))
  }

  ghost predicate LifelongCap(db: Db, row: Limit) {
    && row.active && row.start <= db.clock && row.end == row.start + TASK_CAP_SECONDS
    && (forall r | 0 <= r < |db.ledger| && db.ledger[r].task == row.scope.id ::
          row.start <= db.ledger[r].occurredAt <= db.clock)
  }

  /** A call that is not the latest of its task has been settled within its hold. */
  ghost predicate OneOpenCallPerTask(db: Db) {
    forall i, j | 0 <= i < j < |db.calls| && db.calls[i].task == db.calls[j].task ::
      db.calls[i].status == CallSettled
  }

  ghost predicate TaskWithinCap(db: Db, row: Limit) {
    TaskTotal(db, row.scope.id) + Reserved(db, row.scope) <= row.quantity + Excess(db, row.scope)
  }

  ghost predicate TasksWithinCaps(db: Db) {
    forall l | 0 <= l < |db.limits| && db.limits[l].scope.kind == Task :: TaskWithinCap(db, db.limits[l])
  }

  ghost predicate Sound(db: Db) {
    RecordsAgree(db) && CapsAreLifelong(db) && OneOpenCallPerTask(db) && TasksWithinCaps(db)
  }

  // ---- settlement ----

  lemma CapStays(db: Db, next: Db, call: Call)
    requires CapsAreLifelong(db) && call in db.calls && next.limits == db.limits
    requires next.clock == db.clock && |next.calls| == |db.calls|
    requires forall i | 0 <= i < |db.calls| :: next.calls[i].task == db.calls[i].task
    requires next.ledger == db.ledger
      || exists cost :: next.ledger
           == db.ledger + [Consumption(call.id, call.user, call.campaign, call.task, cost, db.clock)]
    ensures CapsAreLifelong(next)
  {}

  lemma SettleKeepsTotal(db: Db, i: nat, cost: int, payload: Settlement, row: Limit)
    requires Open(db, i) && cost >= 0 && row.scope.kind == Task && TaskWithinCap(db, row)
    ensures TaskWithinCap(Settle(db, i, cost, payload), row)
  {
    var call := db.calls[i];
    SettleMovesClaims(db, i, cost, payload, row.scope);
    SumAppend(db.ledger, Consumption(call.id, call.user, call.campaign, call.task, cost, db.clock),
              ChargedTo(row.scope.id));
  }

  /** Replacing an open call by one with the same task keeps the others settled. */
  lemma ReplacedCallKeepsOrder(db: Db, next: Db, i: nat)
    requires OneOpenCallPerTask(db) && i < |db.calls| && db.calls[i].status != CallSettled
    requires |next.calls| == |db.calls| && next.calls[i].task == db.calls[i].task
    requires forall j | 0 <= j < |db.calls| && j != i :: next.calls[j] == db.calls[j]
    ensures OneOpenCallPerTask(next)
  {}

  lemma SettleKeepsTask(db: Db, i: nat, cost: int, payload: Settlement)
    requires Sound(db) && Open(db, i) && cost >= 0
    ensures Sound(Settle(db, i, cost, payload))
  {
    var next := Settle(db, i, cost, payload);
    assert db.calls[i].status == CallReserved by { assert CallAgrees(db.calls[i], db.ledger); }
    SettleKeeps(db, i, cost, payload);
    assert next.limits == db.limits && |next.calls| == |db.calls|
      && next.calls == db.calls[i := db.calls[i].(status := next.calls[i].status, settlement := Some(payload))] by {
      UpdateCallChangesOne(db, i, if cost > db.calls[i].reserved then CallOverrun else CallSettled, payload);
    }
    CapStays(db, next, db.calls[i]);
    ReplacedCallKeepsOrder(db, next, i);
    forall l | 0 <= l < |next.limits| && next.limits[l].scope.kind == Task ensures TaskWithinCap(next, next.limits[l]) {
      SettleKeepsTotal(db, i, cost, payload, db.limits[l]);
    }
  }

  lemma MarkUnknownKeepsTask(db: Db, i: nat, payload: Settlement)
    requires Sound(db) && Open(db, i)
    ensures var call := db.calls[i];
      Sound(db.(claims := MarkUnknown(db.claims, call.id),
                calls := UpdateCall(db.calls, call.id, CallUnknown, payload)))
  {
    var call := db.calls[i];
    var next := db.(claims := MarkUnknown(db.claims, call.id),
                    calls := UpdateCall(db.calls, call.id, CallUnknown, payload));
    assert call.status == CallReserved by { assert CallAgrees(call, db.ledger); }
    MarkUnknownKeeps(db, i, payload);
    UpdateCallChangesOne(db, i, CallUnknown, payload);
    CapStays(db, next, call);
    ReplacedCallKeepsOrder(db, next, i);
    SameSumsKeepTask(db, next, i);
  }

  lemma SettleRecordKeepsTask(db: Db, i: nat, payload: Settlement)
    requires Sound(db) && i < |db.calls| && SettleRecord(db, db.calls[i], payload).Committed?
    ensures Sound(SettleRecord(db, db.calls[i], payload).db)
  {
    var call := db.calls[i];
    if call.settlement.None? {
      SettleRecordOfOpen(db, i, payload);
      match Billable(payload.usage) {
        case Some(counts) =>
          CostIsNonNegative(call.price, counts) by { assert CallAgrees(call, db.ledger); }
          SettleKeepsTask(db, i, CostOf(call.price, counts), payload);
        case None => MarkUnknownKeepsTask(db, i, payload);
      }
    }
  }

  /** A change of one open call that keeps its sums keeps the tasks' bounds. */
  lemma SameSumsKeepTask(db: Db, next: Db, i: nat)
    requires TasksWithinCaps(db) && next.limits == db.limits && next.ledger == db.ledger && i < |db.calls|
    requires (next.claims == MarkUnknown(db.claims, db.calls[i].id) && Open(db, i))
          || next.claims == Reopen(db.claims, db.calls[i].id)
    ensures TasksWithinCaps(next)
  {
    forall l | 0 <= l < |next.limits| && next.limits[l].scope.kind == Task ensures TaskWithinCap(next, next.limits[l]) {
      assert TaskWithinCap(db, db.limits[l]);
      if next.claims == Reopen(db.claims, db.calls[i].id) {
        ReopenMovesNothing(db, i, db.limits[l].scope);
      } else {
        MarkUnknownMovesNothing(db, i, db.limits[l].scope);
      }
    }
  }

  lemma ReopenKeepsTask(db: Db, i: nat)
    requires Sound(db) && i < |db.calls| && !Closed(db.calls[i])
    ensures Sound(Reopened(db, i))
  {
    ReopenedAgrees(db, i);
    CapStays(db, Reopened(db, i), db.calls[i]);
    SameSumsKeepTask(db, Reopened(db, i), i);
  }

  // ---- authorisation ----

  /** The requested task's cap, as the authorisation sees it. */
  lemma CapOfTask(db: Db, budget: int, task: string) returns (l: nat)
    requires CapsAreLifelong(db)
    ensures var capped := db.(limits := WithTaskCap(db.limits, task, budget, db.clock));
      && CapsAreLifelong(capped) && l < |capped.limits| && IsCapOf(capped.limits[l], task)
      && (HasCap(db.limits, task) ==> capped == db)
      && (!HasCap(db.limits, task) ==> l == |db.limits| && capped.limits[l].quantity == budget)
  {
    var capped := db.(limits := WithTaskCap(db.limits, task, budget, db.clock));
    if HasCap(db.limits, task) {
      l :| 0 <= l < |db.limits| && IsCapOf(db.limits[l], task);
      assert db.limits[l] in db.limits;
    } else {
      l := |db.limits|;
      assert forall m | 0 <= m < |db.limits| :: !IsCapOf(db.limits[m], task);
      forall m | 0 <= m < |capped.limits| && capped.limits[m].scope.kind == Task
        ensures LifelongCap(capped, capped.limits[m])
      {
        if m < l {
          assert LifelongCap(db, db.limits[m]);
        } else {
          forall r | 0 <= r < |db.ledger| ensures db.ledger[r].task != task {
            assert HasCap(db.limits, db.ledger[r].task);
          }
        }
      }
      forall t | HasCap(db.limits, t) ensures HasCap(capped.limits, t) {
        var m :| 0 <= m < |db.limits| && IsCapOf(db.limits[m], t);
        assert IsCapOf(capped.limits[m], t);
      }
    }
  }

  /** Under a lifelong cap that is in force, all of a task's spending counts against it. */
  lemma CapSeesWholeTask(db: Db, l: nat, task: string)
    requires CapsAreLifelong(db) && l < |db.limits| && IsCapOf(db.limits[l], task)
    requires InForce(db.limits, TaskScope(task), db.clock)
    ensures Cap(db, TaskScope(task)) == db.limits[l].quantity
    ensures Spent(db, TaskScope(task)) == TaskTotal(db, task)
  {
    var scope, row := TaskScope(task), db.limits[l];
    assert LifelongCap(db, row);
    var m :| 0 <= m < |db.limits| && Covers(db.limits[m], scope, db.clock);
    assert m == l;
    SumSingle(db.limits, l, CapIn(scope, db.clock));
    forall r | 0 <= r < |db.ledger|
      ensures SpentIn(scope, db.limits, db.clock)(db.ledger[r]) == ChargedTo(task)(db.ledger[r])
    {
      if db.ledger[r].task == task {
        assert row in db.limits && Covers(row, scope, db.clock);
        assert Counted(db.limits, scope, db.clock, db.ledger[r].occurredAt);
      }
    }
    SumEqualWeights(db.ledger, SpentIn(scope, db.limits, db.clock), ChargedTo(task));
  }

  lemma AuthorizeKeepsCaps(db: Db, settings: Settings, req: Request)
    requires CapsAreLifelong(db) && req.model in settings.prices
    ensures CapsAreLifelong(Authorized(db, settings, req))
  {
    var next := Authorized(db, settings, req);
    var cap := CapOfTask(db, settings.taskBudget, req.task);
    var capped := db.(limits := next.limits);
    assert CapsAreLifelong(capped);
    forall l | 0 <= l < |next.limits| && next.limits[l].scope.kind == Task ensures LifelongCap(next, next.limits[l]) {
      assert LifelongCap(capped, next.limits[l]);
    }
    forall i | 0 <= i < |next.calls| ensures HasCap(next.limits, next.calls[i].task) {
      if i == |db.calls| { assert IsCapOf(next.limits[cap], req.task); }
    }
  }

  /** No call of the requested task is outstanding. */
  lemma AuthorizeKeepsOrder(db: Db, settings: Settings, userActive: bool, req: Request)
    requires OneOpenCallPerTask(db) && Precheck(db, settings, userActive, req).None?
    ensures OneOpenCallPerTask(Authorized(db, settings, req))
  {
    forall i | 0 <= i < |db.calls| && db.calls[i].task == req.task ensures db.calls[i].status == CallSettled {
      assert db.calls[i] in db.calls;
    }
  }

  lemma OtherTaskUnmoved(db: Db, settings: Settings, req: Request, l: nat)
    requires TasksWithinCaps(db) && req.model in settings.prices && l < |Authorized(db, settings, req).limits|
    requires var row := Authorized(db, settings, req).limits[l];
      row.scope.kind == Task && row.scope.id != req.task
    ensures TaskWithinCap(Authorized(db, settings, req), Authorized(db, settings, req).limits[l])
  {
    var row := Authorized(db, settings, req).limits[l];
    assert row == db.limits[l];
    assert TaskWithinCap(db, row);
    AuthorizeMovesClaims(db, settings, req, row.scope);
  }

  lemma AuthorizeKeepsTotals(db: Db, settings: Settings, userActive: bool, req: Request)
    requires Sound(db) && settings.Valid() && req.maxOutput > 0
    requires Authorize(db, settings, userActive, req).Committed?
    ensures TasksWithinCaps(Authorized(db, settings, req))
  {
    var limits := Authorized(db, settings, req).limits;
    forall l | 0 <= l < |limits| && limits[l].scope.kind == Task
      ensures TaskWithinCap(Authorized(db, settings, req), limits[l])
    {
      if limits[l].scope.id == req.task {
        AuthorizeWithinTaskCap(db, settings, userActive, req, l);
      } else {
        OtherTaskUnmoved(db, settings, req, l);
      }
    }
  }

  lemma AuthorizeKeepsTask(db: Db, settings: Settings, userActive: bool, req: Request)
    requires Sound(db) && settings.Valid() && req.maxOutput > 0
    requires Authorize(db, settings, userActive, req).Committed?
    ensures Sound(Authorize(db, settings, userActive, req).db)
  {
    AuthorizeKeeps(db, settings, userActive, req);
    AuthorizeKeepsCaps(db, settings, req);
    AuthorizeKeepsOrder(db, settings, userActive, req);
    AuthorizeKeepsTotals(db, settings, userActive, req);
  }

  lemma AuthorizeWithinTaskCap(db: Db, settings: Settings, userActive: bool, req: Request, l: nat)
    requires Sound(db) && settings.Valid() && req.maxOutput > 0
    requires Authorize(db, settings, userActive, req).Committed?
    requires l < |Authorized(db, settings, req).limits| && IsCapOf(Authorized(db, settings, req).limits[l], req.task)
    ensures TaskWithinCap(Authorized(db, settings, req), Authorized(db, settings, req).limits[l])
  {
    var next, scope := Authorized(db, settings, req), TaskScope(req.task);
    var cap := CapOfTask(db, settings.taskBudget, req.task);
    AuthorizeKeeps(db, settings, userActive, req);
    AdmissionStaysWithinCaps(db, settings, userActive, req, 3);
    ExcessIsNonNegative(next, scope);
    assert CapsAreLifelong(db.(limits := next.limits));
    CapSeesWholeTask(db.(limits := next.limits), l, req.task);
  }

  // ---- every run ----

  /** Operators can change every cap but a task's. */
  lemma SetLimitSparesTasks(db: Db, scope: Scope, quantity: int, days: int)
    ensures var next := Apply(db, DoSetLimit(scope, quantity, days));
      && next == db.(limits := next.limits) && |db.limits| <= |next.limits|
      && (forall l | 0 <= l < |db.limits| :: next.limits[l].scope == db.limits[l].scope)
      && (forall l | 0 <= l < |db.limits| && db.limits[l].scope.kind == Task :: next.limits[l] == db.limits[l])
      && (forall l | |db.limits| <= l < |next.limits| :: next.limits[l].scope.kind != Task)
  {}

  lemma SetLimitKeepsTask(db: Db, scope: Scope, quantity: int, days: int)
    requires Sound(db)
    ensures Sound(Apply(db, DoSetLimit(scope, quantity, days)))
  {
    var next := Apply(db, DoSetLimit(scope, quantity, days));
    SetLimitSparesTasks(db, scope, quantity, days);
    OtherLimitsKeepTask(db, next.limits);
  }

  lemma OtherLimitsKeepTask(db: Db, limits: seq<Limit>)
    requires Sound(db) && |db.limits| <= |limits|
    requires forall l | 0 <= l < |db.limits| :: limits[l].scope == db.limits[l].scope
    requires forall l | 0 <= l < |db.limits| && db.limits[l].scope.kind == Task :: limits[l] == db.limits[l]
    requires forall l | |db.limits| <= l < |limits| :: limits[l].scope.kind != Task
    ensures Sound(db.(limits := limits))
  {
    var next := db.(limits := limits);
    forall t | HasCap(db.limits, t) ensures HasCap(limits, t) {
      var m :| 0 <= m < |db.limits| && IsCapOf(db.limits[m], t);
      assert IsCapOf(limits[m], t);
    }
    forall l | 0 <= l < |limits| && limits[l].scope.kind == Task
      ensures LifelongCap(next, limits[l]) && TaskWithinCap(next, limits[l])
    {
      assert LifelongCap(db, db.limits[l]) && TaskWithinCap(db, db.limits[l]);
    }
  }

  lemma TickKeepsTask(db: Db, seconds: nat)
    requires Sound(db)
    ensures Sound(db.(clock := db.clock + seconds))
  {}

  lemma OtherStepKeepsSound(db: Db, step: Step)
    requires Sound(db) && (step.Tick? || step.DoSetLimit?)
    ensures Sound(Apply(db, step))
  {
    if step.Tick? {
      TickKeepsTask(db, step.seconds);
      assert Apply(db, step) == db.(clock := db.clock + step.seconds);
    } else {
      SetLimitKeepsTask(db, step.scope, step.quantity, step.days);
    }
  }

  lemma AuthorizeStepKeepsSound(db: Db, step: Step)
    requires Sound(db) && step.DoAuthorize? && step.Valid()
    ensures Sound(Apply(db, step))
  {
    if Attempt(db, step).Committed? { AuthorizeKeepsTask(db, step.settings, step.userActive, step.req); }
  }

  lemma SettleStepKeepsSound(db: Db, step: Step)
    requires Sound(db) && step.DoSettle?
    ensures Sound(Apply(db, step))
  {
    if Attempt(db, step).Committed? {
      var i := FindCall(db.calls, (call: Call) =>
        call.id == step.payload.call && call.user == step.user && call.campaign == step.campaign
        && call.task == step.task).value;
      SettleRecordKeepsTask(db, i, step.payload);
    }
  }

  lemma ReconcileStepKeepsSound(db: Db, step: Step)
    requires Sound(db) && step.DoReconcile?
    ensures Sound(Apply(db, step))
  {
    if Attempt(db, step).Committed? {
      var payload := OperatorPayload(step.id, step.counts, step.requestId);
      var i := FindCall(db.calls, (call: Call) =>
        call.id == step.id && call.status in {CallReserved, CallUnknown}).value;
      ReconcileIsSettlement(db, i, payload);
      ReopenKeepsTask(db, i);
      SettleRecordKeepsTask(Reopened(db, i), i, payload);
    }
  }

  lemma StepKeepsSound(db: Db, step: Step)
    requires Sound(db) && step.Valid()
    ensures Sound(Apply(db, step))
  {
    if step.DoAuthorize? {
      AuthorizeStepKeepsSound(db, step);
    } else if step.DoSettle? {
      SettleStepKeepsSound(db, step);
    } else if step.DoReconcile? {
      ReconcileStepKeepsSound(db, step);
    } else {
      OtherStepKeepsSound(db, step);
    }
  }

  lemma {:induction false} RunsStaySound(db: Db, steps: seq<Step>)
    requires Sound(db) && ValidRun(steps)
    ensures Sound(Run(db, steps))
    decreases |steps|
  {
    if steps != [] {
      assert steps[0] in steps;
      StepKeepsSound(db, steps[0]);
      RunsStaySound(Apply(db, steps[0]), steps[1..]);
    }
  }

  /** The cost of a task's overrun past its hold: only its latest call can have one. */
  lemma ExcessIsOneCall(db: Db, task: string)
    requires Sound(db)
    ensures (forall i | 0 <= i < |db.calls| && db.calls[i].task == task :: db.calls[i].status != CallOverrun)
      ==> Excess(db, TaskScope(task)) == 0
    ensures forall i | 0 <= i < |db.calls| && db.calls[i].task == task && db.calls[i].status == CallOverrun ::
      Excess(db, TaskScope(task)) == Recorded(db.ledger, db.calls[i].id) - db.calls[i].reserved
  {
    if forall i | 0 <= i < |db.calls| && db.calls[i].task == task :: db.calls[i].status != CallOverrun {
      SumZero(db.claims, ExcessIn(TaskScope(task)));
    }
    forall i | 0 <= i < |db.calls| && db.calls[i].task == task && db.calls[i].status == CallOverrun
      ensures Excess(db, TaskScope(task)) == Recorded(db.ledger, db.calls[i].id) - db.calls[i].reserved
    {
      OverrunIsWholeExcess(db, task, i);
    }
  }

  lemma OtherClaimHasNoExcess(db: Db, task: string, i: nat, j: nat)
    requires Sound(db) && i < |db.calls| && db.calls[i].task == task && db.calls[i].status == CallOverrun
    requires j < |db.claims| && j != SCOPES * i + 3
    ensures ExcessIn(TaskScope(task))(db.claims[j]) == 0
  {
    var call := db.calls[j / SCOPES];
    ClaimOf(db, j / SCOPES, j % SCOPES);
    if j / SCOPES != i && call.task == task {
      assert call.status == CallSettled;
      assert CallAgrees(call, db.ledger);
    }
  }

  lemma OtherClaimsHaveNoExcess(db: Db, task: string, i: nat)
    requires Sound(db) && i < |db.calls| && db.calls[i].task == task && db.calls[i].status == CallOverrun
    ensures forall j | 0 <= j < |db.claims| && j != SCOPES * i + 3 :: ExcessIn(TaskScope(task))(db.claims[j]) == 0
  {
    forall j | 0 <= j < |db.claims| && j != SCOPES * i + 3 ensures ExcessIn(TaskScope(task))(db.claims[j]) == 0 {
      OtherClaimHasNoExcess(db, task, i, j);
    }
  }

  lemma OverrunIsWholeExcess(db: Db, task: string, i: nat)
    requires Sound(db) && i < |db.calls| && db.calls[i].task == task && db.calls[i].status == CallOverrun
    ensures Excess(db, TaskScope(task)) == Recorded(db.ledger, db.calls[i].id) - db.calls[i].reserved
  {
    ClaimOf(db, i, 3);
    OtherClaimsHaveNoExcess(db, task, i);
    SumSingle(db.claims, SCOPES * i + 3, ExcessIn(TaskScope(task)));
  }

  /** A task's total is within a budget, or beyond it by no more than its last call overran its hold. */
  ghost predicate SpentWithin(db: Db, task: string, budget: int) {
    || TaskTotal(db, task) <= budget
    || exists i | 0 <= i < |db.calls| ::
         && db.calls[i].task == task && db.calls[i].status == CallOverrun
         && (forall j | i < j < |db.calls| :: db.calls[j].task != task)
         && TaskTotal(db, task) <= budget + (Recorded(db.ledger, db.calls[i].id) - db.calls[i].reserved)
  }

  /**
   Over every run from the empty database, everything ever recorded against a task is at most
   its cap, plus the excess over its hold of at most one call - the task's last.
   */
  lemma TaskSpendingIsBounded(steps: seq<Step>, l: nat)
    requires ValidRun(steps)
    requires l < |Run(EMPTY, steps).limits| && Run(EMPTY, steps).limits[l].scope.kind == Task
    ensures var db, cap := Run(EMPTY, steps), Run(EMPTY, steps).limits[l];
      SpentWithin(db, cap.scope.id, cap.quantity)
  {
    RunsStaySound(EMPTY, steps);
    SoundBoundsTask(Run(EMPTY, steps), l);
  }

  lemma SoundBoundsTask(db: Db, l: nat)
    requires Sound(db) && l < |db.limits| && db.limits[l].scope.kind == Task
    ensures SpentWithin(db, db.limits[l].scope.id, db.limits[l].quantity)
  {
    var cap := db.limits[l];
    assert TaskWithinCap(db, cap);
    ReservedIsNonNegative(db, cap.scope);
    ExcessIsOneCall(db, cap.scope.id);
    if i :| 0 <= i < |db.calls| && db.calls[i].task == cap.scope.id && db.calls[i].status == CallOverrun {
      assert forall j | i < j < |db.calls| :: db.calls[j].task != cap.scope.id;
    }
  }

  lemma ReservedIsNonNegative(db: Db, scope: Scope)
    requires RecordsAgree(db)
    ensures Reserved(db, scope) >= 0
  {
    forall j | 0 <= j < |db.claims| ensures HeldIn(scope)(db.claims[j]) >= 0 {
      assert CallAgrees(db.calls[j / SCOPES], db.ledger);
    }
    SumNonNegative(db.claims, HeldIn(scope));
  }
}
