/** What no later step of the provider budget protocol can change. */
module ProviderBudgetFinality {
  import opened Tables
  import opened ProviderPricing
  import opened ProviderBudget
  import opened ProviderBudgetRecords
  import opened ProviderBudgetTask

  /** A call's terms - who pays, at what price, with how much held - are fixed when it is authorised. */
  predicate SameTerms(call: Call, later: Call) {
    later == call.(status := later.status, settlement := later.settlement)
  }

  /** What may differ after a step: new calls and caps, and the progress of calls that are not closed. */
  ghost predicate Extends(db: Db, next: Db) {
    && |db.calls| <= |next.calls| && |db.limits| <= |next.limits|
    && (forall i | 0 <= i < |db.calls| :: SameTerms(db.calls[i], next.calls[i]))
    && (forall i | 0 <= i < |db.calls| && Closed(db.calls[i]) ::
          next.calls[i] == db.calls[i]
          && Recorded(next.ledger, db.calls[i].id) == Recorded(db.ledger, db.calls[i].id))
    && (forall l | 0 <= l < |db.limits| && db.limits[l].scope.kind == Task :: next.limits[l] == db.limits[l])
  }

  lemma SettleExtends(db: Db, i: nat, cost: int, payload: Settlement)
    requires Open(db, i)
    ensures Extends(db, Settle(db, i, cost, payload))
  {}

  lemma SettleRecordExtends(db: Db, i: nat, payload: Settlement)
    requires RecordsAgree(db) && i < |db.calls| && SettleRecord(db, db.calls[i], payload).Committed?
    ensures Extends(db, SettleRecord(db, db.calls[i], payload).db)
  {
    if db.calls[i].settlement.None? {
      SettleRecordOfOpen(db, i, payload);
      match Billable(payload.usage) {
        case Some(counts) => SettleExtends(db, i, CostOf(db.calls[i].price, counts), payload);
        case None =>
          UpdateCallChangesOne(db, i, CallUnknown, payload);
          assert !Closed(db.calls[i]) by { assert CallAgrees(db.calls[i], db.ledger); }
      }
    }
  }

  lemma AuthorizeExtends(db: Db, settings: Settings, req: Request)
    requires req.model in settings.prices
    ensures Extends(db, Authorized(db, settings, req))
  {}

  lemma ReconcileExtends(db: Db, step: Step)
    requires RecordsAgree(db) && step.DoReconcile? && Attempt(db, step).Committed?
    ensures Extends(db, Apply(db, step))
  {
    var i := FindCall(db.calls, (call: Call) => call.id == step.id && call.status in {CallReserved, CallUnknown}).value;
    var payload := OperatorPayload(step.id, step.counts, step.requestId);
    ReopenedAgrees(db, i);
    ReconcileIsSettlement(db, i, payload);
    SettleRecordExtends(Reopened(db, i), i, payload);
    ExtendsThrough(db, Reopened(db, i), Apply(db, step));
  }

  lemma SettleStepExtends(db: Db, step: Step)
    requires RecordsAgree(db) && step.DoSettle? && Attempt(db, step).Committed?
    ensures Extends(db, Apply(db, step))
  {
    var i := FindCall(db.calls, (call: Call) =>
      call.id == step.payload.call && call.user == step.user && call.campaign == step.campaign
      && call.task == step.task).value;
    SettleRecordExtends(db, i, step.payload);
  }

  lemma StepExtends(db: Db, step: Step)
    requires RecordsAgree(db) && step.Valid()
    ensures Extends(db, Apply(db, step))
  {
    match step {
      case Tick(_) =>
      case DoSetLimit(scope, quantity, days) => SetLimitSparesTasks(db, scope, quantity, days);
      case DoAuthorize(settings, userActive, req) =>
        if Attempt(db, step).Committed? {
          AuthorizeKeeps(db, settings, userActive, req);
          AuthorizeExtends(db, settings, req);
        }
      case DoSettle(_, _, _, _) =>
        if Attempt(db, step).Committed? { SettleStepExtends(db, step); }
      case DoReconcile(_, _, _, _) =>
        if Attempt(db, step).Committed? { ReconcileExtends(db, step); }
    }
  }

  lemma ExtendsThrough(a: Db, b: Db, c: Db)
    requires Extends(a, b) && Extends(b, c)
    ensures Extends(a, c)
  {}

  /** Over every run: terms are fixed, closed calls are final, and a task's cap is never replenished. */
  lemma {:induction false} RunExtends(db: Db, steps: seq<Step>)
    requires RecordsAgree(db) && ValidRun(steps)
    ensures Extends(db, Run(db, steps))
    decreases |steps|
  {
    if steps != [] {
      assert steps[0] in steps;
      StepExtends(db, steps[0]);
      StepKeepsRecords(db, steps[0]);
      RunExtends(Apply(db, steps[0]), steps[1..]);
      ExtendsThrough(db, Apply(db, steps[0]), Run(db, steps));
    }
  }

  // ---- where a task's cap comes from ----

  /** The step is the task's first authorisation, and its configured task budget is the amount. */
  ghost predicate OpensCap(db: Db, step: Step, task: string, amount: int) {
    && step.DoAuthorize? && step.req.task == task && step.settings.taskBudget == amount
    && Attempt(db, step).Committed? && !HasCap(db.limits, task)
  }

  lemma NewCapIsOpened(db: Db, step: Step, l: nat)
    requires |db.limits| <= l < |Apply(db, step).limits| && Apply(db, step).limits[l].scope.kind == Task
    ensures var cap := Apply(db, step).limits[l];
      OpensCap(db, step, cap.scope.id, cap.quantity)
  {
    if step.DoSetLimit? {
      SetLimitSparesTasks(db, step.scope, step.quantity, step.days);
    }
  }

  /** A task's cap is, for good, the task budget of the first authorisation of the task. */
  lemma {:induction false} CapIsTaskBudget(db: Db, steps: seq<Step>, l: nat) returns (k: nat)
    requires RecordsAgree(db) && ValidRun(steps)
    requires |db.limits| <= l < |Run(db, steps).limits| && Run(db, steps).limits[l].scope.kind == Task
    ensures var cap := Run(db, steps).limits[l];
      k < |steps| && OpensCap(Run(db, steps[..k]), steps[k], cap.scope.id, cap.quantity)
    decreases |steps|
  {
    var next := Apply(db, steps[0]);
    assert steps[0] in steps;
    StepKeepsRecords(db, steps[0]);
    if l < |next.limits| {
      RunExtends(next, steps[1..]);
      if next.limits[l].scope.kind != Task {
        LimitsKeepScopes(next, steps[1..], l);
      }
      NewCapIsOpened(db, steps[0], l);
      assert steps[..0] == [];
      k := 0;
    } else {
      k := CapIsTaskBudget(next, steps[1..], l);
      assert steps[..k + 1][1..] == steps[1..][..k] && steps[..k + 1][0] == steps[0];
      k := k + 1;
    }
  }

  lemma StepKeepsScopes(db: Db, step: Step, l: nat)
    requires l < |db.limits|
    ensures l < |Apply(db, step).limits| && Apply(db, step).limits[l].scope == db.limits[l].scope
  {}

  lemma {:induction false} LimitsKeepScopes(db: Db, steps: seq<Step>, l: nat)
    requires l < |db.limits|
    ensures l < |Run(db, steps).limits| && Run(db, steps).limits[l].scope == db.limits[l].scope
    decreases |steps|
  {
    if steps != [] {
      StepKeepsScopes(db, steps[0], l);
      LimitsKeepScopes(Apply(db, steps[0]), steps[1..], l);
    }
  }

  /**
   Over every run from the empty database, what is ever recorded against a task is within the task
   budget of the settings under which its first call was authorised, whatever the settings became
   later, or beyond it by no more than its last call overran its hold.
   */
  lemma SpendingFollowsTaskBudget(steps: seq<Step>, l: nat) returns (k: nat)
    requires ValidRun(steps)
    requires l < |Run(EMPTY, steps).limits| && Run(EMPTY, steps).limits[l].scope.kind == Task
    ensures var task := Run(EMPTY, steps).limits[l].scope.id;
      && k < |steps| && steps[k].DoAuthorize?
      && OpensCap(Run(EMPTY, steps[..k]), steps[k], task, steps[k].settings.taskBudget)
      && SpentWithin(Run(EMPTY, steps), task, steps[k].settings.taskBudget)
  {
    k := CapIsTaskBudget(EMPTY, steps, l);
    TaskSpendingIsBounded(steps, l);
  }

  lemma ClosedClaimStays(db: Db, last: Db, i: nat, k: nat)
    requires RecordsAgree(db) && RecordsAgree(last) && Extends(db, last)
    requires i < |db.calls| && k < SCOPES && Closed(db.calls[i])
    ensures SCOPES * i + k < |last.claims| && last.claims[SCOPES * i + k] == db.claims[SCOPES * i + k]
    ensures Entries(last.ledger, db.calls[i].id) == 1
  {
    ClaimOf(db, i, k);
    ClaimOf(last, i, k);
    assert CallAgrees(last.calls[i], last.ledger);
  }

  /** A closed call's claims, as well as its row and its consumption, are the same after every run. */
  lemma ClosedCallIsFinal(db: Db, steps: seq<Step>, i: nat, k: nat)
    requires RecordsAgree(db) && ValidRun(steps) && i < |db.calls| && k < SCOPES && Closed(db.calls[i])
    ensures var last := Run(db, steps);
      && i < |last.calls| && last.calls[i] == db.calls[i]
      && SCOPES * i + k < |last.claims| && last.claims[SCOPES * i + k] == db.claims[SCOPES * i + k]
      && Recorded(last.ledger, db.calls[i].id) == Recorded(db.ledger, db.calls[i].id)
      && Entries(last.ledger, db.calls[i].id) == 1
  {
    RunExtends(db, steps);
    RecordsAlwaysAgree(db, steps);
    ClosedClaimStays(db, Run(db, steps), i, k);
  }

  /** A second settlement of a call, the same or different, never changes a table. */
  lemma ReplayChangesNothing(db: Db, user: string, campaign: string, task: string, payload: Settlement)
    requires RecordsAgree(db)
    requires forall i | 0 <= i < |db.calls| && db.calls[i].id == payload.call :: db.calls[i].settlement.Some?
    ensures Apply(db, DoSettle(user, campaign, task, payload)) == db
    ensures forall i |
      0 <= i < |db.calls| && db.calls[i].id == payload.call && db.calls[i].settlement != Some(payload) ::
      SettleCall(db, user, campaign, task, payload).Refused?
  {}

  /** Once closed, a call can no longer be reconciled either. */
  lemma ClosedCallIsNotReconciled(db: Db, i: nat, counts: Counts, requestId: string, evidence: bool)
    requires RecordsAgree(db) && i < |db.calls| && Closed(db.calls[i])
    ensures Reconcile(db, db.calls[i].id, counts, requestId, evidence).Refused?
  {
    assert forall j | 0 <= j < |db.calls| && db.calls[j].id == db.calls[i].id :: j == i;
  }

  /** An overrun blocks its task for good: no run ever authorises another call for it. */
  lemma OverrunBlocksTask(db: Db, steps: seq<Step>, i: nat)
    requires Sound(db) && ValidRun(steps) && i < |db.calls| && db.calls[i].status == CallOverrun
    ensures forall j | |db.calls| <= j < |Run(db, steps).calls| :: Run(db, steps).calls[j].task != db.calls[i].task
  {
    RunsStaySound(db, steps);
    RunExtends(db, steps);
  }

  lemma FindsTheCall(calls: seq<Call>, i: nat, wanted: Call -> bool)
    requires i < |calls| && wanted(calls[i])
    requires forall j | 0 <= j < |calls| && wanted(calls[j]) :: j == i
    ensures FindCall(calls, wanted) == Some(i)
  {}

  /** Whether a usage report stays within what was authorised. */
  predicate WithinBounds(price: Price, maxOutput: int, usage: map<string, Value>) {
    Billable(usage).Some? && Billable(usage).value.prompt <= price.maxInput && Billable(usage).value.output <= maxOutput
  }

  lemma SettlesWithinHold(db: Db, i: nat, payload: Settlement, maxOutput: int)
    requires Open(db, i) && WithinBounds(db.calls[i].price, maxOutput, payload.usage)
    requires db.calls[i].reserved == Reservation(db.calls[i].price, maxOutput)
    ensures var settled := SettleRecord(db, db.calls[i], payload);
      && settled.Committed? && settled.status == CallSettled
      && settled.db.calls == db.calls[i := db.calls[i].(status := CallSettled, settlement := Some(payload))]
      && Recorded(settled.db.ledger, db.calls[i].id) <= db.calls[i].reserved
  {
    var price, counts := db.calls[i].price, Billable(payload.usage).value;
    assert price.Valid() by { assert CallAgrees(db.calls[i], db.ledger); }
    WithinBoundsNeverOverruns(price, maxOutput, counts.prompt, counts.cached, counts.output);
    SettleRecordOfOpen(db, i, payload);
    SettleKeeps(db, i, CostOf(price, counts), payload);
    UpdateCallChangesOne(db, i, CallSettled, payload);
  }

  /** What an authorised call still is after any run. */
  lemma AuthorizedCallLater(db: Db, settings: Settings, userActive: bool, req: Request, steps: seq<Step>)
    requires RecordsAgree(db) && settings.Valid() && req.maxOutput > 0 && ValidRun(steps)
    requires Authorize(db, settings, userActive, req).Committed?
    ensures var i, later := |db.calls|, Run(Apply(db, DoAuthorize(settings, userActive, req)), steps);
      && RecordsAgree(later) && i < |later.calls|
      && later.calls[i] == Call(req.call, req.user, req.campaign, req.task, settings.prices[req.model],
           Reservation(settings.prices[req.model], req.maxOutput), later.calls[i].status, later.calls[i].settlement)
  {
    var i, first := |db.calls|, Authorized(db, settings, req);
    AuthorizeKeeps(db, settings, userActive, req);
    RunExtends(first, steps);
    RecordsAlwaysAgree(first, steps);
    assert SameTerms(first.calls[i], Run(first, steps).calls[i]);
  }

  lemma OperatorPayloadIsBillable(call: string, counts: Counts, requestId: string)
    requires 0 <= counts.cached <= counts.prompt && counts.output >= 0
    ensures Billable(OperatorPayload(call, counts, requestId).usage) == Some(counts)
  {}

  /**
   A call whose reported usage stays within the bounds it was authorised with settles, and never
   overruns, whatever happened between its authorisation and its settlement.
   */
  lemma BoundedUsageSettles(
      db: Db, settings: Settings, userActive: bool, req: Request, steps: seq<Step>, payload: Settlement)
    requires RecordsAgree(db) && settings.Valid() && req.maxOutput > 0 && ValidRun(steps)
    requires Authorize(db, settings, userActive, req).Committed?
    requires payload.call == req.call && WithinBounds(settings.prices[req.model], req.maxOutput, payload.usage)
    ensures var i, later := |db.calls|, Run(Apply(db, DoAuthorize(settings, userActive, req)), steps);
      && i < |later.calls| && later.calls[i].id == req.call
      && (later.calls[i].settlement.None? ==>
            var settled := SettleCall(later, req.user, req.campaign, req.task, payload);
            && settled.Committed? && settled.status == CallSettled && settled.db.calls[i].status == CallSettled
            && Recorded(settled.db.ledger, req.call) <= later.calls[i].reserved)
  {
    var i, later := |db.calls|, Run(Apply(db, DoAuthorize(settings, userActive, req)), steps);
    AuthorizedCallLater(db, settings, userActive, req, steps);
    if later.calls[i].settlement.None? {
      FindsTheCall(later.calls, i, (call: Call) =>
        call.id == payload.call && call.user == req.user && call.campaign == req.campaign && call.task == req.task);
      SettlesWithinHold(later, i, payload, req.maxOutput);
    }
  }

  /** So does the operator's reconciliation of a call whose outcome was lost. */
  lemma BoundedReconciliationSettles(
      db: Db, settings: Settings, userActive: bool, req: Request, steps: seq<Step>, counts: Counts, requestId: string)
    requires RecordsAgree(db) && settings.Valid() && req.maxOutput > 0 && ValidRun(steps)
    requires Authorize(db, settings, userActive, req).Committed?
    requires 0 <= counts.cached <= counts.prompt <= settings.prices[req.model].maxInput
    requires 0 <= counts.output <= req.maxOutput
    ensures var i, later := |db.calls|, Run(Apply(db, DoAuthorize(settings, userActive, req)), steps);
      && i < |later.calls| && later.calls[i].id == req.call
      && (!Closed(later.calls[i]) ==>
            var settled := Reconcile(later, req.call, counts, requestId, true);
            settled.Committed? && settled.status == CallSettled && settled.db.calls[i].status == CallSettled)
  {
    var i, later := |db.calls|, Run(Apply(db, DoAuthorize(settings, userActive, req)), steps);
    var payload := OperatorPayload(req.call, counts, requestId);
    AuthorizedCallLater(db, settings, userActive, req, steps);
    if !Closed(later.calls[i]) {
      FindsTheCall(later.calls, i, (call: Call) => call.id == req.call && call.status in {CallReserved, CallUnknown});
      ReopenedAgrees(later, i);
      ReconcileIsSettlement(later, i, payload);
      OperatorPayloadIsBillable(req.call, counts, requestId);
      SettlesWithinHold(Reopened(later, i), i, payload, req.maxOutput);
    }
  }
}
