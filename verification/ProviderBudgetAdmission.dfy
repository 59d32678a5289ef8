/** When calls are admitted, what they and the operators' caps change, and who may settle them. */
module ProviderBudgetAdmission {
  import opened Tables
  import opened ProviderPricing
  import opened ProviderBudget
  import opened ProviderBudgetRecords
  import opened ProviderBudgetBounds
  import opened ProviderBudgetTask
  import opened ProviderBudgetUsage
  import opened ProviderBudgetSpending

  // ---- authorisation ----

  /** A scope with a cap, and room under it. */
  ghost predicate Fits(db: Db, scope: Scope, quantity: int) {
    && (exists row | row in db.limits :: Applies(row, scope, db.clock))
    && Spent(db, scope) + Reserved(db, scope) + quantity <= Cap(db, scope)
  }

  predicate Reviewed(settings: Settings, req: Request, now: int) {
    && req.model in settings.prices && settings.prices[req.model].provider == req.provider
    && now < settings.prices[req.model].validUntil
  }

  predicate WithinReview(price: Price, req: Request) { req.maxOutput <= price.maxOutput && req.bytes <= price.maxBytes }

  /** The call is new, and every earlier call of its task has been settled within its hold. */
  ghost predicate Vacant(db: Db, req: Request) {
    forall call | call in db.calls :: call.id != req.call && (call.task == req.task ==> call.status == CallSettled)
  }

  /** The tables with the task's cap in them, whether or not it was there before. */
  function WithCap(db: Db, settings: Settings, req: Request): Db {
    db.(limits := WithTaskCap(db.limits, req.task, settings.taskBudget, db.clock))
  }

  lemma AdmitsMeansFits(db: Db, scope: Scope, quantity: int)
    requires quantity > 0
    ensures Admits(db, scope, quantity) <==> Fits(db, scope, quantity)
  {
    InForceMeans(db.limits, scope, db.clock);
  }

  lemma AllPayersFit(db: Db, user: string, campaign: string, task: string, quantity: int)
    requires quantity > 0
    ensures AdmitsAll(db, user, campaign, task, quantity) <==>
      campaign != "" && task != "" && forall scope | scope in Payers(user, campaign, task) :: Fits(db, scope, quantity)
  {
    forall scope | scope in Payers(user, campaign, task)
      ensures Admits(db, scope, quantity) <==> Fits(db, scope, quantity)
      ensures scope == ScopeOf(user, campaign, task, KindIndex(scope.kind))
    {
      AdmitsMeansFits(db, scope, quantity);
    }
    assert forall k: nat | k < SCOPES :: ScopeOf(user, campaign, task, k) in Payers(user, campaign, task);
  }

  /** Whether the four scopes can pay for a call's reservation. */
  ghost predicate Affordable(db: Db, settings: Settings, req: Request)
    requires req.model in settings.prices
  {
    && req.campaign != "" && req.task != ""
    && forall scope | scope in Payers(req.user, req.campaign, req.task) ::
         Fits(WithCap(db, settings, req), scope, Reservation(settings.prices[req.model], req.maxOutput))
  }

  lemma VacantMeansNoneBlocks(db: Db, req: Request)
    ensures Vacant(db, req) <==>
      !(exists call | call in db.calls :: call.id == req.call)
      && !(exists call | call in db.calls :: Blocking(call, req.task))
  {}

  /**
   A call is authorised if and only if budgets are enabled, its model's price was reviewed and has not
   expired, it is within the review's bounds, its user is active, it is new and nothing of its task is
   open or overrun, and each of the four scopes has a cap with room for the whole reservation.  Each
   refusal says which of these fails first.
   */
  lemma AuthorizedExactly(db: Db, settings: Settings, userActive: bool, req: Request)
    requires settings.Valid() && req.maxOutput > 0
    ensures var r := Authorize(db, settings, userActive, req);
      && (r == Refused(503) <==> !settings.enabled)
      && (settings.enabled && !Reviewed(settings, req, db.clock) ==> r == Refused(403))
      && (settings.enabled && Reviewed(settings, req, db.clock) ==>
            var price := settings.prices[req.model];
            && (r == Refused(413) <==> !WithinReview(price, req))
            && (r == Refused(403) <==> WithinReview(price, req) && !userActive)
            && (r == Refused(409) <==> WithinReview(price, req) && userActive && !Vacant(db, req))
            && (r == Refused(402) <==>
                  WithinReview(price, req) && userActive && Vacant(db, req) && !Affordable(db, settings, req))
            && (r.Committed? <==>
                  WithinReview(price, req) && userActive && Vacant(db, req) && Affordable(db, settings, req)))
  {
    if settings.enabled && Reviewed(settings, req, db.clock) {
      var worst := Reservation(settings.prices[req.model], req.maxOutput);
      VacantMeansNoneBlocks(db, req);
      ReservationIsPositive(settings.prices[req.model], req.maxOutput);
      AllPayersFit(WithCap(db, settings, req), req.user, req.campaign, req.task, worst);
    }
  }

  /** An authorised call takes exactly its reservation out of what its four scopes have left, and no other's. */
  lemma ReservationIsTaken(db: Db, settings: Settings, userActive: bool, req: Request, scope: Scope)
    requires RecordsAgree(db) && settings.Valid() && req.maxOutput > 0 && Proper(scope)
    requires Authorize(db, settings, userActive, req).Committed?
    ensures req.model in settings.prices
    ensures var next := Authorize(db, settings, userActive, req).db;
      Available(next, scope) == Available(WithCap(db, settings, req), scope)
        - if scope in Payers(req.user, req.campaign, req.task)
          then Reservation(settings.prices[req.model], req.maxOutput) else 0
  {
    AuthorizeKeeps(db, settings, userActive, req);
    AuthorizeMovesClaims(db, settings, req, scope);
    AuthorizedExactly(db, settings, userActive, req);
    var call := Authorized(db, settings, req).calls[|db.calls|];
    PayersAreMembers(call, scope);
    AvailableAfter(WithCap(db, settings, req), Authorized(db, settings, req), scope);
    if scope in Payers(req.user, req.campaign, req.task) {
      assert Fits(WithCap(db, settings, req), scope, Reservation(settings.prices[req.model], req.maxOutput));
    }
  }

  /** Where only holds differ, what is left differs by as much, as long as it is not negative. */
  lemma AvailableAfter(db: Db, next: Db, scope: Scope)
    requires next.limits == db.limits && next.ledger == db.ledger && next.clock == db.clock
    ensures Spent(next, scope) + Reserved(next, scope) <= Cap(next, scope)
      && Reserved(db, scope) <= Reserved(next, scope)
      ==> Available(next, scope) == Available(db, scope) - (Reserved(next, scope) - Reserved(db, scope))
    ensures Reserved(next, scope) == Reserved(db, scope) ==> Available(next, scope) == Available(db, scope)
  {}

  /** The cap that a task's first call opens is the configured budget, for a hundred years of days and no longer. */
  lemma TaskCapLasts(db: Db, settings: Settings, userActive: bool, req: Request, later: nat)
    requires forall row | row in db.limits :: row.scope != TaskScope(req.task)
    requires Authorize(db, settings, userActive, req).Committed?
    ensures var next := Authorize(db, settings, userActive, req).db;
      var end := next.(clock := next.clock + later);
      && (InForce(end.limits, TaskScope(req.task), end.clock) <==> later < 36500 * 86400)
      && Cap(end, TaskScope(req.task)) == if later < 36500 * 86400 then settings.taskBudget else 0
  {
    var cap := Limit(TaskScope(req.task), settings.taskBudget, db.clock, db.clock + TASK_CAP_SECONDS, true);
    assert Authorize(db, settings, userActive, req).db.limits == db.limits + [cap];
    OnlyRowCounts(db.limits, cap, TaskScope(req.task), db.clock + later);
  }

  /** A scope that had no row before has the cap of its new one, in that row's period. */
  lemma OnlyRowCounts(limits: seq<Limit>, row: Limit, scope: Scope, now: int)
    requires (forall other | other in limits :: other.scope != scope) && row.scope == scope && row.active
    ensures InForce(limits + [row], scope, now) <==> row.start <= now && now < row.end
    ensures SumBy(limits + [row], CapIn(scope, now)) == if row.start <= now && now < row.end then row.quantity else 0
  {
    assert (limits + [row])[|limits|] == row;
    assert Covers(row, scope, now) ==> row in limits + [row];
    SumAppend(limits, row, CapIn(scope, now));
    SumZero(limits, CapIn(scope, now));
  }

  /** Rows that are not active, or belong to another scope, neither configure a scope nor add to its cap. */
  lemma OnlyOwnActiveRowsCount(limits: seq<Limit>, scope: Scope, now: int)
    requires forall row | row in limits :: row.scope != scope || !row.active
    ensures !InForce(limits, scope, now) && SumBy(limits, CapIn(scope, now)) == 0
  {
    SumZero(limits, CapIn(scope, now));
  }

  // ---- operator caps ----

  /** The rows that apply to a scope are at most one. */
  ghost predicate AtMostOneApplies(db: Db, scope: Scope) {
    forall i, j | 0 <= i < j < |db.limits| ::
      !(Applies(db.limits[i], scope, db.clock) && Applies(db.limits[j], scope, db.clock))
  }

  lemma {:induction false} CountIsAtMostOne(limits: seq<Limit>, scope: Scope, now: int)
    ensures SumBy(limits, CoverCount(scope, now)) <= 1 <==>
      forall i, j | 0 <= i < j < |limits| :: !(Applies(limits[i], scope, now) && Applies(limits[j], scope, now))
    ensures SumBy(limits, CoverCount(scope, now)) == 0 <==>
      forall i | 0 <= i < |limits| :: !Applies(limits[i], scope, now)
    ensures SumBy(limits, CoverCount(scope, now)) >= 0
    decreases |limits|
  {
    if limits != [] {
      var n := |limits| - 1;
      CountIsAtMostOne(limits[..n], scope, now);
      assert forall i | 0 <= i < n :: limits[..n][i] == limits[i];
    }
  }

  /** Operators can cap the site, users and campaigns, with one row each at a time. */
  lemma SetLimitExactly(db: Db, scope: Scope, quantity: int, days: int)
    ensures SetLimit(db, scope, quantity, days).Committed? <==>
      && scope.kind != Task && (scope.kind == Site ==> scope.id == "default")
      && quantity >= 0 && days >= 1 && AtMostOneApplies(db, scope)
  {
    CountIsAtMostOne(db.limits, scope, db.clock);
  }

  /**
   A cap that is set is the scope's whole cap from then on.  Where one was in force its period, and so
   what has been spent in it, stays; otherwise the new one runs for as many days as given.
   */
  lemma CapBecomesQuantity(db: Db, scope: Scope, quantity: int, days: int, later: nat)
    requires SetLimit(db, scope, quantity, days).Committed?
    ensures var next := SetLimit(db, scope, quantity, days).db;
      && Cap(next, scope) == quantity && InForce(next.limits, scope, next.clock)
      && (InForce(db.limits, scope, db.clock) ==>
            |next.limits| == |db.limits| && Spent(next, scope) == Spent(db, scope)
            && forall l | 0 <= l < |db.limits| :: next.limits[l] == db.limits[l].(quantity := next.limits[l].quantity))
      && ((forall row | row in db.limits :: row.scope != scope) ==>
            (InForce(next.limits, scope, next.clock + later) <==> later < days * 86400))
  {
    var next := SetLimit(db, scope, quantity, days).db;
    SetLimitExactly(db, scope, quantity, days);
    if InForce(db.limits, scope, db.clock) {
      CapIsReplaced(db, scope, quantity, days);
    } else {
      var row := Limit(scope, quantity, db.clock, db.clock + days * 86400, true);
      assert days * 86400 >= 86400;
      assert next.limits[|db.limits|] == row && row in next.limits && Covers(row, scope, db.clock);
      SumAppend(db.limits, row, CapIn(scope, db.clock));
      SumZero(db.limits, CapIn(scope, db.clock));
      if forall other | other in db.limits :: other.scope != scope {
        OnlyRowCounts(db.limits, row, scope, db.clock + later);
      }
    }
    if forall row | row in db.limits :: row.scope != scope { assert !InForce(db.limits, scope, db.clock); }
  }

  lemma CapIsReplaced(db: Db, scope: Scope, quantity: int, days: int)
    requires SetLimit(db, scope, quantity, days).Committed? && InForce(db.limits, scope, db.clock)
    ensures var next := SetLimit(db, scope, quantity, days).db;
      && Cap(next, scope) == quantity && InForce(next.limits, scope, next.clock)
      && |next.limits| == |db.limits| && Spent(next, scope) == Spent(db, scope)
      && forall l | 0 <= l < |db.limits| :: next.limits[l] == db.limits[l].(quantity := next.limits[l].quantity)
  {
    var next := SetLimit(db, scope, quantity, days).db;
    var j :| 0 <= j < |db.limits| && Covers(db.limits[j], scope, db.clock);
    OnlyOneCovers(db.limits, scope, db.clock, j);
    assert next.limits[j] in next.limits && Covers(next.limits[j], scope, db.clock);
    SumSingle(next.limits, j, CapIn(scope, db.clock));
    SamePeriods(db.limits, next.limits, scope, db.clock);
    SumEqualWeights(db.ledger, SpentIn(scope, db.limits, db.clock), SpentIn(scope, next.limits, db.clock));
  }

  /** Setting one scope's cap changes no other scope's. */
  lemma OtherCapsStay(db: Db, scope: Scope, quantity: int, days: int, other: Scope)
    requires SetLimit(db, scope, quantity, days).Committed? && other != scope
    ensures Cap(SetLimit(db, scope, quantity, days).db, other) == Cap(db, other)
  {
    var next := SetLimit(db, scope, quantity, days).db;
    if InForce(db.limits, scope, db.clock) {
      SumSame(db.limits, next.limits, CapIn(other, db.clock));
    } else {
      SumAppend(db.limits, next.limits[|db.limits|], CapIn(other, db.clock));
    }
  }

  // ---- who may settle ----

  /**
   A settlement reaches a call only under its own user, campaign and task; a repeated one is answered
   with the outcome of the first.
   */
  lemma OnlyPayersSettle(db: Db, i: nat, user: string, campaign: string, task: string, payload: Settlement)
    requires RecordsAgree(db) && i < |db.calls| && db.calls[i].id == payload.call
    ensures var call, r := db.calls[i], SettleCall(db, user, campaign, task, payload);
      && (call.user != user || call.campaign != campaign || call.task != task ==> r == Refused(404))
      && (call.user == user && call.campaign == campaign && call.task == task ==>
            && r == SettleRecord(db, call, payload)
            && (call.settlement == Some(payload) ==> r == Committed(db, call.status))
            && (call.settlement.Some? && call.settlement != Some(payload) ==> r == Refused(409)))
  {
    var found := FindCall(db.calls, (call: Call) =>
      call.id == payload.call && call.user == user && call.campaign == campaign && call.task == task);
    if found.Some? {
      assert db.calls[found.value].id == db.calls[i].id;
      assert found.value == i;
    } else {
      assert db.calls[i] in db.calls;
    }
  }

  lemma UnknownCallIsNotSettled(db: Db, user: string, campaign: string, task: string, payload: Settlement)
    requires forall call | call in db.calls :: call.id != payload.call
    ensures SettleCall(db, user, campaign, task, payload) == Refused(404)
  {}

  /**
   An operator reconciles a call exactly while it is neither settled nor overrun, with counts that make
   sense and a reference to evidence; it is then charged for the tokens counted.
   */
  lemma ReconciledExactly(
      db: Db, i: nat, counts: Counts, requestId: string, evidence: bool, tokens: seq<Token>)
    requires RecordsAgree(db) && i < |db.calls| && IsBreakdown(tokens, counts)
    ensures var call, r := db.calls[i], Reconcile(db, db.calls[i].id, counts, requestId, evidence);
      && (r.Committed? <==>
            call.status !in {CallSettled, CallOverrun} && evidence
            && 0 <= counts.cached <= counts.prompt && counts.output >= 0)
      && (r.Refused? ==> r == Refused(400))
      && (r.Committed? ==> Recorded(r.db.ledger, call.id) == Money(Charge(call.price, tokens)))
  {
    var call := db.calls[i];
    var found := FindCall(db.calls, (c: Call) => c.id == call.id && c.status in {CallReserved, CallUnknown});
    if found.Some? {
      assert found.value == i;
      if 0 <= counts.cached <= counts.prompt && counts.output >= 0 && evidence {
        ReconcileIsSettlement(db, i, OperatorPayload(call.id, counts, requestId));
        ReopenedAgrees(db, i);
        OperatorCountsAreRead(call.id, counts, requestId);
        SettlementChargesTokens(Reopened(db, i), i, OperatorPayload(call.id, counts, requestId), counts, tokens);
      }
    } else {
      assert call in db.calls;
    }
  }

  lemma OperatorCountsAreRead(call: string, counts: Counts, requestId: string)
    requires 0 <= counts.cached <= counts.prompt && counts.output >= 0
    ensures Billable(OperatorPayload(call, counts, requestId).usage) == Some(counts)
  {}
}
