/** Spending bounds of the provider budget protocol, over every run. */
module ProviderBudgetBounds {
  import opened Tables
  import opened ProviderPricing
  import opened ProviderBudget
  import opened ProviderBudgetRecords

  function KindIndex(kind: ScopeKind): nat {
    match kind
    case Site => 0
    case User => 1
    case Campaign => 2
    case Task => 3
  }

  /** A scope that some call can be charged to: there is only one site. */
  predicate Proper(scope: Scope) { scope.kind == Site ==> scope.id == "default" }

  /** Whether a call is charged to a scope. */
  predicate Member(call: Call, scope: Scope) {
    ScopeOf(call.user, call.campaign, call.task, KindIndex(scope.kind)) == scope
  }

  // ---- how settling one open call moves the sums of a scope ----

  /** The claim of call i that belongs to a scope's kind, before and after settlement. */
  lemma OwnClaim(db: Db, i: nat, cost: int, payload: Settlement, scope: Scope)
    requires Open(db, i) && cost >= 0
    ensures var call, next, own := db.calls[i], Settle(db, i, cost, payload), SCOPES * i + KindIndex(scope.kind);
      && own < |db.claims| == |next.claims|
      && db.claims[own] == Claim(call.id, ScopeOf(call.user, call.campaign, call.task, KindIndex(scope.kind)),
                                 call.reserved, 0, Held)
      && next.claims[own]
           == db.claims[own].(settled := cost, status := if cost > call.reserved then Overrun else Settled)
  {}

  lemma OtherClaims(db: Db, i: nat, cost: int, payload: Settlement, scope: Scope, j: nat)
    requires Open(db, i) && j < |db.claims| && j != SCOPES * i + KindIndex(scope.kind)
    ensures var next := Settle(db, i, cost, payload);
      next.claims[j] == db.claims[j] || (db.claims[j].scope != scope && next.claims[j].scope != scope)
  {}

  /** Changing one claim of a scope moves its sums by that claim alone. */
  lemma OneClaimMoves(before: seq<Claim>, after: seq<Claim>, own: nat, scope: Scope)
    requires |before| == |after| && own < |before|
    requires forall j | 0 <= j < |before| && j != own ::
      after[j] == before[j] || (before[j].scope != scope && after[j].scope != scope)
    ensures SumBy(after, HeldIn(scope))
      == SumBy(before, HeldIn(scope)) - HeldIn(scope)(before[own]) + HeldIn(scope)(after[own])
    ensures SumBy(after, ExcessIn(scope))
      == SumBy(before, ExcessIn(scope)) - ExcessIn(scope)(before[own]) + ExcessIn(scope)(after[own])
  {
    SumChangeOne(before, after, own, HeldIn(scope));
    SumChangeOne(before, after, own, ExcessIn(scope));
  }

  lemma SettleMovesClaims(db: Db, i: nat, cost: int, payload: Settlement, scope: Scope)
    requires Open(db, i) && cost >= 0
    ensures var call, next := db.calls[i], Settle(db, i, cost, payload);
      && Reserved(next, scope) == Reserved(db, scope) - (if Member(call, scope) then call.reserved else 0)
      && Excess(next, scope) == Excess(db, scope)
           + (if Member(call, scope) && cost > call.reserved then cost - call.reserved else 0)
  {
    var before, after := db.claims, Settle(db, i, cost, payload).claims;
    var own := SCOPES * i + KindIndex(scope.kind);
    OwnClaim(db, i, cost, payload, scope);
    forall j | 0 <= j < |before| && j != own
      ensures after[j] == before[j] || (before[j].scope != scope && after[j].scope != scope)
    {
      OtherClaims(db, i, cost, payload, scope, j);
    }
    OneClaimMoves(before, after, own, scope);
  }

  lemma MarkUnknownMovesNothing(db: Db, i: nat, scope: Scope)
    requires Open(db, i)
    ensures SumBy(MarkUnknown(db.claims, db.calls[i].id), HeldIn(scope)) == Reserved(db, scope)
    ensures SumBy(MarkUnknown(db.claims, db.calls[i].id), ExcessIn(scope)) == Excess(db, scope)
  {
    SumSame(db.claims, MarkUnknown(db.claims, db.calls[i].id), HeldIn(scope));
    SumSame(db.claims, MarkUnknown(db.claims, db.calls[i].id), ExcessIn(scope));
  }

  lemma ReopenMovesNothing(db: Db, i: nat, scope: Scope)
    requires i < |db.calls|
    ensures Reserved(Reopened(db, i), scope) == Reserved(db, scope)
    ensures Excess(Reopened(db, i), scope) == Excess(db, scope)
  {
    SumSame(db.claims, Reopened(db, i).claims, HeldIn(scope));
    SumSame(db.claims, Reopened(db, i).claims, ExcessIn(scope));
  }

  lemma NewClaimsHold(req: Request, worst: int, scope: Scope)
    ensures var claims := NewClaims(req.call, req.user, req.campaign, req.task, worst);
      && SumBy(claims, HeldIn(scope))
           == (if ScopeOf(req.user, req.campaign, req.task, KindIndex(scope.kind)) == scope then worst else 0)
      && SumBy(claims, ExcessIn(scope)) == 0
  {
    var claims := NewClaims(req.call, req.user, req.campaign, req.task, worst);
    SumSingle(claims, KindIndex(scope.kind), HeldIn(scope));
    SumZero(claims, ExcessIn(scope));
  }

  lemma AuthorizeMovesClaims(db: Db, settings: Settings, req: Request, scope: Scope)
    requires req.model in settings.prices
    ensures var worst, next := Reservation(settings.prices[req.model], req.maxOutput), Authorized(db, settings, req);
      && Reserved(next, scope) == Reserved(db, scope)
           + (if ScopeOf(req.user, req.campaign, req.task, KindIndex(scope.kind)) == scope then worst else 0)
      && Excess(next, scope) == Excess(db, scope)
  {
    var worst := Reservation(settings.prices[req.model], req.maxOutput);
    var added := NewClaims(req.call, req.user, req.campaign, req.task, worst);
    NewClaimsHold(req, worst, scope);
    SumConcat(db.claims, added, HeldIn(scope));
    SumConcat(db.claims, added, ExcessIn(scope));
  }

  // ---- admission ----

  /** An accepted authorisation leaves all four scopes within their caps; a refused one changes nothing. */
  lemma AdmissionStaysWithinCaps(db: Db, settings: Settings, userActive: bool, req: Request, k: nat)
    requires RecordsAgree(db) && settings.Valid() && req.maxOutput > 0 && k < SCOPES
    ensures var scope, next := ScopeOf(req.user, req.campaign, req.task, k),
                               Apply(db, DoAuthorize(settings, userActive, req));
      if Authorize(db, settings, userActive, req).Committed?
      then InForce(next.limits, scope, next.clock) && Spent(next, scope) + Reserved(next, scope) <= Cap(next, scope)
      else next == db
  {
    if Authorize(db, settings, userActive, req).Committed? {
      var scope := ScopeOf(req.user, req.campaign, req.task, k);
      AuthorizeKeeps(db, settings, userActive, req);
      AuthorizeMovesClaims(db, settings, req, scope);
      ReservationIsPositive(settings.prices[req.model], req.maxOutput);
      var capped := db.(limits := WithTaskCap(db.limits, req.task, settings.taskBudget, db.clock));
      assert Admits(capped, scope, Reservation(settings.prices[req.model], req.maxOutput));
      var next := Authorized(db, settings, req);
      assert Spent(next, scope) == Spent(capped, scope) && Cap(next, scope) == Cap(capped, scope);
      assert Reserved(capped, scope) == Reserved(db, scope);
    }
  }

  // ---- four-scope bound while the caps stay in force ----

  /** Cap plus recorded overruns, minus what is spent and held. */
  function Slack(db: Db, scope: Scope): int {
    Cap(db, scope) + Excess(db, scope) - Spent(db, scope) - Reserved(db, scope)
  }

  /** The rows in force for a scope count the same periods as before and are not lowered. */
  ghost predicate CapKept(db: Db, next: Db, scope: Scope) {
    && InForce(db.limits, scope, db.clock)
    && (forall at :: Counted(next.limits, scope, next.clock, at) <==> Counted(db.limits, scope, db.clock, at))
    && Cap(next, scope) >= Cap(db, scope)
  }

  ghost predicate CapKeptThroughout(db: Db, steps: seq<Step>, scope: Scope)
    decreases |steps|
  {
    steps == [] ||
    (CapKept(db, Apply(db, steps[0]), scope) && CapKeptThroughout(Apply(db, steps[0]), steps[1..], scope))
  }

  lemma SpentFollowsPeriods(db: Db, next: Db, scope: Scope)
    requires CapKept(db, next, scope) && next.ledger == db.ledger
    ensures Spent(next, scope) == Spent(db, scope)
  {
    SumEqualWeights(db.ledger, SpentIn(scope, db.limits, db.clock), SpentIn(scope, next.limits, next.clock));
  }

  /** The consumption that settling a call records. */
  function CostRow(db: Db, call: Call, cost: int): Consumption {
    Consumption(call.id, call.user, call.campaign, call.task, cost, db.clock)
  }

  lemma SettleMovesSpent(db: Db, i: nat, cost: int, payload: Settlement, scope: Scope)
    requires i < |db.calls|
    ensures var next := Settle(db, i, cost, payload);
      && Cap(next, scope) == Cap(db, scope)
      && Spent(next, scope) == Spent(db, scope)
           + SpentIn(scope, db.limits, db.clock)(CostRow(db, db.calls[i], cost))
  {
    SumAppend(db.ledger, CostRow(db, db.calls[i], cost), SpentIn(scope, db.limits, db.clock));
  }

  /** A cost is spent in a scope only if the call is charged to it. */
  lemma ChargedIsMember(db: Db, call: Call, cost: int, scope: Scope)
    requires cost >= 0 && Proper(scope)
    ensures SpentIn(scope, db.limits, db.clock)(CostRow(db, call, cost)) <= if Member(call, scope) then cost else 0
  {}

  lemma SettleKeepsSlack(db: Db, i: nat, cost: int, payload: Settlement, scope: Scope)
    requires Open(db, i) && cost >= 0 && Proper(scope)
    ensures Slack(Settle(db, i, cost, payload), scope) >= Slack(db, scope)
  {
    SettleMovesClaims(db, i, cost, payload, scope);
    SettleMovesSpent(db, i, cost, payload, scope);
    ChargedIsMember(db, db.calls[i], cost, scope);
  }

  lemma SettleRecordKeepsSlack(db: Db, i: nat, payload: Settlement, scope: Scope)
    requires RecordsAgree(db) && i < |db.calls| && Proper(scope)
    requires SettleRecord(db, db.calls[i], payload).Committed?
    ensures Slack(SettleRecord(db, db.calls[i], payload).db, scope) >= Slack(db, scope)
  {
    if db.calls[i].settlement.None? {
      SettleRecordOfOpen(db, i, payload);
      match Billable(payload.usage) {
        case None => MarkUnknownMovesNothing(db, i, scope);
        case Some(counts) =>
          assert CallAgrees(db.calls[i], db.ledger);
          CostIsNonNegative(db.calls[i].price, counts);
          SettleKeepsSlack(db, i, CostOf(db.calls[i].price, counts), payload, scope);
      }
    }
  }

  lemma AuthorizeKeepsSlack(db: Db, settings: Settings, userActive: bool, req: Request, scope: Scope)
    requires RecordsAgree(db) && settings.Valid() && req.maxOutput > 0
    requires Proper(scope) && Slack(db, scope) >= 0
    requires CapKept(db, Apply(db, DoAuthorize(settings, userActive, req)), scope)
    ensures Slack(Apply(db, DoAuthorize(settings, userActive, req)), scope) >= 0
  {
    if Authorize(db, settings, userActive, req).Committed? {
      AuthorizeKeeps(db, settings, userActive, req);
      AuthorizeMovesClaims(db, settings, req, scope);
      var next := Authorized(db, settings, req);
      if ScopeOf(req.user, req.campaign, req.task, KindIndex(scope.kind)) == scope {
        AdmissionStaysWithinCaps(db, settings, userActive, req, KindIndex(scope.kind));
        ExcessIsNonNegative(db, scope);
      } else {
        SpentFollowsPeriods(db, next, scope);
      }
    }
  }

  lemma ExcessIsNonNegative(db: Db, scope: Scope)
    requires RecordsAgree(db)
    ensures Excess(db, scope) >= 0
  {
    forall j | 0 <= j < |db.claims| ensures ExcessIn(scope)(db.claims[j]) >= 0 {
      assert CallAgrees(db.calls[j / SCOPES], db.ledger);
    }
    SumNonNegative(db.claims, ExcessIn(scope));
  }

  lemma StepKeepsSlack(db: Db, step: Step, scope: Scope)
    requires RecordsAgree(db) && step.Valid() && Proper(scope) && Slack(db, scope) >= 0
    requires CapKept(db, Apply(db, step), scope)
    ensures Slack(Apply(db, step), scope) >= 0
  {
    var next := Apply(db, step);
    match step {
      case Tick(_) => SpentFollowsPeriods(db, next, scope);
      case DoSetLimit(_, _, _) => SpentFollowsPeriods(db, next, scope);
      case DoAuthorize(settings, userActive, req) => AuthorizeKeepsSlack(db, settings, userActive, req, scope);
      case DoSettle(user, campaign, task, payload) =>
        if next != db {
          var i := FindCall(db.calls, (call: Call) =>
            call.id == payload.call && call.user == user && call.campaign == campaign && call.task == task).value;
          SettleRecordKeepsSlack(db, i, payload, scope);
        }
      case DoReconcile(id, counts, requestId, evidence) =>
        if next != db {
          var i := FindCall(db.calls, (call: Call) =>
            call.id == id && call.status in {CallReserved, CallUnknown}).value;
          ReopenedAgrees(db, i);
          ReconcileIsSettlement(db, i, OperatorPayload(id, counts, requestId));
          ReopenMovesNothing(db, i, scope);
          SettleRecordKeepsSlack(Reopened(db, i), i, OperatorPayload(id, counts, requestId), scope);
        }
    }
  }

  /**
   While a scope's caps stay in force and are not lowered, spending plus holds stay within
   the cap plus what settled calls overran, whatever calls, settlements and reconciliations run.
   */
  lemma {:induction false} ScopeStaysWithinCap(db: Db, steps: seq<Step>, scope: Scope)
    requires RecordsAgree(db) && ValidRun(steps) && Proper(scope) && Slack(db, scope) >= 0
    requires CapKeptThroughout(db, steps, scope)
    ensures var last := Run(db, steps);
      Spent(last, scope) + Reserved(last, scope) <= Cap(last, scope) + Excess(last, scope)
    decreases |steps|
  {
    if steps != [] {
      assert steps[0] in steps;
      StepKeepsSlack(db, steps[0], scope);
      StepKeepsRecords(db, steps[0]);
      ScopeStaysWithinCap(Apply(db, steps[0]), steps[1..], scope);
    }
  }

  /**
   What keeps a scope's cap in force: time that crosses no boundary of its rows, and operator
   changes that do not lower it.  Calls, settlements and reconciliations never disturb it.
   */
  lemma CapIsKept(db: Db, step: Step, scope: Scope)
    requires InForce(db.limits, scope, db.clock)
    requires step.Tick? ==> forall row | row in db.limits ::
      Covers(row, scope, db.clock) <==> Covers(row, scope, db.clock + step.seconds)
    requires step.DoSetLimit? && step.scope == scope ==> step.quantity >= Cap(db, scope)
    ensures CapKept(db, Apply(db, step), scope)
  {
    match step {
      case Tick(seconds) =>
        SumEqualWeights(db.limits, CapIn(scope, db.clock), CapIn(scope, db.clock + seconds));
      case DoSetLimit(_, _, _) => SetLimitKeepsCap(db, step, scope);
      case DoAuthorize(settings, userActive, req) =>
        if Authorize(db, settings, userActive, req).Committed? { TaskCapKeeps(db, settings, req, scope); }
      case DoSettle(user, campaign, task, payload) =>
      case DoReconcile(id, counts, requestId, evidence) =>
    }
  }

  /** A first call's new cap is on its own task, which had none. */
  lemma TaskCapKeeps(db: Db, settings: Settings, req: Request, scope: Scope)
    requires req.model in settings.prices && InForce(db.limits, scope, db.clock)
    ensures CapKept(db, Authorized(db, settings, req), scope)
  {}

  lemma NewPeriodKeepsCap(db: Db, step: Step, scope: Scope)
    requires InForce(db.limits, scope, db.clock) && step.DoSetLimit? && !InForce(db.limits, step.scope, db.clock)
    ensures CapKept(db, Apply(db, step), scope)
  {
    var next := Apply(db, step);
    if next != db {
      SumAppend(db.limits, next.limits[|db.limits|], CapIn(scope, db.clock));
      forall at ensures Counted(next.limits, scope, db.clock, at) <==> Counted(db.limits, scope, db.clock, at) {
        if Counted(db.limits, scope, db.clock, at) {
          var r :| r in db.limits && Covers(r, scope, db.clock) && r.start <= at < r.end;
          assert r in next.limits;
        }
      }
    }
  }

  lemma SetLimitKeepsCap(db: Db, step: Step, scope: Scope)
    requires InForce(db.limits, scope, db.clock) && step.DoSetLimit?
    requires step.scope == scope ==> step.quantity >= Cap(db, scope)
    ensures CapKept(db, Apply(db, step), scope)
  {
    var next := Apply(db, step);
    if !InForce(db.limits, step.scope, db.clock) {
      NewPeriodKeepsCap(db, step, scope);
    } else if next != db {
      var j :| 0 <= j < |db.limits| && Covers(db.limits[j], step.scope, db.clock);
      OnlyOneCovers(db.limits, step.scope, db.clock, j);
      ReplacedRow(db, step, j);
      ReplacedRowKeepsCap(db.limits, j, step.quantity, scope, db.clock);
      SamePeriods(db.limits, next.limits, scope, db.clock);
    }
  }

  lemma ReplacedRow(db: Db, step: Step, j: nat)
    requires step.DoSetLimit? && Apply(db, step) != db && j < |db.limits| && Covers(db.limits[j], step.scope, db.clock)
    requires forall i | 0 <= i < |db.limits| && i != j :: !Covers(db.limits[i], step.scope, db.clock)
    ensures Apply(db, step) == db.(limits := db.limits[j := db.limits[j].(quantity := step.quantity)])
  {
    assert InForce(db.limits, step.scope, db.clock);
  }

  lemma ReplacedRowKeepsCap(limits: seq<Limit>, j: nat, quantity: int, scope: Scope, now: int)
    requires j < |limits| && Covers(limits[j], limits[j].scope, now)
    requires forall i | 0 <= i < |limits| && i != j :: !Covers(limits[i], limits[j].scope, now)
    requires limits[j].scope == scope ==> quantity >= SumBy(limits, CapIn(scope, now))
    ensures SumBy(limits[j := limits[j].(quantity := quantity)], CapIn(scope, now)) >= SumBy(limits, CapIn(scope, now))
  {
    SumChangeOne(limits, limits[j := limits[j].(quantity := quantity)], j, CapIn(scope, now));
    if limits[j].scope == scope { SumSingle(limits, j, CapIn(scope, now)); }
  }

  lemma OnlyOneCovers(limits: seq<Limit>, scope: Scope, now: int, j: nat)
    requires SumBy(limits, CoverCount(scope, now)) <= 1 && j < |limits| && Covers(limits[j], scope, now)
    ensures forall i | 0 <= i < |limits| && i != j :: !Covers(limits[i], scope, now)
  {
    forall i | 0 <= i < |limits| && i != j ensures !Covers(limits[i], scope, now) {
      if Covers(limits[i], scope, now) {
        var low, high := if i < j then i else j, if i < j then j else i;
        assert limits == limits[..low + 1] + limits[low + 1..];
        SumConcat(limits[..low + 1], limits[low + 1..], CoverCount(scope, now));
        SumAtLeast(limits[..low + 1], low, scope, now);
        SumAtLeast(limits[low + 1..], high - low - 1, scope, now);
      }
    }
  }

  lemma SumAtLeast(limits: seq<Limit>, i: nat, scope: Scope, now: int)
    requires i < |limits| && Covers(limits[i], scope, now)
    ensures SumBy(limits, CoverCount(scope, now)) >= 1
  {
    assert limits == limits[..i + 1] + limits[i + 1..];
    SumConcat(limits[..i + 1], limits[i + 1..], CoverCount(scope, now));
    SumNonNegative(limits[..i], CoverCount(scope, now));
    SumNonNegative(limits[i + 1..], CoverCount(scope, now));
    assert limits[..i + 1][..i] == limits[..i];
  }

  lemma SamePeriods(limits: seq<Limit>, next: seq<Limit>, scope: Scope, now: int)
    requires |limits| == |next|
    requires forall i | 0 <= i < |limits| :: next[i] == limits[i].(quantity := next[i].quantity)
    ensures forall at :: Counted(next, scope, now, at) <==> Counted(limits, scope, now, at)
  {}
}
