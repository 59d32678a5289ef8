/** The provider budget tables, updated in place by the service's transactions. */
module ProviderBudgetService {
  import opened Tables
  import opened ProviderPricing
  import opened ProviderBudget

  /** What the caller of a settlement is told. */
  predicate Answers(outcome: Outcome, refusal: Option<int>, status: CallStatus) {
    match outcome
    case Committed(_, s) => refusal == None && status == s
    case Refused(code) => refusal == Some(code)
  }

  class BudgetTables {
    var clock: int
    var limits: seq<Limit>
    var claims: seq<Claim>
    var ledger: seq<Consumption>
    var calls: seq<Call>

    function Now(): (db: Db)
      reads this
    {
      Db(clock, limits, claims, ledger, calls)
    }

    constructor ()
      ensures Now() == EMPTY
    {
      clock, limits, claims, ledger, calls := 0, [], [], [], [];
    }

    /** Claims all four scopes, or none. */
    method Admit(user: string, campaign: string, task: string, quantity: int, key: string) returns (ok: bool)
      modifies this`claims
      ensures ok <==> quantity > 0 && AdmitsAll(old(Now()), user, campaign, task, quantity)
      ensures claims == old(claims) + if ok then NewClaims(key, user, campaign, task, quantity) else []
    {
      if quantity <= 0 || campaign == "" || task == "" {
        return false;
      }
      var available := [];
      for k := 0 to SCOPES
        invariant |available| == k
        invariant forall m: nat | m < k ::
          var scope := ScopeOf(user, campaign, task, m);
          InForce(limits, scope, clock) && available[m] == Available(old(Now()), scope)
      {
        var scope := ScopeOf(user, campaign, task, k);
        if !InForce(limits, scope, clock) {
          assert !Admits(old(Now()), scope, quantity);
          return false;
        }
        available := available + [Available(Now(), scope)];
      }
      for k := 0 to SCOPES
        invariant forall m: nat | m < k :: Admits(old(Now()), ScopeOf(user, campaign, task, m), quantity)
      {
        if available[k] < quantity {
          assert !Admits(old(Now()), ScopeOf(user, campaign, task, k), quantity);
          return false;
        }
      }
      InsertClaims(user, campaign, task, quantity, key);
      return true;
    }

    method InsertClaims(user: string, campaign: string, task: string, quantity: int, key: string)
      modifies this`claims
      ensures claims == old(claims) + NewClaims(key, user, campaign, task, quantity)
    {
      ghost var added := NewClaims(key, user, campaign, task, quantity);
      for k := 0 to SCOPES
        invariant claims == old(claims) + added[..k]
      {
        claims := claims + [Claim(key, ScopeOf(user, campaign, task, k), quantity, 0, Held)];
      }
    }

    /** One authorisation transaction: commits a call with its claims, or rolls everything back. */
    method AuthorizeCall(settings: Settings, userActive: bool, req: Request) returns (refusal: Option<int>)
      modifies this
      ensures Now() == Apply(old(Now()), DoAuthorize(settings, userActive, req))
      ensures match Authorize(old(Now()), settings, userActive, req)
        case Committed(_, _) => refusal == None
        case Refused(code) => refusal == Some(code)
    {
      refusal := Precheck(Now(), settings, userActive, req);
      if refusal.Some? {
        return;
      }
      var price, before := settings.prices[req.model], limits;
      if !exists row | row in limits :: row.scope == Scope(Task, req.task) {
        limits := limits + [Limit(Scope(Task, req.task), settings.taskBudget, clock, clock + TASK_CAP_SECONDS, true)];
      }
      var worst := Reservation(price, req.maxOutput);
      var admitted := Admit(req.user, req.campaign, req.task, worst, req.call);
      if !admitted {
        limits := before;
        return Some(402);
      }
      calls := calls + [Call(req.call, req.user, req.campaign, req.task, price, worst, CallReserved, None)];
    }

    /** Inserts a consumption record once; a replay with another payload is an error. */
    method RecordConsumption(row: Consumption) returns (ok: bool)
      modifies this`ledger
      ensures ok <==> Record(old(ledger), row).Some?
      ensures ledger == if ok then Record(old(ledger), row).value else old(ledger)
    {
      var r := 0;
      while r < |ledger|
        invariant 0 <= r <= |ledger| && ledger == old(ledger)
        invariant forall q | 0 <= q < r :: ledger[q].call == row.call ==>
          ledger[q].quantity == row.quantity && ledger[q].user == row.user
      {
        if ledger[r].call == row.call && (ledger[r].quantity != row.quantity || ledger[r].user != row.user) {
          assert ledger[r] in ledger;
          return false;
        }
        r := r + 1;
      }
      ok := true;
      if !exists prior | prior in ledger :: prior.call == row.call {
        ledger := ledger + [row];
      }
    }

    method SettleRecordInPlace(call: Call, payload: Settlement) returns (refusal: Option<int>, status: CallStatus)
      modifies this`ledger, this`claims, this`calls
      ensures match SettleRecord(old(Now()), call, payload)
        case Committed(db, s) => Now() == db && refusal == None && status == s
        case Refused(code) => Now() == old(Now()) && refusal == Some(code)
    {
      if call.settlement.Some? {
        status := call.status;
        refusal := if call.settlement.value != payload then Some(409) else None;
        return;
      }
      match Billable(payload.usage) {
        case None =>
          claims := MarkUnknown(claims, call.id);
          status := CallUnknown;
        case Some(counts) =>
          var cost := CostOf(call.price, counts);
          var ok := RecordConsumption(
            Consumption(call.id, call.user, call.campaign, call.task, cost, clock));
          if !ok {
            return Some(500), call.status;
          }
          claims := CloseClaims(claims, call.id, cost);
          status := if cost > call.reserved then CallOverrun else CallSettled;
      }
      calls := UpdateCall(calls, call.id, status, payload);
      refusal := None;
    }

    method SettleCallInPlace(user: string, campaign: string, task: string, payload: Settlement)
      returns (refusal: Option<int>, status: CallStatus)
      modifies this
      ensures Now() == Apply(old(Now()), DoSettle(user, campaign, task, payload))
      ensures Answers(SettleCall(old(Now()), user, campaign, task, payload), refusal, status)
    {
      var found := FindCall(calls, (call: Call) =>
        call.id == payload.call && call.user == user && call.campaign == campaign && call.task == task);
      if found.None? {
        return Some(404), CallUnknown;
      }
      refusal, status := SettleRecordInPlace(calls[found.value], payload);
    }

    method ReconcileInPlace(id: string, counts: Counts, requestId: string, evidence: bool)
      returns (refusal: Option<int>, status: CallStatus)
      modifies this
      ensures Now() == Apply(old(Now()), DoReconcile(id, counts, requestId, evidence))
      ensures Answers(Reconcile(old(Now()), id, counts, requestId, evidence), refusal, status)
    {
      var found := FindCall(calls, (call: Call) => call.id == id && call.status in {CallReserved, CallUnknown});
      if found.None? || counts.prompt < 0 || counts.output < 0 || counts.cached < 0
        || counts.cached > counts.prompt || !evidence {
        return Some(400), CallUnknown;
      }
      var before := claims;
      claims := Reopen(claims, id);
      refusal, status := SettleRecordInPlace(
        calls[found.value].(settlement := None), OperatorPayload(id, counts, requestId));
      if refusal.Some? {
        claims := before;
      }
    }

    /** The active rows of a scope: how many there are, and where the last of them is. */
    method ActiveRows(scope: Scope) returns (count: nat, row: nat)
      ensures count == SumBy(limits, CoverCount(scope, clock))
      ensures count == 0 <==> !InForce(limits, scope, clock)
      ensures count > 0 ==> row < |limits| && Covers(limits[row], scope, clock)
      ensures count == 1 ==> forall i | 0 <= i < |limits| && Covers(limits[i], scope, clock) :: i == row
    {
      count, row := 0, 0;
      for i := 0 to |limits|
        invariant count == SumBy(limits[..i], CoverCount(scope, clock))
        invariant count == 0 <==> forall j | 0 <= j < i :: !Covers(limits[j], scope, clock)
        invariant count > 0 ==> row < i && Covers(limits[row], scope, clock)
        invariant count == 1 ==> forall j | 0 <= j < i && Covers(limits[j], scope, clock) :: j == row
      {
        assert limits[..i + 1] == limits[..i] + [limits[i]];
        SumAppend(limits[..i], limits[i], CoverCount(scope, clock));
        if Covers(limits[i], scope, clock) {
          count, row := count + 1, i;
        }
      }
      assert limits[..|limits|] == limits;
    }

    /** The operator's cap: the row in force is changed in place, or a new period starts. */
    method SetLimitInPlace(scope: Scope, quantity: int, days: int) returns (refusal: Option<int>)
      modifies this`limits
      ensures Now() == Apply(old(Now()), DoSetLimit(scope, quantity, days))
      ensures refusal == if SetLimit(old(Now()), scope, quantity, days).Committed? then None else Some(400)
    {
      if scope.kind == Task || (scope.kind == Site && scope.id != "default") || quantity < 0 || days < 1 {
        return Some(400);
      }
      var count, row := ActiveRows(scope);
      if count > 1 {
        return Some(400);
      }
      if count == 1 {
        limits := limits[row := limits[row].(quantity := quantity)];
        assert limits == SetLimit(old(Now()), scope, quantity, days).db.limits;
      } else {
        limits := limits + [Limit(scope, quantity, clock, clock + days * 86400, true)];
      }
      refusal := None;
    }
  }
}
