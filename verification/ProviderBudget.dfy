/**
 The provider budget protocol: authorise, settle, operator reconcile and operator limits,
 over the tables of limits, claims, consumption and calls.  Each transaction is one step
 that either commits a new database or leaves the old one in place.  Money is in
 micro-dollars; only rows of the cost metric are modelled.
 */
module ProviderBudget {
  import opened Tables
  import opened ProviderPricing

  datatype ScopeKind = Site | User | Campaign | Task

  datatype Scope = Scope(kind: ScopeKind, id: string)

  datatype Limit = Limit(scope: Scope, quantity: int, start: int, end: int, active: bool)

  datatype ClaimStatus = Held | Pending | Settled | Overrun

  datatype Claim = Claim(call: string, scope: Scope, quantity: int, settled: int, status: ClaimStatus)

  /** One consumption record; its idempotency key is the call's id under a fixed prefix. */
  datatype Consumption = Consumption(
    call: string, user: string, campaign: string, task: string, quantity: int, occurredAt: int)

  datatype CallStatus = CallReserved | CallUnknown | CallSettled | CallOverrun

  datatype Call = Call(
    id: string,
    user: string,
    campaign: string,
    task: string,
    price: Price,
    reserved: int,
    status: CallStatus,
    settlement: Option<Settlement>)

  /** A JSON value of the provider's usage report. */
  datatype Value =
    | Null
    | Flag(b: bool)
    | Num(n: int)
    | Real(r: real)
    | Text(s: string)
    | Object(fields: map<string, Value>)
  {
    predicate Truthy() {
      match this
      case Null => false
      case Flag(b) => b
      case Num(n) => n != 0
      case Real(r) => r != 0.0
      case Text(s) => s != ""
      case Object(fields) => fields != map[]
    }
  }

  /** A settlement request.  The stored hash is collision free, so it stands for the request. */
  datatype Settlement = Settlement(
    call: string, usage: map<string, Value>, finishReason: string, requestId: Option<string>)

  datatype Db = Db(
    clock: int, limits: seq<Limit>, claims: seq<Claim>, ledger: seq<Consumption>, calls: seq<Call>)

  datatype Outcome = Committed(db: Db, status: CallStatus) | Refused(code: int)

  // ---- scopes and balances (budgets.py) ----

  const SCOPES: nat := 4

  function ScopeOf(user: string, campaign: string, task: string, k: nat): Scope
    requires k < SCOPES
  {
    if k == 0 then Scope(Site, "default")
    else if k == 1 then Scope(User, user)
    else if k == 2 then Scope(Campaign, campaign)
    else Scope(Task, task)
  }

  predicate Covers(row: Limit, scope: Scope, at: int) {
    row.scope == scope && row.active && row.start <= at < row.end
  }

  predicate InForce(limits: seq<Limit>, scope: Scope, now: int) {
    exists row | row in limits :: Covers(row, scope, now)
  }

  /** Whether a record at `at` falls in a period of a row in force at `now`. */
  predicate Counted(limits: seq<Limit>, scope: Scope, now: int, at: int) {
    exists row | row in limits :: Covers(row, scope, now) && row.start <= at < row.end
  }

  function CapIn(scope: Scope, now: int): Limit -> int {
    (row: Limit) => if Covers(row, scope, now) then row.quantity else 0
  }

  predicate Charges(row: Consumption, scope: Scope) {
    match scope.kind
    case Site => true
    case User => row.user == scope.id
    case Campaign => row.campaign == scope.id
    case Task => row.task == scope.id
  }

  function SpentIn(scope: Scope, limits: seq<Limit>, now: int): Consumption -> int {
    (row: Consumption) =>
      if Charges(row, scope) && Counted(limits, scope, now, row.occurredAt) then row.quantity else 0
  }

  function HeldIn(scope: Scope): Claim -> int {
    (claim: Claim) =>
      if claim.scope == scope && claim.status in {Held, Pending} then claim.quantity else 0
  }

  /** How far settled calls went past their holds. */
  function ExcessIn(scope: Scope): Claim -> int {
    (claim: Claim) =>
      if claim.scope == scope && claim.status == Overrun then claim.settled - claim.quantity else 0
  }

  function Cap(db: Db, scope: Scope): int { SumBy(db.limits, CapIn(scope, db.clock)) }

  function Spent(db: Db, scope: Scope): int { SumBy(db.ledger, SpentIn(scope, db.limits, db.clock)) }

  function Reserved(db: Db, scope: Scope): int { SumBy(db.claims, HeldIn(scope)) }

  function Excess(db: Db, scope: Scope): int { SumBy(db.claims, ExcessIn(scope)) }

  function Available(db: Db, scope: Scope): int {
    var left := Cap(db, scope) - Spent(db, scope) - Reserved(db, scope);
    if left < 0 then 0 else left
  }

  /** Admission of `quantity` against one scope: configured, and enough left. */
  predicate Admits(db: Db, scope: Scope, quantity: int) {
    InForce(db.limits, scope, db.clock) && Available(db, scope) >= quantity
  }

  predicate AdmitsAll(db: Db, user: string, campaign: string, task: string, quantity: int) {
    campaign != "" && task != "" &&
    forall k: nat | k < SCOPES :: Admits(db, ScopeOf(user, campaign, task, k), quantity)
  }

  function NewClaims(id: string, user: string, campaign: string, task: string, quantity: int): seq<Claim> {
    seq(SCOPES, k requires 0 <= k < SCOPES => Claim(id, ScopeOf(user, campaign, task, k), quantity, 0, Held))
  }

  // ---- authorisation (provider_budget_api.py) ----

  datatype Request = Request(
    call: string, user: string, campaign: string, task: string,
    provider: string, model: string, maxOutput: int, bytes: int)

  datatype Settings = Settings(enabled: bool, prices: map<string, Price>, taskBudget: int)
  {
    predicate Valid() {
      taskBudget > 0 && forall model | model in prices :: prices[model].Valid()
    }
  }

  predicate Blocking(call: Call, task: string) {
    call.task == task && call.status in {CallReserved, CallUnknown, CallOverrun}
  }

  const TASK_CAP_SECONDS: int := 36500 * 86400

  /** The task's lifetime cap, created on its first call only. */
  function WithTaskCap(limits: seq<Limit>, task: string, budget: int, now: int): seq<Limit> {
    if exists row | row in limits :: row.scope == Scope(Task, task) then limits
    else limits + [Limit(Scope(Task, task), budget, now, now + TASK_CAP_SECONDS, true)]
  }

  /** The checks before any table is read; a status code if one fails. */
  function Precheck(db: Db, settings: Settings, userActive: bool, req: Request): Option<int> {
    if !settings.enabled then Some(503)
    else if req.model !in settings.prices || settings.prices[req.model].provider != req.provider then Some(403)
    else if settings.prices[req.model].validUntil <= db.clock then Some(403)
    else if req.maxOutput > settings.prices[req.model].maxOutput
         || req.bytes > settings.prices[req.model].maxBytes then Some(413)
    else if !userActive then Some(403)
    else if exists call | call in db.calls :: call.id == req.call then Some(409)
    else if exists call | call in db.calls :: Blocking(call, req.task) then Some(409)
    else None
  }

  function Authorize(db: Db, settings: Settings, userActive: bool, req: Request): Outcome {
    var refusal := Precheck(db, settings, userActive, req);
    if refusal.Some? then Refused(refusal.value) else
    var price := settings.prices[req.model];
    var capped := db.(limits := WithTaskCap(db.limits, req.task, settings.taskBudget, db.clock));
    var worst := Reservation(price, req.maxOutput);
    if worst <= 0 || !AdmitsAll(capped, req.user, req.campaign, req.task, worst) then Refused(402) else
    Committed(
      capped.(claims := capped.claims + NewClaims(req.call, req.user, req.campaign, req.task, worst),
              calls := capped.calls
                + [Call(req.call, req.user, req.campaign, req.task, price, worst, CallReserved, None)]),
      CallReserved)
  }

  // ---- settlement ----

  function Lookup(usage: map<string, Value>, name: string, otherwise: Value): Value {
    if name in usage then usage[name] else otherwise
  }

  datatype Counts = Counts(prompt: int, output: int, cached: int)

  /** The token counts of a usage report, if it is complete enough to be priced. */
  function Billable(usage: map<string, Value>): Option<Counts> {
    var prompt := Lookup(usage, "prompt_tokens", Lookup(usage, "input_tokens", Null));
    var output := Lookup(usage, "completion_tokens", Lookup(usage, "output_tokens", Null));
    var reported := Lookup(usage, "prompt_tokens_details", Null);
    var details := if reported.Object? then reported.fields else map[];
    var cached := Lookup(usage, "cached_tokens",
      Lookup(usage, "cache_read_input_tokens",
        Lookup(usage, "prompt_cache_hit_tokens", Lookup(details, "cached_tokens", Num(0)))));
    if prompt.Num? && output.Num? && cached.Num?
      && prompt.n >= 0 && output.n >= 0 && cached.n >= 0 && cached.n <= prompt.n
      && !Lookup(usage, "cache_creation_input_tokens", Null).Truthy()
    then Some(Counts(prompt.n, output.n, cached.n))
    else None
  }

  /** The idempotent insert of a consumption record; None when the key's payload differs. */
  function Record(ledger: seq<Consumption>, row: Consumption): Option<seq<Consumption>> {
    if exists prior | prior in ledger :: prior.call == row.call then
      if forall prior | prior in ledger && prior.call == row.call ::
           prior.quantity == row.quantity && prior.user == row.user
      then Some(ledger) else None
    else Some(ledger + [row])
  }

  function MarkUnknown(claims: seq<Claim>, call: string): seq<Claim> {
    seq(|claims|, i requires 0 <= i < |claims| =>
      if claims[i].call == call && claims[i].status == Held then claims[i].(status := Pending) else claims[i])
  }

  function Reopen(claims: seq<Claim>, call: string): seq<Claim> {
    seq(|claims|, i requires 0 <= i < |claims| =>
      if claims[i].call == call && claims[i].status == Pending then claims[i].(status := Held) else claims[i])
  }

  function CloseClaims(claims: seq<Claim>, call: string, cost: int): seq<Claim> {
    seq(|claims|, i requires 0 <= i < |claims| =>
      if claims[i].call == call && claims[i].status == Held
      then claims[i].(status := if cost > claims[i].quantity then Overrun else Settled, settled := cost)
      else claims[i])
  }

  function UpdateCall(calls: seq<Call>, id: string, status: CallStatus, payload: Settlement): seq<Call> {
    seq(|calls|, i requires 0 <= i < |calls| =>
      if calls[i].id == id then calls[i].(status := status, settlement := Some(payload)) else calls[i])
  }

  function CostOf(price: Price, counts: Counts): int {
    Cost(price, counts.prompt, counts.cached, counts.output)
  }

  function SettleRecord(db: Db, call: Call, payload: Settlement): Outcome {
    if call.settlement.Some? then
      if call.settlement.value != payload then Refused(409) else Committed(db, call.status)
    else
      match Billable(payload.usage)
      case None =>
        Committed(db.(claims := MarkUnknown(db.claims, call.id),
                      calls := UpdateCall(db.calls, call.id, CallUnknown, payload)), CallUnknown)
      case Some(counts) =>
        var cost := CostOf(call.price, counts);
        match Record(db.ledger, Consumption(call.id, call.user, call.campaign, call.task, cost, db.clock))
        case None => Refused(500)
        case Some(ledger) =>
          var status := if cost > call.reserved then CallOverrun else CallSettled;
          Committed(db.(ledger := ledger,
                        claims := CloseClaims(db.claims, call.id, cost),
                        calls := UpdateCall(db.calls, call.id, status, payload)), status)
  }

  /** The first call that answers a query, as an index. */
  function FindCall(calls: seq<Call>, wanted: Call -> bool): (found: Option<nat>)
    ensures found.Some? ==> found.value < |calls| && wanted(calls[found.value])
    ensures found.None? ==> forall call | call in calls :: !wanted(call)
  {
    if calls == [] then None
    else if wanted(calls[0]) then Some(0)
    else
      match FindCall(calls[1..], wanted)
      case None => None
      case Some(i) => Some(i + 1)
  }

  function SettleCall(db: Db, user: string, campaign: string, task: string, payload: Settlement): Outcome {
    match FindCall(db.calls, (call: Call) =>
      call.id == payload.call && call.user == user && call.campaign == campaign && call.task == task)
    case None => Refused(404)
    case Some(i) => SettleRecord(db, db.calls[i], payload)
  }

  // ---- operator steps (budget_cli.py) ----

  function OperatorPayload(call: string, counts: Counts, requestId: string): Settlement {
    Settlement(
      call,
      map["prompt_tokens" := Num(counts.prompt), "completion_tokens" := Num(counts.output),
          "cached_tokens" := Num(counts.cached)],
      "operator_reconciled", Some(requestId))
  }

  function Reconcile(db: Db, id: string, counts: Counts, requestId: string, evidence: bool): Outcome {
    match FindCall(db.calls, (call: Call) => call.id == id && call.status in {CallReserved, CallUnknown})
    case None => Refused(400)
    case Some(i) =>
      if counts.prompt < 0 || counts.output < 0 || counts.cached < 0
        || counts.cached > counts.prompt || !evidence then Refused(400)
      else
        SettleRecord(db.(claims := Reopen(db.claims, id)), db.calls[i].(settlement := None),
                     OperatorPayload(id, counts, requestId))
  }

  function CoverCount(scope: Scope, now: int): Limit -> int {
    (row: Limit) => if Covers(row, scope, now) then 1 else 0
  }

  /** An operator cap on a site, user or campaign: replaces the one in force or starts a period. */
  function SetLimit(db: Db, scope: Scope, quantity: int, days: int): Outcome {
    if scope.kind == Task || (scope.kind == Site && scope.id != "default") then Refused(400)
    else if quantity < 0 || days < 1 then Refused(400)
    else if SumBy(db.limits, CoverCount(scope, db.clock)) > 1 then Refused(400)
    else if InForce(db.limits, scope, db.clock) then
      Committed(db.(limits := seq(|db.limits|, i requires 0 <= i < |db.limits| =>
        if Covers(db.limits[i], scope, db.clock) then db.limits[i].(quantity := quantity) else db.limits[i])),
        CallReserved)
    else
      Committed(db.(limits := db.limits
        + [Limit(scope, quantity, db.clock, db.clock + days * 86400, true)]), CallReserved)
  }

  // ---- runs ----

  datatype Step =
    | Tick(seconds: nat)
    | DoAuthorize(settings: Settings, userActive: bool, req: Request)
    | DoSettle(user: string, campaign: string, task: string, payload: Settlement)
    | DoReconcile(id: string, counts: Counts, requestId: string, evidence: bool)
    | DoSetLimit(scope: Scope, quantity: int, days: int)
  {
    // What the configuration model and the request model demand of their fields.
    predicate Valid() {
      DoAuthorize? ==> settings.Valid() && req.maxOutput > 0 && req.bytes >= 0
    }
  }

  function Attempt(db: Db, step: Step): Outcome {
    match step
    case Tick(seconds) => Committed(db.(clock := db.clock + seconds), CallReserved)
    case DoAuthorize(settings, userActive, req) => Authorize(db, settings, userActive, req)
    case DoSettle(user, campaign, task, payload) => SettleCall(db, user, campaign, task, payload)
    case DoReconcile(id, counts, requestId, evidence) => Reconcile(db, id, counts, requestId, evidence)
    case DoSetLimit(scope, quantity, days) => SetLimit(db, scope, quantity, days)
  }

  /** A refused transaction rolls back. */
  function Apply(db: Db, step: Step): Db {
    match Attempt(db, step)
    case Committed(next, _) => next
    case Refused(_) => db
  }

  predicate ValidRun(steps: seq<Step>) { forall step | step in steps :: step.Valid() }

  function Run(db: Db, steps: seq<Step>): Db
    decreases |steps|
  {
    if steps == [] then db else Run(Apply(db, steps[0]), steps[1..])
  }

  const EMPTY: Db := Db(0, [], [], [], [])
}
