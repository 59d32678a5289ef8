/** The three records of a call - its row, its four claims, its consumption - always agree. */
module ProviderBudgetRecords {
  import opened Tables
  import opened ProviderPricing
  import opened ProviderBudget

  predicate Closed(call: Call) { call.status in {CallSettled, CallOverrun} }

  function AmountFor(id: string): Consumption -> int {
    (row: Consumption) => if row.call == id then row.quantity else 0
  }

  function EntryFor(id: string): Consumption -> int {
    (row: Consumption) => if row.call == id then 1 else 0
  }

  /** The cost recorded for a call. */
  function Recorded(ledger: seq<Consumption>, id: string): int { SumBy(ledger, AmountFor(id)) }

  function Entries(ledger: seq<Consumption>, id: string): int { SumBy(ledger, EntryFor(id)) }

  function ClaimStatusOf(status: CallStatus): ClaimStatus {
    match status
    case CallReserved => Held
    case CallUnknown => Pending
    case CallSettled => Settled
    case CallOverrun => Overrun
  }

  /** What the k-th claim of a call must be, given the cost recorded for it. */
  function ClaimFor(call: Call, k: nat, recorded: int): Claim
    requires k < SCOPES
  {
    Claim(call.id, ScopeOf(call.user, call.campaign, call.task, k), call.reserved,
          if Closed(call) then recorded else 0, ClaimStatusOf(call.status))
  }

  ghost predicate CallAgrees(call: Call, ledger: seq<Consumption>) {
    && call.price.Valid()
    && call.reserved > 0
    && (call.settlement.None? <==> call.status == CallReserved)
    && Entries(ledger, call.id) == (if Closed(call) then 1 else 0)
    && (Closed(call) ==> 0 <= Recorded(ledger, call.id))
    && (Closed(call) ==> (call.status == CallOverrun <==> Recorded(ledger, call.id) > call.reserved))
  }

  ghost predicate Known(calls: seq<Call>, id: string) { exists call | call in calls :: call.id == id }

  /** Claims come four to a call, in the order of the calls. */
  ghost predicate RecordsAgree(db: Db) {
    && |db.claims| == SCOPES * |db.calls|
    && (forall j | 0 <= j < |db.claims| ::
          db.claims[j] == ClaimFor(db.calls[j / SCOPES], j % SCOPES, Recorded(db.ledger, db.calls[j / SCOPES].id)))
    && (forall i | 0 <= i < |db.calls| :: CallAgrees(db.calls[i], db.ledger))
    && (forall i, j | 0 <= i < j < |db.calls| :: db.calls[i].id != db.calls[j].id)
    && (forall r | 0 <= r < |db.ledger| :: Known(db.calls, db.ledger[r].call))
  }

  lemma ClaimOf(db: Db, i: nat, k: nat)
    requires RecordsAgree(db) && i < |db.calls| && k < SCOPES
    ensures SCOPES * i + k < |db.claims|
    ensures db.claims[SCOPES * i + k] == ClaimFor(db.calls[i], k, Recorded(db.ledger, db.calls[i].id))
  {
    var own := SCOPES * i + k;
    assert own / SCOPES == i && own % SCOPES == k;
  }

  // ---- the consumption ledger ----

  lemma {:induction false} NoEntryMeansNoRow(ledger: seq<Consumption>, id: string)
    requires Entries(ledger, id) == 0
    ensures forall r | 0 <= r < |ledger| :: ledger[r].call != id
    decreases |ledger|
  {
    if ledger != [] {
      SumNonNegative(ledger[..|ledger| - 1], EntryFor(id));
      NoEntryMeansNoRow(ledger[..|ledger| - 1], id);
    }
  }

  lemma NoRowMeansNoEntry(ledger: seq<Consumption>, id: string)
    requires forall r | 0 <= r < |ledger| :: ledger[r].call != id
    ensures Entries(ledger, id) == 0 && Recorded(ledger, id) == 0
  {
    SumZero(ledger, EntryFor(id));
    SumZero(ledger, AmountFor(id));
  }

  lemma LedgerAppend(ledger: seq<Consumption>, row: Consumption)
    ensures forall id :: Recorded(ledger + [row], id) == Recorded(ledger, id) + AmountFor(id)(row)
    ensures forall id :: Entries(ledger + [row], id) == Entries(ledger, id) + EntryFor(id)(row)
  {}

  /** Recording the same consumption twice changes nothing; a different amount is refused. */
  lemma RecordIsIdempotent(ledger: seq<Consumption>, row: Consumption, again: Consumption)
    requires Record(ledger, row).Some? && again.call == row.call
    ensures Record(Record(ledger, row).value, row) == Some(Record(ledger, row).value)
    ensures again.quantity != row.quantity || again.user != row.user
      ==> Record(Record(ledger, row).value, again).None?
  {
    var after := Record(ledger, row).value;
    if exists prior | prior in ledger :: prior.call == row.call {
      var prior :| prior in ledger && prior.call == row.call;
      assert prior in after;
    } else {
      assert after[|ledger|] == row;
      assert row in after;
    }
  }

  // ---- settling ----

  ghost predicate Open(db: Db, i: nat) {
    RecordsAgree(db) && i < |db.calls| && db.calls[i].settlement.None?
  }

  /** An open call has not been recorded, so its settlement is never refused. */
  lemma OpenCallIsUnrecorded(db: Db, i: nat, row: Consumption)
    requires Open(db, i) && row.call == db.calls[i].id
    ensures Record(db.ledger, row) == Some(db.ledger + [row])
    ensures Entries(db.ledger, row.call) == 0 && Recorded(db.ledger, row.call) == 0
  {
    assert CallAgrees(db.calls[i], db.ledger);
    NoEntryMeansNoRow(db.ledger, row.call);
    NoRowMeansNoEntry(db.ledger, row.call);
  }

  /** The claims of call i are exactly the rows SCOPES*i .. SCOPES*i + 3. */
  lemma ClaimsOfCall(db: Db, i: nat, j: nat)
    requires RecordsAgree(db) && i < |db.calls| && j < |db.claims|
    ensures db.claims[j].call == db.calls[i].id <==> j / SCOPES == i
  {}

  lemma MarkUnknownKeeps(db: Db, i: nat, payload: Settlement)
    requires Open(db, i)
    ensures var call := db.calls[i];
      RecordsAgree(db.(claims := MarkUnknown(db.claims, call.id),
                       calls := UpdateCall(db.calls, call.id, CallUnknown, payload)))
  {
    var call := db.calls[i];
    var next := db.(claims := MarkUnknown(db.claims, call.id),
                    calls := UpdateCall(db.calls, call.id, CallUnknown, payload));
    UpdateCallChangesOne(db, i, CallUnknown, payload);
    forall j | 0 <= j < |next.claims|
      ensures next.claims[j]
        == ClaimFor(next.calls[j / SCOPES], j % SCOPES, Recorded(next.ledger, next.calls[j / SCOPES].id))
    {
      ClaimsOfCall(db, i, j);
    }
    KnownStays(db.calls, next.calls, db.ledger);
  }

  lemma UpdateCallChangesOne(db: Db, i: nat, status: CallStatus, payload: Settlement)
    requires RecordsAgree(db) && i < |db.calls|
    ensures UpdateCall(db.calls, db.calls[i].id, status, payload)
      == db.calls[i := db.calls[i].(status := status, settlement := Some(payload))]
  {}

  lemma KnownStays(calls: seq<Call>, next: seq<Call>, ledger: seq<Consumption>)
    requires |calls| <= |next| && forall i | 0 <= i < |calls| :: next[i].id == calls[i].id
    requires forall r | 0 <= r < |ledger| :: Known(calls, ledger[r].call)
    ensures forall r | 0 <= r < |ledger| :: Known(next, ledger[r].call)
  {}

  function Settle(db: Db, i: nat, cost: int, payload: Settlement): Db
    requires i < |db.calls|
  {
    var call := db.calls[i];
    db.(ledger := db.ledger + [Consumption(call.id, call.user, call.campaign, call.task, cost, db.clock)],
        claims := CloseClaims(db.claims, call.id, cost),
        calls := UpdateCall(db.calls, call.id, if cost > call.reserved then CallOverrun else CallSettled, payload))
  }

  lemma SettleKeeps(db: Db, i: nat, cost: int, payload: Settlement)
    requires Open(db, i) && cost >= 0
    ensures RecordsAgree(Settle(db, i, cost, payload))
    ensures Recorded(Settle(db, i, cost, payload).ledger, db.calls[i].id) == cost
  {
    var call := db.calls[i];
    var row := Consumption(call.id, call.user, call.campaign, call.task, cost, db.clock);
    var next := Settle(db, i, cost, payload);
    UpdateCallChangesOne(db, i, next.calls[i].status, payload);
    OpenCallIsUnrecorded(db, i, row);
    LedgerAppend(db.ledger, row);
    assert Recorded(next.ledger, call.id) == cost;
    forall j | 0 <= j < |next.claims|
      ensures next.claims[j]
        == ClaimFor(next.calls[j / SCOPES], j % SCOPES, Recorded(next.ledger, next.calls[j / SCOPES].id))
    {
      ClaimsOfCall(db, i, j);
    }
    forall m | 0 <= m < |next.calls| ensures CallAgrees(next.calls[m], next.ledger) {
      assert CallAgrees(db.calls[m], db.ledger);
    }
    KnownStays(db.calls, next.calls, db.ledger);
    assert next.calls[i] in next.calls;
  }

  /** Settling an open call always commits, to one of two databases. */
  lemma SettleRecordOfOpen(db: Db, i: nat, payload: Settlement)
    requires Open(db, i)
    ensures SettleRecord(db, db.calls[i], payload).Committed?
    ensures var call, next := db.calls[i], SettleRecord(db, db.calls[i], payload).db;
      match Billable(payload.usage)
      case None => next == db.(claims := MarkUnknown(db.claims, call.id),
                               calls := UpdateCall(db.calls, call.id, CallUnknown, payload))
      case Some(counts) => next == Settle(db, i, CostOf(call.price, counts), payload)
  {
    var call := db.calls[i];
    if Billable(payload.usage).Some? {
      var cost := CostOf(call.price, Billable(payload.usage).value);
      OpenCallIsUnrecorded(db, i, Consumption(call.id, call.user, call.campaign, call.task, cost, db.clock));
    }
  }

  lemma CostIsNonNegative(price: Price, counts: Counts)
    requires price.Valid() && 0 <= counts.cached <= counts.prompt && counts.output >= 0
    ensures CostOf(price, counts) >= 0
  {}

  lemma SettleRecordKeeps(db: Db, i: nat, payload: Settlement)
    requires RecordsAgree(db) && i < |db.calls|
    ensures SettleRecord(db, db.calls[i], payload).Committed?
      ==> RecordsAgree(SettleRecord(db, db.calls[i], payload).db)
  {
    assert CallAgrees(db.calls[i], db.ledger);
    if db.calls[i].settlement.None? {
      SettleRecordOfOpen(db, i, payload);
      match Billable(payload.usage) {
        case None => MarkUnknownKeeps(db, i, payload);
        case Some(counts) =>
          CostIsNonNegative(db.calls[i].price, counts);
          SettleKeeps(db, i, CostOf(db.calls[i].price, counts), payload);
      }
    }
  }

  // ---- operator reconciliation is settlement of the call as if it had not been settled ----

  function Reopened(db: Db, i: nat): Db
    requires i < |db.calls|
  {
    db.(claims := Reopen(db.claims, db.calls[i].id),
        calls := db.calls[i := db.calls[i].(status := CallReserved, settlement := None)])
  }

  lemma ReopenedAgrees(db: Db, i: nat)
    requires RecordsAgree(db) && i < |db.calls| && !Closed(db.calls[i])
    ensures Open(Reopened(db, i), i)
  {
    var next := Reopened(db, i);
    forall j | 0 <= j < |next.claims|
      ensures next.claims[j]
        == ClaimFor(next.calls[j / SCOPES], j % SCOPES, Recorded(next.ledger, next.calls[j / SCOPES].id))
    {
      ClaimsOfCall(db, i, j);
    }
    forall m | 0 <= m < |next.calls| ensures CallAgrees(next.calls[m], next.ledger) {
      assert CallAgrees(db.calls[m], db.ledger);
    }
    KnownStays(db.calls, next.calls, db.ledger);
  }

  lemma ReconcileIsSettlement(db: Db, i: nat, payload: Settlement)
    requires RecordsAgree(db) && i < |db.calls| && !Closed(db.calls[i])
    ensures SettleRecord(db.(claims := Reopen(db.claims, db.calls[i].id)),
                         db.calls[i].(settlement := None), payload)
      == SettleRecord(Reopened(db, i), Reopened(db, i).calls[i], payload)
  {
    var next := Reopened(db, i);
    forall status | true
      ensures UpdateCall(db.calls, db.calls[i].id, status, payload)
        == UpdateCall(next.calls, db.calls[i].id, status, payload)
    {}
  }

  // ---- authorisation ----

  /** What an accepted authorisation commits. */
  function Authorized(db: Db, settings: Settings, req: Request): Db
    requires req.model in settings.prices
  {
    var price := settings.prices[req.model];
    var worst := Reservation(price, req.maxOutput);
    db.(limits := WithTaskCap(db.limits, req.task, settings.taskBudget, db.clock),
        claims := db.claims + NewClaims(req.call, req.user, req.campaign, req.task, worst),
        calls := db.calls
          + [Call(req.call, req.user, req.campaign, req.task, price, worst, CallReserved, None)])
  }

  lemma AuthorizeKeeps(db: Db, settings: Settings, userActive: bool, req: Request)
    requires RecordsAgree(db) && settings.Valid() && req.maxOutput > 0
    ensures var r := Authorize(db, settings, userActive, req);
      r.Committed? ==>
        req.model in settings.prices && r.db == Authorized(db, settings, req) && RecordsAgree(r.db)
  {
    if Authorize(db, settings, userActive, req).Committed? {
      var next := Authorized(db, settings, req);
      var added := next.calls[|db.calls|];
      ReservationIsPositive(settings.prices[req.model], req.maxOutput);
      forall r | 0 <= r < |db.ledger| ensures db.ledger[r].call != req.call {
        assert Known(db.calls, db.ledger[r].call);
      }
      NoRowMeansNoEntry(db.ledger, req.call);
      KnownStays(db.calls, next.calls, db.ledger);
      forall i, j | 0 <= i < j < |next.calls| ensures next.calls[i].id != next.calls[j].id {
        assert db.calls[i] in db.calls;
      }
    }
  }

  // ---- every run ----

  lemma StepKeepsRecords(db: Db, step: Step)
    requires RecordsAgree(db) && step.Valid()
    ensures RecordsAgree(Apply(db, step))
  {
    match step {
      case Tick(_) =>
      case DoSetLimit(_, _, _) =>
      case DoAuthorize(settings, userActive, req) => AuthorizeKeeps(db, settings, userActive, req);
      case DoSettle(user, campaign, task, payload) =>
        var found := FindCall(db.calls, (call: Call) =>
          call.id == payload.call && call.user == user && call.campaign == campaign && call.task == task);
        if found.Some? { SettleRecordKeeps(db, found.value, payload); }
      case DoReconcile(id, counts, requestId, evidence) =>
        var found := FindCall(db.calls, (call: Call) => call.id == id && call.status in {CallReserved, CallUnknown});
        if found.Some? {
          var payload := OperatorPayload(id, counts, requestId);
          ReconcileIsSettlement(db, found.value, payload);
          ReopenedAgrees(db, found.value);
          SettleRecordKeeps(Reopened(db, found.value), found.value, payload);
        }
    }
  }

  /** In every database a run can reach, a call's row, its four claims and its consumption agree. */
  lemma {:induction false} RecordsAlwaysAgree(db: Db, steps: seq<Step>)
    requires RecordsAgree(db) && ValidRun(steps)
    ensures RecordsAgree(Run(db, steps))
    decreases |steps|
  {
    if steps != [] {
      assert steps[0] in steps;
      StepKeepsRecords(db, steps[0]);
      RecordsAlwaysAgree(Apply(db, steps[0]), steps[1..]);
    }
  }
}
