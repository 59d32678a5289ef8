/**
 Entitlement quota: reservations against time-bounded grants, settled by a greedy allocation.
 Each call is one step over the grants, the reservations and the usage ledger.
 */
module Quota {
  import opened Tables

  datatype Account = Account(user: string, metric: string)

  datatype Grant = Grant(id: int, account: Account, quantity: int, start: int, end: int)
  {
    predicate ActiveAt(at: int) { start <= at < end }
  }

  datatype ReservationStatus = Reserved | Settled | Released | Expired

  datatype Reservation = Reservation(
    id: int, account: Account, campaign: string, quantity: int, settled: int,
    status: ReservationStatus, key: string, expiresAt: int)

  /** An entry of a usage row's recorded allocations; malformed history has missing parts. */
  datatype Item = Item(grant: Option<int>, quantity: Option<int>)
  {
    predicate Counts() { grant.Some? && quantity.Some? && quantity.value > 0 }
  }

  datatype Usage = Usage(
    account: Account, reservation: Option<int>, quantity: int, unit: string, key: string,
    occurredAt: int, items: seq<Item>)

  /** `owned` are the reservations that a queued, running or waiting durable job still owns. */
  datatype Db = Db(
    clock: int, grants: seq<Grant>, reservations: seq<Reservation>, usage: seq<Usage>, owned: set<int>)

  // ---- recorded allocations ----

  function ShareOf(grant: int): Item -> int {
    (item: Item) => if item.Counts() && item.grant.value == grant then item.quantity.value else 0
  }

  function ShareIn(grants: set<int>): Item -> int {
    (item: Item) => if item.Counts() && item.grant.value in grants then item.quantity.value else 0
  }

  /** What a row's allocations charge to a grant. */
  function Charged(items: seq<Item>, grant: int): int { SumBy(items, ShareOf(grant)) }

  predicate HasAllocations(items: seq<Item>) { exists item | item in items :: item.Counts() }

  // ---- grants in the order they are spent: by end, start, id ----

  predicate Before(a: Grant, b: Grant) {
    a.end < b.end || (a.end == b.end && (a.start < b.start || (a.start == b.start && a.id <= b.id)))
  }

  function Insert(grant: Grant, sorted: seq<Grant>): seq<Grant> {
    if sorted == [] then [grant]
    else if Before(grant, sorted[0]) then [grant] + sorted
    else [sorted[0]] + Insert(grant, sorted[1..])
  }

  /** The account's grants in spending order. */
  function InOrder(grants: seq<Grant>, account: Account): seq<Grant> {
    if grants == [] then []
    else
      var last, rest := grants[|grants| - 1], InOrder(grants[..|grants| - 1], account);
      if last.account == account then Insert(last, rest) else rest
  }

  function OnlyActive(grants: seq<Grant>, at: int): seq<Grant> {
    if grants == [] then []
    else (if grants[0].ActiveAt(at) then [grants[0]] else []) + OnlyActive(grants[1..], at)
  }

  /** The account's active grants in spending order. */
  function ActiveInOrder(db: Db, account: Account): seq<Grant> {
    OnlyActive(InOrder(db.grants, account), db.clock)
  }

  /** The earliest-ending grant whose period contains a time. */
  function FirstCovering(ordered: seq<Grant>, at: int): Option<Grant> {
    if ordered == [] then None
    else if ordered[0].ActiveAt(at) then Some(ordered[0])
    else FirstCovering(ordered[1..], at)
  }

  // ---- balance ----

  function ActiveIds(grants: seq<Grant>, account: Account, at: int): set<int> {
    set grant | grant in grants && grant.account == account && grant.ActiveAt(at) :: grant.id
  }

  /** What one usage row takes from the grants active at `now`. */
  function RowUse(row: Usage, grants: seq<Grant>, account: Account, now: int): int {
    if row.account != account || row.occurredAt > now then 0
    else if HasAllocations(row.items) then SumBy(row.items, ShareIn(ActiveIds(grants, account, now)))
    else
      match FirstCovering(InOrder(grants, account), row.occurredAt)
      case None => 0
      case Some(grant) => if grant.id in ActiveIds(grants, account, now) then row.quantity else 0
  }

  function UseAt(grants: seq<Grant>, account: Account, now: int): Usage -> int {
    (row: Usage) => RowUse(row, grants, account, now)
  }

  function GrantedAt(account: Account, now: int): Grant -> int {
    (grant: Grant) => if grant.account == account && grant.ActiveAt(now) then grant.quantity else 0
  }

  function HeldFor(account: Account): Reservation -> int {
    (r: Reservation) => if r.account == account && r.status == Reserved then r.quantity else 0
  }

  function Granted(db: Db, account: Account): int { SumBy(db.grants, GrantedAt(account, db.clock)) }

  function Used(db: Db, account: Account): int { SumBy(db.usage, UseAt(db.grants, account, db.clock)) }

  function Held(db: Db, account: Account): int { SumBy(db.reservations, HeldFor(account)) }

  function Available(db: Db, account: Account): int {
    var left := Granted(db, account) - Used(db, account) - Held(db, account);
    if left < 0 then 0 else left
  }

  // ---- allocation ----

  function ConsumedOn(account: Account, grant: int, now: int): Usage -> int {
    (row: Usage) => if row.account == account && row.occurredAt <= now then Charged(row.items, grant) else 0
  }

  function Consumed(usage: seq<Usage>, account: Account, grant: int, now: int): int {
    SumBy(usage, ConsumedOn(account, grant, now))
  }

  function Capacity(usage: seq<Usage>, account: Account, grant: Grant, now: int): int {
    var left := grant.quantity - Consumed(usage, account, grant.id, now);
    if left < 0 then 0 else left
  }

  function CapacityAt(usage: seq<Usage>, account: Account, now: int): Grant -> int {
    (grant: Grant) => Capacity(usage, account, grant, now)
  }

  function Min(a: int, b: int): int { if a <= b then a else b }

  /** Fills grants in order until the quantity is placed. */
  function Fill(grants: seq<Grant>, capacity: Grant -> int, quantity: int): seq<Item> {
    if quantity <= 0 || grants == [] then []
    else
      var amount := Min(quantity, capacity(grants[0]));
      if amount > 0
      then [Item(Some(grants[0].id), Some(amount))] + Fill(grants[1..], capacity, quantity - amount)
      else Fill(grants[1..], capacity, quantity)
  }

  function Allocate(db: Db, account: Account, quantity: int): seq<Item> {
    Fill(ActiveInOrder(db, account), CapacityAt(db.usage, account, db.clock), quantity)
  }

  // ---- operations ----

  /** The reaper: expires what is overdue and no durable job owns. */
  function Reap(db: Db): Db {
    db.(reservations := seq(|db.reservations|, i requires 0 <= i < |db.reservations| =>
      var r := db.reservations[i];
      if r.status == Reserved && r.expiresAt <= db.clock && r.id !in db.owned then r.(status := Expired) else r))
  }

  function FindReservation(reservations: seq<Reservation>, wanted: Reservation -> bool): (found: Option<nat>)
    ensures found.Some? ==> found.value < |reservations| && wanted(reservations[found.value])
    ensures found.Some? ==> forall i | 0 <= i < found.value :: !wanted(reservations[i])
    ensures found.None? ==> forall r | r in reservations :: !wanted(r)
  {
    if reservations == [] then None
    else if wanted(reservations[0]) then Some(0)
    else
      match FindReservation(reservations[1..], wanted)
      case None => None
      case Some(i) =>
        assert forall k | 0 < k < |reservations| :: reservations[k] == reservations[1..][k - 1];
        Some(i + 1)
  }

  function FindUsage(usage: seq<Usage>, wanted: Usage -> bool): (found: Option<nat>)
    ensures found.Some? ==> found.value < |usage| && wanted(usage[found.value])
    ensures found.None? ==> forall row | row in usage :: !wanted(row)
  {
    if usage == [] then None
    else if wanted(usage[0]) then Some(0)
    else
      match FindUsage(usage[1..], wanted)
      case None => None
      case Some(i) => Some(i + 1)
  }

  datatype Outcome = Done(db: Db) | Failed(db: Db)

  /** A new row with an id that is taken violates the primary key. */
  function Reserve(db: Db, id: int, account: Account, campaign: string, quantity: int, key: string, ttl: int): Outcome {
    match FindReservation(db.reservations, (r: Reservation) => r.account.user == account.user && r.key == key)
    case Some(i) =>
      var r := db.reservations[i];
      if r.campaign != campaign || r.account.metric != account.metric || r.quantity != quantity then Failed(db)
      else Done(db)
    case None =>
      var reaped := Reap(db);
      if quantity <= 0 || Available(reaped, account) < quantity then Failed(reaped)
      else if exists r | r in db.reservations :: r.id == id then Failed(db)
      else
        Done(reaped.(reservations := reaped.reservations
          + [Reservation(id, account, campaign, quantity, 0, Reserved, key, db.clock + ttl)]))
  }

  predicate HasId(r: Reservation, id: int) { r.id == id }

  function SetReservation(db: Db, i: nat, r: Reservation): Db
    requires i < |db.reservations|
  {
    db.(reservations := db.reservations[i := r])
  }

  function Renew(db: Db, id: int, ttl: int): Outcome {
    if ttl <= 0 then Failed(db) else
    match FindReservation(db.reservations, (r: Reservation) => HasId(r, id))
    case None => Failed(db)
    case Some(i) =>
      var r := db.reservations[i];
      if r.status != Reserved then Failed(db) else Done(SetReservation(db, i, r.(expiresAt := db.clock + ttl)))
  }

  function Release(db: Db, id: int): Db {
    match FindReservation(db.reservations, (r: Reservation) => HasId(r, id))
    case None => db
    case Some(i) =>
      var r := db.reservations[i];
      if r.status == Reserved then SetReservation(db, i, r.(status := Released)) else db
  }

  /** The usage row of a settlement at this moment. */
  function UsageRow(db: Db, r: Reservation, quantity: int, key: string, unit: string): Usage {
    Usage(r.account, Some(r.id), quantity, unit, key, db.clock, Allocate(db, r.account, quantity))
  }

  function SettleAt(db: Db, i: nat, quantity: int, key: string, unit: string): Db
    requires i < |db.reservations|
  {
    var r := db.reservations[i];
    SetReservation(db, i, r.(status := Settled, settled := quantity))
      .(usage := db.usage + [UsageRow(db, r, quantity, key, unit)])
  }

  function Settle(db: Db, id: int, quantity: int, key: string, unit: string): Outcome {
    match FindUsage(db.usage, (row: Usage) => row.key == key)
    case Some(u) =>
      var row := db.usage[u];
      if row.reservation == Some(id) && row.quantity == quantity && row.unit == unit then Done(db) else Failed(db)
    case None =>
      match FindReservation(db.reservations, (r: Reservation) => HasId(r, id))
      case None => Failed(db)
      case Some(i) =>
        var r := db.reservations[i];
        if r.status == Settled then
          match FindUsage(db.usage, (row: Usage) => row.reservation == Some(id))
          case None => Failed(db)
          case Some(u) => if db.usage[u].quantity == quantity then Done(db) else Failed(db)
        else if r.status != Reserved || quantity < 0 || quantity > r.quantity then Failed(db)
        else Done(SettleAt(db, i, quantity, key, unit))
  }

  function AddGrant(db: Db, grant: Grant): Db {
    if grant.quantity <= 0 || exists g | g in db.grants :: g.id == grant.id then db
    else db.(grants := db.grants + [grant])
  }

  // ---- runs ----

  datatype Step =
    | Tick(seconds: nat)
    | DoGrant(grant: Grant)
    | DoReserve(id: int, account: Account, campaign: string, quantity: int, key: string, ttl: int)
    | DoRenew(id: int, ttl: int)
    | DoSettle(id: int, quantity: int, key: string, unit: string)
    | DoRelease(id: int)
    | DoReap
    | DoOwn(id: int)
    | DoDisown(id: int)

  function Apply(db: Db, step: Step): Db {
    match step
    case Tick(seconds) => db.(clock := db.clock + seconds)
    case DoGrant(grant) => AddGrant(db, grant)
    case DoReserve(id, account, campaign, quantity, key, ttl) =>
      Reserve(db, id, account, campaign, quantity, key, ttl).db
    case DoRenew(id, ttl) => Renew(db, id, ttl).db
    case DoSettle(id, quantity, key, unit) => Settle(db, id, quantity, key, unit).db
    case DoRelease(id) => Release(db, id)
    case DoReap => Reap(db)
    case DoOwn(id) => db.(owned := db.owned + {id})
    case DoDisown(id) => db.(owned := db.owned - {id})
  }

  function Run(db: Db, steps: seq<Step>): Db
    decreases |steps|
  {
    if steps == [] then db else Run(Apply(db, steps[0]), steps[1..])
  }

  const EMPTY: Db := Db(0, [], [], [], {})
}
