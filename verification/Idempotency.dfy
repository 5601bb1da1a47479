/**
 The claim-first protocol: a usage-ledger row is claimed before the provider is
 called, leased for 90 seconds, reclaimed by compare-and-swap once the lease has
 expired, settled by compare-and-swap, and only then charged to the tenant.

 Every SQL statement is one function on `Db`; the class `Database` performs the
 same statements in place; `Sys` interleaves the statements of any number of
 requests. Times are microseconds of one non-decreasing clock.
 */
module Idempotency {
  import opened Wrappers
  import opened SpendAlerts

  const LEASE: int := 90_000_000

  type TenantId = string
  type RequestId = nat
  type Body = map<string, string>

  /** The unique constraint is per (tenant, key); rows without a key never collide. */
  datatype Slot =
    | Keyed(tenant: TenantId, key: string)
    | Keyless(tenant: TenantId, request: RequestId)

  datatype Status = Pending | Completed | Failed | Partial

  datatype Row = Row(
    holder: RequestId, claimedAt: int, status: Status,
    cost: nat, code: Option<int>, body: Option<Body>)

  datatype Settlement = Settlement(status: Status, cost: nat, code: int, body: Body)

  datatype Db = Db(ledger: map<Slot, Row>, accounts: map<TenantId, Account>, alerts: seq<AlertJob>)

  function SlotOf(tenant: TenantId, key: Option<string>, request: RequestId): Slot {
    match key
    case Some(k) => Keyed(tenant, k)
    case None => Keyless(tenant, request)
  }

  /* ---------- The SQL statements ---------- */

  /** INSERT ... ON CONFLICT DO NOTHING of a pending row. The column default stamps it with the
      start of the transaction, which is not later than the insert. */
  function InsertPending(db: Db, slot: Slot, request: RequestId, stamp: int): Db {
    if slot in db.ledger then db
    else db.(ledger := db.ledger[slot := Row(request, stamp, Pending, 0, None, None)])
  }

  /** What the claimer makes of the row it finds after a conflict. */
  datatype Finding =
    | Missing
    | Busy
    | Expired(holder: RequestId)
    | Replay(code: int, body: Body)

  function Inspect(found: Option<Row>, now: int): Finding {
    match found
    case None => Missing
    case Some(row) =>
      if row.status.Pending? then
        if now - row.claimedAt > LEASE then Expired(row.holder) else Busy
      else
        Replay(if row.code.None? || row.code.value == 0 then 200 else row.code.value,
               if row.body.None? then map[] else row.body.value)
  }

  predicate ReclaimHits(db: Db, slot: Slot, seen: RequestId) {
    slot in db.ledger && db.ledger[slot].holder == seen && db.ledger[slot].status.Pending?
  }

  /** UPDATE ... SET request_id, claimed_at WHERE request_id = seen AND status = 'pending'. */
  function Reclaim(db: Db, slot: Slot, seen: RequestId, request: RequestId, stamp: int): Db {
    if ReclaimHits(db, slot, seen)
    then db.(ledger := db.ledger[slot := db.ledger[slot].(holder := request, claimedAt := stamp)])
    else db
  }

  /** The WHERE clause of the finalizing UPDATE; the key is tested only when there is one. */
  predicate Targets(slot: Slot, row: Row, tenant: TenantId, key: Option<string>, request: RequestId) {
    && slot.tenant == tenant
    && row.holder == request
    && row.status.Pending?
    && (key.Some? ==> slot == Keyed(tenant, key.value))
  }

  function Hits(db: Db, tenant: TenantId, key: Option<string>, request: RequestId): set<Slot> {
    set slot | slot in db.ledger && Targets(slot, db.ledger[slot], tenant, key, request)
  }

  function Settle(db: Db, tenant: TenantId, key: Option<string>, request: RequestId, f: Settlement): Db {
    db.(ledger := map slot | slot in db.ledger ::
      if Targets(slot, db.ledger[slot], tenant, key, request)
      then db.ledger[slot].(status := f.status, cost := f.cost, code := Some(f.code), body := Some(f.body))
      else db.ledger[slot])
  }

  /** UPDATE tenants ... RETURNING, then one alert job per crossed threshold. */
  function Charge(db: Db, tenant: TenantId, cost: nat, period: string): Db {
    if tenant !in db.accounts then db
    else
      var a := db.accounts[tenant];
      db.(accounts := db.accounts[tenant := a.(spend := a.spend + cost)],
          alerts := EnqueueAll(db.alerts, tenant, Crossed(a.cap, a.spend, a.spend + cost), period))
  }

  /* ---------- The statements in place ---------- */

  datatype ClaimResult =
    | Proceed
    | ReplayResponse(code: int, body: Body)
    | Conflict409
    | Error500

  /** One uninterrupted claim, as a relation between the statements above; its transaction began
      at `stamp`, and `now` is read after a conflict. */
  function ClaimAlone(db: Db, slot: Slot, request: RequestId, stamp: int, now: int): (Db, ClaimResult) {
    if slot !in db.ledger then (InsertPending(db, slot, request, stamp), Proceed)
    else
      match Inspect(Some(db.ledger[slot]), now)
      case Missing => (db, Error500)
      case Busy => (db, Conflict409)
      case Replay(code, body) => (db, ReplayResponse(code, body))
      case Expired(holder) => (Reclaim(db, slot, holder, request, now), Proceed)
  }

  function FinalizeAlone(db: Db, tenant: TenantId, key: Option<string>, request: RequestId,
                         f: Settlement, period: string): Db {
    if Hits(db, tenant, key, request) == {} then db
    else if f.cost > 0 then Charge(Settle(db, tenant, key, request, f), tenant, f.cost, period)
    else Settle(db, tenant, key, request, f)
  }

  class Database {
    var ledger: map<Slot, Row>
    var accounts: map<TenantId, Account>
    var alerts: seq<AlertJob>
    /** How often a request was finalized. */
    ghost var finalizes: nat

    function Contents(): Db
      reads this
    {
      Db(ledger, accounts, alerts)
    }

    method Insert(slot: Slot, request: RequestId, stamp: int) returns (rowcount: nat)
      modifies this`ledger
      ensures Contents() == InsertPending(old(Contents()), slot, request, stamp)
      ensures rowcount == if slot in old(ledger) then 0 else 1
    {
      if slot in ledger {
        return 0;
      }
      ledger := ledger[slot := Row(request, stamp, Pending, 0, None, None)];
      return 1;
    }

    method Select(slot: Slot) returns (found: Option<Row>)
      ensures found == if slot in ledger then Some(ledger[slot]) else None
    {
      found := if slot in ledger then Some(ledger[slot]) else None;
    }

    method CasReclaim(slot: Slot, seen: RequestId, request: RequestId, stamp: int) returns (rowcount: nat)
      modifies this`ledger
      ensures Contents() == Reclaim(old(Contents()), slot, seen, request, stamp)
      ensures rowcount == if ReclaimHits(old(Contents()), slot, seen) then 1 else 0
    {
      if slot in ledger && ledger[slot].holder == seen && ledger[slot].status == Pending {
        ledger := ledger[slot := ledger[slot].(holder := request, claimedAt := stamp)];
        return 1;
      }
      return 0;
    }

    /** The three statements of a claim when nothing runs in between. */
    method ClaimOrReplay(tenant: TenantId, key: Option<string>, request: RequestId, stamp: int, now: int)
      returns (result: ClaimResult)
      requires key.None? ==> Keyless(tenant, request) !in ledger
      modifies this`ledger
      ensures (Contents(), result) == ClaimAlone(old(Contents()), SlotOf(tenant, key, request), request, stamp, now)
    {
      var slot := SlotOf(tenant, key, request);
      var inserted := Insert(slot, request, stamp);
      if inserted > 0 {
        return Proceed;
      }
      var existing := Select(slot);
      match Inspect(existing, now) {
        case Missing =>
          return Error500;
        case Expired(holder) =>
          var swapped := CasReclaim(slot, holder, request, now);
          if swapped > 0 {
            return Proceed;
          }
          return Conflict409;
        case Busy =>
          return Conflict409;
        case Replay(code, body) =>
          return ReplayResponse(code, body);
      }
    }

    method SettleRow(tenant: TenantId, key: Option<string>, request: RequestId, f: Settlement)
      returns (rowcount: nat)
      modifies this`ledger
      ensures Contents() == Settle(old(Contents()), tenant, key, request, f)
      ensures rowcount == |Hits(old(Contents()), tenant, key, request)|
    {
      var hits := set slot | slot in ledger && Targets(slot, ledger[slot], tenant, key, request);
      ledger := map slot | slot in ledger ::
        if Targets(slot, ledger[slot], tenant, key, request)
        then ledger[slot].(status := f.status, cost := f.cost, code := Some(f.code), body := Some(f.body))
        else ledger[slot];
      rowcount := |hits|;
    }

    method EnqueueSpendAlert(tenant: TenantId, threshold: int, period: string) returns (enqueued: bool)
      modifies this`alerts
      ensures alerts == Enqueue(old(alerts), AlertJob(tenant, threshold, period))
      ensures enqueued == (AlertJob(tenant, threshold, period) !in old(alerts))
    {
      var job := AlertJob(tenant, threshold, period);
      enqueued := job !in alerts;
      if enqueued {
        alerts := alerts + [job];
      }
    }

    method ChargeTenant(tenant: TenantId, cost: nat, period: string)
      modifies this`accounts, this`alerts
      ensures Contents() == Charge(old(Contents()), tenant, cost, period)
    {
      if tenant !in accounts {
        return;
      }
      var account := accounts[tenant];
      accounts := accounts[tenant := account.(spend := account.spend + cost)];
      var newSpend := accounts[tenant].spend;
      var crossed := Crossed(account.cap, newSpend - cost, newSpend);
      var i := 0;
      while i < |crossed|
        invariant 0 <= i <= |crossed|
        invariant accounts == old(accounts)[tenant := account.(spend := account.spend + cost)]
        invariant EnqueueAll(alerts, tenant, crossed[i..], period) == EnqueueAll(old(alerts), tenant, crossed, period)
      {
        assert crossed[i..][1..] == crossed[i + 1..];
        var _ := EnqueueSpendAlert(tenant, crossed[i], period);
        i := i + 1;
      }
    }

    method FinalizeRequest(tenant: TenantId, key: Option<string>, request: RequestId, f: Settlement, period: string)
      modifies this
      ensures Contents() == FinalizeAlone(old(Contents()), tenant, key, request, f, period)
      ensures finalizes == old(finalizes) + 1
    {
      finalizes := finalizes + 1;
      var rowcount := SettleRow(tenant, key, request, f);
      if rowcount == 0 {
        // Rolled back: no row matched, so the update changed nothing.
        assert forall slot :: slot in old(ledger) ==> slot !in Hits(old(Contents()), tenant, key, request);
        assert ledger == old(ledger);
        return;
      }
      if f.cost > 0 {
        ChargeTenant(tenant, f.cost, period);
      }
    }
  }

  /* ---------- Interleaved requests ---------- */

  datatype Phase =
    | Authenticated                              // tenant loaded, nothing claimed yet
    | Contending                                 // INSERT hit an existing row
    | Reclaiming(seen: RequestId, stamp: int)    // SELECT saw an expired lease at time `stamp`
    | Holding                                    // the claim succeeded
    | Charging(cost: nat)                        // row settled, tenant not yet charged
    | Settled
    | Lost                                       // finalized, but no row matched
    | Replayed(code: int, body: Body)
    | Rejected                                   // 409
    | Broken                                     // 500, row missing

  datatype Request = Request(tenant: TenantId, key: Option<string>, seen: Account, phase: Phase)

  /** A successful claim: its stored stamp and the moment the row was written. */
  datatype Claim = Claim(request: RequestId, stamp: int, written: int)

  datatype Sys = Sys(now: int, db: Db, requests: map<RequestId, Request>, claims: map<Slot, seq<Claim>>)

  datatype Step =
    | Tick(d: nat)
    | SetCap(tenant: TenantId, cap: Option<int>)
    | Authenticate(request: RequestId, tenant: TenantId, key: Option<string>)
    | TryInsert(request: RequestId, stamp: int)
    | Look(request: RequestId)
    | TryReclaim(request: RequestId)
    | Finalize(request: RequestId, f: Settlement)
    | Bill(request: RequestId, period: string)

  function SlotFor(s: Sys, r: RequestId): Slot
    requires r in s.requests
  {
    SlotOf(s.requests[r].tenant, s.requests[r].key, r)
  }

  predicate Enabled(s: Sys, step: Step) {
    match step
    case Tick(_) => true
    case SetCap(t, _) => t in s.db.accounts
    case Authenticate(r, t, _) => r !in s.requests && t in s.db.accounts
    case TryInsert(r, stamp) => r in s.requests && s.requests[r].phase.Authenticated? && stamp <= s.now
    case Look(r) => r in s.requests && s.requests[r].phase.Contending?
    case TryReclaim(r) => r in s.requests && s.requests[r].phase.Reclaiming?
    // A finalize may be repeated; over the cap it only records the refusal.
    case Finalize(r, f) =>
      && r in s.requests
      && (s.requests[r].phase.Holding? || s.requests[r].phase.Settled? || s.requests[r].phase.Lost?)
      && f.status != Pending
      && (!s.requests[r].seen.BelowCap() ==> f.cost == 0)
    case Bill(r, _) => r in s.requests && s.requests[r].phase.Charging?
  }

  function Moved(s: Sys, r: RequestId, phase: Phase): map<RequestId, Request>
    requires r in s.requests
  {
    s.requests[r := s.requests[r].(phase := phase)]
  }

  function Logged(s: Sys, slot: Slot, c: Claim): map<Slot, seq<Claim>> {
    s.claims[slot := (if slot in s.claims then s.claims[slot] else []) + [c]]
  }

  function PhaseAfter(finding: Finding, now: int): Phase {
    match finding
    case Missing => Broken
    case Busy => Rejected
    case Expired(holder) => Reclaiming(holder, now)
    case Replay(code, body) => Replayed(code, body)
  }

  function Next(s: Sys, step: Step): Sys
    requires Enabled(s, step)
  {
    match step
    case Tick(d) => s.(now := s.now + d)
    case SetCap(t, cap) => s.(db := s.db.(accounts := s.db.accounts[t := s.db.accounts[t].(cap := cap)]))
    case Authenticate(r, t, k) =>
      s.(requests := s.requests[r := Request(t, k, s.db.accounts[t], Authenticated)])
    case TryInsert(r, stamp) =>
      var slot := SlotFor(s, r);
      if slot in s.db.ledger then s.(requests := Moved(s, r, Contending))
      else s.(db := InsertPending(s.db, slot, r, stamp),
              requests := Moved(s, r, Holding),
              claims := Logged(s, slot, Claim(r, stamp, s.now)))
    case Look(r) =>
      var slot := SlotFor(s, r);
      var found := if slot in s.db.ledger then Some(s.db.ledger[slot]) else None;
      s.(requests := Moved(s, r, PhaseAfter(Inspect(found, s.now), s.now)))
    case TryReclaim(r) =>
      var slot := SlotFor(s, r);
      var p := s.requests[r].phase;
      if ReclaimHits(s.db, slot, p.seen) then
        s.(db := Reclaim(s.db, slot, p.seen, r, p.stamp),
           requests := Moved(s, r, Holding),
           claims := Logged(s, slot, Claim(r, p.stamp, s.now)))
      else s.(requests := Moved(s, r, Rejected))
    case Finalize(r, f) =>
      var q := s.requests[r];
      if Hits(s.db, q.tenant, q.key, r) == {} then
        s.(requests := Moved(s, r, if q.phase.Settled? then Settled else Lost))
      else s.(db := Settle(s.db, q.tenant, q.key, r, f),
              requests := Moved(s, r, if f.cost > 0 then Charging(f.cost) else Settled))
    case Bill(r, period) =>
      s.(db := Charge(s.db, s.requests[r].tenant, s.requests[r].phase.cost, period),
         requests := Moved(s, r, Settled))
  }

  ghost predicate Initial(s: Sys) {
    s.db.ledger == map[] && s.db.alerts == [] && s.requests == map[] && s.claims == map[]
  }

  ghost predicate Executable(s: Sys, steps: seq<Step>)
    decreases |steps|
  {
    steps == [] || (Enabled(s, steps[0]) && Executable(Next(s, steps[0]), steps[1..]))
  }

  ghost function Run(s: Sys, steps: seq<Step>): Sys
    requires Executable(s, steps)
    decreases |steps|
  {
    if steps == [] then s else Run(Next(s, steps[0]), steps[1..])
  }
}
