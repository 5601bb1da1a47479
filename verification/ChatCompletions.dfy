/** The endpoint's control flow around claim and finalize: every exit after a claim settles it once. */
module ChatCompletions {
  import opened Wrappers
  import opened SpendAlerts
  import opened Idempotency
  import opened ClaimAnswers
  import JsonText

  /** What can still happen after the row was settled. */
  datatype Ending = Delivered | CancelledLate | FailedLate(code: int, message: string)

  /** What running the claimed request comes to. */
  datatype Execution =
    | Answered(cost: nat, body: Body, ending: Ending)
    | Errored(code: int, message: string)
    | Cancelled
    | StreamEnded(cost: nat, body: Body)
    | StreamBroken(cost: nat, body: Body)
    | StreamCancelled(cost: nat, body: Body)

  datatype Exit =
    | Response(code: int, body: Body)
    | Stream
    | ErrorResponse(code: int, message: string)
    | Cancellation

  function ErrorBody(code: int, message: string): Body {
    map["message" := message, "code" := JsonText.Decimal(code), "type" := "error"]
  }

  const CAP_MESSAGE := "Monthly spend cap exceeded."

  const MISSING_MESSAGE := "Idempotency conflict but row missing"

  function ConflictMessage(key: Option<string>): string {
    "A request with Idempotency-Key '" + (if key.Some? then key.value else "None") + "' is currently processing."
  }

  /** The settlement each execution deserves. */
  function SettlementOf(seen: Account, run: Execution): Settlement {
    if !seen.BelowCap() then Settlement(Failed, 0, 403, ErrorBody(403, CAP_MESSAGE))
    else
      match run
      case Answered(cost, body, _) => Settlement(Completed, cost, 200, body)
      case Errored(code, message) => Settlement(Failed, 0, code, ErrorBody(code, message))
      case Cancelled => Settlement(Partial, 0, 499, ErrorBody(499, "Request cancelled"))
      case StreamEnded(cost, body) => Settlement(Completed, cost, 200, body)
      case StreamBroken(cost, body) => Settlement(Failed, cost, 500, body)
      case StreamCancelled(cost, body) => Settlement(Partial, cost, 500, body)
  }

  function ExitOf(seen: Account, run: Execution): Exit {
    if !seen.BelowCap() then ErrorResponse(403, CAP_MESSAGE)
    else
      match run
      case Answered(_, body, Delivered) => Response(200, body)
      case Answered(_, _, CancelledLate) => Cancellation
      case Answered(_, _, FailedLate(code, message)) => ErrorResponse(code, message)
      case Errored(code, message) => ErrorResponse(code, message)
      case Cancelled => Cancellation
      case _ => Stream
  }

  /** One request that nothing interleaves with. */
  function HandleAlone(db: Db, tenant: TenantId, key: Option<string>, request: RequestId, stamp: int, now: int,
                       seen: Account, run: Execution, period: string): (Db, Exit) {
    var claimed := ClaimAlone(db, SlotOf(tenant, key, request), request, stamp, now);
    match claimed.1
    case Proceed => (FinalizeAlone(claimed.0, tenant, key, request, SettlementOf(seen, run), period), ExitOf(seen, run))
    case ReplayResponse(code, body) => (claimed.0, Response(code, body))
    case Conflict409 => (claimed.0, ErrorResponse(409, ConflictMessage(key)))
    case Error500 => (claimed.0, ErrorResponse(500, MISSING_MESSAGE))
  }

  method ChatCompletion(db: Database, tenant: TenantId, key: Option<string>, request: RequestId, stamp: int, now: int,
                        seen: Account, run: Execution, period: string)
    returns (exit: Exit)
    requires key.None? ==> Keyless(tenant, request) !in db.ledger
    modifies db
    ensures (db.Contents(), exit)
        == HandleAlone(old(db.Contents()), tenant, key, request, stamp, now, seen, run, period)
    ensures db.finalizes == old(db.finalizes)
      + if ClaimAlone(old(db.Contents()), SlotOf(tenant, key, request), request, stamp, now).1.Proceed? then 1 else 0
  {
    var claim := db.ClaimOrReplay(tenant, key, request, stamp, now);
    match claim {
      case ReplayResponse(code, body) => return Response(code, body);
      case Conflict409 => return ErrorResponse(409, ConflictMessage(key));
      case Error500 => return ErrorResponse(500, MISSING_MESSAGE);
      case Proceed =>
    }
    var alreadyFinalized := false;
    var raised: Option<(int, string)>;
    var cancelled := false;
    if !seen.BelowCap() {
      raised := Some((403, CAP_MESSAGE));
    } else {
      raised := None;
      match run {
        case StreamEnded(cost, body) =>
          db.FinalizeRequest(tenant, key, request, Settlement(Completed, cost, 200, body), period);
          return Stream;
        case StreamBroken(cost, body) =>
          db.FinalizeRequest(tenant, key, request, Settlement(Failed, cost, 500, body), period);
          return Stream;
        case StreamCancelled(cost, body) =>
          db.FinalizeRequest(tenant, key, request, Settlement(Partial, cost, 500, body), period);
          return Stream;
        case Answered(cost, body, ending) =>
          db.FinalizeRequest(tenant, key, request, Settlement(Completed, cost, 200, body), period);
          alreadyFinalized := true;
          match ending {
            case Delivered => return Response(200, body);
            case CancelledLate => cancelled := true;
            case FailedLate(code, message) => raised := Some((code, message));
          }
        case Errored(code, message) =>
          raised := Some((code, message));
        case Cancelled =>
          cancelled := true;
      }
    }
    if cancelled {
      if !alreadyFinalized {
        var gone := Settlement(Partial, 0, 499, ErrorBody(499, "Request cancelled"));
        db.FinalizeRequest(tenant, key, request, gone, period);
      }
      return Cancellation;
    }
    if !alreadyFinalized {
      var (code, message) := raised.value;
      db.FinalizeRequest(tenant, key, request, Settlement(Failed, 0, code, ErrorBody(code, message)), period);
    }
    return ErrorResponse(raised.value.0, raised.value.1);
  }

  /* ---------- What a caller can rely on ---------- */

  /** No row belongs to this request id yet. */
  ghost predicate FreshId(db: Db, request: RequestId) {
    forall slot :: slot in db.ledger ==> db.ledger[slot].holder != request && slot != Keyless(slot.tenant, request)
  }

  ghost predicate MayProceed(db: Db, slot: Slot, now: int) {
    slot in db.ledger ==> db.ledger[slot].status.Pending? && !LeaseRuns(db, slot, now)
  }

  lemma FinalizeExactly(db: Db, tenant: TenantId, key: Option<string>, request: RequestId, f: Settlement,
                        period: string)
    requires var slot := SlotOf(tenant, key, request);
      && slot in db.ledger && db.ledger[slot].holder == request && db.ledger[slot].status.Pending?
      && forall other :: other != slot && other in db.ledger ==> db.ledger[other].holder != request
    requires tenant in db.accounts && f.status != Pending
    ensures var slot := SlotOf(tenant, key, request);
      var after := FinalizeAlone(db, tenant, key, request, f, period);
      && after.ledger.Keys == db.ledger.Keys
      && after.ledger[slot]
          == db.ledger[slot].(status := f.status, cost := f.cost, code := Some(f.code), body := Some(f.body))
      && (forall other :: other != slot && other in db.ledger ==> after.ledger[other] == db.ledger[other])
      && after.accounts == db.accounts[tenant := db.accounts[tenant].(spend := db.accounts[tenant].spend + f.cost)]
  {
    var slot := SlotOf(tenant, key, request);
    assert Targets(slot, db.ledger[slot], tenant, key, request);
    assert slot in Hits(db, tenant, key, request);
    assert db.accounts[tenant].(spend := db.accounts[tenant].spend + 0) == db.accounts[tenant];
  }

  /** What the row and the caller must get, told without the endpoint's own branches. */
  ghost predicate Deserved(row: Row, charged: int, exit: Exit, seen: Account, run: Execution) {
    if seen.cap.Some? && seen.spend >= seen.cap.value then
      && row.status == Failed && row.code == Some(403) && row.cost == charged == 0
      && row.body.Some? && exit == ErrorResponse(403, "Monthly spend cap exceeded.")
      && Tells(row.body.value, 403, "Monthly spend cap exceeded.")
    else
      match run
      case Answered(cost, body, ending) =>
        && row.status == Completed && row.code == Some(200) && row.cost == charged == cost && row.body == Some(body)
        && exit == (match ending
                    case Delivered => Response(200, body)
                    case CancelledLate => Cancellation
                    case FailedLate(code, message) => ErrorResponse(code, message))
      case Errored(code, message) =>
        && row.status == Failed && row.code == Some(code) && row.cost == charged == 0
        && row.body.Some? && Tells(row.body.value, code, message) && exit == ErrorResponse(code, message)
      case Cancelled =>
        && row.status == Partial && row.code == Some(499) && row.cost == charged == 0
        && row.body.Some? && Tells(row.body.value, 499, "Request cancelled") && exit == Cancellation
      case StreamEnded(cost, body) =>
        && row.status == Completed && row.code == Some(200) && row.cost == charged == cost && row.body == Some(body)
        && exit == Stream
      case StreamBroken(cost, body) =>
        && row.status == Failed && row.code == Some(500) && row.cost == charged == cost && row.body == Some(body)
        && exit == Stream
      case StreamCancelled(cost, body) =>
        && row.status == Partial && row.code == Some(500) && row.cost == charged == cost && row.body == Some(body)
        && exit == Stream
  }

  /** An error body that carries this code and message. */
  ghost predicate Tells(body: Body, code: int, message: string) {
    body == map["message" := message, "code" := JsonText.Decimal(code), "type" := "error"]
  }

  /** A finalize whose request no longer holds a pending row of its key changes nothing: no row, no
      charge, no alert. */
  lemma FinalizeMisses(db: Db, tenant: TenantId, key: Option<string>, request: RequestId, f: Settlement,
                       period: string)
    requires forall slot ::
      (slot in db.ledger && db.ledger[slot].holder == request && db.ledger[slot].status.Pending?
       ==> slot.tenant != tenant || (key.Some? && slot != Keyed(tenant, key.value)))
    ensures FinalizeAlone(db, tenant, key, request, f, period) == db
  {
    assert Hits(db, tenant, key, request) == {};
  }

  lemma SettlementDeserved(row: Row, seen: Account, run: Execution)
    requires var f := SettlementOf(seen, run);
      row.status == f.status && row.cost == f.cost && row.code == Some(f.code) && row.body == Some(f.body)
    ensures Deserved(row, row.cost, ExitOf(seen, run), seen, run)
  {
  }

  /** A call that may proceed leaves its row settled with what its execution deserves, charges the
      tenant exactly the cost in the row, and touches no other row, whichever way it exits. */
  lemma EveryExitSettles(db: Db, tenant: TenantId, key: Option<string>, request: RequestId, stamp: int, now: int,
                         seen: Account, run: Execution, period: string)
    requires FreshId(db, request) && tenant in db.accounts && MayProceed(db, SlotOf(tenant, key, request), now)
    ensures var slot := SlotOf(tenant, key, request);
      var (after, exit) := HandleAlone(db, tenant, key, request, stamp, now, seen, run, period);
      && slot in after.ledger && tenant in after.accounts
      && var row, charged := after.ledger[slot], after.accounts[tenant].spend - db.accounts[tenant].spend;
      && row.holder == request && Deserved(row, charged, exit, seen, run)
      && row.claimedAt == (if slot in db.ledger then now else stamp)
      && after.accounts == db.accounts[tenant := db.accounts[tenant].(spend := db.accounts[tenant].spend + charged)]
      && after.ledger.Keys == db.ledger.Keys + {slot}
      && forall other :: other != slot && other in db.ledger ==> after.ledger[other] == db.ledger[other]
  {
    var slot := SlotOf(tenant, key, request);
    FinalizeExactly(ClaimAlone(db, slot, request, stamp, now).0, tenant, key, request, SettlementOf(seen, run), period);
    SettlementDeserved(HandleAlone(db, tenant, key, request, stamp, now, seen, run, period).0.ledger[slot], seen, run);
  }

  /** Whoever may not proceed is answered from the row and changes nothing: the stored code and
      body when it is settled, 409 while its lease runs. */
  lemma OthersAnswered(db: Db, tenant: TenantId, key: Option<string>, request: RequestId, stamp: int, now: int,
                       seen: Account, run: Execution, period: string)
    requires !MayProceed(db, SlotOf(tenant, key, request), now)
    ensures var row := db.ledger[SlotOf(tenant, key, request)];
      var (after, exit) := HandleAlone(db, tenant, key, request, stamp, now, seen, run, period);
      && after == db
      && exit ==
         if row.status.Pending? then ErrorResponse(409, ConflictMessage(key))
         else Response(if row.code.None? || row.code == Some(0) then 200 else row.code.value,
                       if row.body.None? then map[] else row.body.value)
  {
  }

  /** A second call with the key, whenever it comes and whatever it would have done, changes
      nothing and answers with the stored code and body; after a delivered answer, that is the
      very response the first call gave. */
  lemma SecondCallReplays(db: Db, tenant: TenantId, key: string, first: RequestId, stamp: int, now: int,
                          seen: Account, run: Execution, period: string,
                          second: RequestId, stampLater: int, later: int,
                          seenLater: Account, other: Execution, periodLater: string)
    requires FreshId(db, first) && tenant in db.accounts && MayProceed(db, Keyed(tenant, key), now)
    ensures var (after, exit) := HandleAlone(db, tenant, Some(key), first, stamp, now, seen, run, period);
      && Keyed(tenant, key) in after.ledger
      && var row := after.ledger[Keyed(tenant, key)];
      var again := HandleAlone(after, tenant, Some(key), second, stampLater, later, seenLater, other, periodLater);
      && row.code.Some? && row.body.Some?
      && again == (after, Response(if row.code.value == 0 then 200 else row.code.value, row.body.value))
      && (exit.Response? ==> again.1 == exit)
  {
    EveryExitSettles(db, tenant, Some(key), first, stamp, now, seen, run, period);
    var (after, exit) := HandleAlone(db, tenant, Some(key), first, stamp, now, seen, run, period);
    OthersAnswered(after, tenant, Some(key), second, stampLater, later, seenLater, other, periodLater);
  }

  /* ---------- The endpoint as a run ---------- */

  /** A finalize alone is a step of the interleaved protocol, with its charge if there is one. */
  lemma FinalizeIsARun(s: Sys, r: RequestId, f: Settlement, period: string) returns (steps: seq<Step>)
    requires Enabled(s, Finalize(r, f))
    ensures Executable(s, steps)
    ensures Run(s, steps).db == FinalizeAlone(s.db, s.requests[r].tenant, s.requests[r].key, r, f, period)
  {
    var t := Next(s, Finalize(r, f));
    if t.requests[r].phase.Charging? {
      OneStep(t, Bill(r, period));
      OneMore(s, Finalize(r, f), [Bill(r, period)]);
      return [Finalize(r, f)] + [Bill(r, period)];
    }
    OneStep(s, Finalize(r, f));
    return [Finalize(r, f)];
  }

  /** What the endpoint does alone is what the interleaved statements do when nothing runs
      between them, so everything proved of all runs holds of it. */
  lemma EndpointIsARun(s: Sys, r: RequestId, stamp: int, run: Execution, period: string) returns (steps: seq<Step>)
    requires Enabled(s, TryInsert(r, stamp))
    ensures Executable(s, steps)
    ensures var q := s.requests[r];
      Run(s, steps).db == HandleAlone(s.db, q.tenant, q.key, r, stamp, s.now, q.seen, run, period).0
  {
    var claim := UninterruptedClaim(s, r, stamp);
    var t := Run(s, claim);
    if t.requests[r].phase.Holding? {
      var rest := FinalizeIsARun(t, r, SettlementOf(s.requests[r].seen, run), period);
      Joined(s, claim, rest);
      return claim + rest;
    }
    return claim;
  }
}
